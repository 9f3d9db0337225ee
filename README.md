# DevConnector API core, modelled in Dafny

DevConnector is an Express/MongoDB web application: users register and log in,
receive a JSON Web Token, and keep a developer profile with experience and
education lists. This project models the decision and data logic of its three
server-side core files.

- **The authentication gate** (`middleware/auth.js`), module `Gate`. It reads
  the `x-auth-token` header. It rejects a missing or empty token with 401
  "No Token". It rejects a token that fails verification with 500 "Invalid
  Token". Otherwise it sets `req.user` to the token's `user` claim and passes
  the request on.
- **The account handlers** (`routes/api/auth.js`), module `Accounts`. A
  `UserStore` class holds the user collection as a map keyed by e-mail. Its
  methods are `Me`, `Login` and `Register`.
  - Both login failures give the same 401 "Invalid Credentials" response.
  - Register rejects a known e-mail and stores only the bcrypt digest.
  - Both login and register hand out a token for `{ user: { id } }` that
    lasts 3600 seconds.
- **The profile handlers** (`routes/api/profile.js`), module `Profiles`.
  - The sparse `profileFields` builder and the skills normalisation are pure
    functions.
  - The upsert is `$set` (map union) on an existing document, or
    `new Profile` on none.
  - A `ProfileStore` class holds the profile collection as a map keyed by
    owning user. Its methods are:
    - `CreateOrUpdate`, which validates and builds the fields and calls
      `Save` for the upsert;
    - `AddExperience`, `AddEducation`, `RemoveExperience` and
      `RemoveEducation`, the `unshift` and `splice` operations, through
      `Prepend` and `Remove`;
    - `Mine` and `OfUser`, which return the current user's profile and a
      given user's profile;
    - `RemoveOf`, which deletes a profile.
  - Entry ids are fresh. The store keeps `nextEntryId`, the id the next
    list entry gets, as Mongoose would give a new `_id`.
    - `ProfileStore.Valid()` says that every stored list holds entries
      under distinct ids below `nextEntryId`.
    - A body's lists take the ids from `nextEntryId` on, the experience
      list first, so `CreateOrUpdate` advances it by `BodyEntryCount`.
    - An added entry takes `nextEntryId`, which then goes up by one.
  - `DeleteAccount` removes the profile and then the user, across both stores.

Supporting modules:

- `Js` models the JavaScript built-ins the handlers depend on, with their
  ECMAScript semantics: truthiness, `split` on one character, `trim`,
  `indexOf` and `splice`.
- `Http` models the JSON response shapes.
- `Libraries` models the third-party libraries: the validator's `isEmail`,
  bcrypt, `jsonwebtoken` and `gravatar`.
  - They are function-valued fields of a `Libs` value.
  - The facts the handlers rely on are stated in `Libs.Sound()`. A
    password matches its own digest. A signed token verifies under its
    secret, with its claims, until `iat + expiresIn`.
  - The validators and the login and register handlers require
    `Libs.Sound()`. `Gate.Decide` and `Gate.Authenticate` hold for any
    `Libs`. `Accounts.TokenResponse` and `Accounts.NewUser` state their
    library facts under `libs.Sound() ==>`.
  - The clock (`now`), the bcrypt salt and the JWT secret are parameters.
  - MongoDB's fresh `ObjectId`s are counters kept by the stores.

A request body field is an `Option<string>`. `None` stands for `undefined`,
and a string is truthy when it is non-empty. A profile document is a
`map<Key, Value>`, so "the key is present" and "the key is absent" mean
exactly what they mean for the JavaScript object.

### Quirks of the code, modelled as written

- An entry id that is absent from the list does not leave the list as it
  was. `indexOf` gives -1, and `splice(-1, 1)` removes the last entry of a
  non-empty list (`Profiles.RemoveById`, `Profiles.RemoveAbsentIdDropsLast`).
- `social` is one field, not five.
  - It is always written, as `{}` when no link is truthy.
  - Otherwise it holds only the last truthy one of youtube, twitter,
    facebook, linkedin and instagram.
  - So an upsert always overwrites a stored `social` (`Profiles.UpsertWellFormed`).
- A body's `status` and `skills` must be truthy on every `POST
  /api/profile`, updates included. So an update whose body sends only
  `company` is rejected with 400, and merging is only observable between two
  valid bodies (`Profiles.UpsertKeepsEarlierText`).
- Adding an entry, or removing one, when the caller has no profile
  dereferences `null`. The `catch` block answers 500 "Internal Server Error".
  It does not answer "not found".
- The `value` of the "No Profile found" error is `req.user.email`. The token
  carries only `{ id }`, so that value is always `undefined` and is omitted.
- Validation failures of the experience and education routes answer with
  status 200, because those handlers set no status.
- `DELETE /api/profile` answers "User not found" with status 200, and only
  when neither a profile nor a user was removed.

## Model

| member | source | states |
|---|---|---|
| `Js.ToStr` | routes/api/auth.js:98-102 | the validator's string view of a field, `undefined` read as "", is empty exactly when the field is falsy |
| `Js.TrimStart` | routes/api/profile.js:103 | the leading-trim is no longer than its input and does not start with white space |
| `Js.TrimEnd` | routes/api/profile.js:103 | the trailing-trim is no longer than its input and does not end with white space |
| `Js.Trim` | routes/api/profile.js:103 | `trim` is no longer than its input and neither starts nor ends with white space |
| `Js.TrimStartCuts` | routes/api/profile.js:103 | the leading-trim keeps a suffix that does not start with white space and drops only white space |
| `Js.TrimEndCuts` | routes/api/profile.js:103 | the trailing-trim keeps a prefix that does not end with white space and drops only white space |
| `Js.TrimCutsWhiteSpace` | routes/api/profile.js:103 | `trim` returns an infix of its input that neither starts nor ends with white space, with only white space cut off on both sides |
| `Js.TrimStartPadded` | routes/api/profile.js:103 | white space in front of a string that does not start with white space is exactly what the leading-trim removes |
| `Js.TrimEndPadded` | routes/api/profile.js:103 | white space after a string that does not end with white space is exactly what the trailing-trim removes |
| `Js.TrimPadded` | routes/api/profile.js:103 | the converse of `TrimCutsWhiteSpace`: a word without white space at its ends, padded with white space on both sides, trims to the word |
| `Js.TrimIdempotent` | routes/api/profile.js:103 | trimming a trimmed skill changes nothing |
| `Js.Split` | routes/api/profile.js:103 | `split(",")` gives one piece more than there are commas; no piece contains a comma; joining the pieces with commas gives back the input |
| `Js.JoinConsChar` | routes/api/profile.js:103 | a character put in front of the first piece ends up in front of the joined string |
| `Js.SplitWithoutSeparator` | routes/api/profile.js:103 | a string with no comma splits into itself alone |
| `Js.SplitAtSeparator` | routes/api/profile.js:103 | splitting at the first comma peels off the comma-free prefix as the first piece |
| `Js.SplitJoin` | routes/api/profile.js:103 | `split` is the inverse of `join` on comma-free pieces |
| `Js.IndexOf` | routes/api/profile.js:184-186 | `indexOf` is -1 exactly when the id is absent; otherwise it is the first position holding the id |
| `Js.Splice` | routes/api/profile.js:188 | `splice(start, n)` deletes up to `n` elements from the clamped start, counted back from the end when negative, and keeps the others in order; a start past the end or a count of zero or less leaves the list as it was |
| `Gate.Header` | middleware/auth.js:5 | the header value is present exactly when the request carries that header, and is then its value |
| `Gate.Decide` | middleware/auth.js:4-19 | there is no token exactly when the header is missing or empty; the token is invalid exactly when a token is present and verification fails; otherwise the decision carries the verified `user` claim |
| `Gate.Authenticate` | middleware/auth.js:4-19 | 401 "No Token" or 500 "Invalid Token" halt the chain and leave `req.user` as it was; a verified token sets `req.user` to the decoded claim and continues; exactly one of the three happens |
| `Gate.IssuedTokenDecision` | routes/api/auth.js:71-76 | a token the handlers sign for user `id` passes the gate with `user = { id }` exactly while `now < iat + 3600`, and is "Invalid Token" afterwards |
| `Accounts.LoginErrors` | routes/api/auth.js:30-37 | login validation passes exactly when the e-mail is valid and a password is present; at most two errors |
| `Accounts.RegisterErrors` | routes/api/auth.js:98-108 | register validation passes exactly when the name is non-empty, the e-mail is valid and the password has at least 8 characters; at most three errors |
| `Accounts.InvalidCredentials` | routes/api/auth.js:46-54 | status 401 with a single error, whose `value` is the submitted e-mail and whose message is "Invalid Credentials" |
| `Accounts.TokenResponse` | routes/api/auth.js:71-79 | status 200 with a token; with sound libraries the token is non-empty and verifies under the secret to `{ user: { id } }` exactly until 3600 seconds after issue |
| `Accounts.LoginResponse` | routes/api/auth.js:27-90 | a validation failure gives 400 with the errors before any lookup; an unknown e-mail and a wrong password both give 401 "Invalid Credentials" with the e-mail as `value`; otherwise 200 with a token for the stored user's id |
| `Accounts.NewUser` | routes/api/auth.js:128-138 | the new user keeps the id, name and e-mail, has the e-mail's gravatar as avatar, and with sound libraries its stored password is a digest that `compare` accepts for the plaintext |
| `Accounts.UserStore.Me` | routes/api/auth.js:14-22 | the user with the token's id, without the password, or `null` when no user has that id |
| `Accounts.UserStore.Login` | routes/api/auth.js:27-90 | the early-return handler responds as `LoginResponse` and changes nothing |
| `Accounts.UserStore.Register` | routes/api/auth.js:95-161 | validation failure gives 400 and a known e-mail gives 400 "User already registered", both leaving the store unchanged; otherwise exactly one user is added under the new id, with the digest as password and the gravatar of the e-mail as avatar, and a token for that id is returned; store invariants kept |
| `Accounts.UserStore.RemoveById` | routes/api/profile.js:45 | reports whether a user had the id, and exactly the users with other ids remain |
| `Accounts.LoginAfterRegister` | routes/api/auth.js:128-140 | a user just registered can log in with the same password and gets a token for the new id |
| `Accounts.FailuresIndistinguishable` | routes/api/auth.js:44-69 | with a valid body, the unknown-e-mail answer and the wrong-password answer are the same 401 response |
| `Profiles.NormalizeSkills` | routes/api/profile.js:102-103 | one skill per comma-separated piece (commas + 1), each the trimmed piece, in input order |
| `Profiles.NormalizeSkillsExample` | routes/api/profile.js:103 | "js, go ,  rust" normalises to ["js", "go", "rust"] |
| `Profiles.SplitExample` | routes/api/profile.js:103 | "js, go ,  rust" splits into "js", " go " and "  rust" |
| `Profiles.TrimExample` | routes/api/profile.js:103 | those three pieces trim to "js", "go" and "rust" |
| `Profiles.LastTruthy` | routes/api/profile.js:105-110 | the position of the last truthy link, or -1 when there is none |
| `Profiles.OverwriteSocial` | routes/api/profile.js:105-110 | after the conditional assignments `social` is the initial value or one of the truthy links, and it is a link whenever some link is truthy |
| `Profiles.OverwriteSocialIsLastTruthy` | routes/api/profile.js:105-110 | the sequence of conditional assignments leaves the last truthy link, or the initial value when no link is truthy |
| `Profiles.LastTruthyUnique` | routes/api/profile.js:105-110 | a truthy position with no truthy link after it is the last truthy position |
| `Profiles.SocialOf` | routes/api/profile.js:105-110 | `social` is `{}` exactly when no link is truthy; otherwise it is a truthy link with no truthy link after it in the order youtube, twitter, facebook, linkedin, instagram |
| `Profiles.SetIfTruthy` | routes/api/profile.js:94-99 | the key is set exactly when the input is truthy, to the input; with a falsy input the fields are unchanged |
| `Profiles.TextFields` | routes/api/profile.js:92-99 | `user` is the caller's id; each text field is present exactly when its input is truthy, and then equals it; no list, skills or social key |
| `Profiles.TextFieldsLeaveListKeys` | routes/api/profile.js:92-99 | the text part of the builder sets none of the later keys |
| `Profiles.WithFreshIds` | routes/api/profile.js:100-101 | each given entry becomes a sub-document, in order, under the ids `first`, `first + 1`, … |
| `Profiles.ListFields` | routes/api/profile.js:100-110 | the lists are present exactly when given, holding the body's entries under ids numbered from `first`, experience first; `skills` exactly when truthy, holding the normalised pieces; `social` always; no text key and no `user` |
| `Profiles.BuildProfileFields` | routes/api/profile.js:92-110 | `user` always equals the authenticated id whatever the body holds; each text field is present iff truthy and equals its input; each list is present iff given, its entries under fresh ids; `skills` iff truthy, normalised; `social` always present, as `SocialOf` |
| `Profiles.BodyEntriesFresh` | routes/api/profile.js:100-101 | the body's entries take distinct ids from `first` up to, not including, `first` plus their number |
| `Profiles.BuiltFieldsFit` | routes/api/profile.js:92-110 | the built fields name the caller as owner, and each list they give has distinct ids below the next free id |
| `Profiles.ProfileErrors` | routes/api/profile.js:66-73 | validation passes exactly when `status` and `skills` are both truthy |
| `Profiles.SetFields` | routes/api/profile.js:115-119 | `$set` overwrites exactly the built keys and keeps every other stored key and its value |
| `Profiles.NewProfile` | routes/api/profile.js:123-124 | a new profile has exactly the built fields, plus the two schema lists as empty where the body gave none |
| `Profiles.Upsert` | routes/api/profile.js:113-125 | with a stored profile, exactly its keys and the built keys, the built values winning; without one, exactly the built keys and the two lists, empty where not built |
| `Profiles.UpsertWellFormed` | routes/api/profile.js:113-125 | with or without a stored profile, the upsert leaves a profile owned by the caller with both lists present, and `social` overwritten by the new value |
| `Profiles.UpsertFits` | routes/api/profile.js:113-125 | upserting fitting fields into a stored profile with fresh ids, or into none, leaves a well-formed profile whose list ids are distinct and below the next id |
| `Profiles.UpsertKeepsIdsFresh` | routes/api/profile.js:113-125 | after the upsert of a body, every list of the profile has distinct ids below the next id once the body's entries took theirs |
| `Profiles.UpsertKeepsEarlierText` | routes/api/profile.js:113-125 | merge, not replace: a text field set by one upsert survives a later upsert whose input for it is falsy |
| `Profiles.Ids` | routes/api/profile.js:184-185 | the ids of the entries, one per entry, in order |
| `Profiles.PrependKeepsIdsFresh` | routes/api/profile.js:166 | the next id is in no entry of a list with fresh ids, and the list with the new entry in front keeps its ids distinct and below the following id |
| `Profiles.PrependDocKeepsIdsFresh` | routes/api/profile.js:165-167 | adding an entry under the next id to one list of a stored profile keeps the profile well-formed with fresh ids, and that id was not in the list |
| `Profiles.IdsIndexOf` | routes/api/profile.js:184-186 | `indexOf` over the ids finds the first entry with the id, and is -1 exactly when no entry has it |
| `Profiles.SpliceAtIndexOf` | routes/api/profile.js:184-188 | the splice at that index removes the first entry with the id, or the last entry when none has it |
| `Profiles.RemoveById` | routes/api/profile.js:184-188 | the first entry with the id is removed and the rest keep their order; with the id absent, the last entry is removed, and an empty list stays empty |
| `Profiles.RemoveKeepsIdsFresh` | routes/api/profile.js:184-188 | removing by id keeps the remaining ids distinct and below the next id |
| `Profiles.DropOneKeepsIdsFresh` | routes/api/profile.js:188 | dropping one entry keeps the other ids distinct and below the next id |
| `Profiles.RemoveDocKeepsIdsFresh` | routes/api/profile.js:183-189 | removing by id from one list of a stored profile keeps the profile well-formed with fresh ids |
| `Profiles.RemovePresentId` | routes/api/profile.js:184-188 | with distinct ids, removing an entry's id removes exactly that entry, and no entry with that id remains |
| `Profiles.RemoveAbsentIdDropsLast` | routes/api/profile.js:184-188 | with distinct ids, removing an absent id from a non-empty list loses the last entry: no entry with its id remains, though it was not asked for |
| `Profiles.RemoveUndoesPrepend` | routes/api/profile.js:166-188 | removing the id an entry was just added under gives back the list as it was before the `unshift` |
| `Profiles.HeadInsertionOrder` | routes/api/profile.js:166 | three head insertions give the newest first, and removing the middle id keeps the order of the other two |
| `Profiles.ExperienceErrors` | routes/api/profile.js:143-152 | experience validation passes exactly when title, company and from are truthy |
| `Profiles.EducationErrors` | routes/api/profile.js:206-214 | education validation passes exactly when school, degree and from are truthy |
| `Profiles.PutKeepsIdsFresh` | routes/api/profile.js:165-167 | storing a well-formed profile with fresh ids while the next id only grows keeps every stored profile well-formed with fresh ids |
| `Profiles.ProfileStore.Mine` | routes/api/profile.js:12-35 | the caller's profile, or 400 "No Profile found" with no `value` |
| `Profiles.ProfileStore.OfUser` | routes/api/profile.js:288-299 | that user's profile, or 400 "Profile not found" |
| `Profiles.ProfileStore.CreateOrUpdate` | routes/api/profile.js:63-133 | a validation failure gives 400 and changes nothing; otherwise the caller's profile becomes the upsert of the built fields, with the body's entries under fresh ids, and is returned; the next id moves past those entries; no other profile changes |
| `Profiles.ProfileStore.Save` | routes/api/profile.js:112-125 | the caller's profile becomes the upsert of the fields onto the stored profile, or onto none, and is returned with status 200; the next id becomes the one given; no other profile changes; the store invariant is kept |
| `Profiles.ProfileStore.Prepend` | routes/api/profile.js:165-168 | the new entry goes to index 0 of the list under the next id, which no entry of the list had, and the old list follows unchanged; the next id goes up by one; without a profile, 500 and nothing changes |
| `Profiles.ProfileStore.Remove` | routes/api/profile.js:183-190 | the caller's list becomes `RemoveById` of it and nothing else changes; without a profile, 500 and nothing changes |
| `Profiles.ProfileStore.AddExperience` | routes/api/profile.js:138-176 | validation errors are answered with status 200 and nothing changes; otherwise the experience entry built from the body goes to the head of the list under a fresh id, and the next id goes up by one |
| `Profiles.ProfileStore.RemoveExperience` | routes/api/profile.js:181-197 | the experience list loses the entry with the id, or its last entry when the id is absent |
| `Profiles.ProfileStore.AddEducation` | routes/api/profile.js:202-247 | as `AddExperience`, for the education list and its checks |
| `Profiles.ProfileStore.RemoveEducation` | routes/api/profile.js:252-268 | as `RemoveExperience`, for the education list |
| `Profiles.ProfileStore.RemoveOf` | routes/api/profile.js:42-44 | reports whether the user had a profile, and that profile is gone afterwards |
| `Profiles.DeleteAccount` | routes/api/profile.js:40-58 | the caller's profile and user record are both gone and nothing else is; "User not found" exactly when neither existed, "User Deleted Successfully" otherwise |

## Left out

- The library internals are not modelled: bcrypt's hashing, `genSalt(10)` and
  its cost factor, JWT encoding and signature checking, and gravatar's URL
  construction. They are functions of a `Libs` value, constrained only by
  `Libs.Sound()`. The clock, the salt and `config.get("jwtSecret")` are
  parameters.
- The asynchronous `jwt.sign` callback never reports an error in the model,
  so its `throw` path is not modelled.
- The error path of the asynchronous store calls is not modelled. Database
  failures and `catch` answering 500 are out; only the `null`-profile
  dereference, which the code itself causes, is modelled.
- The read-modify-write races between `findOne` and `save` are not
  modelled, and neither is the unawaited `profile.save()` of
  routes/api/profile.js:260 (concurrency). `RemoveEducation` treats that
  save as completed.
- `populate("user", ["name", "avatar"])` is not modelled. A returned profile
  holds the owner's id, not the joined name and avatar.
- The `CastError` branch of routes/api/profile.js:301-305 is not modelled.
  Ids here are always well-formed, so a malformed `user_id` cannot be
  expressed. That branch answers the same 400 "Profile not found" as a
  missing profile.
- `GET /api/profile` at routes/api/profile.js:273-283 is not modelled. It is
  registered after the authenticated `GET /` of line 12 on the same path,
  which always answers, so Express never reaches it.
- `Accounts.UserStore.Me` does not model the plain-text 500 of
  routes/api/auth.js:18-21, which only a store failure can trigger.
- Request bodies hold strings, or lists of entries for `experience` and
  `education`. JSON numbers, objects and arrays in the other fields are not
  modelled, and neither is express-validator's per-element checking of array
  values or Mongoose's casting of the given lists into sub-documents.
- String lengths count Dafny characters (Unicode scalar values), while
  JavaScript's `length`, used by `isLength({ min: 8 })`, counts UTF-16
  code units. They differ for characters outside the Basic Multilingual
  Plane.
- Header names are matched exactly. Express's `req.header` is
  case-insensitive; Node delivers the names in lower case, which is how they
  are stored here.
- The `date` default of the schemas and the other Mongoose defaults are not
  modelled. The exception is the two profile lists, which start empty.
  models/Profile.js and models/User.js are not part of this model.
- Logging (`console.log`, `console.error`) is I/O and is not modelled.
- LoginErrors: reads `email` and `password` from the body only. express-validator's
  `check()` also takes a field of that name from the cookies, headers, route
  parameters or query string, so a request can pass validation with the field
  given only there; the handler then reads `undefined` from the body.
- RegisterErrors: reads `name`, `email` and `password` from the body only, where
  `check()` also looks in the cookies, headers, route parameters and query
  string.
- ProfileErrors: reads `status` and `skills` from the body only, where `check()`
  also looks in the cookies, headers, route parameters and query string.
- ExperienceErrors: reads `title`, `company` and `from` from the body only, where
  `check()` also looks in the cookies, headers, route parameters and query
  string.
- EducationErrors: reads `school`, `degree` and `from` from the body only, where
  `check()` also looks in the cookies, headers, route parameters and query
  string.
- An entry of a body list that carries its own `_id` keeps it in Mongoose;
  here every entry of a body list gets a fresh id from the store, so body
  entries cannot reuse or collide with stored ids.
