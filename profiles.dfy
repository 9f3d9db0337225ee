/** The profile handlers of routes/api/profile.js over the profile
    collection: the sparse field builder and upsert of `POST /api/profile`,
    the experience and education list operations, the current user's
    profile, a user's profile, and the delete-account cascade. */
module Profiles {
  import opened Js
  import opened Libraries
  import opened Http
  import Accounts

  type EntryId = nat

  /** An experience entry as the handler builds it from the request body. */
  datatype ExperienceInput = ExperienceInput(
    title: Option<string>, company: Option<string>, location: Option<string>,
    from: Option<string>, to: Option<string>, current: Option<bool>, description: Option<string>)

  /** An education entry as the handler builds it from the request body. */
  datatype EducationInput = EducationInput(
    school: Option<string>, degree: Option<string>, fieldofstudy: Option<string>,
    from: Option<string>, to: Option<string>, current: Option<bool>, description: Option<string>)

  datatype Item = ExperienceItem(experience: ExperienceInput) | EducationItem(education: EducationInput)

  /** A sub-document of one of the two lists, with the id the store gave it. */
  datatype Entry = Entry(id: EntryId, item: Item)

  /** The `social` field: the initial `{}` or one link. */
  datatype SocialLinks = NoLinks | Link(url: string)

  /** The keys of a profile document. */
  datatype Key = UserKey | Company | Website | Location | Status | Bio | GithubUsername
               | Experience | Education | Skills | Social

  datatype Value = Owner(id: UserId) | Text(text: string) | SkillList(skills: seq<string>)
                 | Links(links: SocialLinks) | Entries(entries: seq<Entry>)

  /** A profile document, or the sparse `profileFields` object built from a request. */
  type Document = map<Key, Value>

  /** The body of `POST /api/profile`. A JSON array is always truthy, so the two
      lists count as given exactly when they are present. Their entries carry
      no ids; the store gives each a fresh one. */
  datatype ProfileInput = ProfileInput(
    company: Option<string>, website: Option<string>, location: Option<string>,
    status: Option<string>, skills: Option<string>, bio: Option<string>,
    githubusername: Option<string>,
    experience: Option<seq<ExperienceInput>>, education: Option<seq<EducationInput>>,
    youtube: Option<string>, twitter: Option<string>, facebook: Option<string>,
    linkedin: Option<string>, instagram: Option<string>)

  /** The successful payloads: `{ profile }` and `{ msg }`. */
  datatype ProfilePayload = ProfileDoc(profile: Document) | Message(msg: string)

  // ---------------------------------------------------------------------
  // The sparse field builder

  /** `skills.split(",").map((skill) => skill.trim())` */
  function NormalizeSkills(skills: string): (r: seq<string>)
    ensures |r| == Occurrences(skills, ',') + 1
    ensures forall k :: 0 <= k < |r| ==> r[k] == Trim(Split(skills, ',')[k])
  {
    var pieces := Split(skills, ',');
    seq(|pieces|, k requires 0 <= k < |pieces| => Trim(pieces[k]))
  }

  /** The comma-separated example "js, go ,  rust" gives ["js", "go", "rust"]. */
  lemma NormalizeSkillsExample(s: string)
    requires s == "js, go ,  rust"
    ensures NormalizeSkills(s) == ["js", "go", "rust"]
  {
    SplitExample(s);
    var pieces := Split(s, ',');
    var r := NormalizeSkills(s);
    assert r == [Trim(pieces[0]), Trim(pieces[1]), Trim(pieces[2])];
    TrimExample(pieces[0], pieces[1], pieces[2]);
  }

  lemma SplitExample(s: string)
    requires s == "js, go ,  rust"
    ensures Split(s, ',') == ["js", " go ", "  rust"]
  {
    assert s == "js" + [','] + (" go " + [','] + "  rust");
    assert ',' !in "  rust" && ',' !in " go " && ',' !in "js";
    SplitWithoutSeparator("  rust", ',');
    SplitAtSeparator(" go ", "  rust", ',');
    SplitAtSeparator("js", " go " + [','] + "  rust", ',');
  }

  lemma TrimExample(js: string, go: string, rust: string)
    requires js == "js" && go == " go " && rust == "  rust"
    ensures Trim(js) == "js" && Trim(go) == "go" && Trim(rust) == "rust"
  {
    assert js == "" + "js" + "";
    TrimPadded("", "js", "");
    assert go == " " + "go" + " ";
    TrimPadded(" ", "go", " ");
    assert rust == "  " + "rust" + "";
    TrimPadded("  ", "rust", "");
  }

  /** The position of the last truthy link, or -1 when none is truthy. */
  function LastTruthy(links: seq<Option<string>>): (i: int)
    ensures -1 <= i < |links|
    ensures i >= 0 ==> Truthy(links[i])
    ensures forall j :: i < j < |links| ==> !Truthy(links[j])
  {
    if links == [] then -1
    else if Truthy(links[|links| - 1]) then |links| - 1
    else LastTruthy(links[..|links| - 1])
  }

  /** `profileFields.social` after the assignments `if (link) social = link`
      that follow `social = acc`, one per link, in order. */
  function OverwriteSocial(acc: SocialLinks, links: seq<Option<string>>): (r: SocialLinks)
    ensures r == acc || exists i :: 0 <= i < |links| && Truthy(links[i]) && r == Link(links[i].value)
    ensures (exists i :: 0 <= i < |links| && Truthy(links[i])) ==> r.Link?
    decreases |links|
  {
    if links == [] then acc
    else OverwriteSocial(if Truthy(links[0]) then Link(links[0].value) else acc, links[1..])
  }

  /** Each conditional assignment overwrites the one before, so the last truthy
      link wins, and `acc` survives only when no link is truthy. */
  lemma {:induction false} OverwriteSocialIsLastTruthy(acc: SocialLinks, links: seq<Option<string>>)
    ensures OverwriteSocial(acc, links)
            == if LastTruthy(links) < 0 then acc else Link(links[LastTruthy(links)].value)
    decreases |links|
  {
    if links != [] {
      var next := if Truthy(links[0]) then Link(links[0].value) else acc;
      OverwriteSocialIsLastTruthy(next, links[1..]);
      var i := LastTruthy(links);
      var j := LastTruthy(links[1..]);
      if j >= 0 {
        assert links[1..][j] == links[j + 1];
        LastTruthyUnique(links, j + 1);
      } else if Truthy(links[0]) {
        LastTruthyUnique(links, 0);
      } else {
        assert forall k :: 0 <= k < |links| ==> !Truthy(links[k]) by {
          forall k | 0 <= k < |links| ensures !Truthy(links[k]) {
            if k > 0 { assert links[1..][k - 1] == links[k]; }
          }
        }
      }
    }
  }

  /** A truthy position with no truthy link after it is the last truthy one. */
  lemma LastTruthyUnique(links: seq<Option<string>>, i: int)
    requires 0 <= i < |links| && Truthy(links[i])
    requires forall j :: i < j < |links| ==> !Truthy(links[j])
    ensures LastTruthy(links) == i
  {
  }

  /** youtube, twitter, facebook, linkedin, instagram: the order of the assignments. */
  function SocialInputs(b: ProfileInput): seq<Option<string>> {
    [b.youtube, b.twitter, b.facebook, b.linkedin, b.instagram]
  }

  /** `profileFields.social`: `{}` when no link is truthy, else the last truthy
      one of youtube, twitter, facebook, linkedin, instagram. */
  function SocialOf(b: ProfileInput): (s: SocialLinks)
    ensures var links := SocialInputs(b);
            && (s == NoLinks <==> forall i :: 0 <= i < |links| ==> !Truthy(links[i]))
            && (s.Link? ==> exists i :: 0 <= i < |links| && Truthy(links[i]) && s.url == links[i].value
                                        && forall j :: i < j < |links| ==> !Truthy(links[j]))
  {
    var links := SocialInputs(b);
    OverwriteSocialIsLastTruthy(NoLinks, links);
    OverwriteSocial(NoLinks, links)
  }

  /** `key` holds the string `v` exactly when `v` is truthy. */
  ghost predicate CopiedIfTruthy(f: Document, key: Key, v: Option<string>) {
    (key in f <==> Truthy(v)) && (key in f ==> f[key] == Text(v.value))
  }

  /** `if (v) profileFields[key] = v` */
  function SetIfTruthy(f: Document, key: Key, v: Option<string>): (r: Document)
    requires key !in f
    ensures CopiedIfTruthy(r, key, v)
    ensures Truthy(v) ==> r == f[key := Text(v.value)]
    ensures !Truthy(v) ==> r == f
  {
    if Truthy(v) then f[key := Text(v.value)] else f
  }

  /** The text keys of `profileFields`, each set only from a truthy input. */
  predicate IsTextKey(k: Key) {
    k.Company? || k.Website? || k.Location? || k.Status? || k.Bio? || k.GithubUsername?
  }

  /** The first assignments of the builder: `user`, then the six text fields. */
  function TextFields(user: UserId, b: ProfileInput): (f: Document)
    ensures forall k :: k in f ==> k == UserKey || IsTextKey(k)
    ensures UserKey in f && f[UserKey] == Owner(user)
    ensures CopiedIfTruthy(f, Company, b.company) && CopiedIfTruthy(f, Website, b.website)
    ensures CopiedIfTruthy(f, Location, b.location) && CopiedIfTruthy(f, Status, b.status)
    ensures CopiedIfTruthy(f, Bio, b.bio) && CopiedIfTruthy(f, GithubUsername, b.githubusername)
  {
    var f0 := map[UserKey := Owner(user)];
    var f1 := SetIfTruthy(f0, Company, b.company);
    var f2 := SetIfTruthy(f1, Website, b.website);
    var f3 := SetIfTruthy(f2, Location, b.location);
    assert CopiedIfTruthy(f3, Company, b.company) && CopiedIfTruthy(f3, Website, b.website);
    var f4 := SetIfTruthy(f3, Status, b.status);
    var f5 := SetIfTruthy(f4, Bio, b.bio);
    assert CopiedIfTruthy(f5, Company, b.company) && CopiedIfTruthy(f5, Website, b.website);
    assert CopiedIfTruthy(f5, Location, b.location) && CopiedIfTruthy(f5, Status, b.status);
    SetIfTruthy(f5, GithubUsername, b.githubusername)
  }

  /** A text-field map leaves the later keys of the builder free. */
  lemma TextFieldsLeaveListKeys(user: UserId, b: ProfileInput)
    ensures var f := TextFields(user, b);
            Experience !in f && Education !in f && Skills !in f && Social !in f
  {
    assert !IsTextKey(Experience) && !IsTextKey(Education) && !IsTextKey(Skills) && !IsTextKey(Social);
  }

  /** The given entries as sub-documents with the ids `first`, `first + 1`, …,
      in order: Mongoose gives every new sub-document a fresh `_id`. */
  function WithFreshIds(items: seq<Item>, first: EntryId): (entries: seq<Entry>)
    ensures |entries| == |items|
    ensures forall k :: 0 <= k < |items| ==> entries[k] == Entry(first + k, items[k])
  {
    seq(|items|, k requires 0 <= k < |items| => Entry(first + k, items[k]))
  }

  function ExperienceItems(xs: seq<ExperienceInput>): seq<Item> {
    seq(|xs|, k requires 0 <= k < |xs| => ExperienceItem(xs[k]))
  }

  function EducationItems(xs: seq<EducationInput>): seq<Item> {
    seq(|xs|, k requires 0 <= k < |xs| => EducationItem(xs[k]))
  }

  /** How many of the body's experience entries there are. */
  function ExperienceCount(b: ProfileInput): nat {
    if b.experience.Some? then |b.experience.value| else 0
  }

  /** How many fresh entry ids the body's lists take. */
  function BodyEntryCount(b: ProfileInput): nat {
    ExperienceCount(b) + if b.education.Some? then |b.education.value| else 0
  }

  /** The experience list of the body, numbered from `first`. */
  function BodyExperience(b: ProfileInput, first: EntryId): seq<Entry>
    requires b.experience.Some?
  {
    WithFreshIds(ExperienceItems(b.experience.value), first)
  }

  /** The education list of the body, numbered after its experience list. */
  function BodyEducation(b: ProfileInput, first: EntryId): seq<Entry>
    requires b.education.Some?
  {
    WithFreshIds(EducationItems(b.education.value), first + ExperienceCount(b))
  }

  /** The assignments of the builder after the text fields: the two lists
      when given, `skills` when truthy, and `social`. */
  function ListFields(b: ProfileInput, first: EntryId): (g: Document)
    ensures UserKey !in g && Company !in g && Website !in g && Location !in g
    ensures Status !in g && Bio !in g && GithubUsername !in g
    ensures (Experience in g <==> b.experience.Some?) && (Experience in g ==> g[Experience] == Entries(BodyExperience(b, first)))
    ensures (Education in g <==> b.education.Some?) && (Education in g ==> g[Education] == Entries(BodyEducation(b, first)))
    ensures (Skills in g <==> Truthy(b.skills)) && (Skills in g ==> g[Skills] == SkillList(NormalizeSkills(b.skills.value)))
    ensures Social in g && g[Social] == Links(SocialOf(b))
  {
    var g0 := map[Social := Links(SocialOf(b))];
    var g1 := if b.experience.Some? then g0[Experience := Entries(BodyExperience(b, first))] else g0;
    var g2 := if b.education.Some? then g1[Education := Entries(BodyEducation(b, first))] else g1;
    if Truthy(b.skills) then g2[Skills := SkillList(NormalizeSkills(b.skills.value))] else g2
  }

  /** `profileFields` as the handler builds it for the authenticated user `user`,
      with `first` the next free entry id: `user` always holds that id,
      whatever the body says; each text field is present exactly when its
      input is truthy and then holds the input; the lists are present exactly
      when given, their entries under fresh ids; `skills` is present exactly
      when truthy and then holds its normalised pieces; `social` is always
      present. */
  function BuildProfileFields(user: UserId, b: ProfileInput, first: EntryId): (f: Document)
    ensures UserKey in f && f[UserKey] == Owner(user)
    ensures CopiedIfTruthy(f, Company, b.company) && CopiedIfTruthy(f, Website, b.website)
    ensures CopiedIfTruthy(f, Location, b.location) && CopiedIfTruthy(f, Status, b.status)
    ensures CopiedIfTruthy(f, Bio, b.bio) && CopiedIfTruthy(f, GithubUsername, b.githubusername)
    ensures (Experience in f <==> b.experience.Some?) && (Experience in f ==> f[Experience] == Entries(BodyExperience(b, first)))
    ensures (Education in f <==> b.education.Some?) && (Education in f ==> f[Education] == Entries(BodyEducation(b, first)))
    ensures (Skills in f <==> Truthy(b.skills)) && (Skills in f ==> f[Skills] == SkillList(NormalizeSkills(b.skills.value)))
    ensures Social in f && f[Social] == Links(SocialOf(b))
  {
    TextFieldsLeaveListKeys(user, b);
    TextFields(user, b) + ListFields(b, first)
  }

  /** The body's entries get ids from `first` on, below `first +
      BodyEntryCount(b)`, and no two of them the same. */
  lemma BodyEntriesFresh(b: ProfileInput, first: EntryId)
    ensures b.experience.Some? ==> FreshIds(BodyExperience(b, first), first + BodyEntryCount(b))
    ensures b.education.Some? ==> FreshIds(BodyEducation(b, first), first + BodyEntryCount(b))
  {
  }

  /** The validation errors of `POST /api/profile`: status and skills are required. */
  function ProfileErrors(b: ProfileInput): (errs: seq<ErrorItem>)
    ensures errs == [] <==> Truthy(b.status) && Truthy(b.skills)
  {
    (if Truthy(b.status) then [] else [ErrorItem(b.status, "Status is required")])
    + (if Truthy(b.skills) then [] else [ErrorItem(b.skills, "Skills can not be empty")])
  }

  // ---------------------------------------------------------------------
  // Upsert

  /** `$set: fields` on an existing document: exactly the keys of `fields` are
      overwritten, every other key keeps its value, none is dropped. */
  function SetFields(doc: Document, fields: Document): (r: Document)
    ensures r.Keys == doc.Keys + fields.Keys
    ensures forall k :: k in fields ==> r[k] == fields[k]
    ensures forall k :: k in doc && k !in fields ==> r[k] == doc[k]
  {
    doc + fields
  }

  /** The list paths of the schema, which a new document starts with empty. */
  const EmptyLists: Document := map[Experience := Entries([]), Education := Entries([])]

  /** `new Profile(fields)`: exactly `fields`, plus the two lists, empty, where
      `fields` does not give them. */
  function NewProfile(fields: Document): (r: Document)
    ensures r.Keys == fields.Keys + {Experience, Education}
    ensures forall k :: k in fields ==> r[k] == fields[k]
    ensures forall k :: k in r && k !in fields ==> r[k] == Entries([])
  {
    EmptyLists + fields
  }

  /** The document the upsert leaves for a user whose stored profile is
      `existing`: every key of `fields` with its value; the other keys of a
      stored profile as they were; for a new profile, the two lists empty
      where `fields` does not give them, and nothing else. */
  function Upsert(existing: Option<Document>, fields: Document): (r: Document)
    ensures existing.Some? ==> r.Keys == existing.value.Keys + fields.Keys
    ensures existing.None? ==> r.Keys == fields.Keys + {Experience, Education}
    ensures forall k :: k in fields ==> r[k] == fields[k]
    ensures existing.Some? ==> forall k :: k in existing.value && k !in fields ==> r[k] == existing.value[k]
    ensures existing.None? ==> forall k :: k in r && k !in fields ==> r[k] == Entries([])
  {
    match existing
    case Some(doc) => SetFields(doc, fields)
    case None => NewProfile(fields)
  }

  /** A stored profile: owned by `user`, with both lists present. */
  ghost predicate WellFormed(user: UserId, doc: Document) {
    && UserKey in doc && doc[UserKey] == Owner(user)
    && Experience in doc && doc[Experience].Entries?
    && Education in doc && doc[Education].Entries?
  }

  /** The lists of a stored profile hold entries under ids below `next`, no
      two of a list under the same id. */
  ghost predicate ListsFresh(doc: Document, next: EntryId) {
    && (Experience in doc && doc[Experience].Entries? ==> FreshIds(doc[Experience].entries, next))
    && (Education in doc && doc[Education].Entries? ==> FreshIds(doc[Education].entries, next))
  }

  /** Whatever the stored profile, the upsert leaves a well-formed profile for
      the authenticated user, and `social` is always overwritten, so a link
      stored earlier is lost when the new body carries none. */
  lemma UpsertWellFormed(user: UserId, existing: Option<Document>, b: ProfileInput, first: EntryId)
    requires existing.Some? ==> WellFormed(user, existing.value)
    ensures var doc := Upsert(existing, BuildProfileFields(user, b, first));
            WellFormed(user, doc) && doc[Social] == Links(SocialOf(b))
  {
  }

  /** What the store needs of a field document before the upsert: it names
      `user` as the owner, and each list it gives is a list whose ids are
      distinct and below `next`. */
  ghost predicate FieldsFit(user: UserId, fields: Document, next: EntryId) {
    && UserKey in fields && fields[UserKey] == Owner(user)
    && (Experience in fields ==> fields[Experience].Entries?)
    && (Education in fields ==> fields[Education].Entries?)
    && ListsFresh(fields, next)
  }

  /** The field builder gives the body's entries ids from `first` on, so its
      document fits the store once the next id has moved past them. */
  lemma BuiltFieldsFit(user: UserId, b: ProfileInput, first: EntryId)
    ensures FieldsFit(user, BuildProfileFields(user, b, first), first + BodyEntryCount(b))
  {
    BodyEntriesFresh(b, first);
  }

  /** Upserting a fitting field document into a stored profile whose ids are
      below `first`, or into none, leaves a well-formed profile whose ids are
      below `next`. */
  lemma UpsertFits(user: UserId, existing: Option<Document>, fields: Document, first: EntryId, next: EntryId)
    requires existing.Some? ==> WellFormed(user, existing.value) && ListsFresh(existing.value, first)
    requires first <= next && FieldsFit(user, fields, next)
    ensures WellFormed(user, Upsert(existing, fields)) && ListsFresh(Upsert(existing, fields), next)
  {
    if existing.Some? {
      var stored := existing.value;
      if Experience !in fields {
        FreshIdsGrow(stored[Experience].entries, first, next);
      }
      if Education !in fields {
        FreshIdsGrow(stored[Education].entries, first, next);
      }
    }
  }

  /** Once the body's entries have taken their ids, every entry of the
      upserted profile is under an id below the new next id, and no two
      entries of a list share one. */
  lemma UpsertKeepsIdsFresh(user: UserId, existing: Option<Document>, b: ProfileInput, first: EntryId)
    requires existing.Some? ==> WellFormed(user, existing.value) && ListsFresh(existing.value, first)
    ensures ListsFresh(Upsert(existing, BuildProfileFields(user, b, first)), first + BodyEntryCount(b))
  {
    BuiltFieldsFit(user, b, first);
    UpsertFits(user, existing, BuildProfileFields(user, b, first), first, first + BodyEntryCount(b));
  }

  /** Merge, not replace: a text field set by an earlier upsert survives a later
      one whose input for that field is falsy. */
  lemma UpsertKeepsEarlierText(user: UserId, existing: Option<Document>, first: ProfileInput,
                               second: ProfileInput, key: Key, v1: Option<string>, v2: Option<string>,
                               id1: EntryId, id2: EntryId)
    requires IsTextKey(key)
    requires v1 == FieldInput(first, key) && v2 == FieldInput(second, key)
    requires Truthy(v1) && !Truthy(v2)
    ensures var once := Upsert(existing, BuildProfileFields(user, first, id1));
            Upsert(Some(once), BuildProfileFields(user, second, id2))[key] == Text(v1.value)
  {
  }

  /** The body field a text key is built from. */
  function FieldInput(b: ProfileInput, key: Key): Option<string> {
    match key
    case Company => b.company
    case Website => b.website
    case Location => b.location
    case Status => b.status
    case Bio => b.bio
    case GithubUsername => b.githubusername
    case _ => None
  }

  // ---------------------------------------------------------------------
  // The experience and education lists

  /** `list.map((item) => item.id)` */
  function Ids(entries: seq<Entry>): (ids: seq<EntryId>)
    ensures |ids| == |entries| && forall k :: 0 <= k < |entries| ==> ids[k] == entries[k].id
  {
    seq(|entries|, k requires 0 <= k < |entries| => entries[k].id)
  }

  /** Every entry is under an id below `next`, and no two under the same id. */
  ghost predicate FreshIds(entries: seq<Entry>, next: EntryId) {
    && (forall i :: 0 <= i < |entries| ==> entries[i].id < next)
    && (forall i, j :: 0 <= i < j < |entries| ==> entries[i].id != entries[j].id)
  }

  lemma FreshIdsGrow(entries: seq<Entry>, next: EntryId, next': EntryId)
    requires FreshIds(entries, next) && next <= next'
    ensures FreshIds(entries, next')
  {
  }

  /** A new entry under the next id goes in front of a list whose ids are
      all below it: that id is in no entry of the list, and the longer list
      keeps its ids distinct and below the following id. */
  lemma PrependKeepsIdsFresh(entries: seq<Entry>, next: EntryId, item: Item)
    requires FreshIds(entries, next)
    ensures next !in Ids(entries)
    ensures FreshIds([Entry(next, item)] + entries, next + 1)
  {
    var list := [Entry(next, item)] + entries;
    forall i, j | 0 <= i < j < |list| ensures list[i].id != list[j].id {
      assert list[j] == entries[j - 1];
      if i > 0 { assert list[i] == entries[i - 1]; }
    }
  }

  /** A new entry under the next id at the head of one list of a stored
      profile keeps the profile well-formed, with fresh ids below the
      following id. */
  lemma PrependDocKeepsIdsFresh(user: UserId, doc: Document, key: Key, next: EntryId, item: Item)
    requires WellFormed(user, doc) && ListsFresh(doc, next)
    requires key == Experience || key == Education
    ensures next !in Ids(ListOf(doc, key))
    ensures var doc' := doc[key := Entries([Entry(next, item)] + ListOf(doc, key))];
            WellFormed(user, doc') && ListsFresh(doc', next + 1)
  {
    PrependKeepsIdsFresh(ListOf(doc, key), next, item);
    if key == Experience {
      FreshIdsGrow(ListOf(doc, Education), next, next + 1);
    } else {
      FreshIdsGrow(ListOf(doc, Experience), next, next + 1);
    }
  }

  /** Removing an entry from one list of a stored profile keeps the profile
      well-formed, with fresh ids. */
  lemma RemoveDocKeepsIdsFresh(user: UserId, doc: Document, key: Key, id: EntryId, next: EntryId)
    requires WellFormed(user, doc) && ListsFresh(doc, next)
    requires key == Experience || key == Education
    ensures var doc' := doc[key := Entries(RemoveById(ListOf(doc, key), id))];
            WellFormed(user, doc') && ListsFresh(doc', next)
  {
    RemoveKeepsIdsFresh(ListOf(doc, key), id, next);
  }

  /** Removing one entry keeps the others' ids distinct and below `next`. */
  lemma RemoveKeepsIdsFresh(entries: seq<Entry>, id: EntryId, next: EntryId)
    requires FreshIds(entries, next)
    ensures FreshIds(RemoveById(entries, id), next)
  {
    if entries != [] {
      var i := IndexOf(Ids(entries), id);
      var at := if i >= 0 then i else |entries| - 1;
      var r := RemoveById(entries, id);
      assert r == entries[..at] + entries[at + 1..] by {
        if i >= 0 {
          assert forall j :: 0 <= j < i ==> entries[j].id != id by {
            forall j | 0 <= j < i ensures entries[j].id != id {
              assert Ids(entries)[..i][j] == Ids(entries)[j];
            }
          }
        } else {
          assert forall j :: 0 <= j < |entries| ==> entries[j].id != id by {
            forall j | 0 <= j < |entries| ensures entries[j].id != id {
              assert Ids(entries)[j] in Ids(entries);
            }
          }
          assert entries[at + 1..] == [];
        }
      }
      DropOneKeepsIdsFresh(entries, at, next);
    }
  }

  lemma DropOneKeepsIdsFresh(entries: seq<Entry>, at: int, next: EntryId)
    requires FreshIds(entries, next) && 0 <= at < |entries|
    ensures FreshIds(entries[..at] + entries[at + 1..], next)
  {
    var r := entries[..at] + entries[at + 1..];
    assert forall k :: 0 <= k < |r| ==> r[k] == entries[if k < at then k else k + 1];
  }

  /** With distinct ids, the entry with the given id is the one removed, and
      no entry with that id is left. */
  lemma RemovePresentId(entries: seq<Entry>, i: int, next: EntryId)
    requires FreshIds(entries, next) && 0 <= i < |entries|
    ensures RemoveById(entries, entries[i].id) == entries[..i] + entries[i + 1..]
    ensures entries[i].id !in Ids(RemoveById(entries, entries[i].id))
  {
    var r := entries[..i] + entries[i + 1..];
    assert forall k :: 0 <= k < |r| ==> r[k] == entries[if k < i then k else k + 1];
  }

  /** `list.splice(list.map((item) => item.id).indexOf(id), 1)`: the first entry
      with that id is removed and the rest keep their order; when no entry has
      the id, `indexOf` gives -1 and the last entry is removed; an empty list
      stays empty. */
  function RemoveById(entries: seq<Entry>, id: EntryId): (r: seq<Entry>)
    ensures forall i :: 0 <= i < |entries| && entries[i].id == id
                        && (forall j :: 0 <= j < i ==> entries[j].id != id)
                        ==> r == entries[..i] + entries[i + 1..]
    ensures (forall j :: 0 <= j < |entries| ==> entries[j].id != id) ==>
              r == if entries == [] then [] else entries[..|entries| - 1]
  {
    SpliceAtIndexOf(entries, id);
    Splice(entries, IndexOf(Ids(entries), id), 1)
  }

  /** The splice at the index `indexOf` finds removes the first entry with
      the id, or the last entry when none has it. */
  lemma SpliceAtIndexOf(entries: seq<Entry>, id: EntryId)
    ensures var r := Splice(entries, IndexOf(Ids(entries), id), 1);
            && (forall i :: 0 <= i < |entries| && entries[i].id == id
                            && (forall j :: 0 <= j < i ==> entries[j].id != id)
                            ==> r == entries[..i] + entries[i + 1..])
            && ((forall j :: 0 <= j < |entries| ==> entries[j].id != id) ==>
                  r == if entries == [] then [] else entries[..|entries| - 1])
  {
    IdsIndexOf(entries, id);
    var at := IndexOf(Ids(entries), id);
    var r := Splice(entries, at, 1);
    forall i | 0 <= i < |entries| && entries[i].id == id && (forall j :: 0 <= j < i ==> entries[j].id != id)
      ensures r == entries[..i] + entries[i + 1..]
    {
      assert at == i;
    }
  }

  /** Where `indexOf` finds an id among the entries' ids: at the first entry
      with it, or -1 exactly when no entry has it. */
  lemma IdsIndexOf(entries: seq<Entry>, id: EntryId)
    ensures var i := IndexOf(Ids(entries), id);
            && (0 <= i ==> entries[i].id == id && forall j :: 0 <= j < i ==> entries[j].id != id)
            && (i == -1 <==> forall j :: 0 <= j < |entries| ==> entries[j].id != id)
  {
    var ids := Ids(entries);
    var i := IndexOf(ids, id);
    if i >= 0 {
      forall j | 0 <= j < i ensures entries[j].id != id {
        assert ids[..i][j] == ids[j];
      }
    } else {
      forall j | 0 <= j < |entries| ensures entries[j].id != id {
        assert ids[j] in ids;
      }
    }
  }

  /** Removing an id that is absent from a non-empty list with distinct ids
      loses its last (oldest) entry entirely: no entry with that entry's id
      is left, though that entry was not asked for. */
  lemma RemoveAbsentIdDropsLast(entries: seq<Entry>, id: EntryId, next: EntryId)
    requires FreshIds(entries, next)
    requires entries != [] && forall j :: 0 <= j < |entries| ==> entries[j].id != id
    ensures entries[|entries| - 1].id != id
    ensures entries[|entries| - 1].id !in Ids(RemoveById(entries, id))
  {
    var r := RemoveById(entries, id);
    assert r == entries[..|entries| - 1];
  }

  /** Removing the id an entry was just added under takes exactly that entry
      off again: the list is as it was before the `unshift`. */
  lemma RemoveUndoesPrepend(entries: seq<Entry>, next: EntryId, item: Item)
    requires FreshIds(entries, next)
    ensures RemoveById([Entry(next, item)] + entries, next) == entries
  {
    var list := [Entry(next, item)] + entries;
    assert list[..0] + list[1..] == entries;
  }

  /** Adding A, B and C to an empty list leaves it ordered C, B, A; removing
      B's id then leaves C, A. */
  lemma HeadInsertionOrder(a: Entry, b: Entry, c: Entry)
    requires a.id != b.id && c.id != b.id
    ensures RemoveById([c] + ([b] + ([a] + [])), b.id) == [c, a]
  {
    var list := [c] + ([b] + ([a] + []));
    assert list == [c, b, a];
    assert list[..1] + list[2..] == [c, a];
  }

  /** The list a well-formed document holds under `key`. */
  function ListOf(doc: Document, key: Key): seq<Entry>
    requires key in doc && doc[key].Entries?
  {
    doc[key].entries
  }

  /** The validation errors of `PUT /api/profile/experience`. */
  function ExperienceErrors(b: ExperienceInput): (errs: seq<ErrorItem>)
    ensures errs == [] <==> Truthy(b.title) && Truthy(b.company) && Truthy(b.from)
  {
    (if Truthy(b.title) then [] else [ErrorItem(b.title, "Title cannot be empty")])
    + (if Truthy(b.company) then [] else [ErrorItem(b.company, "Company cannot be empty")])
    + (if Truthy(b.from) then [] else [ErrorItem(b.from, "From Date cannot be empty")])
  }

  /** The validation errors of `PUT /api/profile/education`. */
  function EducationErrors(b: EducationInput): (errs: seq<ErrorItem>)
    ensures errs == [] <==> Truthy(b.school) && Truthy(b.degree) && Truthy(b.from)
  {
    (if Truthy(b.school) then [] else [ErrorItem(b.school, "School cannot be empty")])
    + (if Truthy(b.degree) then [] else [ErrorItem(b.degree, "Degree cannot be empty")])
    + (if Truthy(b.from) then [] else [ErrorItem(b.from, "From date cannot be empty")])
  }

  // ---------------------------------------------------------------------
  // The profile collection

  /** Every stored profile is well-formed, owned by the user it is stored
      under, with list ids below `next`. */
  ghost predicate StoreFresh(profiles: map<UserId, Document>, next: EntryId) {
    forall u :: u in profiles ==> WellFormed(u, profiles[u]) && ListsFresh(profiles[u], next)
  }

  /** Storing a well-formed profile with fresh ids for `user`, and raising
      the next entry id, keeps every stored profile well-formed with fresh ids. */
  lemma PutKeepsIdsFresh(profiles: map<UserId, Document>, user: UserId, doc: Document,
                         next: EntryId, next': EntryId, profiles': map<UserId, Document>)
    requires StoreFresh(profiles, next)
    requires next <= next' && WellFormed(user, doc) && ListsFresh(doc, next')
    requires profiles' == profiles[user := doc]
    ensures StoreFresh(profiles', next')
  {
    forall u | u in profiles && u != user
      ensures WellFormed(u, profiles[u]) && ListsFresh(profiles[u], next')
    {
      FreshIdsGrow(profiles[u][Experience].entries, next, next');
      FreshIdsGrow(profiles[u][Education].entries, next, next');
    }
  }

  /** The profile collection, keyed by owning user, so a user has at most one
      profile; `nextEntryId` is the id the store gives the next list entry,
      above every id it has given so far. */
  class ProfileStore {
    var profiles: map<UserId, Document>
    var nextEntryId: EntryId

    ghost predicate Valid()
      reads this
    {
      StoreFresh(profiles, nextEntryId)
    }

    constructor ()
      ensures Valid() && profiles == map[] && nextEntryId == 0
    {
      profiles := map[];
      nextEntryId := 0;
    }

    /** `GET /api/profile/me`, mounted on `/`: the caller's profile, or 400 "No
        Profile found". The error's `value` is `req.user.email`, which the
        token's `user` claim never carries, so it is always omitted. */
    method Mine(user: TokenUser) returns (resp: Response<ProfilePayload>)
      ensures user.id in profiles ==> resp == Response(200, Ok(ProfileDoc(profiles[user.id])))
      ensures user.id !in profiles ==> resp == Response(400, Errors([ErrorItem(None, "No Profile found")]))
    {
      if user.id !in profiles {
        return Response(400, Errors([ErrorItem(None, "No Profile found")]));
      }
      resp := Response(200, Ok(ProfileDoc(profiles[user.id])));
    }

    /** `GET /api/profile/user/:user_id`: that user's profile, or 400 "Profile not found". */
    method OfUser(userId: UserId) returns (resp: Response<ProfilePayload>)
      ensures userId in profiles ==> resp == Response(200, Ok(ProfileDoc(profiles[userId])))
      ensures userId !in profiles ==> resp == Fail(400, "Profile not found")
    {
      if userId !in profiles {
        return Fail(400, "Profile not found");
      }
      resp := Response(200, Ok(ProfileDoc(profiles[userId])));
    }

    /** `POST /api/profile`: 400 with the validation errors and nothing stored;
        otherwise the caller's profile becomes the upsert of the built fields
        and is returned. No other profile changes. */
    method CreateOrUpdate(user: TokenUser, b: ProfileInput) returns (resp: Response<ProfilePayload>)
      requires Valid()
      modifies this
      ensures Valid()
      ensures ProfileErrors(b) != [] ==>
                && resp == Response(400, Errors(ProfileErrors(b)))
                && profiles == old(profiles) && nextEntryId == old(nextEntryId)
      ensures ProfileErrors(b) == [] ==>
                var existing := if user.id in old(profiles) then Some(old(profiles)[user.id]) else None;
                var doc := Upsert(existing, BuildProfileFields(user.id, b, old(nextEntryId)));
                && profiles == old(profiles)[user.id := doc]
                && nextEntryId == old(nextEntryId) + BodyEntryCount(b)
                && resp == Response(200, Ok(ProfileDoc(doc)))
    {
      var errs := ProfileErrors(b);
      if errs != [] {
        return Response(400, Errors(errs));
      }
      var profileFields := BuildProfileFields(user.id, b, nextEntryId);
      BuiltFieldsFit(user.id, b, nextEntryId);
      resp := Save(user.id, profileFields, nextEntryId + BodyEntryCount(b));
    }

    /** The handler's `try` block: `findOne` the caller's profile, then
        `$set` the fields on it, or save `new Profile(fields)` when there is
        none; either way the stored document is returned. `next` is the next
        entry id once the fields' entries have taken theirs. */
    method Save(user: UserId, fields: Document, next: EntryId) returns (resp: Response<ProfilePayload>)
      requires Valid() && nextEntryId <= next && FieldsFit(user, fields, next)
      modifies this
      ensures Valid()
      ensures var existing := if user in old(profiles) then Some(old(profiles)[user]) else None;
              var doc := Upsert(existing, fields);
              && profiles == old(profiles)[user := doc]
              && nextEntryId == next
              && resp == Response(200, Ok(ProfileDoc(doc)))
    {
      var existing := if user in profiles then Some(profiles[user]) else None;
      var doc := Upsert(existing, fields);
      UpsertFits(user, existing, fields, nextEntryId, next);
      var profiles' := profiles[user := doc];
      PutKeepsIdsFresh(profiles, user, doc, nextEntryId, next, profiles');
      profiles, nextEntryId := profiles', next;
      resp := Response(200, Ok(ProfileDoc(doc)));
    }

    /** `list.unshift(entry)` on the caller's list under `key`, with a new
        entry id; 500 when the caller has no profile (the handler dereferences
        `null`), leaving everything as it was. */
    method Prepend(user: TokenUser, key: Key, item: Item) returns (resp: Response<ProfilePayload>)
      requires Valid() && (key == Experience || key == Education)
      modifies this
      ensures Valid()
      ensures user.id !in old(profiles) ==>
                resp == InternalServerError() && profiles == old(profiles) && nextEntryId == old(nextEntryId)
      ensures user.id in old(profiles) ==>
                var doc := old(profiles)[user.id];
                var doc' := doc[key := Entries([Entry(old(nextEntryId), item)] + ListOf(doc, key))];
                && old(nextEntryId) !in Ids(ListOf(doc, key))
                && profiles == old(profiles)[user.id := doc']
                && nextEntryId == old(nextEntryId) + 1
                && resp == Response(200, Ok(ProfileDoc(doc')))
    {
      if user.id !in profiles {
        return InternalServerError();
      }
      var stored := profiles[user.id];
      var doc := stored[key := Entries([Entry(nextEntryId, item)] + ListOf(stored, key))];
      var profiles' := profiles[user.id := doc];
      PrependDocKeepsIdsFresh(user.id, stored, key, nextEntryId, item);
      PutKeepsIdsFresh(profiles, user.id, doc, nextEntryId, nextEntryId + 1, profiles');
      profiles, nextEntryId := profiles', nextEntryId + 1;
      resp := Response(200, Ok(ProfileDoc(doc)));
    }

    /** `list.splice(indexOf(id), 1)` on the caller's list under `key`; 500 when
        the caller has no profile. */
    method Remove(user: TokenUser, key: Key, id: EntryId) returns (resp: Response<ProfilePayload>)
      requires Valid() && (key == Experience || key == Education)
      modifies this`profiles
      ensures Valid()
      ensures user.id !in old(profiles) ==> resp == InternalServerError() && profiles == old(profiles)
      ensures user.id in old(profiles) ==>
                var doc := old(profiles)[user.id];
                var doc' := doc[key := Entries(RemoveById(ListOf(doc, key), id))];
                profiles == old(profiles)[user.id := doc'] && resp == Response(200, Ok(ProfileDoc(doc')))
    {
      if user.id !in profiles {
        return InternalServerError();
      }
      var stored := profiles[user.id];
      var list := ListOf(stored, key);
      var index := IndexOf(Ids(list), id);
      list := Splice(list, index, 1);
      assert list == RemoveById(ListOf(stored, key), id);
      var doc := stored[key := Entries(list)];
      RemoveDocKeepsIdsFresh(user.id, stored, key, id, nextEntryId);
      var profiles' := profiles[user.id := doc];
      PutKeepsIdsFresh(profiles, user.id, doc, nextEntryId, nextEntryId, profiles');
      profiles := profiles';
      resp := Response(200, Ok(ProfileDoc(doc)));
    }

    /** `PUT /api/profile/experience`: with a validation error it answers with
        the errors and status 200 (the handler sets no status) and changes
        nothing; otherwise the new entry goes to the head of the experience list. */
    method AddExperience(user: TokenUser, b: ExperienceInput) returns (resp: Response<ProfilePayload>)
      requires Valid()
      modifies this
      ensures Valid()
      ensures ExperienceErrors(b) != [] ==>
                && resp == Response(200, Errors(ExperienceErrors(b)))
                && profiles == old(profiles) && nextEntryId == old(nextEntryId)
      ensures ExperienceErrors(b) == [] && user.id !in old(profiles) ==>
                resp == InternalServerError() && profiles == old(profiles) && nextEntryId == old(nextEntryId)
      ensures ExperienceErrors(b) == [] && user.id in old(profiles) ==>
                var doc := old(profiles)[user.id];
                var doc' := doc[Experience := Entries([Entry(old(nextEntryId), ExperienceItem(b))] + ListOf(doc, Experience))];
                && old(nextEntryId) !in Ids(ListOf(doc, Experience))
                && profiles == old(profiles)[user.id := doc']
                && nextEntryId == old(nextEntryId) + 1
                && resp == Response(200, Ok(ProfileDoc(doc')))
    {
      var errs := ExperienceErrors(b);
      if errs != [] {
        return Response(200, Errors(errs));
      }
      resp := Prepend(user, Experience, ExperienceItem(b));
    }

    /** `DELETE /api/profile/experience/:exp_id` */
    method RemoveExperience(user: TokenUser, id: EntryId) returns (resp: Response<ProfilePayload>)
      requires Valid()
      modifies this`profiles
      ensures Valid()
      ensures user.id !in old(profiles) ==> resp == InternalServerError() && profiles == old(profiles)
      ensures user.id in old(profiles) ==>
                var doc := old(profiles)[user.id];
                var doc' := doc[Experience := Entries(RemoveById(ListOf(doc, Experience), id))];
                profiles == old(profiles)[user.id := doc'] && resp == Response(200, Ok(ProfileDoc(doc')))
    {
      resp := Remove(user, Experience, id);
    }

    /** `PUT /api/profile/education`: as `AddExperience`, for the education list. */
    method AddEducation(user: TokenUser, b: EducationInput) returns (resp: Response<ProfilePayload>)
      requires Valid()
      modifies this
      ensures Valid()
      ensures EducationErrors(b) != [] ==>
                && resp == Response(200, Errors(EducationErrors(b)))
                && profiles == old(profiles) && nextEntryId == old(nextEntryId)
      ensures EducationErrors(b) == [] && user.id !in old(profiles) ==>
                resp == InternalServerError() && profiles == old(profiles) && nextEntryId == old(nextEntryId)
      ensures EducationErrors(b) == [] && user.id in old(profiles) ==>
                var doc := old(profiles)[user.id];
                var doc' := doc[Education := Entries([Entry(old(nextEntryId), EducationItem(b))] + ListOf(doc, Education))];
                && old(nextEntryId) !in Ids(ListOf(doc, Education))
                && profiles == old(profiles)[user.id := doc']
                && nextEntryId == old(nextEntryId) + 1
                && resp == Response(200, Ok(ProfileDoc(doc')))
    {
      var errs := EducationErrors(b);
      if errs != [] {
        return Response(200, Errors(errs));
      }
      resp := Prepend(user, Education, EducationItem(b));
    }

    /** `DELETE /api/profile/education/:edu_id` */
    method RemoveEducation(user: TokenUser, id: EntryId) returns (resp: Response<ProfilePayload>)
      requires Valid()
      modifies this`profiles
      ensures Valid()
      ensures user.id !in old(profiles) ==> resp == InternalServerError() && profiles == old(profiles)
      ensures user.id in old(profiles) ==>
                var doc := old(profiles)[user.id];
                var doc' := doc[Education := Entries(RemoveById(ListOf(doc, Education), id))];
                profiles == old(profiles)[user.id := doc'] && resp == Response(200, Ok(ProfileDoc(doc')))
    {
      resp := Remove(user, Education, id);
    }

    /** `Profile.findOneAndRemove({ user })`: whether the user had a profile; it is gone afterwards. */
    method RemoveOf(user: UserId) returns (existed: bool)
      requires Valid()
      modifies this`profiles
      ensures Valid()
      ensures existed <==> user in old(profiles)
      ensures profiles == old(profiles) - {user}
    {
      existed := user in profiles;
      profiles := profiles - {user};
    }
  }

  /** `DELETE /api/profile`: removes the caller's profile and then the caller's
      user document; it answers "User not found" (with status 200) only when
      neither existed, and "User Deleted Successfully" otherwise. */
  method DeleteAccount(store: ProfileStore, users: Accounts.UserStore, user: TokenUser)
    returns (resp: Response<ProfilePayload>)
    requires store.Valid() && users.Valid()
    modifies store`profiles, users
    ensures store.Valid() && users.Valid()
    ensures store.profiles == old(store.profiles) - {user.id}
    ensures users.users == map e | e in old(users.users) && old(users.users)[e].id != user.id :: old(users.users)[e]
    ensures users.nextId == old(users.nextId)
    ensures var hadProfile := user.id in old(store.profiles);
            var hadUser := exists e :: e in old(users.users) && old(users.users)[e].id == user.id;
            resp == if !hadProfile && !hadUser then Response(200, Errors([ErrorItem(None, "User not found")]))
                    else Response(200, Ok(Message("User Deleted Successfully")))
  {
    var isProfileDeleted := store.RemoveOf(user.id);
    var isUserDeleted := users.RemoveById(user.id);
    if !isProfileDeleted && !isUserDeleted {
      return Response(200, Errors([ErrorItem(None, "User not found")]));
    }
    resp := Response(200, Ok(Message("User Deleted Successfully")));
  }
}
