/** The few JavaScript built-ins the route handlers rely on, with the
    semantics ECMAScript gives them: `undefined`, truthiness of a string,
    `String.prototype.split` on one character, `String.prototype.trim`,
    `Array.prototype.indexOf` and `Array.prototype.splice`. */
module Js {

  /** A value that may be `undefined`. */
  datatype Option<+T> = None | Some(value: T)

  /** JavaScript truthiness of an optional string: `undefined` and `""` are falsy. */
  predicate Truthy(v: Option<string>) {
    v.Some? && v.value != ""
  }

  /** How the request validator reads an optional string: `undefined` becomes `""`. */
  function ToStr(v: Option<string>): (s: string)
    ensures s == "" <==> !Truthy(v)
  {
    if v.Some? then v.value else ""
  }

  // ---------------------------------------------------------------------
  // String.prototype.trim

  /** The WhiteSpace and LineTerminator code points of ECMAScript (section 12.2
      and 12.3 of ECMA-262), which `trim` strips from both ends. */
  predicate IsWhiteSpace(c: char) {
    var n := c as int;
    n == 0x09 || n == 0x0A || n == 0x0B || n == 0x0C || n == 0x0D || n == 0x20 ||
    n == 0xA0 || n == 0x1680 || (0x2000 <= n <= 0x200A) || n == 0x2028 || n == 0x2029 ||
    n == 0x202F || n == 0x205F || n == 0x3000 || n == 0xFEFF
  }

  predicate AllWhiteSpace(s: string) {
    forall i :: 0 <= i < |s| ==> IsWhiteSpace(s[i])
  }

  /** `s` with its leading white space removed. */
  function TrimStart(s: string): (r: string)
    ensures |r| <= |s|
    ensures r == "" || !IsWhiteSpace(r[0])
  {
    if s != "" && IsWhiteSpace(s[0]) then TrimStart(s[1..]) else s
  }

  /** `s` with its trailing white space removed. */
  function TrimEnd(s: string): (r: string)
    ensures |r| <= |s|
    ensures r == "" || !IsWhiteSpace(r[|r| - 1])
  {
    if s != "" && IsWhiteSpace(s[|s| - 1]) then TrimEnd(s[..|s| - 1]) else s
  }

  /** `s.trim()`: neither end of the result is white space. `TrimCutsWhiteSpace`
      says what was cut off. */
  function Trim(s: string): (r: string)
    ensures |r| <= |s|
    ensures r == "" || (!IsWhiteSpace(r[0]) && !IsWhiteSpace(r[|r| - 1]))
  {
    var t := TrimStart(s);
    TrimEndCuts(t);
    TrimEnd(t)
  }

  /** `TrimStart` keeps a suffix of `s` that does not start with white space,
      and what it drops is white space. */
  lemma {:induction false} TrimStartCuts(s: string)
    ensures var r := TrimStart(s);
            && |r| <= |s| && r == s[|s| - |r|..]
            && AllWhiteSpace(s[..|s| - |r|])
            && (r == "" || !IsWhiteSpace(r[0]))
    decreases |s|
  {
    if s != "" && IsWhiteSpace(s[0]) {
      TrimStartCuts(s[1..]);
      var r := TrimStart(s);
      assert s[..|s| - |r|] == [s[0]] + s[1..][..|s| - 1 - |r|];
    }
  }

  /** `TrimEnd` keeps a prefix of `s` that does not end with white space, and
      what it drops is white space. */
  lemma {:induction false} TrimEndCuts(s: string)
    ensures var r := TrimEnd(s);
            && |r| <= |s| && r == s[..|r|]
            && AllWhiteSpace(s[|r|..])
            && (r == "" || !IsWhiteSpace(r[|r| - 1]))
    decreases |s|
  {
    if s != "" && IsWhiteSpace(s[|s| - 1]) {
      TrimEndCuts(s[..|s| - 1]);
      var r := TrimEnd(s);
      assert s[|r|..] == s[..|s| - 1][|r|..] + [s[|s| - 1]];
    }
  }

  /** `s.trim()` is the infix of `s` that neither starts nor ends with white
      space, once only white space has been cut off both ends. */
  lemma TrimCutsWhiteSpace(s: string)
    ensures var r := Trim(s);
            && (r == "" || (!IsWhiteSpace(r[0]) && !IsWhiteSpace(r[|r| - 1])))
            && exists a :: 0 <= a <= |s| - |r| && r == s[a..a + |r|]
                           && AllWhiteSpace(s[..a]) && AllWhiteSpace(s[a + |r|..])
  {
    var t := TrimStart(s);
    var r := TrimEnd(t);
    TrimStartCuts(s);
    TrimEndCuts(t);
    var a := |s| - |t|;
    assert r == s[a..a + |r|];
    assert s[a + |r|..] == t[|r|..];
    if r != "" {
      assert r[0] == t[0];
    }
  }

  /** White space in front of a string that does not start with white space
      is exactly what `TrimStart` removes. */
  lemma {:induction false} TrimStartPadded(a: string, x: string)
    requires AllWhiteSpace(a) && (x == "" || !IsWhiteSpace(x[0]))
    ensures TrimStart(a + x) == x
    decreases |a|
  {
    if a == [] {
      assert a + x == x;
    } else {
      assert (a + x)[1..] == a[1..] + x;
      TrimStartPadded(a[1..], x);
    }
  }

  /** White space after a string that does not end with white space is
      exactly what `TrimEnd` removes. */
  lemma {:induction false} TrimEndPadded(x: string, c: string)
    requires AllWhiteSpace(c) && (x == "" || !IsWhiteSpace(x[|x| - 1]))
    ensures TrimEnd(x + c) == x
    decreases |c|
  {
    if c == [] {
      assert x + c == x;
    } else {
      assert (x + c)[..|x + c| - 1] == x + c[..|c| - 1];
      TrimEndPadded(x, c[..|c| - 1]);
    }
  }

  /** The converse of `TrimCutsWhiteSpace`: a word with no white space at
      either end, padded with white space on both sides, trims to the word. */
  lemma TrimPadded(a: string, w: string, c: string)
    requires AllWhiteSpace(a) && AllWhiteSpace(c)
    requires w != "" && !IsWhiteSpace(w[0]) && !IsWhiteSpace(w[|w| - 1])
    ensures Trim(a + w + c) == w
  {
    assert a + w + c == a + (w + c);
    assert (w + c)[0] == w[0];
    TrimStartPadded(a, w + c);
    TrimEndPadded(w, c);
  }

  /** Trimming twice is trimming once. */
  lemma TrimIdempotent(s: string)
    ensures Trim(Trim(s)) == Trim(s)
  {
    var r := Trim(s);
    TrimCutsWhiteSpace(s);
    assert TrimStart(r) == r;
    assert TrimEnd(r) == r;
  }

  // ---------------------------------------------------------------------
  // String.prototype.split with a one-character separator

  /** How many times `c` occurs in `s`. */
  function Occurrences(s: string, c: char): nat {
    if s == "" then 0 else (if s[0] == c then 1 else 0) + Occurrences(s[1..], c)
  }

  /** The pieces joined with `sep` between them: `parts.join(sep)`. */
  function Join(parts: seq<string>, sep: char): string {
    if parts == [] then ""
    else if |parts| == 1 then parts[0]
    else parts[0] + [sep] + Join(parts[1..], sep)
  }

  /** `s.split(sep)`: the maximal `sep`-free pieces of `s`, in order; one more
      piece than there are separators, empty pieces included. */
  function Split(s: string, sep: char): (parts: seq<string>)
    ensures |parts| == Occurrences(s, sep) + 1
    ensures forall k :: 0 <= k < |parts| ==> sep !in parts[k]
    ensures Join(parts, sep) == s
    decreases |s|
  {
    if s == "" then [""]
    else
      var rest := Split(s[1..], sep);
      if s[0] == sep then
        [""] + rest
      else
        var parts := [[s[0]] + rest[0]] + rest[1..];
        JoinConsChar(rest, s[0], sep);
        parts
  }

  lemma {:induction false} JoinConsChar(rest: seq<string>, c: char, sep: char)
    requires |rest| >= 1
    ensures Join([[c] + rest[0]] + rest[1..], sep) == [c] + Join(rest, sep)
  {
    var parts := [[c] + rest[0]] + rest[1..];
    if |rest| > 1 {
      assert parts[1..] == rest[1..];
      assert Join(parts, sep) == ([c] + rest[0]) + [sep] + Join(rest[1..], sep);
    }
  }

  /** A `sep`-free string splits into itself alone. */
  lemma {:induction false} SplitWithoutSeparator(s: string, sep: char)
    requires sep !in s
    ensures Split(s, sep) == [s]
    decreases |s|
  {
    if s != "" {
      assert sep !in s[1..] by { assert forall i :: 0 <= i < |s| - 1 ==> s[1..][i] == s[i + 1]; }
      SplitWithoutSeparator(s[1..], sep);
      assert [s[0]] + s[1..] == s;
    }
  }

  /** Splitting at the first separator peels off the first piece. */
  lemma {:induction false} SplitAtSeparator(a: string, t: string, sep: char)
    requires sep !in a
    ensures Split(a + [sep] + t, sep) == [a] + Split(t, sep)
    decreases |a|
  {
    var s := a + [sep] + t;
    if a == "" {
      assert s[1..] == t;
    } else {
      assert s[1..] == a[1..] + [sep] + t;
      assert sep !in a[1..] by { assert forall i :: 0 <= i < |a| - 1 ==> a[1..][i] == a[i + 1]; }
      SplitAtSeparator(a[1..], t, sep);
      assert [a[0]] + a[1..] == a;
    }
  }

  /** `split` undoes `join` on separator-free pieces: the two are inverse. */
  lemma {:induction false} SplitJoin(parts: seq<string>, sep: char)
    requires |parts| >= 1
    requires forall k :: 0 <= k < |parts| ==> sep !in parts[k]
    ensures Split(Join(parts, sep), sep) == parts
  {
    if |parts| == 1 {
      SplitWithoutSeparator(parts[0], sep);
    } else {
      SplitJoin(parts[1..], sep);
      SplitAtSeparator(parts[0], Join(parts[1..], sep), sep);
      assert [parts[0]] + parts[1..] == parts;
    }
  }

  // ---------------------------------------------------------------------
  // Array.prototype.indexOf and Array.prototype.splice

  /** `s.indexOf(x)`: the first position of `x` in `s`, or -1 when it is absent. */
  function IndexOf<T(==)>(s: seq<T>, x: T): (i: int)
    ensures -1 <= i < |s|
    ensures i == -1 <==> x !in s
    ensures 0 <= i ==> s[i] == x && x !in s[..i]
  {
    if s == [] then -1
    else if s[0] == x then 0
    else
      var j := IndexOf(s[1..], x);
      if j == -1 then -1
      else
        assert s[..j + 1] == [s[0]] + s[1..][..j];
        j + 1
  }

  function Min(a: int, b: int): int { if a <= b then a else b }
  function Max(a: int, b: int): int { if a <= b then b else a }

  /** `s.splice(start, deleteCount)` leaves this in `s` (section 23.1.3.31 of
      ECMA-262): a negative start counts back from the end and is clamped at
      0, a start past the end is clamped to the length, and at most the
      elements that exist from the start on are deleted. */
  function Splice<T>(s: seq<T>, start: int, deleteCount: int): (r: seq<T>)
    ensures 0 <= start <= |s| && 0 <= deleteCount ==>
              r == s[..start] + s[Min(start + deleteCount, |s|)..]
    ensures -|s| <= start < 0 && 0 <= deleteCount ==>
              r == s[..|s| + start] + s[Min(|s| + start + deleteCount, |s|)..]
    ensures start < -|s| && 0 <= deleteCount ==> r == s[Min(deleteCount, |s|)..]
    ensures start > |s| ==> r == s
    ensures deleteCount <= 0 ==> r == s
  {
    var actualStart := if start < 0 then Max(|s| + start, 0) else Min(start, |s|);
    var actualDeleteCount := Min(Max(deleteCount, 0), |s| - actualStart);
    s[..actualStart] + s[actualStart + actualDeleteCount..]
  }
}
