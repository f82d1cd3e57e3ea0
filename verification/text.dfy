/** The Python `str` methods the orchestration code uses: `strip`, `in`,
    `split`, `join` and `lower`, each stated over `seq<char>`. */
module Text {

  import opened JsonValues

  /** Python's `str.isspace` for one character: the characters `strip()`
      removes when called without arguments. */
  predicate IsSpace(c: char) {
    ('\t' <= c <= '\r') || ('\U{1C}' <= c <= ' ') || c == '\U{85}' || c == '\U{A0}'
    || c == '\U{1680}' || ('\U{2000}' <= c <= '\U{200A}') || c == '\U{2028}'
    || c == '\U{2029}' || c == '\U{202F}' || c == '\U{205F}' || c == '\U{3000}'
  }

  predicate AllSpace(s: string) {
    forall i :: 0 <= i < |s| ==> IsSpace(s[i])
  }

  /** Neither end of `s` is whitespace. */
  predicate IsStripped(s: string) {
    s == [] || (!IsSpace(s[0]) && !IsSpace(s[|s| - 1]))
  }

  /** `pat` occurs in `s` starting at index `i`. */
  predicate OccursAt(s: string, pat: string, i: int) {
    0 <= i && i + |pat| <= |s| && s[i..i + |pat|] == pat
  }

  /** Python's `pat in s`. */
  predicate Contains(s: string, pat: string) {
    exists i | 0 <= i <= |s| :: OccursAt(s, pat, i)
  }

  /** `s.lstrip()`: drops the leading whitespace and nothing else. */
  function TrimStart(s: string): (r: string)
    ensures |r| <= |s| && r == s[|s| - |r|..]
    ensures forall i :: 0 <= i < |s| - |r| ==> IsSpace(s[i])
    ensures r == [] || !IsSpace(r[0])
  {
    if s != [] && IsSpace(s[0]) then TrimStart(s[1..]) else s
  }

  /** `s.rstrip()`: drops the trailing whitespace and nothing else. */
  function TrimEnd(s: string): (r: string)
    ensures |r| <= |s| && r == s[..|r|]
    ensures forall i :: |r| <= i < |s| ==> IsSpace(s[i])
    ensures r == [] || !IsSpace(r[|r| - 1])
  {
    if s != [] && IsSpace(s[|s| - 1]) then TrimEnd(s[..|s| - 1]) else s
  }

  /** `s.strip()`: a contiguous piece of `s` with no whitespace at either end,
      empty exactly when `s` is all whitespace, and `s` itself when `s`
      already has none at either end. */
  function Strip(s: string): (r: string)
    ensures IsStripped(r)
    ensures Contains(s, r)
    ensures exists a :: TrimmedAt(s, r, a)
    ensures r == [] <==> AllSpace(s)
    ensures IsStripped(s) ==> r == s
  {
    TrimBoth(s);
    TrimBothEnds(s);
    TrimEnd(TrimStart(s))
  }

  lemma TrimBoth(s: string)
    ensures Contains(s, TrimEnd(TrimStart(s)))
    ensures TrimEnd(TrimStart(s)) == [] <==> AllSpace(s)
  {
    TrimBothOccurs(s);
    TrimBothEmpty(s);
  }

  lemma TrimBothOccurs(s: string)
    ensures OccursAt(s, TrimEnd(TrimStart(s)), |s| - |TrimStart(s)|)
  {
    PrefixOfSuffix(s, TrimStart(s), TrimEnd(TrimStart(s)));
  }

  /** A prefix `r` of a suffix `t` of `s` occurs in `s` where `t` starts. */
  lemma PrefixOfSuffix(s: string, t: string, r: string)
    requires |t| <= |s| && t == s[|s| - |t|..]
    requires |r| <= |t| && r == t[..|r|]
    ensures OccursAt(s, r, |s| - |t|)
  {
    var a := |s| - |t|;
    var piece := s[a..a + |r|];
    forall k | 0 <= k < |r| ensures piece[k] == r[k] {
      assert piece[k] == s[a + k] == t[k] == r[k];
    }
  }

  /** `r` occurs in `s` at `a` with only whitespace before and after it. */
  predicate TrimmedAt(s: string, r: string, a: int) {
    OccursAt(s, r, a) && AllSpace(s[..a]) && AllSpace(s[a + |r|..])
  }

  /** What `strip` removes is whitespace only, at either end. */
  lemma TrimBothEnds(s: string)
    ensures TrimmedAt(s, TrimEnd(TrimStart(s)), |s| - |TrimStart(s)|)
  {
    TrimBothOccurs(s);
    LeadingSpace(s);
    TrailingSpace(s);
  }

  lemma LeadingSpace(s: string)
    ensures AllSpace(s[..|s| - |TrimStart(s)|])
  {
    var before := s[..|s| - |TrimStart(s)|];
    forall i | 0 <= i < |before| ensures IsSpace(before[i]) {
      assert before[i] == s[i];
    }
  }

  lemma TrailingSpace(s: string)
    ensures AllSpace(s[|s| - |TrimStart(s)| + |TrimEnd(TrimStart(s))|..])
  {
    var t := TrimStart(s);
    var r := TrimEnd(t);
    var after := s[|s| - |t| + |r|..];
    assert after == t[|r|..];
    forall i | 0 <= i < |after| ensures IsSpace(after[i]) {
      assert after[i] == t[|r| + i];
    }
  }

  lemma TrimBothEmpty(s: string)
    ensures TrimEnd(TrimStart(s)) == [] <==> AllSpace(s)
  {
    var t := TrimStart(s);
    var r := TrimEnd(t);
    if t != [] {
      assert !IsSpace(t[0]);
      assert t[0] == s[|s| - |t|];
    }
  }

  /** An occurrence inside a piece of `s` is an occurrence in `s`, shifted by the piece's start. */
  lemma OccursInPiece(s: string, piece: string, pat: string, a: int, i: int)
    requires OccursAt(s, piece, a) && OccursAt(piece, pat, i)
    ensures OccursAt(s, pat, a + i)
  {
    forall k | 0 <= k < |pat| ensures s[a + i + k] == pat[k] {
      assert piece[i + k] == pat[k];
      assert s[a + (i + k)] == piece[i + k];
    }
  }

  /** A piece of `s` cannot hold a pattern that `s` does not. */
  lemma NoPatternInPiece(s: string, piece: string, pat: string)
    requires Contains(s, piece) && !Contains(s, pat)
    ensures !Contains(piece, pat)
  {
    var a :| OccursAt(s, piece, a);
    forall i | OccursAt(piece, pat, i) ensures OccursAt(s, pat, a + i) {
      OccursInPiece(s, piece, pat, a, i);
    }
  }

  /** Stripping cannot create a pattern. */
  lemma NoPatternInStrip(s: string, pat: string)
    ensures !Contains(s, pat) ==> !Contains(Strip(s), pat)
  {
    if !Contains(s, pat) {
      NoPatternInPiece(s, Strip(s), pat);
    }
  }

  /** `s[..i]` holds no occurrence of `pat` when `pat` does not occur in `s` before index `i`. */
  lemma PrefixBeforeFirst(s: string, pat: string, i: nat)
    requires |pat| > 0 && i <= |s|
    requires forall j :: 0 <= j < i ==> !OccursAt(s, pat, j)
    ensures !Contains(s[..i], pat)
  {
    forall p | 0 <= p <= i ensures !OccursAt(s[..i], pat, p) {
      if p + |pat| <= i {
        assert !OccursAt(s, pat, p);
        assert s[..i][p..p + |pat|] == s[p..p + |pat|];
      }
    }
  }

  /** The first occurrence of `pat` in `s` at or after `from`, if any. */
  function FindFrom(s: string, pat: string, from: nat): (r: Option<nat>)
    requires from <= |s|
    ensures r.Some? ==> from <= r.value <= |s| && OccursAt(s, pat, r.value)
    ensures r.Some? ==> forall j :: from <= j < r.value ==> !OccursAt(s, pat, j)
    ensures r.None? ==> forall j :: from <= j ==> !OccursAt(s, pat, j)
    decreases |s| - from
  {
    if OccursAt(s, pat, from) then Some(from)
    else if from == |s| then None
    else FindFrom(s, pat, from + 1)
  }

  /** The first occurrence of `pat` in `s`, the search behind `pat in s` and `s.split(pat)`; `None` when there is none. */
  function Find(s: string, pat: string): (r: Option<nat>)
    ensures r.Some? <==> Contains(s, pat)
    ensures r.Some? ==> OccursAt(s, pat, r.value)
    ensures r.Some? ==> forall j :: 0 <= j < r.value ==> !OccursAt(s, pat, j)
  {
    FindFrom(s, pat, 0)
  }

  /** `sep.join(parts)`. */
  function Join(parts: seq<string>, sep: string): string
    decreases |parts|
  {
    if |parts| == 0 then ""
    else if |parts| == 1 then parts[0]
    else parts[0] + sep + Join(parts[1..], sep)
  }

  /** `sep.join(parts)` starts with the first part, ends with the last, and
      puts `sep` right after the first part when there are several. */
  lemma {:induction false} JoinShape(parts: seq<string>, sep: string)
    requires |parts| > 0
    ensures parts[0] <= Join(parts, sep)
    ensures var last, r := parts[|parts| - 1], Join(parts, sep);
      |last| <= |r| && r[|r| - |last|..] == last
    ensures |parts| > 1 ==> OccursAt(Join(parts, sep), sep, |parts[0]|)
    decreases |parts|
  {
    if |parts| > 1 {
      var tail := Join(parts[1..], sep);
      JoinShape(parts[1..], sep);
      assert Join(parts, sep) == parts[0] + sep + tail;
      assert parts[1..][|parts[1..]| - 1] == parts[|parts| - 1];
      var r := Join(parts, sep);
      assert r[|parts[0]|..|parts[0]| + |sep|] == sep;
    }
  }

  /** `s.split(sep)`: the pieces between the non-overlapping occurrences of
      `sep`, scanned from the left. There is always at least one piece, more
      than one exactly when `sep` occurs, no piece holds `sep`, and joining
      the pieces with `sep` gives back `s`. */
  function Split(s: string, sep: string): (r: seq<string>)
    requires |sep| > 0
    ensures |r| >= 1
    ensures |r| == 1 <==> !Contains(s, sep)
    ensures forall k :: 0 <= k < |r| ==> !Contains(r[k], sep)
    ensures forall k :: 0 <= k < |r| - 1 ==> !Contains(r[k] + sep[..|sep| - 1], sep)
    ensures Join(r, sep) == s
    decreases |s|
  {
    match Find(s, sep)
    case None => [s]
    case Some(i) =>
      var rest := Split(s[i + |sep|..], sep);
      SplitStep(s, sep, i, rest);
      SplitStepLeftmost(s, sep, i, rest);
      [s[..i]] + rest
  }

  /** Before the first occurrence of `sep` at `i`, the text up to the last
      character of that occurrence holds no `sep`: the scan is from the left. */
  lemma NoEarlyOccurrence(s: string, sep: string, i: nat)
    requires |sep| > 0 && OccursAt(s, sep, i)
    requires forall j :: 0 <= j < i ==> !OccursAt(s, sep, j)
    ensures s[..i] + sep[..|sep| - 1] == s[..i + |sep| - 1]
    ensures !Contains(s[..i + |sep| - 1], sep)
  {
    assert s[i..i + |sep|] == sep;
    assert s[..i + |sep| - 1] == s[..i] + s[i..i + |sep| - 1];
    var t := s[..i + |sep| - 1];
    forall p | 0 <= p <= |t| ensures !OccursAt(t, sep, p) {
      if p + |sep| <= |t| {
        assert p < i && !OccursAt(s, sep, p);
        assert t[p..p + |sep|] == s[p..p + |sep|];
      }
    }
  }

  /** One step of `Split`: the first piece, followed by all but the last
      character of the separator, holds no separator. */
  lemma SplitStepLeftmost(s: string, sep: string, i: nat, rest: seq<string>)
    requires |sep| > 0 && OccursAt(s, sep, i)
    requires forall j :: 0 <= j < i ==> !OccursAt(s, sep, j)
    requires forall k :: 0 <= k < |rest| - 1 ==> !Contains(rest[k] + sep[..|sep| - 1], sep)
    ensures forall k :: 0 <= k < |[s[..i]] + rest| - 1 ==>
      !Contains(([s[..i]] + rest)[k] + sep[..|sep| - 1], sep)
  {
    NoEarlyOccurrence(s, sep, i);
    var r := [s[..i]] + rest;
    forall k | 0 <= k < |r| - 1 ensures !Contains(r[k] + sep[..|sep| - 1], sep) {
      if k > 0 {
        assert r[k] == rest[k - 1];
      }
    }
  }

  /** One step of `Split`: the piece before the first separator holds no
      separator, and neither do the pieces of the rest. */
  lemma SplitStepPieces(s: string, sep: string, i: nat, rest: seq<string>)
    requires |sep| > 0 && i <= |s|
    requires forall j :: 0 <= j < i ==> !OccursAt(s, sep, j)
    requires forall k :: 0 <= k < |rest| ==> !Contains(rest[k], sep)
    ensures forall k :: 0 <= k < |[s[..i]] + rest| ==> !Contains(([s[..i]] + rest)[k], sep)
  {
    PrefixBeforeFirst(s, sep, i);
    var r := [s[..i]] + rest;
    forall k | 0 <= k < |r| ensures !Contains(r[k], sep) {
      if k > 0 {
        assert r[k] == rest[k - 1];
      }
    }
  }

  /** One step of `Split`: joining puts the first separator back. */
  lemma SplitStepJoin(s: string, sep: string, i: nat, rest: seq<string>)
    requires OccursAt(s, sep, i)
    requires |rest| >= 1 && Join(rest, sep) == s[i + |sep|..]
    ensures Join([s[..i]] + rest, sep) == s
  {
    JoinCons(s[..i], rest, sep);
    Around(s, sep, i);
  }

  /** `sep.join([head] + rest)` for a non-empty `rest`. */
  lemma JoinCons(head: string, rest: seq<string>, sep: string)
    requires |rest| >= 1
    ensures Join([head] + rest, sep) == head + sep + Join(rest, sep)
  {
    var r := [head] + rest;
    assert |r| >= 2 && r[0] == head && r[1..] == rest;
  }

  /** `s` is what precedes an occurrence of `pat`, then `pat`, then what follows. */
  lemma Around(s: string, pat: string, i: nat)
    requires OccursAt(s, pat, i)
    ensures s == s[..i] + pat + s[i + |pat|..]
  {
    assert s == s[..i] + s[i..i + |pat|] + s[i + |pat|..];
  }

  /** One step of `Split`. */
  lemma SplitStep(s: string, sep: string, i: nat, rest: seq<string>)
    requires |sep| > 0 && OccursAt(s, sep, i)
    requires forall j :: 0 <= j < i ==> !OccursAt(s, sep, j)
    requires |rest| >= 1 && Join(rest, sep) == s[i + |sep|..]
    requires forall k :: 0 <= k < |rest| ==> !Contains(rest[k], sep)
    ensures forall k :: 0 <= k < |[s[..i]] + rest| ==> !Contains(([s[..i]] + rest)[k], sep)
    ensures Join([s[..i]] + rest, sep) == s
  {
    SplitStepPieces(s, sep, i, rest);
    SplitStepJoin(s, sep, i, rest);
  }

  /** The first piece of `s.split(sep)`: everything before the first `sep`. */
  lemma SplitFirst(s: string, sep: string)
    requires |sep| > 0
    ensures Find(s, sep).None? ==> Split(s, sep)[0] == s
    ensures Find(s, sep).Some? ==> Split(s, sep)[0] == s[..Find(s, sep).value]
  {
  }

  /** The second piece of `s.split(sep)`: what follows the first `sep`, up to the next one. */
  lemma SplitSecond(s: string, sep: string)
    requires |sep| > 0 && Contains(s, sep)
    ensures Find(s, sep).Some?
    ensures |Split(s, sep)| >= 2
    ensures Split(s, sep)[1] == Split(s[Find(s, sep).value + |sep|..], sep)[0]
  {
  }

  /** `c.lower()` on the ASCII letters; every other character is kept. */
  function LowerChar(c: char): char {
    if 'A' <= c <= 'Z' then (c as int + 32) as char else c
  }

  /** `s.lower()`, ASCII case mapping only (see README). */
  function Lower(s: string): (r: string)
    ensures |r| == |s|
    ensures forall i :: 0 <= i < |r| ==> !('A' <= r[i] <= 'Z')
    ensures SameIgnoringCase(s, r)
  {
    seq(|s|, i requires 0 <= i < |s| => LowerChar(s[i]))
  }

  /** `a` and `b` are the same string up to the case of ASCII letters. */
  predicate SameIgnoringCase(a: string, b: string) {
    |a| == |b| && forall i :: 0 <= i < |a| ==> LowerChar(a[i]) == LowerChar(b[i])
  }

  /** Comparing `s.lower()` with a lower-case literal is a case-insensitive comparison. */
  lemma LowerMatchesLiteral(s: string, t: string)
    requires Lower(t) == t
    ensures Lower(s) == t <==> SameIgnoringCase(s, t)
  {
    if SameIgnoringCase(s, t) {
      forall i | 0 <= i < |s| ensures Lower(s)[i] == t[i] {
        assert LowerChar(t[i]) == Lower(t)[i];
      }
    }
    if Lower(s) == t {
      forall i | 0 <= i < |s| ensures LowerChar(s[i]) == LowerChar(t[i]) {
        assert LowerChar(s[i]) == t[i];
        assert LowerChar(t[i]) == Lower(t)[i];
        assert LowerChar(LowerChar(s[i])) == LowerChar(s[i]);
      }
    }
  }
}
