/** String operations the handlers rely on, with Python's semantics:
    `str.strip()`, `str.split('\n')`, `str.replace(pat, '')`, `s[:n]` and `in`. */
module Text {
  import opened Wrappers

  /** Characters Python treats as whitespace, both for `str.strip()` and for
      the regular-expression class `\s` (str.isspace() is true). */
  predicate IsSpace(c: char) {
    || c == ' ' || c == '\t' || c == '\n' || c == '\r'
    || c == '\U{0B}' || c == '\U{0C}'
    || ('\U{1C}' <= c <= '\U{1F}')
    || c == '\U{85}' || c == '\U{A0}' || c == '\U{1680}'
    || ('\U{2000}' <= c <= '\U{200A}')
    || c == '\U{2028}' || c == '\U{2029}' || c == '\U{202F}' || c == '\U{205F}'
    || c == '\U{3000}'
  }

  predicate AllSpace(s: string) {
    forall i :: 0 <= i < |s| ==> IsSpace(s[i])
  }

  /** No whitespace at either end: what `strip()` leaves behind. */
  predicate Stripped(s: string) {
    s == [] || (!IsSpace(s[0]) && !IsSpace(s[|s| - 1]))
  }

  /** `pat` occurs in `s` starting at index `i`. */
  predicate OccursAt(pat: string, s: string, i: nat) {
    i + |pat| <= |s| && s[i..i + |pat|] == pat
  }

  /** `pat in s` */
  predicate IsInfix(pat: string, s: string) {
    exists i: nat :: i <= |s| && OccursAt(pat, s, i)
  }

  /** The first index at or after `i` that does not hold whitespace
      (`|s|` when there is none). */
  function SkipSpace(s: string, i: nat): (n: nat)
    requires i <= |s|
    ensures i <= n <= |s|
    ensures forall k :: i <= k < n ==> IsSpace(s[k])
    ensures n == |s| || !IsSpace(s[n])
    decreases |s| - i
  {
    if i == |s| || !IsSpace(s[i]) then i else SkipSpace(s, i + 1)
  }

  /** The end of `s[lo..j]` once its trailing whitespace is cut off. */
  function SkipSpaceBack(s: string, lo: nat, j: nat): (n: nat)
    requires lo <= j <= |s|
    ensures lo <= n <= j
    ensures forall k :: n <= k < j ==> IsSpace(s[k])
    ensures n == lo || !IsSpace(s[n - 1])
    decreases j
  {
    if j == lo || !IsSpace(s[j - 1]) then j else SkipSpaceBack(s, lo, j - 1)
  }

  /** `s.strip()`: the result is the slice of `s` between its leading and its
      trailing whitespace. */
  function Strip(s: string): (r: string)
    ensures Stripped(r)
    ensures exists a: nat :: OccursAt(r, s, a) && AllSpace(s[..a]) && AllSpace(s[a + |r|..])
  {
    var a := SkipSpace(s, 0);
    var b := SkipSpaceBack(s, a, |s|);
    assert OccursAt(s[a..b], s, a);
    assert AllSpace(s[..a]) && AllSpace(s[b..]);
    s[a..b]
  }

  /** `s[:n]` */
  function Take(s: string, n: nat): (r: string)
    ensures |r| == if |s| < n then |s| else n
    ensures r == s[..|r|]
  {
    if |s| < n then s else s[..n]
  }

  /** Index of the first occurrence of `c` in `s` at or after `from`. */
  function IndexOfFrom(s: string, c: char, from: nat): (r: Option<nat>)
    requires from <= |s|
    ensures r.Some? ==> from <= r.value < |s| && s[r.value] == c
    ensures r.Some? ==> forall k :: from <= k < r.value ==> s[k] != c
    ensures r.None? ==> forall k :: from <= k < |s| ==> s[k] != c
    decreases |s| - from
  {
    if from == |s| then None
    else if s[from] == c then Some(from)
    else IndexOfFrom(s, c, from + 1)
  }

  /** `s.split('\n')` */
  function Lines(s: string): (r: seq<string>)
    ensures |r| >= 1
    ensures forall l :: l in r ==> '\n' !in l
    decreases |s|
  {
    match IndexOfFrom(s, '\n', 0)
    case None => [s]
    case Some(i) =>
      assert '\n' !in s[..i] by {
        forall k | 0 <= k < i ensures s[..i][k] != '\n' { }
      }
      [s[..i]] + Lines(s[i + 1..])
  }

  /** `'\n'.join(ls)` */
  function JoinLines(ls: seq<string>): string
    requires |ls| >= 1
  {
    if |ls| == 1 then ls[0] else ls[0] + "\n" + JoinLines(ls[1..])
  }

  /** Splitting on newlines loses nothing: joining the pieces gives the input back. */
  lemma {:induction false} JoinLinesOfLines(s: string)
    ensures JoinLines(Lines(s)) == s
    decreases |s|
  {
    match IndexOfFrom(s, '\n', 0)
    case None =>
    case Some(i) =>
      JoinLinesOfLines(s[i + 1..]);
      assert s == s[..i] + "\n" + s[i + 1..];
  }

  /** `split('\n')` gives a single piece exactly when there is no newline. */
  lemma SingleLineIff(s: string)
    ensures |Lines(s)| == 1 <==> '\n' !in s
  {
    match IndexOfFrom(s, '\n', 0)
    case None =>
    case Some(i) =>
  }

  /** `s.replace(pat, '')`: occurrences of `pat` are removed left to right,
      without overlap. */
  function RemoveAll(s: string, pat: string): (r: string)
    requires |pat| > 0
    ensures |r| <= |s|
    ensures multiset(r) <= multiset(s)
    decreases |s|
  {
    if |s| < |pat| then s
    else if s[..|pat|] == pat then
      assert s == s[..|pat|] + s[|pat|..];
      RemoveAll(s[|pat|..], pat)
    else
      assert s == [s[0]] + s[1..];
      [s[0]] + RemoveAll(s[1..], pat)
  }

  /** Removing a pattern that does not occur changes nothing. */
  lemma {:induction false} RemoveAbsent(s: string, pat: string)
    requires |pat| > 0 && !IsInfix(pat, s)
    ensures RemoveAll(s, pat) == s
    decreases |s|
  {
    if |s| < |pat| {
    } else {
      assert !OccursAt(pat, s, 0);
      assert !IsInfix(pat, s[1..]) by {
        if IsInfix(pat, s[1..]) {
          var i: nat :| i <= |s[1..]| && OccursAt(pat, s[1..], i);
          assert s[i + 1..i + 1 + |pat|] == pat;
          assert OccursAt(pat, s, i + 1);
        }
      }
      RemoveAbsent(s[1..], pat);
    }
  }

  /** A leading occurrence is removed, and removal goes on in the rest. */
  lemma RemoveLeading(pat: string, t: string)
    requires |pat| > 0
    ensures RemoveAll(pat + t, pat) == RemoveAll(t, pat)
  {
    assert (pat + t)[..|pat|] == pat;
    assert (pat + t)[|pat|..] == t;
  }

  /** A pattern whose first character does not occur in `s` does not occur in `s`. */
  lemma AbsentHead(pat: string, s: string)
    requires |pat| > 0 && pat[0] !in s
    ensures !IsInfix(pat, s)
  {
    forall i: nat | i <= |s| ensures !OccursAt(pat, s, i) {
      if i + |pat| <= |s| {
        assert s[i] in s;
        assert s[i..i + |pat|][0] == s[i];
      }
    }
  }

  /** Putting a character that cannot start the pattern in front of a
      string creates no occurrence. */
  lemma AbsentCons(c: char, pat: string, t: string)
    requires |pat| > 0 && c != pat[0] && !IsInfix(pat, t)
    ensures !IsInfix(pat, [c] + t)
  {
    var s := [c] + t;
    forall i: nat | i <= |s| ensures !OccursAt(pat, s, i) {
      if i > 0 && OccursAt(pat, s, i) {
        assert s[i..i + |pat|] == t[i - 1..i - 1 + |pat|];
        assert OccursAt(pat, t, i - 1);
      }
    }
  }

  /** Stripping twice is stripping once. */
  lemma StripIdempotent(s: string)
    ensures Strip(Strip(s)) == Strip(s)
  {
    StripOfStripped(Strip(s));
  }

  /** A string with no edge whitespace is its own strip. */
  lemma StripOfStripped(s: string)
    requires Stripped(s)
    ensures Strip(s) == s
  {
  }

  /** The scan from `i` stops at the first non-whitespace character. */
  lemma SkipSpaceAt(s: string, i: nat, n: nat)
    requires i <= n <= |s|
    requires forall k :: i <= k < n ==> IsSpace(s[k])
    requires n == |s| || !IsSpace(s[n])
    ensures SkipSpace(s, i) == n
  {
  }

  /** The scan back from `j` stops after the last non-whitespace character. */
  lemma SkipSpaceBackAt(s: string, lo: nat, j: nat, n: nat)
    requires lo <= n <= j <= |s|
    requires forall k :: n <= k < j ==> IsSpace(s[k])
    requires n == lo || !IsSpace(s[n - 1])
    ensures SkipSpaceBack(s, lo, j) == n
  {
  }

  /** Strip undoes padding: whitespace added around a stripped text is removed again. */
  lemma StripPadded(lead: string, t: string, trail: string)
    requires AllSpace(lead) && AllSpace(trail) && Stripped(t) && t != []
    ensures Strip(lead + t + trail) == t
  {
    var s := lead + t + trail;
    var a, b := |lead|, |lead| + |t|;
    forall k | 0 <= k < a ensures IsSpace(s[k]) {
      assert s[k] == lead[k];
    }
    assert s[a] == t[0];
    SkipSpaceAt(s, 0, a);
    forall k | b <= k < |s| ensures IsSpace(s[k]) {
      assert s[k] == trail[k - b];
    }
    assert s[b - 1] == t[|t| - 1];
    SkipSpaceBackAt(s, a, |s|, b);
    assert s[a..b] == t;
  }
}
