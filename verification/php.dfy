/**
 * The handful of PHP built-ins the router's string handling relies on, with PHP's
 * own edge cases: the truthiness of strings, ASCII `strtoupper`, `strpos`/`strrpos`,
 * `str_replace` and `implode`.
 */
module Php {
  import opened Wrappers

  /** PHP reads a string as `false` exactly when it is "" or "0". */
  predicate Truthy(s: string) {
    s != "" && s != "0"
  }

  predicate IsLower(c: char) { 'a' <= c <= 'z' }

  predicate IsUpper(c: char) { 'A' <= c <= 'Z' }

  predicate IsDigit(c: char) { '0' <= c <= '9' }

  /** `strtoupper` on one character: only the ASCII letters a-z change. */
  function UpperChar(c: char): (u: char)
    ensures IsLower(c) ==> IsUpper(u) && u as int == c as int - 32
    ensures !IsLower(c) ==> u == c
  {
    if IsLower(c) then (c as int - 32) as char else c
  }

  /** `strtoupper`: every ASCII lower-case letter is replaced by its upper case. */
  function ToUpper(s: string): (r: string)
    ensures |r| == |s|
    ensures forall i :: 0 <= i < |s| ==> r[i] == UpperChar(s[i])
  {
    if s == [] then [] else [UpperChar(s[0])] + ToUpper(s[1..])
  }

  /** Upper-casing twice is upper-casing once. */
  lemma ToUpperIdempotent(s: string)
    ensures ToUpper(ToUpper(s)) == ToUpper(s)
  {
  }

  /** `array_map('strtoupper', xs)`. */
  function UpperAll(xs: seq<string>): (r: seq<string>)
    ensures |r| == |xs|
    ensures forall i :: 0 <= i < |xs| ==> r[i] == ToUpper(xs[i])
  {
    if xs == [] then [] else [ToUpper(xs[0])] + UpperAll(xs[1..])
  }

  lemma {:induction false} UpperAllIdempotent(xs: seq<string>)
    ensures UpperAll(UpperAll(xs)) == UpperAll(xs)
  {
    var once := UpperAll(xs);
    forall i | 0 <= i < |xs|
      ensures UpperAll(once)[i] == once[i]
    {
      ToUpperIdempotent(xs[i]);
    }
  }

  /** `strrpos($s, $c)` for a one-character needle: the position of the last `c`. */
  function LastIndexOf(s: string, c: char): (r: Option<nat>)
    ensures r.Some? ==> r.value < |s| && s[r.value] == c
    ensures r.Some? ==> forall j :: r.value < j < |s| ==> s[j] != c
    ensures r.None? <==> c !in s
  {
    if s == [] then None
    else if s[|s| - 1] == c then Some(|s| - 1)
    else LastIndexOf(s[..|s| - 1], c)
  }

  /** A position holding `c` with no `c` after it is what `LastIndexOf` finds. */
  lemma {:induction false} LastIndexOfIs(s: string, c: char, k: nat)
    requires k < |s| && s[k] == c
    requires forall j :: k < j < |s| ==> s[j] != c
    ensures LastIndexOf(s, c) == Some(k)
    decreases |s|
  {
    if k < |s| - 1 {
      assert s[..|s| - 1][k] == c;
      LastIndexOfIs(s[..|s| - 1], c, k);
    }
  }

  /** `pat` occurs in `s` at position `i`. */
  predicate OccursAt(s: string, pat: string, i: nat) {
    i + |pat| <= |s| && s[i..i + |pat|] == pat
  }

  /** An occurrence in a prefix of `s` is an occurrence in `s`, at the same place. */
  lemma PrefixOccurrence(s: string, pat: string, n: nat, k: nat)
    requires n <= |s|
    ensures OccursAt(s[..n], pat, k) ==> k + |pat| <= n && OccursAt(s, pat, k)
  {
    if OccursAt(s[..n], pat, k) {
      assert s[..n][k..k + |pat|] == s[k..k + |pat|];
    }
  }

  /** `strpos($s, $pat)`: the position of the first occurrence of `pat`. */
  function IndexOf(s: string, pat: string): (r: Option<nat>)
    ensures r.Some? ==> OccursAt(s, pat, r.value)
    ensures r.Some? ==> forall j: nat :: j < r.value ==> !OccursAt(s, pat, j)
    ensures r.None? ==> forall j: nat :: !OccursAt(s, pat, j)
    decreases |s|
  {
    if |s| < |pat| then None
    else if s[..|pat|] == pat then Some(0)
    else
      assert !OccursAt(s, pat, 0);
      match IndexOf(s[1..], pat)
      case None =>
        assert forall j: nat :: !OccursAt(s, pat, j) by {
          forall j: nat | OccursAt(s, pat, j)
            ensures false
          {
            ShiftOccurrence(s, pat, j - 1);
          }
        }
        None
      case Some(k) =>
        assert OccursAt(s, pat, k + 1) by {
          assert s[k + 1..k + 1 + |pat|] == s[1..][k..k + |pat|];
        }
        assert forall j: nat :: j < k + 1 ==> !OccursAt(s, pat, j) by {
          forall j: nat | j < k + 1 && OccursAt(s, pat, j)
            ensures false
          {
            ShiftOccurrence(s, pat, j - 1);
          }
        }
        Some(k + 1)
  }

  /** An occurrence past the first character is an occurrence in the tail. */
  lemma ShiftOccurrence(s: string, pat: string, j: nat)
    requires |s| > 0
    ensures OccursAt(s, pat, j + 1) <==> OccursAt(s[1..], pat, j)
  {
    if j + 1 + |pat| <= |s| {
      assert s[j + 1..j + 1 + |pat|] == s[1..][j..j + |pat|];
    }
  }

  /** `strpos($s, $pat) !== false`. */
  predicate Contains(s: string, pat: string) {
    IndexOf(s, pat).Some?
  }

  /**
   * `str_replace($search, $replace, $subject)` for one string: occurrences are found
   * left to right, never overlapping, and inserted text is not searched again.
   * An empty search string leaves the subject unchanged.
   */
  function ReplaceAll(search: string, replace: string, subject: string): (r: string)
    ensures search == [] ==> r == subject
    ensures |replace| >= |search| ==> |r| >= |subject|
    decreases |subject|
  {
    if search == [] || |subject| < |search| then subject
    else if subject[..|search|] == search then
      replace + ReplaceAll(search, replace, subject[|search|..])
    else
      [subject[0]] + ReplaceAll(search, replace, subject[1..])
  }

  /** A subject in which the search string never occurs comes back unchanged. */
  lemma {:induction false} ReplaceAllAbsent(search: string, replace: string, subject: string)
    requires forall j: nat :: !OccursAt(subject, search, j)
    ensures ReplaceAll(search, replace, subject) == subject
    decreases |subject|
  {
    if search == [] || |subject| < |search| {
    } else {
      assert !OccursAt(subject, search, 0);
      assert subject[..|search|] != search;
      forall j: nat
        ensures !OccursAt(subject[1..], search, j)
      {
        if OccursAt(subject[1..], search, j) {
          assert subject[1..][j..j + |search|] == subject[j + 1..j + 1 + |search|];
          assert OccursAt(subject, search, j + 1);
        }
      }
      ReplaceAllAbsent(search, replace, subject[1..]);
    }
  }

  /** An occurrence at the very start is replaced and the rest rewritten. */
  lemma ReplaceAllAtStart(search: string, replace: string, subject: string)
    requires search != [] && OccursAt(subject, search, 0)
    ensures ReplaceAll(search, replace, subject) == replace + ReplaceAll(search, replace, subject[|search|..])
  {
    assert subject[..|search|] == search;
  }

  /** Where no occurrence starts at the first character, that character is copied. */
  lemma ReplaceAllSkip(search: string, replace: string, subject: string)
    requires search != [] && |subject| >= |search| && !OccursAt(subject, search, 0)
    ensures ReplaceAll(search, replace, subject)
         == [subject[0]] + ReplaceAll(search, replace, subject[1..])
  {
    assert subject[..|search|] != search;
  }

  /** Moving one character from the tail onto the kept prefix. */
  lemma ShiftSplit(subject: string, i: nat, n: nat)
    requires 0 < i && i + n <= |subject|
    ensures subject[..i] == [subject[0]] + subject[1..][..i - 1]
    ensures subject[1..][i - 1 + n..] == subject[i + n..]
  {
  }

  /**
   * An occurrence at `i` and none before it become, in the tail, an occurrence at
   * `i - 1` and none before that.
   */
  lemma NoEarlierInTail(s: string, pat: string, i: nat)
    requires 0 < i && OccursAt(s, pat, i)
    requires forall j: nat :: j < i ==> !OccursAt(s, pat, j)
    ensures i + |pat| <= |s| && !OccursAt(s, pat, 0)
    ensures OccursAt(s[1..], pat, i - 1)
    ensures forall j: nat :: j < i - 1 ==> !OccursAt(s[1..], pat, j)
  {
    ShiftOccurrence(s, pat, i - 1);
    forall j: nat | j < i - 1
      ensures !OccursAt(s[1..], pat, j)
    {
      ShiftOccurrence(s, pat, j);
    }
  }

  /** Regrouping a character put in front of a three-part string. */
  lemma ConsJoin(x: string, y: string, c: char, a: string, b: string, z: string)
    requires x == [c] + y && y == a + b + z
    ensures x == ([c] + a) + b + z
  {
  }

  /** Rewriting `s` replaces the occurrence at `i` and keeps what precedes it. */
  predicate FirstReplaced(search: string, replace: string, s: string, i: nat)
    requires i + |search| <= |s|
  {
    ReplaceAll(search, replace, s) == s[..i] + replace + ReplaceAll(search, replace, s[i + |search|..])
  }

  /** One copied character in front of a tail whose first occurrence is already replaced. */
  lemma SkipThenFirst(search: string, replace: string, subject: string, i: nat)
    requires search != [] && 0 < i && i + |search| <= |subject| && !OccursAt(subject, search, 0)
    requires FirstReplaced(search, replace, subject[1..], i - 1)
    ensures FirstReplaced(search, replace, subject, i)
  {
    var t := subject[1..];
    ShiftSplit(subject, i, |search|);
    ReplaceAllSkip(search, replace, subject);
    ConsJoin(ReplaceAll(search, replace, subject), ReplaceAll(search, replace, t),
             subject[0], t[..i - 1], replace, ReplaceAll(search, replace, subject[i + |search|..]));
  }

  /** The induction behind `ReplaceAllFirst`, on the position of the first occurrence. */
  lemma {:induction false} FirstReplacedAt(search: string, replace: string, subject: string, i: nat)
    requires search != [] && OccursAt(subject, search, i)
    requires forall j: nat :: j < i ==> !OccursAt(subject, search, j)
    ensures FirstReplaced(search, replace, subject, i)
    decreases i
  {
    if i == 0 {
      ReplaceAllAtStart(search, replace, subject);
      assert subject[..i] == [];
    } else {
      NoEarlierInTail(subject, search, i);
      FirstReplacedAt(search, replace, subject[1..], i - 1);
      SkipThenFirst(search, replace, subject, i);
    }
  }

  /**
   * The first occurrence is replaced: with `search` first occurring at `i`, the
   * result is the text before it, then `replace`, then the rest rewritten.
   */
  lemma {:induction false} ReplaceAllFirst(search: string, replace: string, subject: string, i: nat)
    requires search != [] && OccursAt(subject, search, i)
    requires forall j: nat :: j < i ==> !OccursAt(subject, search, j)
    ensures ReplaceAll(search, replace, subject)
         == subject[..i] + replace + ReplaceAll(search, replace, subject[i + |search|..])
  {
    FirstReplacedAt(search, replace, subject, i);
  }

  /** `implode($sep, $xs)`. */
  function Implode(sep: string, xs: seq<string>): string {
    if xs == [] then ""
    else if |xs| == 1 then xs[0]
    else xs[0] + sep + Implode(sep, xs[1..])
  }
}
