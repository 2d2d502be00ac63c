/**
  The two functions of Go's `strings` package the engine relies on:
  `strings.Index`, which decides whether a file name marks a template, and
  `strings.ReplaceAll(name, filter, "")`, which strips the marker from a
  template's target name.
 */
module Strings {

  /** `pat` occurs in `s` starting at position `i`. */
  predicate OccursAt(s: string, pat: string, i: int) {
    0 <= i && i + |pat| <= |s| && s[i..i + |pat|] == pat
  }

  /** `pat` occurs somewhere in `s` (the empty pattern occurs everywhere). */
  predicate Contains(s: string, pat: string) {
    exists i | 0 <= i <= |s| :: OccursAt(s, pat, i)
  }

  /** An occurrence after the first character is an occurrence in the tail. */
  lemma OccursAtTail(s: string, pat: string, j: int)
    requires 1 <= j && |s| > 0
    ensures OccursAt(s, pat, j) <==> OccursAt(s[1..], pat, j - 1)
  {
    if j + |pat| <= |s| {
      assert s[j..j + |pat|] == s[1..][j - 1..j - 1 + |pat|];
    }
  }

  /**
    The search loop behind `strings.Index`: the first position at or after
    `from` where `pat` occurs in `s`, or -1 when there is none.
   */
  function IndexFrom(s: string, pat: string, from: nat): (r: int)
    ensures r == -1 || from <= r <= |s| - |pat|
    decreases |s| - from
  {
    if |s| < from + |pat| then
      -1
    else if OccursAt(s, pat, from) then
      from
    else
      IndexFrom(s, pat, from + 1)
  }

  /**
    `strings.Index(s, pat)`: the position of the leftmost occurrence of
    `pat` in `s`, or -1 when there is none.  The empty pattern is found at 0.
   */
  function Index(s: string, pat: string): (r: int)
    ensures r == -1 || 0 <= r <= |s| - |pat|
  {
    IndexFrom(s, pat, 0)
  }

  /** The search from `from` finds an occurrence with none between `from` and it; -1 means none at or after `from`. */
  lemma {:induction false} IndexFromIsLeftmost(s: string, pat: string, from: nat)
    ensures IndexFrom(s, pat, from) >= 0 ==> OccursAt(s, pat, IndexFrom(s, pat, from))
    ensures forall j :: from <= j < IndexFrom(s, pat, from) ==> !OccursAt(s, pat, j)
    ensures IndexFrom(s, pat, from) == -1 ==> forall j :: from <= j ==> !OccursAt(s, pat, j)
    decreases |s| - from
  {
    if |s| < from + |pat| {
    } else if OccursAt(s, pat, from) {
    } else {
      IndexFromIsLeftmost(s, pat, from + 1);
    }
  }

  /** `Index` returns the leftmost occurrence, and -1 exactly when there is none. */
  lemma IndexIsLeftmost(s: string, pat: string)
    ensures Index(s, pat) >= 0 ==> OccursAt(s, pat, Index(s, pat))
    ensures forall j :: 0 <= j < Index(s, pat) ==> !OccursAt(s, pat, j)
    ensures Index(s, pat) == -1 ==> forall j :: !OccursAt(s, pat, j)
  {
    IndexFromIsLeftmost(s, pat, 0);
  }

  /** The leftmost occurrence is what `Index` reports, whoever found it. */
  lemma IndexUnique(s: string, pat: string, r: int)
    requires r == -1 ==> forall j :: !OccursAt(s, pat, j)
    requires r != -1 ==> OccursAt(s, pat, r) && forall j :: 0 <= j < r ==> !OccursAt(s, pat, j)
    ensures Index(s, pat) == r
  {
    IndexIsLeftmost(s, pat);
  }

  /** `strings.Index(s, pat) > -1` is exactly substring containment. */
  lemma IndexFindsIff(s: string, pat: string)
    ensures Index(s, pat) > -1 <==> Contains(s, pat)
  {
    IndexIsLeftmost(s, pat);
    var i := Index(s, pat);
    if i >= 0 {
      assert OccursAt(s, pat, i);
    }
  }

  /**
    `strings.ReplaceAll(s, pat, "")`: walk `s` left to right, cutting out
    each leftmost non-overlapping occurrence of `pat` and resuming the search
    just after it.  Go matches the empty pattern between every pair of runes
    and replaces it with nothing, so an empty `pat` leaves `s` unchanged.
   */
  function RemoveAll(s: string, pat: string): (r: string)
    ensures |r| <= |s|
    decreases |s|
  {
    if |pat| == 0 then
      s
    else
      var i := Index(s, pat);
      if i < 0 then s else s[..i] + RemoveAll(s[i + |pat|..], pat)
  }

  /** The number of occurrences `RemoveAll` cuts out (`strings.Count` for a non-empty pattern). */
  function Count(s: string, pat: string): nat
    decreases |s|
  {
    if |pat| == 0 then
      0
    else
      var i := Index(s, pat);
      if i < 0 then 0 else 1 + Count(s[i + |pat|..], pat)
  }

  /**
    An independent reference for `RemoveAll`: look at the text one position
    at a time; where the pattern starts, drop it and jump past it, otherwise
    keep the character.
   */
  function CutScan(s: string, pat: string): string
    decreases |s|
  {
    if |pat| == 0 || |s| < |pat| then
      s
    else if s[..|pat|] == pat then
      CutScan(s[|pat|..], pat)
    else
      [s[0]] + CutScan(s[1..], pat)
  }

  lemma MulSucc(c: nat, m: nat)
    ensures (1 + c) * m == m + c * m
  {
  }

  /** The stripped name is shorter by exactly one pattern length per cut occurrence. */
  lemma {:induction false} RemoveAllLength(s: string, pat: string)
    ensures |RemoveAll(s, pat)| == |s| - Count(s, pat) * |pat|
    decreases |s|
  {
    if |pat| > 0 {
      var i := Index(s, pat);
      if i >= 0 {
        var rest := s[i + |pat|..];
        RemoveAllLength(rest, pat);
        assert Count(s, pat) == 1 + Count(rest, pat);
        assert |RemoveAll(s, pat)| == i + |RemoveAll(rest, pat)|;
        assert |rest| == |s| - i - |pat|;
        MulSucc(Count(rest, pat), |pat|);
      }
    }
  }

  /** A name without the pattern is left alone, and nothing is counted in it. */
  lemma RemoveAllWithoutOccurrence(s: string, pat: string)
    requires !Contains(s, pat)
    ensures RemoveAll(s, pat) == s
    ensures Count(s, pat) == 0
  {
    IndexFindsIff(s, pat);
  }

  /** For a non-empty pattern, something is cut out exactly when the pattern occurs. */
  lemma CountPositiveIff(s: string, pat: string)
    requires |pat| > 0
    ensures Count(s, pat) > 0 <==> Contains(s, pat)
    ensures Contains(s, pat) <==> |RemoveAll(s, pat)| < |s|
  {
    IndexFindsIff(s, pat);
    RemoveAllLength(s, pat);
  }

  /** When the text does not start with the pattern, the search in `s` is the search in its tail, shifted by one. */
  lemma IndexSkipsHead(s: string, pat: string)
    requires |s| > 0 && !OccursAt(s, pat, 0)
    ensures Index(s[1..], pat) < 0 ==> Index(s, pat) == -1
    ensures Index(s[1..], pat) >= 0 ==> Index(s, pat) == Index(s[1..], pat) + 1
  {
    var k := Index(s[1..], pat);
    IndexIsLeftmost(s[1..], pat);
    forall j | 1 <= j {
      OccursAtTail(s, pat, j);
    }
    if k < 0 {
      IndexUnique(s, pat, -1);
    } else {
      IndexUnique(s, pat, k + 1);
    }
  }

  /** One step of `RemoveAll`: keep what precedes the leftmost occurrence `i`, cut it, continue after it. */
  lemma RemoveAllCut(s: string, pat: string, i: int, rest: string)
    requires |pat| > 0 && Index(s, pat) == i && i >= 0 && rest == s[i + |pat|..]
    ensures RemoveAll(s, pat) == s[..i] + RemoveAll(rest, pat)
  {
  }

  lemma SliceAfterHead<T>(s: seq<T>, k: nat, n: nat)
    requires 0 < |s| && k + 1 + n <= |s|
    ensures s[..k + 1] == [s[0]] + s[1..][..k]
    ensures s[1..][k + n..] == s[k + 1 + n..]
  {
  }

  /**
    Re-bracketing `[c] + (b + x)`, stated over plain values so that the
    definitions of the functions that produced them stay out of the proof.
   */
  lemma ConsOntoCut<T>(c: T, b: seq<T>, x: seq<T>, whole: seq<T>, rest: seq<T>, front: seq<T>)
    requires front == [c] + b && whole == front + x && rest == b + x
    ensures whole == [c] + rest
  {
    assert [c] + (b + x) == ([c] + b) + x;
  }

  /** When the text does not start with the pattern, its first character is kept by `RemoveAll`. */
  lemma RemoveAllKeepsHead(s: string, pat: string)
    requires |pat| > 0 && |s| > 0 && !OccursAt(s, pat, 0)
    ensures RemoveAll(s, pat) == [s[0]] + RemoveAll(s[1..], pat)
  {
    var t := s[1..];
    IndexSkipsHead(s, pat);
    var k := Index(t, pat);
    if k < 0 {
      assert RemoveAll(s, pat) == s;
      assert RemoveAll(t, pat) == t;
      assert s == [s[0]] + t;
    } else {
      var rest := s[k + 1 + |pat|..];
      SliceAfterHead(s, k, |pat|);
      RemoveAllCut(s, pat, k + 1, rest);
      RemoveAllCut(t, pat, k, rest);
      ConsOntoCut(s[0], t[..k], RemoveAll(rest, pat), RemoveAll(s, pat), RemoveAll(t, pat), s[..k + 1]);
    }
  }

  /** Go's index-and-cut loop agrees with the position-by-position reference on every input. */
  lemma {:induction false} RemoveAllIsCutScan(s: string, pat: string)
    ensures RemoveAll(s, pat) == CutScan(s, pat)
    decreases |s|
  {
    if |pat| == 0 || |s| < |pat| {
      if |pat| > 0 {
        assert Index(s, pat) == -1;
      }
    } else if s[..|pat|] == pat {
      assert OccursAt(s, pat, 0);
      RemoveAllIsCutScan(s[|pat|..], pat);
    } else {
      RemoveAllKeepsHead(s, pat);
      RemoveAllIsCutScan(s[1..], pat);
    }
  }

  /** Cutting is not closure: what is left around a cut occurrence can join into a new one. */
  lemma StrippedNameMayStillContainFilter()
    ensures RemoveAll(".tm.tmplpl", ".tmpl") == ".tmpl"
    ensures Contains(RemoveAll(".tm.tmplpl", ".tmpl"), ".tmpl")
  {
    var s := ".tm.tmplpl";
    var pat := ".tmpl";
    assert !OccursAt(s, pat, 0) by { assert s[0..5][3] != pat[3]; }
    assert !OccursAt(s, pat, 1) by { assert s[1..6][0] != pat[0]; }
    assert !OccursAt(s, pat, 2) by { assert s[2..7][0] != pat[0]; }
    assert OccursAt(s, pat, 3) by { assert s[3..8] == pat; }
    assert IndexFrom(s, pat, 2) == 3;
    assert IndexFrom(s, pat, 1) == 3;
    assert Index(s, pat) == 3;
    var rest := "pl";
    assert s[8..] == rest;
    assert Index(rest, pat) == -1;
    RemoveAllCut(s, pat, 3, rest);
    assert s[..3] == ".tm";
    assert OccursAt(".tmpl", pat, 0);
  }

  /** Cutting a non-empty pattern out of itself leaves nothing. */
  lemma RemoveAllOfItself(pat: string)
    requires |pat| > 0
    ensures RemoveAll(pat, pat) == ""
  {
    assert OccursAt(pat, pat, 0);
    IndexUnique(pat, pat, 0);
    RemoveAllCut(pat, pat, 0, pat[|pat|..]);
    assert pat[|pat|..] == "";
    assert Index("", pat) == -1;
  }
}
