/** The optional result of a lookup. */
module Wrappers {
  datatype Option<+T> = None | Some(value: T)
}

/** The C string routines that the firmware's file code relies on. */
module Text {

  /** strstr(hay, needle) != NULL */
  predicate Occurs(needle: string, hay: string) {
    exists i :: 0 <= i <= |hay| - |needle| && OccursAt(needle, hay, i)
  }

  predicate OccursAt(needle: string, hay: string, i: int)
    requires 0 <= i <= |hay| - |needle|
  {
    hay[i..i + |needle|] == needle
  }

  lemma OccursInside(before: string, needle: string, after: string)
    ensures Occurs(needle, before + needle + after)
  {
    assert OccursAt(needle, before + needle + after, |before|);
  }

  lemma OccursIff(needle: string, hay: string)
    ensures Occurs(needle, hay) <==> exists before, after :: hay == before + needle + after
  {
    if Occurs(needle, hay) {
      var i :| 0 <= i <= |hay| - |needle| && OccursAt(needle, hay, i);
      assert hay == hay[..i] + needle + hay[i + |needle|..];
    }
    if exists before, after :: hay == before + needle + after {
      var before, after :| hay == before + needle + after;
      OccursInside(before, needle, after);
    }
  }

  lemma OccursTransitive(a: string, b: string, c: string)
    requires Occurs(a, b) && Occurs(b, c)
    ensures Occurs(a, c)
  {
    var i :| 0 <= i <= |b| - |a| && OccursAt(a, b, i);
    var j :| 0 <= j <= |c| - |b| && OccursAt(b, c, j);
    assert c[j..j + |b|] == b;
    forall k | 0 <= k < |a| ensures c[j + i..j + i + |a|][k] == a[k] {
      assert a[k] == b[i..i + |a|][k] == b[i + k] == c[j..j + |b|][i + k];
    }
    assert OccursAt(a, c, j + i);
  }

  /** strchr: the position of the first c, or |s|. */
  function First(s: string, c: char): (i: nat)
    ensures i <= |s|
    ensures c !in s[..i]
    ensures i < |s| ==> s[i] == c
  {
    if s == [] || s[0] == c then 0 else 1 + First(s[1..], c)
  }

  /** strrchr: the position of the last c, or -1. */
  function Last(s: string, c: char): (i: int)
    ensures -1 <= i < |s|
    ensures c !in s[i + 1..]
    ensures 0 <= i ==> s[i] == c
  {
    if s == [] then -1
    else if s[|s| - 1] == c then |s| - 1
    else Last(s[..|s| - 1], c)
  }

  lemma {:induction false} FirstIs(s: string, c: char, i: nat)
    requires i < |s| && s[i] == c && forall j :: 0 <= j < i ==> s[j] != c
    ensures First(s, c) == i
  {
    if i > 0 {
      assert s[1..][i - 1] == s[i] && forall j :: 0 <= j < i - 1 ==> s[1..][j] == s[j + 1];
      FirstIs(s[1..], c, i - 1);
    }
  }

  lemma {:induction false} LastIs(s: string, c: char, i: nat)
    requires i < |s| && s[i] == c && forall j :: i < j < |s| ==> s[j] != c
    ensures Last(s, c) == i
  {
    if i < |s| - 1 {
      LastIs(s[..|s| - 1], c, i);
    }
  }
}
