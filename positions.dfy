// Where one text occurs in another, and how such positions carry through concatenation.
// The lemmas here work on arbitrary strings and hand the position they establish back to
// the caller, so that facts about generated text reduce to matching terms.
module Positions {

  /** `t` occurs in `s` at position `i`. */
  predicate At(s: string, t: string, i: nat) {
    i + |t| <= |s| && s[i..i + |t|] == t
  }

  /** `t` occurs somewhere in `s`. */
  predicate Contains(s: string, t: string) {
    exists i :: 0 <= i <= |s| && At(s, t, i)
  }

  lemma AtSelf(t: string)
    ensures At(t, t, 0)
  {
  }

  lemma AtStart(a: string, b: string)
    ensures At(a + b, a, 0)
  {
    assert (a + b)[..|a|] == a;
  }

  lemma AtLeft(a: string, b: string, t: string, i: nat)
    requires At(a, t, i)
    ensures At(a + b, t, i)
  {
    assert (a + b)[i..i + |t|] == a[i..i + |t|];
  }

  lemma AtRight(a: string, b: string, t: string, i: nat)
    requires At(b, t, i)
    ensures At(a + b, t, |a| + i)
  {
    assert (a + b)[|a| + i..|a| + i + |t|] == b[i..i + |t|];
  }

  lemma AtContains(s: string, t: string, i: nat)
    requires At(s, t, i)
    ensures Contains(s, t)
  {
  }

  /** An occurrence inside an occurrence. */
  lemma AtWithin(s: string, a: string, t: string, i: nat, j: nat) returns (k: nat)
    requires At(s, a, i) && At(a, t, j)
    ensures k == i + j && At(s, t, k)
  {
    forall m | 0 <= m < |t| ensures s[i + j + m] == t[m] {
      assert a[j + m] == t[m];
      assert s[i..i + |a|][j + m] == s[i + j + m];
    }
    assert s[i + j..i + j + |t|] == t;
    k := i + j;
  }

  /** An occurrence in the second of two parts. */
  lemma AtAfter(s: string, p: string, g: string, t: string, i: nat) returns (j: nat)
    requires s == p + g
    requires At(g, t, i)
    ensures j == |p| + i && At(s, t, j)
  {
    AtRight(p, g, t, i);
    j := |p| + i;
  }

  /** An occurrence in the middle of three parts. */
  lemma AtMiddle(s: string, p: string, g: string, c: string, t: string, i: nat) returns (j: nat)
    requires s == p + g + c
    requires At(g, t, i)
    ensures j == |p| + i && At(s, t, j)
  {
    AtRight(p, g, t, i);
    AtLeft(p + g, c, t, |p| + i);
    j := |p| + i;
  }

  /** Where the first three and the last of five consecutive parts sit. */
  lemma FiveParts(s: string, a: string, b: string, c: string, d: string, e: string)
    requires s == a + b + c + d + e
    ensures At(s, a, 0) && At(s, b, |a|) && At(s, c, |a| + |b|) && At(s, e, |s| - |e|)
  {
    AtStart(a, b);
    AtLeft(a + b, c, a, 0);
    AtLeft(a + b + c, d, a, 0);
    AtLeft(a + b + c + d, e, a, 0);
    AtSelf(b);
    AtRight(a, b, b, 0);
    AtLeft(a + b, c, b, |a|);
    AtLeft(a + b + c, d, b, |a|);
    AtLeft(a + b + c + d, e, b, |a|);
    AtSelf(c);
    AtRight(a + b, c, c, 0);
    AtLeft(a + b + c, d, c, |a| + |b|);
    AtLeft(a + b + c + d, e, c, |a| + |b|);
    AtSelf(e);
    AtRight(a + b + c + d, e, e, 0);
  }

  /** The parts written one after another. */
  function Concat(parts: seq<string>): string
    decreases |parts|
  {
    if parts == [] then "" else Concat(parts[..|parts| - 1]) + parts[|parts| - 1]
  }

  /** Every part occurs in the concatenation. */
  lemma {:induction false} ConcatAt(parts: seq<string>, n: nat) returns (i: nat)
    requires n < |parts|
    ensures At(Concat(parts), parts[n], i)
    decreases |parts|
  {
    var init := parts[..|parts| - 1];
    var last := parts[|parts| - 1];
    if n == |parts| - 1 {
      AtSelf(last);
      AtRight(Concat(init), last, last, 0);
      i := |Concat(init)|;
    } else {
      assert init[n] == parts[n];
      i := ConcatAt(init, n);
      AtLeft(Concat(init), last, parts[n], i);
    }
  }
}
