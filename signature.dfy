// The parameter list of a declaration, split into (type, name) pairs, and the documented
// parameters zipped with those pairs by position (cpp_bind_python.py, lines 117-134; the
// same code for methods at 194-211).
module Signature {
  import opened Text
  import opened Wrappers

  /** A documented parameter: its name and description come from an `@param` tag, its
      type from the declaration. */
  datatype Param = Param(name: string, cppType: string, desc: string)

  /** One comma-separated fragment: stripped, dropped when empty, and otherwise split at
      its last space into a stripped type and a stripped name; a fragment without a space
      is dropped. */
  function SigPair(fragment: string): (r: Option<(string, string)>)
    ensures r.Some? ==> ' ' !in r.value.1 && IsStripped(r.value.0) && IsStripped(r.value.1)
  {
    var p := Strip(fragment);
    var i := LastIndexOf(p, ' ');
    if p == [] || i == |p| then None
    else
      StripWithout(p[i + 1..], ' ');
      Some((Strip(p[..i]), Strip(p[i + 1..])))
  }

  /** The pairs of a whole parameter list, in order. */
  function SigPairs(paramList: string): seq<(string, string)> {
    FilterSome(SigPair, Split(paramList, ','))
  }

  /** The loop that builds the pairs. */
  method TokenizeSignature(paramList: string) returns (pairs: seq<(string, string)>)
    ensures pairs == SigPairs(paramList)
  {
    var fragments := Split(paramList, ',');
    pairs := [];
    var i := 0;
    while i < |fragments|
      invariant 0 <= i <= |fragments|
      invariant pairs == FilterSome(SigPair, fragments[..i])
    {
      FilterSomeSnoc(SigPair, fragments, i);
      var p := Strip(fragments[i]);
      if p != [] {
        var j := LastIndexOf(p, ' ');
        if j < |p| {
          pairs := pairs + [(Strip(p[..j]), Strip(p[j + 1..]))];
        }
      }
      i := i + 1;
    }
    assert fragments[..i] == fragments;
  }

  /** One declaration as written in a parameter list: the type, a space and the name. */
  function Declaration(decl: (string, string)): string {
    decl.0 + " " + decl.1
  }

  /** The last space of a declaration is the one before its name. */
  lemma LastSpace(t: string, n: string)
    requires ' ' !in n
    ensures LastIndexOf(t + " " + n, ' ') == |t|
    ensures (t + " " + n)[..|t|] == t && (t + " " + n)[|t| + 1..] == n
  {
    var p := t + " " + n;
    assert p[|t|] == ' ' && p[|t| + 1..] == n;
  }

  /** A fragment declaring a stripped type and a word name tokenises to that pair. */
  lemma SigPairOfDeclaration(fragment: string, decl: (string, string))
    requires Strip(fragment) == Declaration(decl)
    requires decl.0 != [] && IsStripped(decl.0)
    requires decl.1 != [] && AllWordChars(decl.1)
    ensures SigPair(fragment) == Some(decl)
  {
    var (t, n) := decl;
    assert ' ' !in n;
    LastSpace(t, n);
    StripStripped(t);
    StripStripped(n);
  }

  /** A parameter list made of such declarations, each surrounded by any whitespace,
      tokenises to exactly those pairs, in order. */
  lemma SigPairsOfDeclarations(fragments: seq<string>, decls: seq<(string, string)>)
    requires |fragments| == |decls| >= 1
    requires forall k :: 0 <= k < |fragments| ==> ',' !in fragments[k]
    requires forall k :: 0 <= k < |decls| ==> Strip(fragments[k]) == Declaration(decls[k])
    requires forall k :: 0 <= k < |decls| ==>
      decls[k].0 != [] && IsStripped(decls[k].0) && decls[k].1 != [] && AllWordChars(decls[k].1)
    ensures SigPairs(Join([','], fragments)) == decls
  {
    SplitJoin(fragments, ',');
    forall k | 0 <= k < |fragments| ensures SigPair(fragments[k]) == Some(decls[k]) {
      SigPairOfDeclaration(fragments[k], decls[k]);
    }
    FilterSomeAll(SigPair, fragments);
    var r := SigPairs(Join([','], fragments));
    assert r == FilterSome(SigPair, fragments);
    assert |r| == |decls|;
    forall k | 0 <= k < |r| ensures r[k] == decls[k] {
      assert SigPair(fragments[k]) == Some(decls[k]);
    }
  }

  /** An empty parameter list, or one made only of whitespace, gives no pairs. */
  lemma SigPairsBlank(paramList: string)
    requires AllSpace(paramList)
    ensures SigPairs(paramList) == []
  {
    var fragments := Split(paramList, ',');
    JoinAllSpace([','], fragments);
    forall k | 0 <= k < |fragments| ensures SigPair(fragments[k]).None? {
      StripPadded(fragments[k], [], []);
      assert fragments[k] + [] + [] == fragments[k];
    }
    FilterSomeNone(SigPair, fragments);
  }

  /** The zip of the documented parameters with the declared pairs: as long as the
      shorter of the two, the i-th entry taking its name and description from the i-th
      tag and its type from the i-th pair. Names are never compared. */
  function Zip(tags: seq<(string, string)>, sig: seq<(string, string)>): (r: seq<Param>)
    ensures |r| == if |tags| < |sig| then |tags| else |sig|
    ensures forall i :: 0 <= i < |r| ==>
      r[i] == Param(Strip(tags[i].0), sig[i].0, Strip(tags[i].1))
    decreases |tags|
  {
    if tags == [] || sig == [] then []
    else [Param(Strip(tags[0].0), sig[0].0, Strip(tags[0].1))] + Zip(tags[1..], sig[1..])
  }

  /** The loop that zips, leaving it as soon as the declared pairs run out. */
  method ZipParams(tags: seq<(string, string)>, sig: seq<(string, string)>)
    returns (params: seq<Param>)
    ensures params == Zip(tags, sig)
  {
    params := [];
    var i := 0;
    while i < |tags|
      invariant 0 <= i <= |tags| && i <= |sig|
      invariant |params| == i
      invariant forall k :: 0 <= k < i ==>
        params[k] == Param(Strip(tags[k].0), sig[k].0, Strip(tags[k].1))
    {
      if i >= |sig| {
        break;
      }
      var (name, desc) := tags[i];
      params := params + [Param(Strip(name), sig[i].0, Strip(desc))];
      i := i + 1;
    }
  }
}
