// A dictionary filled one entry at a time, as `d[key] = value` inside a loop: an entry for
// a key that is already present replaces it, so the last entry for a key wins. The
// configuration readers of project.py and setup.py all fill their dictionaries this way.
module Assignments {
  import opened Wrappers

  /** The dictionary after the entries `es`, in order, starting from an empty one; a
      `None` entry (a line that sets nothing) leaves it unchanged. */
  function Assigned<K(==), V>(es: seq<Option<(K, V)>>): map<K, V>
    decreases |es|
  {
    if es == [] then map[]
    else
      var d := Assigned(es[..|es| - 1]);
      var e := es[|es| - 1];
      if e.Some? then d[e.value.0 := e.value.1] else d
  }

  /** The entry `e` sets the key `k`. */
  predicate Sets<K(==), V>(e: Option<(K, V)>, k: K) {
    e.Some? && e.value.0 == k
  }

  /** The `i`-th entry is the last one that sets `k`. */
  predicate LastSets<K(==), V>(es: seq<Option<(K, V)>>, i: nat, k: K) {
    i < |es| && Sets(es[i], k) && forall j :: i < j < |es| ==> !Sets(es[j], k)
  }

  /** One more entry, as the loops add them. */
  lemma AssignedSnoc<K, V>(es: seq<Option<(K, V)>>, e: Option<(K, V)>)
    ensures Assigned(es + [e]) == if e.Some? then Assigned(es)[e.value.0 := e.value.1] else Assigned(es)
  {
    assert (es + [e])[..|es|] == es;
  }

  /** A key is in the dictionary exactly when some entry sets it. */
  lemma {:induction false} AssignedKeys<K, V>(es: seq<Option<(K, V)>>, k: K)
    ensures k in Assigned(es) <==> exists i :: 0 <= i < |es| && Sets(es[i], k)
    decreases |es|
  {
    if es != [] {
      var init := es[..|es| - 1];
      AssignedKeys(init, k);
      if k in Assigned(init) {
        var i :| 0 <= i < |init| && Sets(init[i], k);
        assert es[i] == init[i];
      }
      if !Sets(es[|es| - 1], k) {
        forall i | 0 <= i < |init| && Sets(es[i], k) ensures Sets(init[i], k) {
          assert es[i] == init[i];
        }
      }
    }
  }

  /** The last entry for a key gives its value. */
  lemma {:induction false} AssignedLast<K, V>(es: seq<Option<(K, V)>>, i: nat, k: K)
    requires LastSets(es, i, k)
    ensures k in Assigned(es) && Assigned(es)[k] == es[i].value.1
    decreases |es|
  {
    var init := es[..|es| - 1];
    if i < |es| - 1 {
      forall j | i < j < |init| ensures !Sets(init[j], k) {
        assert init[j] == es[j];
      }
      assert init[i] == es[i];
      AssignedLast(init, i, k);
      assert !Sets(es[|es| - 1], k);
    }
  }

  /** Every key of the dictionary has a last entry, and that entry gives its value. */
  lemma {:induction false} AssignedValue<K, V>(es: seq<Option<(K, V)>>, k: K) returns (i: nat)
    requires k in Assigned(es)
    ensures LastSets(es, i, k) && Assigned(es)[k] == es[i].value.1
    decreases |es|
  {
    var init := es[..|es| - 1];
    if Sets(es[|es| - 1], k) {
      i := |es| - 1;
    } else {
      i := AssignedValue(init, k);
      assert es[i] == init[i];
      forall j | i < j < |es| ensures !Sets(es[j], k) {
        if j < |init| { assert es[j] == init[j]; }
      }
    }
  }

  /** What holds of every entry holds of every key and value of the dictionary. */
  lemma AssignedEvery<K, V>(es: seq<Option<(K, V)>>, p: (K, V) -> bool)
    requires forall i :: 0 <= i < |es| && es[i].Some? ==> p(es[i].value.0, es[i].value.1)
    ensures forall k :: k in Assigned(es) ==> p(k, Assigned(es)[k])
  {
    forall k | k in Assigned(es) ensures p(k, Assigned(es)[k]) {
      var i := AssignedValue(es, k);
    }
  }
}
