// The first half of the code generator in cpp_bind_python.py (`generate_pybind11_bind_code`,
// lines 256-287). Each record's module path, such as `add.test.add`, is split into the
// submodule it belongs to (here `test`) and its Python name (the last segment). The
// records are then collected into one group per submodule. Groups are kept in the order
// their submodule is first seen, which is the insertion order of the Python dictionary.
module Grouping {
  import opened Text
  import opened Wrappers
  import opened Signature
  import opened Annotations

  // ---------------------------------------------------------------------------------
  // Module paths.

  /** The submodule and the Python name of a module path. A path with one segment
      binds at the top level under that segment. Otherwise the first segment (the
      package) is dropped, the middle segments joined by dots name the submodule, and the
      last segment is the Python name. */
  function SplitModulePath(path: string): (r: (string, string))
    ensures '.' !in r.1
  {
    var parts := Split(path, '.');
    if |parts| < 2 then ("", parts[0])
    else (Join(".", parts[1..|parts| - 1]), parts[|parts| - 1])
  }

  /** A path without a dot binds at the top level, under its own text. */
  lemma PathOneSegment(path: string)
    requires '.' !in path
    ensures SplitModulePath(path) == ("", path)
  {
    SplitJoin([path], '.');
  }

  /** A path written as two or more dot-free segments goes to the submodule made of its
      middle segments, under its last segment; with exactly two segments that is the top
      level. */
  lemma PathSegments(segments: seq<string>)
    requires |segments| >= 2
    requires forall k :: 0 <= k < |segments| ==> '.' !in segments[k]
    ensures SplitModulePath(Join(".", segments))
      == (Join(".", segments[1..|segments| - 1]), segments[|segments| - 1])
  {
    var path := Join(".", segments);
    SplitJoin(segments, '.');
    assert Split(path, '.') == segments;
  }

  /** The submodule a record is grouped under. */
  function Bucket(item: Item): string {
    SplitModulePath(item.modulePath).0
  }

  // ---------------------------------------------------------------------------------
  // Groups.

  /** What the generator keeps of a function: the qualified C++ name, the Python name,
      the parameters and the description. */
  datatype FunctionBinding = FunctionBinding(cppFunc: string, pyFunc: string, params: seq<Param>,
                                             desc: string)

  /** What the generator keeps of a class: the qualified C++ name, the Python name, the
      description and the methods. */
  datatype ClassBinding = ClassBinding(cppClass: string, pyClass: string, desc: string,
                                       methods: seq<MethodInfo>)

  /** The functions and the classes of one submodule, each in record order. */
  datatype Group = Group(functions: seq<FunctionBinding>, classes: seq<ClassBinding>)

  /** `namespace::name`. */
  function Qualified(namespace: string, name: string): string {
    namespace + "::" + name
  }

  /** The function entry a record contributes to the group `key`, if any. */
  function FunctionIn(key: string): Item -> Option<FunctionBinding> {
    (item: Item) =>
      if item.FunctionItem? && Bucket(item) == key then
        Some(FunctionBinding(Qualified(item.namespace, item.name),
          SplitModulePath(item.modulePath).1, item.params, item.desc))
      else None
  }

  /** The class entry a record contributes to the group `key`, if any. */
  function ClassIn(key: string): Item -> Option<ClassBinding> {
    (item: Item) =>
      if item.ClassItem? && Bucket(item) == key then
        Some(ClassBinding(Qualified(item.namespace, item.name),
          SplitModulePath(item.modulePath).1, item.desc, item.methods))
      else None
  }

  /** The group of a submodule: the entries of exactly the records in it, in order. */
  function GroupOf(items: seq<Item>, key: string): Group {
    Group(FilterSome(FunctionIn(key), items), FilterSome(ClassIn(key), items))
  }

  /** The submodule of every record, in record order. */
  function BucketsOf(items: seq<Item>): (r: seq<string>)
    ensures |r| == |items| && forall j :: 0 <= j < |items| ==> r[j] == Bucket(items[j])
  {
    seq(|items|, j requires 0 <= j < |items| => Bucket(items[j]))
  }

  /** The distinct values of `xs`, each where it first occurs. Defined from the end, so
      that a loop over a prefix can keep it as its invariant. */
  function FirstSeen<T(==)>(xs: seq<T>): (r: seq<T>)
    ensures |r| <= |xs|
    decreases |xs|
  {
    if xs == [] then []
    else
      var init := FirstSeen(xs[..|xs| - 1]);
      if xs[|xs| - 1] in init then init else init + [xs[|xs| - 1]]
  }

  /** The submodules, in the order the dictionary first sees them. */
  function BucketOrder(items: seq<Item>): seq<string> {
    FirstSeen(BucketsOf(items))
  }

  predicate Distinct<T(==)>(xs: seq<T>) {
    forall a, b :: 0 <= a < b < |xs| ==> xs[a] != xs[b]
  }

  /** The position of the first occurrence of `x` in `xs`, or `|xs|`. */
  function FirstIndex<T(==)>(xs: seq<T>, x: T): (i: nat)
    ensures i <= |xs| && (i < |xs| ==> xs[i] == x) && x !in xs[..i]
    decreases |xs|
  {
    if xs == [] then 0
    else if xs[0] == x then 0
    else
      var i := FirstIndex(xs[1..], x);
      assert xs[..i + 1] == [xs[0]] + xs[1..][..i];
      1 + i
  }

  // ---------------------------------------------------------------------------------
  // First-seen order.

  /** Each value occurs once, and the values are exactly those of the input. */
  lemma {:induction false} FirstSeenMembers<T>(xs: seq<T>)
    ensures Distinct(FirstSeen(xs))
    ensures forall x :: x in FirstSeen(xs) ==> x in xs
    ensures forall x :: x in xs ==> x in FirstSeen(xs)
    decreases |xs|
  {
    if xs != [] {
      var init := xs[..|xs| - 1];
      FirstSeenMembers(init);
      assert xs == init + [xs[|xs| - 1]];
    }
  }

  lemma FirstIndexSnoc<T>(xs: seq<T>, y: T, x: T)
    requires x in xs
    ensures FirstIndex(xs + [y], x) == FirstIndex(xs, x)
  {
    var i := FirstIndex(xs, x);
    assert xs[..|xs|] == xs;
    var s := xs + [y];
    assert s[i] == x && s[..i] == xs[..i];
  }

  /** Values come in the order of their first occurrences. */
  lemma {:induction false} FirstSeenOrder<T>(xs: seq<T>, a: nat, b: nat)
    requires a < b < |FirstSeen(xs)|
    ensures FirstIndex(xs, FirstSeen(xs)[a]) < FirstIndex(xs, FirstSeen(xs)[b])
    decreases |xs|
  {
    var init := xs[..|xs| - 1];
    var y := xs[|xs| - 1];
    var r := FirstSeen(init);
    FirstSeenMembers(init);
    assert xs == init + [y];
    assert r[a] in r;
    assert r[a] in init;
    if b < |r| {
      assert r[b] in r;
      assert r[b] in init;
      FirstSeenOrder(init, a, b);
      FirstIndexSnoc(init, y, r[a]);
      FirstIndexSnoc(init, y, r[b]);
    } else {
      assert y !in init && FirstSeen(xs)[b] == y;
      FirstIndexSnoc(init, y, r[a]);
    }
  }

  // ---------------------------------------------------------------------------------
  // The grouping loop.

  lemma BucketsSnoc(items: seq<Item>, i: nat)
    requires i < |items|
    ensures BucketsOf(items[..i + 1]) == BucketsOf(items[..i]) + [Bucket(items[i])]
  {
  }

  /** One more record adds its submodule at the end, unless it was seen before. */
  lemma BucketOrderSnoc(items: seq<Item>, i: nat)
    requires i < |items|
    ensures BucketOrder(items[..i + 1]) ==
      if Bucket(items[i]) in BucketOrder(items[..i]) then BucketOrder(items[..i])
      else BucketOrder(items[..i]) + [Bucket(items[i])]
  {
    var bs := BucketsOf(items[..i]);
    BucketsSnoc(items, i);
    assert (bs + [Bucket(items[i])])[..|bs|] == bs;
  }

  /** A submodule no record is in has an empty group. */
  lemma GroupAbsent(items: seq<Item>, key: string)
    requires key !in BucketsOf(items)
    ensures GroupOf(items, key) == Group([], [])
  {
    forall j | 0 <= j < |items| ensures FunctionIn(key)(items[j]).None? {
      assert BucketsOf(items)[j] == Bucket(items[j]);
    }
    forall j | 0 <= j < |items| ensures ClassIn(key)(items[j]).None? {
      assert BucketsOf(items)[j] == Bucket(items[j]);
    }
    FilterSomeNone(FunctionIn(key), items);
    FilterSomeNone(ClassIn(key), items);
  }

  /** One more record changes only the group of its own submodule. */
  lemma GroupSnoc(items: seq<Item>, i: nat, key: string)
    requires i < |items|
    ensures FunctionIn(key)(items[i]).Some? ==>
      GroupOf(items[..i + 1], key).functions
        == GroupOf(items[..i], key).functions + [FunctionIn(key)(items[i]).value]
    ensures FunctionIn(key)(items[i]).None? ==>
      GroupOf(items[..i + 1], key).functions == GroupOf(items[..i], key).functions
    ensures ClassIn(key)(items[i]).Some? ==>
      GroupOf(items[..i + 1], key).classes
        == GroupOf(items[..i], key).classes + [ClassIn(key)(items[i]).value]
    ensures ClassIn(key)(items[i]).None? ==>
      GroupOf(items[..i + 1], key).classes == GroupOf(items[..i], key).classes
  {
    FilterSomeSnoc(FunctionIn(key), items, i);
    FilterSomeSnoc(ClassIn(key), items, i);
  }

  /** The group of a record's own submodule gains the record's entry at its end. */
  lemma GroupStep(items: seq<Item>, i: nat, g: Group)
    requires i < |items| && g == GroupOf(items[..i], Bucket(items[i]))
    ensures var item := items[i];
      GroupOf(items[..i + 1], Bucket(item)) ==
        if item.FunctionItem? then
          Group(g.functions + [FunctionBinding(Qualified(item.namespace, item.name),
            SplitModulePath(item.modulePath).1, item.params, item.desc)], g.classes)
        else
          Group(g.functions, g.classes + [ClassBinding(Qualified(item.namespace, item.name),
            SplitModulePath(item.modulePath).1, item.desc, item.methods)])
  {
    GroupSnoc(items, i, Bucket(items[i]));
  }

  /** Any other group is left as it was. */
  lemma GroupOther(items: seq<Item>, i: nat, key: string)
    requires i < |items| && key != Bucket(items[i])
    ensures GroupOf(items[..i + 1], key) == GroupOf(items[..i], key)
  {
    GroupSnoc(items, i, key);
  }

  /** The dictionary and its key order after the records `items`. */
  ghost predicate Grouped(items: seq<Item>, keys: seq<string>, groups: map<string, Group>) {
    && keys == BucketOrder(items)
    && (forall key :: key in groups <==> key in keys)
    && (forall key :: key in groups ==> groups[key] == GroupOf(items, key))
  }

  /** A record whose submodule has no group yet starts a new one, listed last. */
  lemma KeysStep(items: seq<Item>, i: nat, keys: seq<string>, groups: map<string, Group>)
    requires i < |items| && Grouped(items[..i], keys, groups)
    ensures Bucket(items[i]) in groups ==> BucketOrder(items[..i + 1]) == keys
    ensures Bucket(items[i]) !in groups ==>
      BucketOrder(items[..i + 1]) == keys + [Bucket(items[i])]
      && GroupOf(items[..i], Bucket(items[i])) == Group([], [])
  {
    BucketOrderSnoc(items, i);
    if Bucket(items[i]) !in groups {
      FirstSeenMembers(BucketsOf(items[..i]));
      GroupAbsent(items[..i], Bucket(items[i]));
    }
  }

  /** Replacing the group of the record's submodule by its extended group keeps the
      dictionary in step with the records. */
  lemma GroupsStep(items: seq<Item>, i: nat, keys: seq<string>, groups: map<string, Group>,
                   keys': seq<string>, g: Group)
    requires i < |items| && Grouped(items[..i], keys, groups)
    requires keys' == BucketOrder(items[..i + 1])
    requires forall key :: key in keys' <==> key in keys || key == Bucket(items[i])
    requires g == GroupOf(items[..i + 1], Bucket(items[i]))
    ensures Grouped(items[..i + 1], keys', groups[Bucket(items[i]) := g])
  {
    var sub := Bucket(items[i]);
    forall key | key in groups && key != sub ensures groups[key] == GroupOf(items[..i + 1], key) {
      GroupOther(items, i, key);
    }
  }

  /** One turn of the grouping loop: the record's submodule gets a group when it has none,
      and the record's entry goes at the end of that group. */
  method AddToGroup(items: seq<Item>, i: nat, keys: seq<string>, groups: map<string, Group>)
    returns (keys': seq<string>, groups': map<string, Group>)
    requires i < |items| && Grouped(items[..i], keys, groups)
    ensures Grouped(items[..i + 1], keys', groups')
  {
    var item := items[i];
    var sub := Bucket(item);
    var pyName := SplitModulePath(item.modulePath).1;
    KeysStep(items, i, keys, groups);
    keys' := keys;
    var g := Group([], []);
    if sub in groups {
      g := groups[sub];
    } else {
      keys' := keys + [sub];
    }
    GroupStep(items, i, g);
    if item.FunctionItem? {
      g := Group(g.functions + [FunctionBinding(Qualified(item.namespace, item.name), pyName,
        item.params, item.desc)], g.classes);
    } else {
      g := Group(g.functions, g.classes + [ClassBinding(Qualified(item.namespace, item.name),
        pyName, item.desc, item.methods)]);
    }
    GroupsStep(items, i, keys, groups, keys', g);
    groups' := groups[sub := g];
  }

  /** The grouping loop: a dictionary from submodule to group, and its keys in insertion
      order. Every key's group holds the entries of exactly the records in it. */
  method GroupBySubmodule(items: seq<Item>) returns (keys: seq<string>, groups: map<string, Group>)
    ensures keys == BucketOrder(items)
    ensures forall key :: key in groups <==> key in keys
    ensures forall key :: key in groups ==> groups[key] == GroupOf(items, key)
  {
    keys := [];
    groups := map[];
    var i := 0;
    assert BucketsOf(items[..0]) == [];
    while i < |items|
      invariant 0 <= i <= |items|
      invariant Grouped(items[..i], keys, groups)
    {
      keys, groups := AddToGroup(items, i, keys, groups);
      i := i + 1;
    }
    assert items[..i] == items;
  }

  // ---------------------------------------------------------------------------------
  // What the grouping promises.

  /** Every submodule is listed once, exactly the submodules of the records are listed, and
      in the order their first records come. */
  lemma BucketOrderFirstSeen(items: seq<Item>)
    ensures Distinct(BucketOrder(items))
    ensures forall key :: key in BucketOrder(items) <==> exists j :: 0 <= j < |items| && Bucket(items[j]) == key
    ensures forall a, b :: 0 <= a < b < |BucketOrder(items)| ==>
      FirstIndex(BucketsOf(items), BucketOrder(items)[a]) < FirstIndex(BucketsOf(items), BucketOrder(items)[b])
  {
    var bs := BucketsOf(items);
    FirstSeenMembers(bs);
    forall key ensures key in bs <==> exists j :: 0 <= j < |items| && Bucket(items[j]) == key {
      if key in bs {
        var j :| 0 <= j < |bs| && bs[j] == key;
        assert Bucket(items[j]) == key;
      }
    }
    forall a, b | 0 <= a < b < |FirstSeen(bs)|
      ensures FirstIndex(bs, FirstSeen(bs)[a]) < FirstIndex(bs, FirstSeen(bs)[b])
    {
      FirstSeenOrder(bs, a, b);
    }
  }

  /** Every record lands in the group of its own submodule, and in no other. */
  lemma ItemGrouped(items: seq<Item>, j: nat, key: string)
    requires j < |items|
    ensures items[j].FunctionItem? && key == Bucket(items[j]) ==>
      FunctionIn(key)(items[j]).value in GroupOf(items, key).functions
    ensures items[j].ClassItem? && key == Bucket(items[j]) ==>
      ClassIn(key)(items[j]).value in GroupOf(items, key).classes
    ensures key != Bucket(items[j]) ==> FunctionIn(key)(items[j]).None? && ClassIn(key)(items[j]).None?
  {
    if key == Bucket(items[j]) {
      if items[j].FunctionItem? {
        FilterSomeKeeps(FunctionIn(key), items, j);
      } else {
        FilterSomeKeeps(ClassIn(key), items, j);
      }
    }
  }

  function GroupSize(g: Group): nat {
    |g.functions| + |g.classes|
  }

  /** The number of entries in the groups of `keys`. */
  function TotalSize(items: seq<Item>, keys: seq<string>): nat
    decreases |keys|
  {
    if keys == [] then 0
    else TotalSize(items, keys[..|keys| - 1]) + GroupSize(GroupOf(items, keys[|keys| - 1]))
  }

  lemma GroupSizeSnoc(items: seq<Item>, key: string)
    requires items != []
    ensures GroupSize(GroupOf(items, key))
      == GroupSize(GroupOf(items[..|items| - 1], key)) + (if Bucket(items[|items| - 1]) == key then 1 else 0)
  {
    GroupSnoc(items, |items| - 1, key);
    assert items[..|items|] == items;
  }

  lemma {:induction false} TotalSizeSnoc(items: seq<Item>, keys: seq<string>)
    requires items != [] && Distinct(keys)
    ensures TotalSize(items, keys)
      == TotalSize(items[..|items| - 1], keys) + (if Bucket(items[|items| - 1]) in keys then 1 else 0)
    decreases |keys|
  {
    if keys != [] {
      var init := keys[..|keys| - 1];
      assert Distinct(init);
      TotalSizeSnoc(items, init);
      GroupSizeSnoc(items, keys[|keys| - 1]);
      assert keys == init + [keys[|keys| - 1]];
    }
  }

  /** The groups share out the records: together they hold one entry per record. */
  lemma {:induction false} GroupsCoverItems(items: seq<Item>)
    ensures TotalSize(items, BucketOrder(items)) == |items|
    decreases |items|
  {
    if items != [] {
      var n := |items| - 1;
      var init := items[..n];
      var b := Bucket(items[n]);
      GroupsCoverItems(init);
      BucketsSnoc(items, n);
      assert items[..n + 1] == items;
      var order := BucketOrder(init);
      FirstSeenMembers(BucketsOf(init));
      TotalSizeSnoc(items, order);
      if b !in order {
        GroupSizeSnoc(items, b);
        GroupAbsent(init, b);
        assert order + [b] == BucketOrder(items);
        assert (order + [b])[..|order|] == order;
      }
    }
  }
}
