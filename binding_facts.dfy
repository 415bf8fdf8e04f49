// Properties of the generated bindings file: it is framed by the banner, the include and
// the module opening and ends with the closing brace; every group sits in it; and every
// function, class and method record is bound in it on the variable of its own submodule.
module BindingFacts {
  import opened Text
  import opened Wrappers
  import opened Signature
  import opened Annotations
  import opened Grouping
  import opened Binding
  import opened Positions

  // ---------------------------------------------------------------------------------
  // The lists of bindings are concatenations of their entries.

  function FunctionTexts(target: string, fs: seq<FunctionBinding>): (r: seq<string>)
    ensures |r| == |fs| && forall k :: 0 <= k < |fs| ==> r[k] == FunctionText(target, fs[k])
  {
    seq(|fs|, k requires 0 <= k < |fs| => FunctionText(target, fs[k]))
  }

  lemma {:induction false} FunctionsConcat(target: string, fs: seq<FunctionBinding>)
    ensures FunctionsText(target, fs) == Concat(FunctionTexts(target, fs))
    decreases |fs|
  {
    if fs != [] {
      var init := fs[..|fs| - 1];
      FunctionsConcat(target, init);
      assert FunctionTexts(target, fs)[..|fs| - 1] == FunctionTexts(target, init);
    }
  }

  function MethodTexts(c: ClassBinding, ms: seq<MethodInfo>): (r: seq<string>)
    ensures |r| == |ms| && forall k :: 0 <= k < |ms| ==> r[k] == MethodText(c, ms[k])
  {
    seq(|ms|, k requires 0 <= k < |ms| => MethodText(c, ms[k]))
  }

  lemma {:induction false} MethodsConcat(c: ClassBinding, ms: seq<MethodInfo>)
    ensures MethodsText(c, ms) == Concat(MethodTexts(c, ms))
    decreases |ms|
  {
    if ms != [] {
      var init := ms[..|ms| - 1];
      MethodsConcat(c, init);
      assert MethodTexts(c, ms)[..|ms| - 1] == MethodTexts(c, init);
    }
  }

  function ClassTexts(target: string, cs: seq<ClassBinding>): (r: seq<string>)
    ensures |r| == |cs| && forall k :: 0 <= k < |cs| ==> r[k] == ClassText(target, cs[k])
  {
    seq(|cs|, k requires 0 <= k < |cs| => ClassText(target, cs[k]))
  }

  lemma {:induction false} ClassesConcat(target: string, cs: seq<ClassBinding>)
    ensures ClassesText(target, cs) == Concat(ClassTexts(target, cs))
    decreases |cs|
  {
    if cs != [] {
      var init := cs[..|cs| - 1];
      ClassesConcat(target, init);
      assert ClassTexts(target, cs)[..|cs| - 1] == ClassTexts(target, init);
    }
  }

  // ---------------------------------------------------------------------------------
  // Where each entry sits.

  lemma FunctionsTextAt(target: string, fs: seq<FunctionBinding>, n: nat) returns (i: nat)
    requires n < |fs|
    ensures At(FunctionsText(target, fs), FunctionText(target, fs[n]), i)
  {
    FunctionsConcat(target, fs);
    i := ConcatAt(FunctionTexts(target, fs), n);
  }

  lemma MethodsTextAt(c: ClassBinding, ms: seq<MethodInfo>, n: nat) returns (i: nat)
    requires n < |ms|
    ensures At(MethodsText(c, ms), MethodText(c, ms[n]), i)
  {
    MethodsConcat(c, ms);
    i := ConcatAt(MethodTexts(c, ms), n);
  }

  lemma ClassesTextAt(target: string, cs: seq<ClassBinding>, n: nat) returns (i: nat)
    requires n < |cs|
    ensures At(ClassesText(target, cs), ClassText(target, cs[n]), i)
  {
    ClassesConcat(target, cs);
    i := ConcatAt(ClassTexts(target, cs), n);
  }

  lemma {:induction false} GroupsTextAt(items: seq<Item>, keys: seq<string>, n: nat) returns (i: nat)
    requires n < |keys|
    ensures At(GroupsText(items, keys), GroupText(keys[n], GroupOf(items, keys[n])), i)
    decreases |keys|
  {
    var init := keys[..|keys| - 1];
    var t := GroupText(keys[n], GroupOf(items, keys[n]));
    var last := GroupText(keys[|keys| - 1], GroupOf(items, keys[|keys| - 1]));
    if n == |keys| - 1 {
      AtSelf(t);
      i := AtAfter(GroupsText(items, keys), GroupsText(items, init), last, t, 0);
    } else {
      assert init[n] == keys[n];
      i := GroupsTextAt(items, init, n);
      AtLeft(GroupsText(items, init), last, t, i);
    }
  }

  /** Where the text of a submodule's group sits in the file. */
  lemma GroupInCode(items: seq<Item>, mainModule: string, headerFile: Option<string>, key: string)
    returns (pos: nat)
    requires key in BucketOrder(items)
    ensures At(BindCode(items, mainModule, headerFile), GroupText(key, GroupOf(items, key)), pos)
  {
    var order := BucketOrder(items);
    var n :| 0 <= n < |order| && order[n] == key;
    var i := GroupsTextAt(items, order, n);
    pos := AtMiddle(BindCode(items, mainModule, headerFile), Prologue(mainModule, headerFile),
      GroupsText(items, order), Closing, GroupText(key, GroupOf(items, key)), i);
  }

  /** The submodule of every record is among the file's groups. */
  lemma BucketListed(items: seq<Item>, j: nat)
    requires j < |items|
    ensures Bucket(items[j]) in BucketOrder(items)
  {
    BucketOrderFirstSeen(items);
  }

  /** Where the `n`-th function of a group sits in the group's text. */
  lemma FunctionInGroup(sub: string, g: Group, n: nat) returns (pos: nat)
    requires n < |g.functions|
    ensures At(GroupText(sub, g), FunctionText(Target(sub), g.functions[n]), pos)
  {
    var chain := if sub != "" then ChainText(sub) else "";
    var i := FunctionsTextAt(Target(sub), g.functions, n);
    pos := AtMiddle(GroupText(sub, g), chain, FunctionsText(Target(sub), g.functions),
      ClassesText(Target(sub), g.classes), FunctionText(Target(sub), g.functions[n]), i);
  }

  /** Where the `n`-th class of a group sits in the group's text. */
  lemma ClassInGroup(sub: string, g: Group, n: nat) returns (pos: nat)
    requires n < |g.classes|
    ensures At(GroupText(sub, g), ClassText(Target(sub), g.classes[n]), pos)
  {
    var chain := if sub != "" then ChainText(sub) else "";
    var i := ClassesTextAt(Target(sub), g.classes, n);
    pos := AtAfter(GroupText(sub, g), chain + FunctionsText(Target(sub), g.functions),
      ClassesText(Target(sub), g.classes), ClassText(Target(sub), g.classes[n]), i);
  }

  /** Where the `k`-th method of a class sits in the class's text. */
  lemma MethodInClass(target: string, c: ClassBinding, k: nat) returns (pos: nat)
    requires k < |c.methods|
    ensures At(ClassText(target, c), MethodText(c, c.methods[k]), pos)
  {
    var i := MethodsTextAt(c, c.methods, k);
    pos := AtAfter(ClassText(target, c), ClassComment(c) + ClassHandle(target, c),
      MethodsText(c, c.methods), MethodText(c, c.methods[k]), i);
  }

  /** Every function record is bound in the file, by its Python name, on the variable of
      its own submodule. */
  lemma FunctionBound(items: seq<Item>, mainModule: string, headerFile: Option<string>, j: nat)
    requires j < |items| && items[j].FunctionItem?
    ensures Contains(BindCode(items, mainModule, headerFile),
      FunctionText(Target(Bucket(items[j])), FunctionIn(Bucket(items[j]))(items[j]).value))
  {
    var code := BindCode(items, mainModule, headerFile);
    var key := Bucket(items[j]);
    var g := GroupOf(items, key);
    var f := FunctionIn(key)(items[j]).value;
    ItemGrouped(items, j, key);
    BucketListed(items, j);
    var n :| 0 <= n < |g.functions| && g.functions[n] == f;
    var i := FunctionInGroup(key, g, n);
    var pos := GroupInCode(items, mainModule, headerFile, key);
    var k := AtWithin(code, GroupText(key, g), FunctionText(Target(key), f), pos, i);
    AtContains(code, FunctionText(Target(key), f), k);
  }

  /** Every class record is bound in the file, by its Python name, on the variable of its
      own submodule. */
  lemma ClassBound(items: seq<Item>, mainModule: string, headerFile: Option<string>, j: nat)
    requires j < |items| && items[j].ClassItem?
    ensures Contains(BindCode(items, mainModule, headerFile),
      ClassText(Target(Bucket(items[j])), ClassIn(Bucket(items[j]))(items[j]).value))
  {
    var code := BindCode(items, mainModule, headerFile);
    var key := Bucket(items[j]);
    var g := GroupOf(items, key);
    var c := ClassIn(key)(items[j]).value;
    ItemGrouped(items, j, key);
    BucketListed(items, j);
    var n :| 0 <= n < |g.classes| && g.classes[n] == c;
    var i := ClassInGroup(key, g, n);
    var pos := GroupInCode(items, mainModule, headerFile, key);
    var k := AtWithin(code, GroupText(key, g), ClassText(Target(key), c), pos, i);
    AtContains(code, ClassText(Target(key), c), k);
  }

  /** Every method of a class record is bound in the file on the handle of its class. */
  lemma MethodBound(items: seq<Item>, mainModule: string, headerFile: Option<string>, j: nat, k: nat)
    requires j < |items| && items[j].ClassItem? && k < |items[j].methods|
    ensures Contains(BindCode(items, mainModule, headerFile),
      MethodText(ClassIn(Bucket(items[j]))(items[j]).value, items[j].methods[k]))
  {
    var code := BindCode(items, mainModule, headerFile);
    var key := Bucket(items[j]);
    var g := GroupOf(items, key);
    var c := ClassIn(key)(items[j]).value;
    ItemGrouped(items, j, key);
    BucketListed(items, j);
    var n :| 0 <= n < |g.classes| && g.classes[n] == c;
    var i := ClassInGroup(key, g, n);
    var pos := GroupInCode(items, mainModule, headerFile, key);
    var p := AtWithin(code, GroupText(key, g), ClassText(Target(key), c), pos, i);
    var q := MethodInClass(Target(key), c, k);
    var r := AtWithin(code, ClassText(Target(key), c), MethodText(c, c.methods[k]), p, q);
    AtContains(code, MethodText(c, c.methods[k]), r);
  }

  lemma ChainLinesLast(sub: string, chain: seq<string>, n: nat)
    requires 0 < n <= |chain|
    ensures ChainLines(sub, chain, n) == ChainLines(sub, chain, n - 1) + ChainLine(sub, chain, n - 1)
  {
  }

  /** A group below the main module declares, on its last chain line, the variable its
      bindings use. */
  lemma TargetDeclared(sub: string)
    requires sub != ""
    ensures Contains(ChainText(sub), VarDeclaration(Target(sub)))
  {
    var chain := Split(sub, '.');
    var n := |chain|;
    assert chain[..n] == chain;
    var line := ChainLine(sub, chain, n - 1);
    AtStart(VarDeclaration(Target(sub)), SubmoduleCall(sub, chain, n - 1));
    assert ChainText(sub) == ChainLines(sub, chain, n);
    ChainLinesLast(sub, chain, n);
    var i := AtAfter(ChainText(sub), ChainLines(sub, chain, n - 1), line, VarDeclaration(Target(sub)), 0);
    AtContains(ChainText(sub), VarDeclaration(Target(sub)), i);
  }

  /** The file opens with the banner, then the include line, then the opening of the
      module, and ends with the closing brace. */
  lemma BindCodeFrame(items: seq<Item>, mainModule: string, headerFile: Option<string>)
    ensures At(BindCode(items, mainModule, headerFile), Banner, 0)
    ensures At(BindCode(items, mainModule, headerFile), IncludeLine(headerFile), |Banner|)
    ensures At(BindCode(items, mainModule, headerFile), ModuleOpen(mainModule),
      |Banner| + |IncludeLine(headerFile)|)
    ensures At(BindCode(items, mainModule, headerFile), Closing,
      |BindCode(items, mainModule, headerFile)| - |Closing|)
  {
    FiveParts(BindCode(items, mainModule, headerFile), Banner, IncludeLine(headerFile),
      ModuleOpen(mainModule), GroupsText(items, BucketOrder(items)), Closing);
  }
}
