// The second half of the code generator in cpp_bind_python.py (`generate_pybind11_bind_code`,
// lines 245-256 and 289-338): the text of the pybind11 bindings file. A fixed banner
// comes first, then an include of the header by its base name and the opening of the
// module. For each group, in first-seen order, the generator declares the chain of
// submodule variables, binds the group's functions and then binds its classes with their
// methods. A closing brace ends the file.
module Binding {
  import opened Text
  import opened Wrappers
  import opened Signature
  import opened Annotations
  import opened Grouping

  // ---------------------------------------------------------------------------------
  // Concatenation.

  lemma Regroup(x: string, a: string, b: string)
    ensures x + a + b == x + (a + b)
  {
  }

  lemma Regroup3(x: string, a: string, b: string, c: string)
    ensures x + a + b + c == x + (a + b + c)
  {
  }

  // ---------------------------------------------------------------------------------
  // The frame of the file.

  /** The banner and the pybind11 include that open every generated file. */
  const Banner: string := "// 自动生成的pybind11绑定代码，请勿手动修改\n#include <pybind11/pybind11.h>\n"

  /** The namespace alias, the module macro for the main module and the module's doc
      string. */
  function ModuleOpen(mainModule: string): string {
    "\nnamespace py = pybind11;\n\nPYBIND11_MODULE(" + mainModule + ", m) {\n    m.doc() = \"Auto bind from C/C++\";\n\n"
  }

  const Closing: string := "\n}\n"

  /** `os.path.basename`: what follows the last slash. */
  function Basename(path: string): (name: string)
    ensures '/' !in name
    ensures |name| <= |path| && path[|path| - |name|..] == name
  {
    var i := LastIndexOf(path, '/');
    if i == |path| then path else path[i + 1..]
  }

  /** The include of the header, present when the header path has a non-empty base
      name. */
  function IncludeLine(headerFile: Option<string>): string {
    var name := if headerFile.Some? then Basename(headerFile.value) else "";
    if name != "" then "#include \"" + name + "\"\n" else ""
  }

  /** Everything before the first group. */
  function Prologue(mainModule: string, headerFile: Option<string>): string {
    Banner + IncludeLine(headerFile) + ModuleOpen(mainModule)
  }

  /** A file in a directory has its own name as base name. */
  lemma BasenameOf(dir: string, name: string)
    requires '/' !in name
    ensures Basename(dir + "/" + name) == name
  {
    var p := dir + "/" + name;
    var i := LastIndexOf(p, '/');
    assert p[|dir|] == '/' && p[|dir| + 1..] == name;
  }

  /** Without a header, or with one whose path ends in a slash, nothing is included;
      otherwise the header is included by its base name. */
  lemma IncludeOf(dir: string, name: string)
    requires '/' !in name
    ensures IncludeLine(Some(dir + "/" + name)) ==
      if name == "" then "" else "#include \"" + name + "\"\n"
    ensures IncludeLine(None) == ""
  {
    BasenameOf(dir, name);
  }

  // ---------------------------------------------------------------------------------
  // Bindings of functions and methods.

  /** The keyword argument of one parameter: `py::arg("name")`. */
  function ArgCall(p: Param): string {
    "py::arg(\"" + p.name + "\")"
  }

  /** One keyword argument per parameter, in order. */
  function ArgCalls(params: seq<Param>): (r: seq<string>)
    ensures |r| == |params| && forall k :: 0 <= k < |params| ==> r[k] == ArgCall(params[k])
  {
    seq(|params|, k requires 0 <= k < |params| => ArgCall(params[k]))
  }

  /** The keyword arguments joined by `, `. */
  function ArgText(params: seq<Param>): string {
    Join(", ", ArgCalls(params))
  }

  /** The argument list is empty exactly when there are no parameters. */
  lemma ArgTextEmpty(params: seq<Param>)
    ensures ArgText(params) == "" <==> params == []
  {
    var calls := ArgCalls(params);
    if params != [] {
      JoinEnds(", ", calls);
      assert |calls[0]| > 0;
    }
  }

  /** The end of a `.def` call: the keyword arguments and a comma when there are any, then
      the quoted description. */
  function ArgsPart(args: string): string {
    if args != "" then args + ", " else ""
  }

  function DescEnd(desc: string): string {
    "\"" + desc + "\");\n"
  }

  function FunctionComment(f: FunctionBinding): string {
    "    // 绑定函数: " + f.pyFunc + "\n"
  }

  function FunctionDef(target: string, f: FunctionBinding): string {
    "    " + target + ".def(\"" + f.pyFunc + "\", &" + f.cppFunc + ", "
  }

  /** The two lines binding a function on the module variable `target`. */
  function FunctionText(target: string, f: FunctionBinding): string {
    FunctionComment(f) + FunctionDef(target, f) + ArgsPart(ArgText(f.params)) + DescEnd(f.desc)
  }

  function FunctionsText(target: string, fs: seq<FunctionBinding>): string
    decreases |fs|
  {
    if fs == [] then ""
    else FunctionsText(target, fs[..|fs| - 1]) + FunctionText(target, fs[|fs| - 1])
  }

  function MethodDef(c: ClassBinding, m: MethodInfo): string {
    "    " + c.pyClass + "_cls.def(\"" + m.name + "\", &" + c.cppClass + "::" + m.name + ", "
  }

  /** The line binding a method on the class handle `<pyClass>_cls`. */
  function MethodText(c: ClassBinding, m: MethodInfo): string {
    MethodDef(c, m) + ArgsPart(ArgText(m.params)) + DescEnd(m.desc)
  }

  function MethodsText(c: ClassBinding, ms: seq<MethodInfo>): string
    decreases |ms|
  {
    if ms == [] then ""
    else MethodsText(c, ms[..|ms| - 1]) + MethodText(c, ms[|ms| - 1])
  }

  function ClassComment(c: ClassBinding): string {
    "    // 绑定类: " + c.pyClass + "\n"
  }

  function ClassHandle(target: string, c: ClassBinding): string {
    "    py::class_<" + c.cppClass + "> " + c.pyClass + "_cls(" + target + ", \"" + c.pyClass
      + "\", \"" + c.desc + "\");\n"
  }

  /** A class binding: the comment, the class handle, then one line per method. */
  function ClassText(target: string, c: ClassBinding): string {
    ClassComment(c) + ClassHandle(target, c) + MethodsText(c, c.methods)
  }

  function ClassesText(target: string, cs: seq<ClassBinding>): string
    decreases |cs|
  {
    if cs == [] then ""
    else ClassesText(target, cs[..|cs| - 1]) + ClassText(target, cs[|cs| - 1])
  }

  // ---------------------------------------------------------------------------------
  // Submodule chains.

  /** The variable of a submodule chain: `submod_` and the segments joined by `_`. */
  function SubmoduleVar(chain: seq<string>): string {
    "submod_" + Join("_", chain)
  }

  /** The variable a chain line hangs its submodule on: the main module first, then the
      variable of the line before. */
  function ParentVar(chain: seq<string>, idx: nat): string
    requires idx <= |chain|
  {
    if idx == 0 then "m" else SubmoduleVar(chain[..idx])
  }

  /** The declaration of the `idx`-th submodule of a chain. */
  function ChainLine(sub: string, chain: seq<string>, idx: nat): string
    requires idx < |chain|
  {
    VarDeclaration(SubmoduleVar(chain[..idx + 1])) + SubmoduleCall(sub, chain, idx)
  }

  /** The start of a chain line: the declaration of the variable `v`. */
  function VarDeclaration(v: string): string {
    "    auto " + v + " = "
  }

  /** The rest of a chain line: the submodule of the segment, hung on its parent. */
  function SubmoduleCall(sub: string, chain: seq<string>, idx: nat): string
    requires idx < |chain|
  {
    ParentVar(chain, idx) + ".def_submodule(\"" + chain[idx] + "\", \"" + sub + " submodule\");\n"
  }

  function ChainLines(sub: string, chain: seq<string>, n: nat): string
    requires n <= |chain|
  {
    if n == 0 then "" else ChainLines(sub, chain, n - 1) + ChainLine(sub, chain, n - 1)
  }

  /** The declarations of every submodule along a group's dotted name. */
  function ChainText(sub: string): string {
    var chain := Split(sub, '.');
    ChainLines(sub, chain, |chain|)
  }

  /** The variable a group binds on: `m` for the main module, otherwise the last variable
      of its chain. */
  function Target(sub: string): string {
    if sub == "" then "m" else SubmoduleVar(Split(sub, '.'))
  }

  /** The text of one group: its chain, its functions, then its classes. */
  function GroupText(sub: string, g: Group): string {
    (if sub != "" then ChainText(sub) else "") + FunctionsText(Target(sub), g.functions)
      + ClassesText(Target(sub), g.classes)
  }

  function GroupsText(items: seq<Item>, keys: seq<string>): string
    decreases |keys|
  {
    if keys == [] then ""
    else GroupsText(items, keys[..|keys| - 1]) + GroupText(keys[|keys| - 1], GroupOf(items, keys[|keys| - 1]))
  }

  /** The whole bindings file. */
  function BindCode(items: seq<Item>, mainModule: string, headerFile: Option<string>): string {
    Prologue(mainModule, headerFile) + GroupsText(items, BucketOrder(items)) + Closing
  }

  // ---------------------------------------------------------------------------------
  // The generator's loops.

  /** The `py::arg` list of a parameter list. */
  method ArgumentList(params: seq<Param>) returns (args: string)
    ensures args == ArgText(params)
  {
    var calls: seq<string> := [];
    var i := 0;
    while i < |params|
      invariant 0 <= i <= |params|
      invariant |calls| == i && forall k :: 0 <= k < i ==> calls[k] == ArgCall(params[k])
    {
      calls := calls + ["py::arg(\"" + params[i].name + "\")"];
      i := i + 1;
    }
    assert calls == ArgCalls(params);
    args := Join(", ", calls);
  }

  /** Declares the submodule variables of a group, each on its parent. */
  method EmitChain(code: string, sub: string) returns (code': string, target: string)
    requires sub != ""
    ensures code' == code + ChainText(sub)
    ensures target == Target(sub)
  {
    var chain := Split(sub, '.');
    var parent := "m";
    code' := code;
    var idx := 0;
    while idx < |chain|
      invariant 0 <= idx <= |chain|
      invariant code' == code + ChainLines(sub, chain, idx)
      invariant parent == ParentVar(chain, idx)
    {
      var varName := "submod_" + Join("_", chain[..idx + 1]);
      Regroup(code, ChainLines(sub, chain, idx), ChainLine(sub, chain, idx));
      code' := code' + (("    auto " + varName + " = ") + (parent + ".def_submodule(\"" + chain[idx]
        + "\", \"" + sub + " submodule\");\n"));
      parent := varName;
      idx := idx + 1;
    }
    assert chain[..idx] == chain;
    target := parent;
  }

  lemma FunctionsSnoc(target: string, fs: seq<FunctionBinding>, i: nat)
    requires i < |fs|
    ensures FunctionsText(target, fs[..i + 1]) == FunctionsText(target, fs[..i]) + FunctionText(target, fs[i])
  {
    assert fs[..i + 1][..i] == fs[..i];
  }

  lemma MethodsSnoc(c: ClassBinding, ms: seq<MethodInfo>, i: nat)
    requires i < |ms|
    ensures MethodsText(c, ms[..i + 1]) == MethodsText(c, ms[..i]) + MethodText(c, ms[i])
  {
    assert ms[..i + 1][..i] == ms[..i];
  }

  lemma ClassesSnoc(target: string, cs: seq<ClassBinding>, i: nat)
    requires i < |cs|
    ensures ClassesText(target, cs[..i + 1]) == ClassesText(target, cs[..i]) + ClassText(target, cs[i])
  {
    assert cs[..i + 1][..i] == cs[..i];
  }

  /** Binds one function: the comment line, then the `.def` call with its keyword
      arguments, if any, and its description. */
  method EmitFunction(code: string, target: string, f: FunctionBinding) returns (code': string)
    ensures code' == code + FunctionText(target, f)
  {
    var args := ArgumentList(f.params);
    code' := code + ("    // 绑定函数: " + f.pyFunc + "\n");
    code' := code' + ("    " + target + ".def(\"" + f.pyFunc + "\", &" + f.cppFunc + ", ");
    if args != "" {
      code' := code' + (args + ", ");
    }
    code' := code' + ("\"" + f.desc + "\");\n");
    Regroup3(code, FunctionComment(f), FunctionDef(target, f), ArgsPart(args));
    Regroup(code, FunctionComment(f) + FunctionDef(target, f) + ArgsPart(args), DescEnd(f.desc));
  }

  /** Binds the functions of a group on `target`. */
  method EmitFunctions(code: string, target: string, fs: seq<FunctionBinding>) returns (code': string)
    ensures code' == code + FunctionsText(target, fs)
  {
    code' := code;
    var i := 0;
    while i < |fs|
      invariant 0 <= i <= |fs|
      invariant code' == code + FunctionsText(target, fs[..i])
    {
      code' := EmitFunction(code', target, fs[i]);
      FunctionsSnoc(target, fs, i);
      Regroup(code, FunctionsText(target, fs[..i]), FunctionText(target, fs[i]));
      i := i + 1;
    }
    assert fs[..i] == fs;
  }

  /** Binds one method on its class handle. */
  method EmitMethod(code: string, c: ClassBinding, m: MethodInfo) returns (code': string)
    ensures code' == code + MethodText(c, m)
  {
    var args := ArgumentList(m.params);
    code' := code + ("    " + c.pyClass + "_cls.def(\"" + m.name + "\", &" + c.cppClass + "::"
      + m.name + ", ");
    if args != "" {
      code' := code' + (args + ", ");
    }
    code' := code' + ("\"" + m.desc + "\");\n");
    Regroup(code, MethodDef(c, m), ArgsPart(args));
    Regroup(code, MethodDef(c, m) + ArgsPart(args), DescEnd(m.desc));
  }

  /** Binds the methods of a class on its handle. */
  method EmitMethods(code: string, c: ClassBinding) returns (code': string)
    ensures code' == code + MethodsText(c, c.methods)
  {
    code' := code;
    var ms := c.methods;
    var i := 0;
    while i < |ms|
      invariant 0 <= i <= |ms|
      invariant code' == code + MethodsText(c, ms[..i])
    {
      code' := EmitMethod(code', c, ms[i]);
      MethodsSnoc(c, ms, i);
      Regroup(code, MethodsText(c, ms[..i]), MethodText(c, ms[i]));
      i := i + 1;
    }
    assert ms[..i] == ms;
  }

  /** Binds one class: the comment line, the class handle, then its methods. */
  method EmitClass(code: string, target: string, c: ClassBinding) returns (code': string)
    ensures code' == code + ClassText(target, c)
  {
    code' := code + ("    // 绑定类: " + c.pyClass + "\n");
    code' := code' + ("    py::class_<" + c.cppClass + "> " + c.pyClass + "_cls(" + target + ", \""
      + c.pyClass + "\", \"" + c.desc + "\");\n");
    code' := EmitMethods(code', c);
    Regroup3(code, ClassComment(c), ClassHandle(target, c), MethodsText(c, c.methods));
  }

  /** Binds the classes of a group on `target`. */
  method EmitClasses(code: string, target: string, cs: seq<ClassBinding>) returns (code': string)
    ensures code' == code + ClassesText(target, cs)
  {
    code' := code;
    var i := 0;
    while i < |cs|
      invariant 0 <= i <= |cs|
      invariant code' == code + ClassesText(target, cs[..i])
    {
      code' := EmitClass(code', target, cs[i]);
      ClassesSnoc(target, cs, i);
      Regroup(code, ClassesText(target, cs[..i]), ClassText(target, cs[i]));
      i := i + 1;
    }
    assert cs[..i] == cs;
  }

  /** Emits one group: its chain of submodules, when it is not the main module, then its
      functions and its classes. */
  method EmitGroup(code: string, sub: string, g: Group) returns (code': string)
    ensures code' == code + GroupText(sub, g)
  {
    var target := "m";
    code' := code;
    if sub != "" {
      code', target := EmitChain(code', sub);
    }
    ghost var chained := code';
    code' := EmitFunctions(code', target, g.functions);
    code' := EmitClasses(code', target, g.classes);
    GroupTextParts(code, chained, sub, g);
  }

  lemma GroupTextParts(code: string, chained: string, sub: string, g: Group)
    requires chained == code + (if sub != "" then ChainText(sub) else "")
    ensures chained + FunctionsText(Target(sub), g.functions) + ClassesText(Target(sub), g.classes)
      == code + GroupText(sub, g)
  {
    var c := if sub != "" then ChainText(sub) else "";
    Regroup3(code, c, FunctionsText(Target(sub), g.functions), ClassesText(Target(sub), g.classes));
  }

  lemma GroupsSnoc(items: seq<Item>, keys: seq<string>, j: nat)
    requires j < |keys|
    ensures GroupsText(items, keys[..j + 1]) == GroupsText(items, keys[..j]) + GroupText(keys[j], GroupOf(items, keys[j]))
  {
    assert keys[..j + 1][..j] == keys[..j];
  }

  /** The banner, the include of the header when its base name is not empty, and the
      opening of the module. */
  method EmitPrologue(mainModule: string, headerFile: Option<string>) returns (code: string)
    ensures code == Prologue(mainModule, headerFile)
  {
    var headerName := if headerFile.Some? then Basename(headerFile.value) else "";
    code := "// 自动生成的pybind11绑定代码，请勿手动修改\n#include <pybind11/pybind11.h>\n";
    if headerName != "" {
      code := code + ("#include \"" + headerName + "\"\n");
    }
    code := code + ModuleOpen(mainModule);
  }

  /** Emits the groups of `keys`, in order. */
  method EmitGroups(code: string, items: seq<Item>, keys: seq<string>, groups: map<string, Group>)
    returns (code': string)
    requires forall key :: key in keys ==> key in groups && groups[key] == GroupOf(items, key)
    ensures code' == code + GroupsText(items, keys)
  {
    code' := code;
    var j := 0;
    while j < |keys|
      invariant 0 <= j <= |keys|
      invariant code' == code + GroupsText(items, keys[..j])
    {
      code' := EmitGroup(code', keys[j], groups[keys[j]]);
      GroupsSnoc(items, keys, j);
      Regroup(code, GroupsText(items, keys[..j]), GroupText(keys[j], GroupOf(items, keys[j])));
      j := j + 1;
    }
    assert keys[..j] == keys;
  }

  /** The generator: the file for the records `items`, the main module `mainModule` and
      the header `headerFile`, if any. */
  method GenerateBindCode(items: seq<Item>, mainModule: string, headerFile: Option<string>)
    returns (code: string)
    ensures code == BindCode(items, mainModule, headerFile)
  {
    code := EmitPrologue(mainModule, headerFile);
    var keys, groups := GroupBySubmodule(items);
    code := EmitGroups(code, items, keys, groups);
    code := code + "\n}\n";
  }
}
