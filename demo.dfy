// The demo header main/include/add.hpp: one function `add` in namespace `add::test`,
// documented with a description, two parameters, a return text and a module path.
module Demo {
  import opened Text
  import opened Wrappers
  import opened Comment
  import opened Tags
  import opened Layout
  import opened Signature
  import opened Annotations
  import Grouping

  // The texts of the comment, written as the words the header separates by single spaces.
  const DescWords: seq<string> := ["My", "function,", "add", "two", "integer."]
  const ArgAWords: seq<string> := ["arg", "a,", "int", "type"]
  const ArgBWords: seq<string> := ["arg", "b,", "int", "type"]
  const ReturnWords: seq<string> := ["int", "type,", "will", "a", "+", "b"]

  const AddDesc: string := Join(" ", DescWords)
  const ArgA: string := Join(" ", ArgAWords)
  const ArgB: string := Join(" ", ArgBWords)
  const AddReturn: string := Join(" ", ReturnWords)
  const AddPath: string := "add.test.add"

  /** What the comment of `add` documents. */
  const AddDoc: TagDoc := TagDoc(AddDesc, [("a", ArgA), ("b", ArgB)], Some(AddReturn), Some(AddPath))

  /** The comment rows of `add`, as written in the header: the description, then one row
      per tag. */
  const AddLines: seq<string> := TagLines(AddDoc)

  /** The parameter list of `add`: `int a, int b`. */
  const AddParamList: string := Join([','], [Declaration(("int", "a")), " " + Declaration(("int", "b"))])

  /** The declaration of `add`, with the comment rows indented by `indent` (five spaces in
      the file). */
  function AddFunction(indent: string): RawFunction {
    RawFunction("add::test", DocBlock(indent, AddLines), "int", "add", AddParamList)
  }

  /** The header: `add` is its only annotated declaration. */
  function AddHeader(path: string, indent: string): Header {
    Header(path, [AddFunction(indent)], [], [])
  }

  /** The record the generator builds for `add`. */
  function AddRecord(path: string): Item {
    FunctionItem("add::test", "add", "int",
      [Param("a", "int", ArgA), Param("b", "int", ArgB)], AddPath, AddDesc, AddReturn, path)
  }

  lemma AddDescText()
    ensures DocText(AddDesc)
  {
    assert Words(DescWords);
    WordsDocText(DescWords);
  }

  lemma ArgAText()
    ensures DocText(ArgA)
  {
    assert Words(ArgAWords);
    WordsDocText(ArgAWords);
  }

  lemma ArgBText()
    ensures DocText(ArgB)
  {
    assert Words(ArgBWords);
    WordsDocText(ArgBWords);
  }

  lemma AddReturnText()
    ensures DocText(AddReturn)
  {
    assert Words(ReturnWords);
    WordsDocText(ReturnWords);
  }

  /** The path `add.test.add` binds `add` in the submodule `test`. */
  lemma AddBucket()
    ensures Grouping.SplitModulePath(AddPath) == ("test", "add")
  {
    Grouping.PathSegments(["add", "test", "add"]);
    assert Join(".", ["add", "test", "add"]) == AddPath;
    assert Join(".", ["test"]) == "test";
  }

  lemma AddPathChars()
    ensures AddPath != [] && AllPathChars(AddPath)
  {
  }

  lemma AddParamsLaidOut()
    ensures ParamsPlain(AddDoc.params)
    ensures forall k :: 0 <= k < |AddDoc.params| ==> DocText(AddDoc.params[k].1)
  {
    ArgAText();
    ArgBText();
    assert AllWordChars("a") && AllWordChars("b");
    var ps := AddDoc.params;
    assert |ps| == 2 && ps[0] == ("a", ArgA) && ps[1] == ("b", ArgB);
  }

  lemma AddDocLaidOut()
    ensures LaidOut(AddDoc)
  {
    AddDescText();
    AddParamsLaidOut();
    AddReturnText();
    AddPathChars();
  }

  lemma AddDeclarations()
    ensures Strip(Declaration(("int", "a"))) == Declaration(("int", "a"))
    ensures Strip(" " + Declaration(("int", "b"))) == Declaration(("int", "b"))
    ensures ',' !in Declaration(("int", "a")) && ',' !in " " + Declaration(("int", "b"))
  {
    StripStripped(Declaration(("int", "a")));
    StripPadded(" ", Declaration(("int", "b")), "");
    assert " " + Declaration(("int", "b")) + "" == " " + Declaration(("int", "b"));
  }

  lemma AddSignature()
    ensures SigPairs(AddParamList) == [("int", "a"), ("int", "b")]
  {
    var frags := [Declaration(("int", "a")), " " + Declaration(("int", "b"))];
    AddDeclarations();
    assert AllWordChars("a") && AllWordChars("b");
    SigPairsOfDeclarations(frags, [("int", "a"), ("int", "b")]);
  }

  lemma ArgsStripped()
    ensures Strip("a") == "a" && Strip("b") == "b" && Strip(ArgA) == ArgA && Strip(ArgB) == ArgB
  {
    ArgAText();
    ArgBText();
    StripStripped(ArgA);
    StripStripped(ArgB);
    StripStripped("a");
    StripStripped("b");
  }

  lemma AddZip()
    ensures Zip(AddDoc.params, [("int", "a"), ("int", "b")])
      == [Param("a", "int", ArgA), Param("b", "int", ArgB)]
  {
    ArgsStripped();
    var r := Zip(AddDoc.params, [("int", "a"), ("int", "b")]);
    assert |r| == 2;
    assert r[0] == Param("a", "int", ArgA);
    assert r[1] == Param("b", "int", ArgB);
  }

  lemma AddNamesStripped()
    ensures Strip("add::test") == "add::test" && Strip("add") == "add" && Strip("int") == "int"
  {
    StripStripped("add::test");
    StripStripped("add");
    StripStripped("int");
  }

  lemma AddFunctionRecord(path: string, indent: string)
    requires AllSpace(indent)
    ensures FunctionRecord(AddFunction(indent), path) == Some(AddRecord(path))
  {
    AddDocLaidOut();
    FunctionRecordOfDoc(AddFunction(indent), path, indent, AddDoc);
    AddSignature();
    AddZip();
    AddNamesStripped();
  }

  /** The demo header yields exactly one record, for `add`, with both parameters typed
      from its declaration, whatever the indentation of the comment rows. */
  lemma AddHeaderRecords(path: string, indent: string)
    requires AllSpace(indent)
    ensures AnnotatedItems(AddHeader(path, indent)) == [AddRecord(path)]
  {
    AddFunctionRecord(path, indent);
    OneFunctionHeader(AddHeader(path, indent));
  }
}
