// The metadata builder of cpp_bind_python.py (`parse_module_annotations`, lines 49-235).
//
// The three regular expressions that find declarations in the header text are not
// modelled; the header is given as what they capture. A header is the list of
// function-pattern matches, the list of class-pattern matches, and every class body in the
// text, in order, with the method matches inside it. From there on the model follows the
// code: each comment is cleaned, its tags are read, the parameter list is tokenised and
// zipped, and a record is kept only when its comment carries a module path.
module Annotations {
  import opened Text
  import opened Wrappers
  import opened Comment
  import opened Tags
  import opened Signature
  import opened Layout

  /** One function-pattern match: namespace, comment block, return type, name and the
      parameter list between the parentheses. */
  datatype RawFunction = RawFunction(namespace: string, comment: string, returnType: string,
                                     name: string, paramList: string)

  /** One class-pattern match: namespace, comment block and class name. */
  datatype RawClass = RawClass(namespace: string, comment: string, name: string)

  /** One method match inside a class body: comment block, return type, name and
      parameter list. */
  datatype RawMethod = RawMethod(comment: string, returnType: string, name: string,
                                 paramList: string)

  /** A class body found by name, with the method matches inside it. */
  datatype ClassBody = ClassBody(name: string, methods: seq<RawMethod>)

  /** What the patterns capture from one header file. */
  datatype Header = Header(path: string, functions: seq<RawFunction>, classes: seq<RawClass>,
                           bodies: seq<ClassBody>)

  datatype MethodInfo = MethodInfo(name: string, returnType: string, params: seq<Param>,
                                   desc: string, returnDesc: string)

  /** A record of the returned list: a function or a class. */
  datatype Item =
    | FunctionItem(namespace: string, name: string, returnType: string, params: seq<Param>,
                   modulePath: string, desc: string, returnDesc: string, sourceFile: string)
    | ClassItem(namespace: string, name: string, modulePath: string, desc: string,
                methods: seq<MethodInfo>, sourceFile: string)

  // ---------------------------------------------------------------------------------
  // The records as values.

  /** The record of a function match, or nothing when its comment has no module path. */
  function FunctionRecord(f: RawFunction, sourceFile: string): (r: Option<Item>)
    ensures r.Some? <==> ModulePath(Normalise(f.comment)).Some?
    ensures r.Some? ==>
      r.value.FunctionItem? && r.value.modulePath != [] && AllPathChars(r.value.modulePath)
      && r.value.sourceFile == sourceFile
  {
    var c := Normalise(f.comment);
    match ModulePath(c)
    case None => None
    case Some(m) =>
      Some(FunctionItem(Strip(f.namespace), Strip(f.name), Strip(f.returnType),
        Zip(ParamTags(c), SigPairs(f.paramList)), m, Description(c, FunctionStops),
        ReturnDescription(c), sourceFile))
  }

  /** The record of a method match; a method needs no module path. */
  function MethodRecord(m: RawMethod): MethodInfo {
    var c := Normalise(m.comment);
    MethodInfo(Strip(m.name), Strip(m.returnType), Zip(ParamTags(c), SigPairs(m.paramList)),
      Description(c, MethodStops), ReturnDescription(c))
  }

  /** The index of the first body with the given name, or `|bodies|` when there is none. */
  function FirstBody(bodies: seq<ClassBody>, name: string): (i: nat)
    ensures i <= |bodies| && (i < |bodies| ==> bodies[i].name == name)
    ensures forall j :: 0 <= j < i ==> bodies[j].name != name
    decreases |bodies|
  {
    if bodies == [] || bodies[0].name == name then 0 else 1 + FirstBody(bodies[1..], name)
  }

  /** The methods of a class: those of the first body carrying its name, or none. */
  function ClassMethods(bodies: seq<ClassBody>, name: string): seq<MethodInfo> {
    var i := FirstBody(bodies, name);
    if i == |bodies| then [] else MethodRecords(bodies[i].methods)
  }

  /** The records of a body's method matches, in order. */
  function MethodRecords(methods: seq<RawMethod>): (r: seq<MethodInfo>)
    ensures |r| == |methods|
  {
    if methods == [] then []
    else MethodRecords(methods[..|methods| - 1]) + [MethodRecord(methods[|methods| - 1])]
  }

  /** The record of a class match, or nothing when its comment has no module path. */
  function ClassRecord(c: RawClass, h: Header): (r: Option<Item>)
    ensures r.Some? <==> ModulePath(Normalise(c.comment)).Some?
    ensures r.Some? ==>
      r.value.ClassItem? && r.value.modulePath != [] && AllPathChars(r.value.modulePath)
      && r.value.sourceFile == h.path
  {
    var cleaned := Normalise(c.comment);
    match ModulePath(cleaned)
    case None => None
    case Some(m) =>
      Some(ClassItem(Strip(c.namespace), Strip(c.name), m, Description(cleaned, ClassStops),
        ClassMethods(h.bodies, c.name), h.path))
  }

  function FunctionStep(sourceFile: string): RawFunction -> Option<Item> {
    f => FunctionRecord(f, sourceFile)
  }

  function ClassStep(h: Header): RawClass -> Option<Item> {
    c => ClassRecord(c, h)
  }

  /** The returned list: the function records in match order, then the class records in
      match order. */
  function AnnotatedItems(h: Header): seq<Item> {
    FilterSome(FunctionStep(h.path), h.functions) + FilterSome(ClassStep(h), h.classes)
  }

  // ---------------------------------------------------------------------------------
  // The builder.

  /** One method match: its comment cleaned and read, its parameters tokenised and zipped. */
  method ParseMethod(m: RawMethod) returns (info: MethodInfo)
    ensures info == MethodRecord(m)
  {
    var c := Normalise(m.comment);
    var sig := TokenizeSignature(m.paramList);
    var params := ZipParams(ParamTags(c), sig);
    info := MethodInfo(Strip(m.name), Strip(m.returnType), params,
      Description(c, MethodStops), ReturnDescription(c));
  }

  lemma MethodRecordsSnoc(methods: seq<RawMethod>, i: nat)
    requires i < |methods|
    ensures MethodRecords(methods[..i + 1]) == MethodRecords(methods[..i]) + [MethodRecord(methods[i])]
  {
    assert methods[..i + 1][..i] == methods[..i];
  }

  method ParseMethods(methods: seq<RawMethod>) returns (infos: seq<MethodInfo>)
    ensures infos == MethodRecords(methods)
  {
    infos := [];
    var i := 0;
    while i < |methods|
      invariant 0 <= i <= |methods|
      invariant infos == MethodRecords(methods[..i])
    {
      var info := ParseMethod(methods[i]);
      MethodRecordsSnoc(methods, i);
      infos := infos + [info];
      i := i + 1;
    }
    assert methods[..i] == methods;
  }

  /** The search for a class body by name. */
  method FindClassBody(bodies: seq<ClassBody>, name: string) returns (found: Option<ClassBody>)
    ensures found.Some? <==> FirstBody(bodies, name) < |bodies|
    ensures found.Some? ==> found.value == bodies[FirstBody(bodies, name)]
  {
    var i := 0;
    while i < |bodies|
      invariant 0 <= i <= |bodies|
      invariant forall j :: 0 <= j < i ==> bodies[j].name != name
    {
      if bodies[i].name == name {
        FirstBodyIs(bodies, name, i);
        return Some(bodies[i]);
      }
      i := i + 1;
    }
    FirstBodyIs(bodies, name, i);
    return None;
  }

  lemma {:induction false} FirstBodyIs(bodies: seq<ClassBody>, name: string, i: nat)
    requires i <= |bodies| && (i < |bodies| ==> bodies[i].name == name)
    requires forall j :: 0 <= j < i ==> bodies[j].name != name
    ensures FirstBody(bodies, name) == i
    decreases i
  {
    if i > 0 {
      FirstBodyIs(bodies[1..], name, i - 1);
    }
  }

  /** One function match: the record, or nothing when the comment has no module path. */
  method ParseFunction(f: RawFunction, sourceFile: string) returns (r: Option<Item>)
    ensures r == FunctionRecord(f, sourceFile)
  {
    var c := Normalise(f.comment);
    var modulePath := ModulePath(c);
    if modulePath.None? {
      return None;
    }
    var sig := TokenizeSignature(f.paramList);
    var params := ZipParams(ParamTags(c), sig);
    r := Some(FunctionItem(Strip(f.namespace), Strip(f.name), Strip(f.returnType), params,
      modulePath.value, Description(c, FunctionStops), ReturnDescription(c), sourceFile));
  }

  /** One class match: the record, with the methods of the first body of that name. */
  method ParseClass(cls: RawClass, h: Header) returns (r: Option<Item>)
    ensures r == ClassRecord(cls, h)
  {
    var c := Normalise(cls.comment);
    var modulePath := ModulePath(c);
    if modulePath.None? {
      return None;
    }
    var body := FindClassBody(h.bodies, cls.name);
    var methods := [];
    if body.Some? {
      methods := ParseMethods(body.value.methods);
    }
    r := Some(ClassItem(Strip(cls.namespace), Strip(cls.name), modulePath.value,
      Description(c, ClassStops), methods, h.path));
  }

  /** The first pass: the function matches, in order. */
  method ParseFunctions(functions: seq<RawFunction>, sourceFile: string)
    returns (items: seq<Item>)
    ensures items == FilterSome(FunctionStep(sourceFile), functions)
  {
    items := [];
    var i := 0;
    while i < |functions|
      invariant 0 <= i <= |functions|
      invariant items == FilterSome(FunctionStep(sourceFile), functions[..i])
    {
      FilterSomeSnoc(FunctionStep(sourceFile), functions, i);
      var r := ParseFunction(functions[i], sourceFile);
      if r.Some? {
        items := items + [r.value];
      }
      i := i + 1;
    }
    assert functions[..i] == functions;
  }

  /** The second pass: the class matches, in order. */
  method ParseClasses(h: Header) returns (items: seq<Item>)
    ensures items == FilterSome(ClassStep(h), h.classes)
  {
    items := [];
    var j := 0;
    while j < |h.classes|
      invariant 0 <= j <= |h.classes|
      invariant items == FilterSome(ClassStep(h), h.classes[..j])
    {
      FilterSomeSnoc(ClassStep(h), h.classes, j);
      var r := ParseClass(h.classes[j], h);
      if r.Some? {
        items := items + [r.value];
      }
      j := j + 1;
    }
    assert h.classes[..j] == h.classes;
  }

  /** The records of one header: functions first, then classes. */
  method ParseModuleAnnotations(h: Header) returns (items: seq<Item>)
    ensures items == AnnotatedItems(h)
  {
    var functionItems := ParseFunctions(h.functions, h.path);
    var classItems := ParseClasses(h);
    items := functionItems + classItems;
  }

  // ---------------------------------------------------------------------------------
  // What the records promise.

  /** Every record carries a non-empty dotted module path made of `[\w.]` characters and
      the header it came from, and there is at most one record per match. */
  lemma AnnotatedItemsShape(h: Header)
    ensures |AnnotatedItems(h)| <= |h.functions| + |h.classes|
    ensures forall k :: 0 <= k < |AnnotatedItems(h)| ==>
      AnnotatedItems(h)[k].modulePath != [] && AllPathChars(AnnotatedItems(h)[k].modulePath)
      && AnnotatedItems(h)[k].sourceFile == h.path
  {
    var fs: seq<Item> := FilterSome(FunctionStep(h.path), h.functions);
    var cs: seq<Item> := FilterSome(ClassStep(h), h.classes);
    forall k | 0 <= k < |fs + cs|
      ensures (fs + cs)[k].modulePath != [] && AllPathChars((fs + cs)[k].modulePath)
        && (fs + cs)[k].sourceFile == h.path
    {
      if k < |fs| {
        FilterSomeSource(FunctionStep(h.path), h.functions, k);
      } else {
        FilterSomeSource(ClassStep(h), h.classes, k - |fs|);
      }
    }
  }

  /** Function records come first and class records after them: once a class record
      appears, every later record is a class record. */
  lemma FunctionsBeforeClasses(h: Header)
    ensures forall i, j ::
      0 <= i < j < |AnnotatedItems(h)| && AnnotatedItems(h)[i].ClassItem? ==>
        AnnotatedItems(h)[j].ClassItem?
  {
    var fs: seq<Item> := FilterSome(FunctionStep(h.path), h.functions);
    var cs: seq<Item> := FilterSome(ClassStep(h), h.classes);
    forall k | 0 <= k < |fs + cs|
      ensures (k < |fs| ==> (fs + cs)[k].FunctionItem?) && (k >= |fs| ==> (fs + cs)[k].ClassItem?)
    {
      if k < |fs| {
        FilterSomeSource(FunctionStep(h.path), h.functions, k);
      } else {
        FilterSomeSource(ClassStep(h), h.classes, k - |fs|);
      }
    }
  }

  /** A comment that, once cleaned, carries a module tag. */
  predicate HasModuleTag(comment: string) {
    ModulePath(Normalise(comment)).Some?
  }

  lemma FunctionRecordsEmpty(functions: seq<RawFunction>, sourceFile: string)
    ensures FilterSome(FunctionStep(sourceFile), functions) == [] <==>
      forall k :: 0 <= k < |functions| ==> !HasModuleTag(functions[k].comment)
  {
    FilterSomeEmpty(FunctionStep(sourceFile), functions);
    forall k | 0 <= k < |functions|
      ensures FunctionStep(sourceFile)(functions[k]).None? <==> !HasModuleTag(functions[k].comment)
    {
      var r := FunctionRecord(functions[k], sourceFile);
    }
  }

  lemma ClassRecordsEmpty(h: Header)
    ensures FilterSome(ClassStep(h), h.classes) == [] <==>
      forall k :: 0 <= k < |h.classes| ==> !HasModuleTag(h.classes[k].comment)
  {
    FilterSomeEmpty(ClassStep(h), h.classes);
    forall k | 0 <= k < |h.classes|
      ensures ClassStep(h)(h.classes[k]).None? <==> !HasModuleTag(h.classes[k].comment)
    {
      var r := ClassRecord(h.classes[k], h);
    }
  }

  /** A header yields no record exactly when no function and no class comment carries a
      module tag. */
  lemma NoRecordsIffUnannotated(h: Header)
    ensures AnnotatedItems(h) == [] <==>
      (forall k :: 0 <= k < |h.functions| ==> !HasModuleTag(h.functions[k].comment))
      && (forall k :: 0 <= k < |h.classes| ==> !HasModuleTag(h.classes[k].comment))
  {
    FunctionRecordsEmpty(h.functions, h.path);
    ClassRecordsEmpty(h);
  }

  /** A header with one function match and no class match yields that function's record,
      if it has one, and nothing else. */
  lemma OneFunctionHeader(h: Header)
    requires |h.functions| == 1 && h.classes == []
    ensures AnnotatedItems(h) == match FunctionRecord(h.functions[0], h.path)
      case Some(item) => [item]
      case None => []
  {
    assert h.functions[..0] == [] && h.functions[..1] == h.functions;
    FilterSomeSnoc(FunctionStep(h.path), h.functions, 0);
  }

  /** A function whose comment lays out a document with a module tag, one tag per row,
      gives back its description, parameters, return text and module path. */
  lemma FunctionRecordOfDoc(f: RawFunction, sourceFile: string, indent: string, d: TagDoc)
    requires AllSpace(indent) && f.comment == DocBlock(indent, TagLines(d))
    requires LaidOut(d) && d.path.Some?
    ensures FunctionRecord(f, sourceFile) == Some(FunctionItem(Strip(f.namespace), Strip(f.name),
      Strip(f.returnType), Zip(d.params, SigPairs(f.paramList)), d.path.value, d.desc,
      if d.ret.Some? then d.ret.value else "", sourceFile))
  {
    var c := Normalise(f.comment);
    LaidOutNormalises(indent, d);
    assert c == TagText(d);
    StopListsAreTags();
    TagModuleRoundTrip(d);
    TagReturnRoundTrip(d);
    TagParamsRoundTrip(d);
    TagDescriptionRoundTrip(d, FunctionStops);
  }

  /** A class whose comment lays out a document with a module tag, and whose first tag is
      a parameter or module tag, gives back its description and module path. */
  lemma ClassRecordOfDoc(c: RawClass, h: Header, indent: string, d: TagDoc)
    requires AllSpace(indent) && c.comment == DocBlock(indent, TagLines(d))
    requires LaidOut(d) && d.path.Some? && (d.params != [] || d.ret.None?)
    ensures ClassRecord(c, h) == Some(ClassItem(Strip(c.namespace), Strip(c.name), d.path.value,
      d.desc, ClassMethods(h.bodies, c.name), h.path))
  {
    var cleaned := Normalise(c.comment);
    LaidOutNormalises(indent, d);
    assert cleaned == TagText(d);
    StopListsAreTags();
    TagModuleRoundTrip(d);
    TagDescriptionRoundTrip(d, ClassStops);
  }
}
