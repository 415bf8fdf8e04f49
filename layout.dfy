// The documented comment as a header author writes it: the description on the first row,
// then one `@param`, `@return` or `@module` tag per row, as in main/include/add.hpp. Such a
// block, at any indentation, cleans to the tag text that the extractors read back.
module Layout {
  import opened Text
  import opened Wrappers
  import opened Comment
  import opened Tags

  /** One tag row: `@`, the tag name, a space and the tag's text. */
  function TagRow(name: string, body: string): string {
    "@" + name + " " + body
  }

  /** The `@param` rows, one per parameter, in order. */
  function ParamRows(params: seq<(string, string)>): (rows: seq<string>)
    ensures |rows| == |params|
    ensures forall k :: 0 <= k < |rows| ==>
      rows[k] == TagRow("param", params[k].0 + " " + params[k].1)
    decreases |params|
  {
    if params == [] then []
    else [TagRow("param", params[0].0 + " " + params[0].1)] + ParamRows(params[1..])
  }

  /** The rows after the description: parameters, then the return tag, then the module
      tag. */
  function TagRows(d: TagDoc): seq<string> {
    ParamRows(d.params) + OptionalRow("return", d.ret) + OptionalRow("module", d.path)
  }

  /** The row of an optional tag, present when the tag is. */
  function OptionalRow(name: string, body: Option<string>): (rows: seq<string>)
    ensures |rows| <= 1
  {
    if body.Some? then [TagRow(name, body.value)] else []
  }

  /** All rows of the comment, the description first. */
  function TagLines(d: TagDoc): seq<string> {
    [d.desc] + TagRows(d)
  }

  /** Text a header author may put on a row: carried back by a tag (`Plain`), written with
      single spaces, and not ending in a closing delimiter. */
  predicate DocText(x: string) {
    Plain(x) && SingleSpaced(x) && !(|x| >= 2 && x[|x| - 2..] == "*/")
  }

  /** A tag document whose texts can all be written on rows. */
  predicate LaidOut(d: TagDoc) {
    && WellFormed(d)
    && DocText(d.desc)
    && (forall k :: 0 <= k < |d.params| ==> DocText(d.params[k].1))
    && (d.ret.Some? ==> DocText(d.ret.value))
  }

  // ---------------------------------------------------------------------------------
  // Every row is a document line.

  predicate NoSpace(s: string) {
    forall i :: 0 <= i < |s| ==> !IsSpace(s[i])
  }

  /** A word, a space and a single-spaced text form a single-spaced, trimmed row that
      ends as the text does. */
  lemma WordThenText(a: string, b: string)
    requires a != [] && NoSpace(a) && b != [] && IsNormalised(b)
    ensures IsNormalised(a + " " + b)
    ensures !(|b| >= 2 && b[|b| - 2..] == "*/") ==>
      !(|a + " " + b| >= 2 && (a + " " + b)[|a + " " + b| - 2..] == "*/")
  {
    var s := a + " " + b;
    forall i | 0 <= i < |s| && IsSpace(s[i])
      ensures s[i] == ' ' && (i + 1 == |s| || !IsSpace(s[i + 1]))
    {
      if i == |a| {
        assert s[i + 1] == b[0];
      } else if i > |a| {
        assert s[i] == b[i - |a| - 1];
        if i + 1 < |s| { assert s[i + 1] == b[i - |a|]; }
      }
    }
    assert s[0] == a[0] && s[|s| - 1] == b[|b| - 1];
    if |b| >= 2 {
      assert s[|s| - 2..] == b[|b| - 2..];
    } else {
      assert s[|s| - 2] == ' ';
    }
  }

  lemma WordNoSpace(n: string)
    requires AllWordChars(n)
    ensures NoSpace(n)
  {
  }

  lemma PathNoSpace(p: string)
    requires AllPathChars(p)
    ensures NoSpace(p) && '*' !in p
  {
  }

  lemma TagNameNoSpace(name: string)
    requires name == "param" || name == "return" || name == "module"
    ensures "@" + name != [] && NoSpace("@" + name)
  {
  }

  lemma TagRowIsDocLine(name: string, body: string)
    requires name == "param" || name == "return" || name == "module"
    requires body != [] && IsNormalised(body) && !(|body| >= 2 && body[|body| - 2..] == "*/")
    ensures IsDocLine(TagRow(name, body))
  {
    TagNameNoSpace(name);
    WordThenText("@" + name, body);
  }

  lemma ParamRowIsDocLine(n: string, x: string)
    requires n != [] && AllWordChars(n) && DocText(x)
    ensures IsDocLine(TagRow("param", n + " " + x))
  {
    WordNoSpace(n);
    WordThenText(n, x);
    TagRowIsDocLine("param", n + " " + x);
  }

  lemma ModuleRowIsDocLine(p: string)
    requires p != [] && AllPathChars(p)
    ensures IsDocLine(TagRow("module", p))
  {
    PathNoSpace(p);
    assert SingleSpaced(p);
    if |p| >= 2 {
      assert p[|p| - 2] != '*';
    }
    TagRowIsDocLine("module", p);
  }

  lemma DocLinesAppend(a: seq<string>, b: seq<string>)
    requires DocLines(a) && DocLines(b)
    ensures DocLines(a + b)
  {
    forall k | 0 <= k < |a + b| ensures IsDocLine((a + b)[k]) {
      if k >= |a| { assert (a + b)[k] == b[k - |a|]; }
    }
  }

  lemma ParamRowsAreDocLines(params: seq<(string, string)>)
    requires forall k :: 0 <= k < |params| ==>
      params[k].0 != [] && AllWordChars(params[k].0) && DocText(params[k].1)
    ensures DocLines(ParamRows(params))
  {
    var rows := ParamRows(params);
    forall k | 0 <= k < |rows| ensures IsDocLine(rows[k]) {
      ParamRowIsDocLine(params[k].0, params[k].1);
    }
  }

  lemma ReturnRowIsDocLine(ret: Option<string>)
    requires ret.Some? ==> DocText(ret.value)
    ensures DocLines(OptionalRow("return", ret))
  {
    if ret.Some? { TagRowIsDocLine("return", ret.value); }
  }

  lemma OptionalModuleRowIsDocLine(path: Option<string>)
    requires path.Some? ==> path.value != [] && AllPathChars(path.value)
    ensures DocLines(OptionalRow("module", path))
  {
    if path.Some? { ModuleRowIsDocLine(path.value); }
  }

  lemma TagRowsAreDocLines(d: TagDoc)
    requires LaidOut(d)
    ensures DocLines(TagRows(d))
  {
    var ps := ParamRows(d.params);
    ParamRowsAreDocLines(d.params);
    ReturnRowIsDocLine(d.ret);
    OptionalModuleRowIsDocLine(d.path);
    DocLinesAppend(ps, OptionalRow("return", d.ret));
    DocLinesAppend(ps + OptionalRow("return", d.ret), OptionalRow("module", d.path));
  }

  /** Every row of a laid-out document is a document line. */
  lemma TagLinesAreDocLines(d: TagDoc)
    requires LaidOut(d)
    ensures DocLines(TagLines(d))
  {
    TagRowsAreDocLines(d);
    assert DocLines([d.desc]);
    DocLinesAppend([d.desc], TagRows(d));
  }

  // ---------------------------------------------------------------------------------
  // Prose written as words separated by single spaces is document text.

  /** A word of prose: no whitespace and no `@`. */
  predicate IsWord(w: string) {
    w != [] && NoSpace(w) && '@' !in w
  }

  predicate Words(words: seq<string>) {
    forall k :: 0 <= k < |words| ==> IsWord(words[k])
  }

  lemma OneWordText(w: string)
    requires IsWord(w) && !(|w| >= 2 && w[|w| - 2..] == "*/")
    ensures DocText(w)
  {
    assert !IsSpace(w[0]) && !IsSpace(w[|w| - 1]);
  }

  /** Words joined by single spaces, the last one not ending in a closing delimiter, make
      document text. */
  lemma {:induction false} WordsDocText(words: seq<string>)
    requires words != [] && Words(words)
    requires !(|words[|words| - 1]| >= 2 && words[|words| - 1][|words[|words| - 1]| - 2..] == "*/")
    ensures DocText(Join(" ", words))
    decreases |words|
  {
    if |words| == 1 {
      OneWordText(words[0]);
    } else {
      var w := words[0];
      var rest := words[1..];
      assert Words(rest) by {
        forall k | 0 <= k < |rest| ensures IsWord(rest[k]) { assert rest[k] == words[k + 1]; }
      }
      assert rest[|rest| - 1] == words[|words| - 1];
      WordsDocText(rest);
      var tail := Join(" ", rest);
      assert IsWord(w);
      WordThenText(w, tail);
      var x := w + " " + tail;
      assert '@' !in x;
      NormalisedHasNoNewline(x);
    }
  }

  // ---------------------------------------------------------------------------------
  // The rows joined by spaces are the tag text.

  lemma {:induction false} RowsCollapsedAppend(a: seq<string>, b: seq<string>)
    ensures RowsCollapsed(a + b) == RowsCollapsed(a) + RowsCollapsed(b)
    decreases |a|
  {
    if a == [] {
      assert a + b == b;
    } else {
      assert (a + b)[1..] == a[1..] + b;
      RowsCollapsedAppend(a[1..], b);
    }
  }

  lemma RowChunk(name: string, body: string)
    ensures " " + TagRow(name, body) == Chunk(name, body)
  {
  }

  lemma {:induction false} ParamRowsText(params: seq<(string, string)>)
    ensures RowsCollapsed(ParamRows(params)) == ParamText(params)
    decreases |params|
  {
    if params != [] {
      var rows := ParamRows(params);
      assert rows[1..] == ParamRows(params[1..]);
      ParamRowsText(params[1..]);
      RowChunk("param", params[0].0 + " " + params[0].1);
    }
  }

  lemma OneRowText(name: string, body: string)
    ensures RowsCollapsed([TagRow(name, body)]) == Chunk(name, body)
  {
    assert [TagRow(name, body)][1..] == [];
    RowChunk(name, body);
  }

  lemma ReturnRowText(ret: Option<string>)
    ensures RowsCollapsed(OptionalRow("return", ret)) == ReturnText(ret)
  {
    if ret.Some? { OneRowText("return", ret.value); }
  }

  lemma ModuleRowText(path: Option<string>)
    ensures RowsCollapsed(OptionalRow("module", path)) == ModuleText(path)
  {
    if path.Some? { OneRowText("module", path.value); }
  }

  lemma TagRowsText(d: TagDoc)
    ensures RowsCollapsed(TagRows(d)) == ParamText(d.params) + (ReturnText(d.ret) + ModuleText(d.path))
  {
    var ps := ParamRows(d.params);
    var rs := OptionalRow("return", d.ret);
    var ms := OptionalRow("module", d.path);
    RowsCollapsedAppend(ps + rs, ms);
    RowsCollapsedAppend(ps, rs);
    ParamRowsText(d.params);
    ReturnRowText(d.ret);
    ModuleRowText(d.path);
  }

  /** The rows joined by single spaces are exactly the text the tag round trips read. */
  lemma TagLinesJoin(d: TagDoc)
    ensures Join(" ", TagLines(d)) == TagText(d)
  {
    RowsCollapsedJoin(d.desc, TagRows(d));
    TagRowsText(d);
  }

  /** A laid-out document block, at any indentation, cleans to its tag text. */
  lemma LaidOutNormalises(indent: string, d: TagDoc)
    requires AllSpace(indent) && LaidOut(d)
    ensures Normalise(DocBlock(indent, TagLines(d))) == TagText(d)
  {
    TagLinesAreDocLines(d);
    DocBlockNormalises(indent, TagLines(d));
    TagLinesJoin(d);
  }
}
