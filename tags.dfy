// The four tag extractors that read a cleaned comment (cpp_bind_python.py, lines 102-116,
// 160-167 and 186-193). Each is a `re.search` or `re.findall` of a fixed pattern; here
// each pattern's backtracking behaviour is written out as a test at one position of the
// text (a function of the remaining suffix) and a left-to-right search over positions.
module Tags {
  import opened Text
  import opened Comment
  import opened Wrappers

  /** The end of the longest run of characters other than `@` from `p`: a greedy `[^@]+`. */
  function NonAtEnd(s: string, p: nat): (r: nat)
    requires p <= |s|
    ensures p <= r <= |s| && '@' !in s[p..r] && (r == |s| || s[r] == '@')
  {
    RunEnd(s, p, NotAt)
  }

  // ---------------------------------------------------------------------------------
  // `@module`: a whitespace run of at least one character and then a run of at least one
  // `[\w.]` character, which is the captured path. The whitespace run cannot give a
  // character back to the path, so both runs are the longest ones.

  function ModuleHere(t: string): (r: Option<string>)
    ensures r.Some? ==> r.value != [] && AllPathChars(r.value)
  {
    if !StartsWith(t, "@module") then None
    else
      var e := SpaceEnd(t, 7);
      var b := RunEnd(t, e, IsPathChar);
      if e > 7 && b > e then Some(t[e..b]) else None
  }

  /** `re.search`: the path of the first `@module` tag that matches, if any. */
  function ModulePath(t: string): (r: Option<string>)
    ensures r.Some? ==> r.value != [] && AllPathChars(r.value)
    decreases |t|
  {
    if t == [] then None
    else if ModuleHere(t).Some? then ModuleHere(t)
    else ModulePath(t[1..])
  }

  // ---------------------------------------------------------------------------------
  // The description: the lazy `.*?` after `^` is tried at every position of the first
  // line, and wins at the first one where, after optional whitespace, one of the stop tags
  // follows. Without DOTALL the `.` cannot pass a newline, so no later line is tried.

  const FunctionStops: seq<string> := ["@param", "@return", "@module"]
  const ClassStops: seq<string> := ["@param", "@module"]
  const MethodStops: seq<string> := ["@param", "@return"]

  /** The alternation of the stop tags: `u` starts with one of `stops`, tried in order. */
  predicate StartsWithAny(u: string, stops: seq<string>)
    decreases |stops|
  {
    stops != [] && (StartsWith(u, stops[0]) || StartsWithAny(u, stops[1..]))
  }

  /** After optional whitespace, one of the stop tags follows. */
  predicate StopHere(t: string, stops: seq<string>) {
    StartsWithAny(t[SpaceEnd(t, 0)..], stops)
  }

  /** The alternation matches exactly when one of its branches does. */
  lemma {:induction false} StartsWithAnyIff(u: string, stops: seq<string>)
    ensures StartsWithAny(u, stops) <==> exists k :: 0 <= k < |stops| && StartsWith(u, stops[k])
    decreases |stops|
  {
    if stops != [] {
      StartsWithAnyIff(u, stops[1..]);
      if StartsWithAny(u, stops[1..]) {
        var k :| 0 <= k < |stops[1..]| && StartsWith(u, stops[1..][k]);
        assert StartsWith(u, stops[k + 1]);
      }
      if exists k :: 0 <= k < |stops| && StartsWith(u, stops[k]) {
        var k :| 0 <= k < |stops| && StartsWith(u, stops[k]);
        if k > 0 {
          assert stops[1..][k - 1] == stops[k];
        }
      }
    }
  }

  /** The position where the lazy group ends, if the pattern matches at all. */
  function StopIndex(t: string, stops: seq<string>): (r: Option<nat>)
    ensures r.Some? ==> r.value <= |t| && '\n' !in t[..r.value]
    decreases |t|
  {
    if StopHere(t, stops) then Some(0)
    else if t == [] || t[0] == '\n' then None
    else
      match StopIndex(t[1..], stops)
      case None => None
      case Some(i) =>
        ConsWithout(t, i, '\n');
        Some(i + 1)
  }

  /** Where the lazy group ends, a stop tag follows, after optional whitespace. */
  lemma {:induction false} StopIndexStops(t: string, stops: seq<string>)
    ensures StopIndex(t, stops).Some? ==> StopHere(t[StopIndex(t, stops).value..], stops)
    decreases |t|
  {
    if !StopHere(t, stops) && t != [] && t[0] != '\n' {
      StopIndexStops(t[1..], stops);
      if StopIndex(t[1..], stops).Some? {
        var i := StopIndex(t[1..], stops).value;
        assert t[1..][i..] == t[i + 1..];
      }
    } else if StopHere(t, stops) {
      assert t[0..] == t;
    }
  }

  /** The description: the text before the first stop tag, trimmed, or empty when no stop
      tag follows on the first line. */
  function Description(t: string, stops: seq<string>): (r: string)
    ensures IsStripped(r) && '\n' !in r
  {
    match StopIndex(t, stops)
    case None => ""
    case Some(i) =>
      StripWithout(t[..i], '\n');
      Strip(t[..i])
  }

  // ---------------------------------------------------------------------------------
  // `@return`: one or more whitespace characters and then one or more characters other
  // than `@`. The greedy whitespace run gives back one character when nothing else
  // follows it, so the pattern matches exactly when the character after the tag is
  // whitespace and is followed by at least one more character other than `@`; the group,
  // once trimmed, is the text up to the next `@`, trimmed.

  function ReturnHere(t: string): (r: Option<string>)
    ensures r.Some? ==> IsStripped(r.value) && '@' !in r.value
  {
    if StartsWith(t, "@return") && |t| > 7 && IsSpace(t[7]) && NonAtEnd(t, 7) >= 9 then
      var n := NonAtEnd(t, 7);
      StripWithout(t[7..n], '@');
      Some(Strip(t[7..n]))
    else None
  }

  /** `re.search` for the first `@return` that matches. */
  function FindReturn(t: string): (r: Option<string>)
    ensures r.Some? ==> IsStripped(r.value) && '@' !in r.value
    decreases |t|
  {
    if t == [] then None
    else if ReturnHere(t).Some? then ReturnHere(t)
    else FindReturn(t[1..])
  }

  /** The return description, or empty when no `@return` tag matches. */
  function ReturnDescription(t: string): (r: string)
    ensures IsStripped(r) && '@' !in r
  {
    match FindReturn(t)
    case None => ""
    case Some(d) => d
  }

  // ---------------------------------------------------------------------------------
  // `@param`: whitespace, a word (the name), whitespace, then text up to the next `@`
  // (the description). Neither whitespace run can give a character to the word that
  // follows it, and the word must be followed by whitespace, so the word is the longest
  // run; the description behaves as the `@return` text does.

  /** A match at the start of `t`: the name, the trimmed description and where the match
      ends. */
  function ParamHere(t: string): (r: Option<(string, string, nat)>)
    ensures r.Some? ==> var (name, desc, e) := r.value;
      0 < e <= |t| && name != [] && AllWordChars(name) && IsStripped(desc) && '@' !in desc
  {
    if !StartsWith(t, "@param") then None
    else
      var a := SpaceEnd(t, 6);
      var b := RunEnd(t, a, IsWordChar);
      if a > 6 && b > a && b < |t| && IsSpace(t[b]) && NonAtEnd(t, b) >= b + 2 then
        var n := NonAtEnd(t, b);
        StripWithout(t[b..n], '@');
        Some((t[a..b], Strip(t[b..n]), n))
      else None
  }

  /** `re.findall`: every match, left to right, each search resuming where the previous
      match ended. */
  function ParamTags(t: string): (r: seq<(string, string)>)
    ensures forall k :: 0 <= k < |r| ==>
      r[k].0 != [] && AllWordChars(r[k].0) && IsStripped(r[k].1) && '@' !in r[k].1
    decreases |t|
  {
    if t == [] then []
    else
      match ParamHere(t)
      case None => ParamTags(t[1..])
      case Some((name, desc, e)) => [(name, desc)] + ParamTags(t[e..])
  }

  // ---------------------------------------------------------------------------------
  // Round trip. A cleaned comment written as a description followed by `@param` tags, an
  // optional `@return` tag and an optional `@module` tag, each tag a space, the tag, a
  // space and its text, gives back each of its parts.

  datatype TagDoc = TagDoc(desc: string, params: seq<(string, string)>, ret: Option<string>,
                           path: Option<string>)

  /** One tag: a space, `@`, the tag name, a space and the tag's text. */
  function Chunk(name: string, body: string): string {
    " @" + name + " " + body
  }

  function ParamText(params: seq<(string, string)>): string
    decreases |params|
  {
    if params == [] then "" else Chunk("param", params[0].0 + " " + params[0].1) + ParamText(params[1..])
  }

  function ReturnText(ret: Option<string>): string {
    match ret
    case None => ""
    case Some(r) => Chunk("return", r)
  }

  function ModuleText(path: Option<string>): string {
    match path
    case None => ""
    case Some(p) => Chunk("module", p)
  }

  function TagText(d: TagDoc): string {
    d.desc + (ParamText(d.params) + (ReturnText(d.ret) + ModuleText(d.path)))
  }

  /** Text that a tag may carry and get back: non-empty, trimmed, on one line, without `@`. */
  predicate Plain(x: string) {
    x != [] && IsStripped(x) && '@' !in x && '\n' !in x
  }

  /** Parameters whose names are words and whose descriptions are plain text. */
  predicate ParamsPlain(params: seq<(string, string)>) {
    forall k :: 0 <= k < |params| ==>
      params[k].0 != [] && AllWordChars(params[k].0) && Plain(params[k].1)
  }

  lemma ParamsPlainTail(params: seq<(string, string)>)
    requires params != [] && ParamsPlain(params)
    ensures ParamsPlain(params[1..])
  {
    forall k | 0 <= k < |params| - 1 ensures params[1..][k] == params[k + 1] { }
  }

  predicate WellFormed(d: TagDoc) {
    && Plain(d.desc)
    && ParamsPlain(d.params)
    && (d.ret.Some? ==> Plain(d.ret.value))
    && (d.path.Some? ==> d.path.value != [] && AllPathChars(d.path.value))
  }

  /** Every `@` in `a` is followed, inside `a`, by a character other than `c`: no tag whose
      name starts with `c` begins in `a`. */
  predicate NoTagStart(a: string, c: char) {
    forall i :: 0 <= i < |a| && a[i] == '@' ==> i + 1 < |a| && a[i + 1] != c
  }

  /** Empty, or the start of a further tag. */
  predicate TagOrEnd(w: string) {
    w == [] || (|w| >= 2 && w[0] == ' ' && w[1] == '@')
  }

  lemma NoTagStartConcat(a: string, b: string, c: char)
    requires NoTagStart(a, c) && NoTagStart(b, c)
    ensures NoTagStart(a + b, c)
  {
    forall i | 0 <= i < |a + b| && (a + b)[i] == '@'
      ensures i + 1 < |a + b| && (a + b)[i + 1] != c
    {
      if i >= |a| { assert (a + b)[i] == b[i - |a|]; }
    }
  }

  lemma ChunkQuiet(name: string, body: string, c: char)
    requires name != [] && name[0] != c && '@' !in name && '@' !in body
    ensures NoTagStart(Chunk(name, body), c)
  {
  }

  /** A parameter tag's text, name and description, holds no `@`. */
  lemma ParamBodyNoAt(n: string, d: string)
    requires AllWordChars(n) && '@' !in d
    ensures '@' !in n + " " + d
  {
  }

  lemma {:induction false} ParamTextQuiet(params: seq<(string, string)>, c: char)
    requires ParamsPlain(params) && c != 'p'
    ensures NoTagStart(ParamText(params), c)
    decreases |params|
  {
    if params != [] {
      var (n, d) := params[0];
      ParamBodyNoAt(n, d);
      ChunkQuiet("param", n + " " + d, c);
      ParamsPlainTail(params);
      ParamTextQuiet(params[1..], c);
      NoTagStartConcat(Chunk("param", n + " " + d), ParamText(params[1..]), c);
    }
  }

  // Searching past text in which no tag of the kind searched for begins.

  lemma {:induction false} ModuleQuiet(a: string, b: string)
    requires NoTagStart(a, 'm')
    ensures ModulePath(a + b) == ModulePath(b)
    decreases |a|
  {
    if a == [] {
      assert a + b == b;
    } else {
      var t := a + b;
      if t[0] == '@' {
        assert t[1] == a[1];
        DiffersAt(t, "@module", 1);
      } else {
        DiffersAt(t, "@module", 0);
      }
      assert t[1..] == a[1..] + b;
      ModuleQuiet(a[1..], b);
    }
  }

  lemma {:induction false} ReturnQuiet(a: string, b: string)
    requires NoTagStart(a, 'r')
    ensures FindReturn(a + b) == FindReturn(b)
    decreases |a|
  {
    if a == [] {
      assert a + b == b;
    } else {
      var t := a + b;
      if t[0] == '@' {
        assert t[1] == a[1];
        DiffersAt(t, "@return", 1);
      } else {
        DiffersAt(t, "@return", 0);
      }
      assert t[1..] == a[1..] + b;
      ReturnQuiet(a[1..], b);
    }
  }

  lemma {:induction false} ParamQuiet(a: string, b: string)
    requires NoTagStart(a, 'p')
    ensures ParamTags(a + b) == ParamTags(b)
    decreases |a|
  {
    if a == [] {
      assert a + b == b;
    } else {
      var t := a + b;
      if t[0] == '@' {
        assert t[1] == a[1];
        DiffersAt(t, "@param", 1);
      } else {
        DiffersAt(t, "@param", 0);
      }
      assert t[1..] == a[1..] + b;
      ParamQuiet(a[1..], b);
    }
  }

  // What each search finds at the tag it looks for.

  /** The text up to the next `@` ends where `x` ends when `y` is empty or starts a tag. */
  lemma NonAtEndStop(x: string, y: string, p: nat)
    requires p <= |x| && '@' !in x[p..] && (y == [] || y[0] == '@')
    ensures NonAtEnd(x + y, p) == |x| && (x + y)[p..|x|] == x[p..]
  {
    var s := x + y;
    assert s[p..|x|] == x[p..];
    forall i | p <= i < |x| ensures NotAt(s[i]) {
      assert s[i] == x[p..][i - p];
    }
    RunEndAt(s, p, |x|, NotAt);
  }

  lemma ModuleHereAt(p: string)
    requires p != [] && AllPathChars(p)
    ensures ModuleHere("@module " + p) == Some(p)
  {
    var u := "@module " + p;
    assert u[..7] == "@module";
    assert StartsWith(u, "@module");
    assert u[8] == p[0] && !IsSpace(p[0]);
    var e := SpaceEnd(u, 7);
    assert e == 8;
    assert u[8..] == p;
    var b := RunEnd(u, e, IsPathChar);
    assert b == |u|;
    assert u[e..b] == p;
  }

  lemma ModuleAtChunk(p: string)
    requires p != [] && AllPathChars(p)
    ensures ModulePath(Chunk("module", p)) == Some(p)
  {
    var u := "@module " + p;
    assert Chunk("module", p) == " " + u;
    ModuleHereAt(p);
    ModuleFound(u, p);
    ModuleSkip(" " + u);
    assert (" " + u)[1..] == u;
  }

  lemma ReturnHereAt(r: string, pad: string, y: string)
    requires Plain(r) && (pad == "" || pad == " ") && (y == [] || y[0] == '@')
    ensures ReturnHere(("@return " + r + pad) + y) == Some(r)
  {
    var x := "@return " + r + pad;
    var u := x + y;
    assert u[..7] == "@return" && u[7] == ' ';
    assert x[7..] == " " + r + pad;
    NonAtEndStop(x, y, 7);
    StripPadded(" ", r, pad);
  }

  // A search moves past a position that does not hold `@`, and stops at a match.

  lemma ModuleSkip(t: string)
    requires t != [] && t[0] != '@'
    ensures ModulePath(t) == ModulePath(t[1..])
  {
    DiffersAt(t, "@module", 0);
  }

  lemma ReturnSkip(t: string)
    requires t != [] && t[0] != '@'
    ensures FindReturn(t) == FindReturn(t[1..])
  {
    DiffersAt(t, "@return", 0);
  }

  lemma ParamSkip(t: string)
    requires t != [] && t[0] != '@'
    ensures ParamTags(t) == ParamTags(t[1..])
  {
    DiffersAt(t, "@param", 0);
  }

  lemma ModuleFound(t: string, p: string)
    requires ModuleHere(t) == Some(p)
    ensures ModulePath(t) == Some(p)
  {
  }

  lemma ReturnFound(t: string, r: string)
    requires ReturnHere(t) == Some(r)
    ensures FindReturn(t) == Some(r)
  {
  }

  lemma ParamFound(t: string, n: string, d: string, e: nat)
    requires ParamHere(t) == Some((n, d, e))
    ensures ParamTags(t) == [(n, d)] + ParamTags(t[e..])
  {
  }

  lemma ReturnAtEnd(r: string)
    requires Plain(r)
    ensures FindReturn(Chunk("return", r)) == Some(r)
  {
    var u := ("@return " + r + "") + "";
    assert Chunk("return", r) == " " + u;
    ReturnHereAt(r, "", "");
    ReturnFound(u, r);
    ReturnSkip(" " + u);
    assert (" " + u)[1..] == u;
  }

  lemma ReturnBeforeTag(r: string, y: string)
    requires Plain(r) && y != [] && y[0] == '@'
    ensures FindReturn(Chunk("return", r) + (" " + y)) == Some(r)
  {
    var u := ("@return " + r + " ") + y;
    assert Chunk("return", r) + (" " + y) == " " + u;
    ReturnHereAt(r, " ", y);
    ReturnFound(u, r);
    ReturnSkip(" " + u);
    assert (" " + u)[1..] == u;
  }

  lemma ReturnAtChunk(r: string, w: string)
    requires Plain(r) && TagOrEnd(w)
    ensures FindReturn(Chunk("return", r) + w) == Some(r)
  {
    if w == [] {
      assert Chunk("return", r) + w == Chunk("return", r);
      ReturnAtEnd(r);
    } else {
      assert w == " " + w[1..];
      ReturnBeforeTag(r, w[1..]);
    }
  }

  lemma ParamHereAt(n: string, d: string, pad: string, y: string)
    requires n != [] && AllWordChars(n) && Plain(d)
    requires (pad == "" || pad == " ") && (y == [] || y[0] == '@')
    ensures var x := "@param " + (n + " " + d) + pad;
      ParamHere(x + y) == Some((n, d, |x|)) && (x + y)[|x|..] == y
  {
    var x := "@param " + (n + " " + d) + pad;
    var u := x + y;
    ParamWord(x, y, n, d + pad);
    var b := 7 + |n|;
    assert x[b..] == " " + d + pad;
    NonAtEndStop(x, y, b);
    StripPadded(" ", d, pad);
  }

  /** A match one space into the text is the first match. */
  lemma ParamAfterSpace(u: string, n: string, d: string, e: nat, y: string)
    requires ParamHere(u) == Some((n, d, e)) && u[e..] == y
    ensures ParamTags(" " + u) == [(n, d)] + ParamTags(y)
  {
    ParamFound(u, n, d, e);
    ParamSkip(" " + u);
    assert (" " + u)[1..] == u;
  }

  lemma ChunkSplit(name: string, body: string, pad: string, y: string)
    ensures Chunk(name, body) + (pad + y) == " " + (("@" + name + " " + body + pad) + y)
  {
  }

  lemma ParamAtEnd(n: string, d: string)
    requires n != [] && AllWordChars(n) && Plain(d)
    ensures ParamTags(Chunk("param", n + " " + d)) == [(n, d)]
  {
    var x := "@param " + (n + " " + d) + "";
    ChunkSplit("param", n + " " + d, "", "");
    assert "@param " + (n + " " + d) == "@" + "param" + " " + (n + " " + d);
    ParamHereAt(n, d, "", "");
    ParamAfterSpace(x + "", n, d, |x|, "");
    assert Chunk("param", n + " " + d) + ("" + "") == Chunk("param", n + " " + d);
  }

  lemma ParamBeforeTag(n: string, d: string, y: string)
    requires n != [] && AllWordChars(n) && Plain(d) && y != [] && y[0] == '@'
    ensures ParamTags(Chunk("param", n + " " + d) + (" " + y)) == [(n, d)] + ParamTags(y)
  {
    var x := "@param " + (n + " " + d) + " ";
    ChunkSplit("param", n + " " + d, " ", y);
    assert "@param " + (n + " " + d) == "@" + "param" + " " + (n + " " + d);
    ParamHereAt(n, d, " ", y);
    ParamAfterSpace(x + y, n, d, |x|, y);
  }

  lemma ParamAtChunk(n: string, d: string, w: string)
    requires n != [] && AllWordChars(n) && Plain(d) && TagOrEnd(w)
    ensures ParamTags(Chunk("param", n + " " + d) + w) == [(n, d)] + ParamTags(w)
  {
    if w == [] {
      assert Chunk("param", n + " " + d) + w == Chunk("param", n + " " + d);
      ParamAtEnd(n, d);
    } else {
      assert w == " " + w[1..];
      ParamBeforeTag(n, d, w[1..]);
      ParamSkip(w);
    }
  }

  /** The name of a parameter tag is the word after `@param` and one space. */
  lemma ParamWord(x: string, y: string, n: string, rest: string)
    requires n != [] && AllWordChars(n) && x == "@param " + (n + " " + rest)
    ensures var u := x + y;
      StartsWith(u, "@param") && SpaceEnd(u, 6) == 7 && RunEnd(u, 7, IsWordChar) == 7 + |n|
      && 7 + |n| < |u| && IsSpace(u[7 + |n|]) && u[7..7 + |n|] == n
  {
    var u := x + y;
    assert u[..6] == "@param";
    assert u[6] == ' ' && u[7] == n[0];
    assert u[7 + |n|] == ' ';
    assert u[7..7 + |n|] == n;
  }

  lemma ParamTextCons(params: seq<(string, string)>, w: string)
    requires params != []
    ensures ParamText(params) + w
      == Chunk("param", params[0].0 + " " + params[0].1) + (ParamText(params[1..]) + w)
  {
  }

  /** What follows the first parameter tag is again a tag or the end. */
  lemma ParamTextTail(rest: seq<(string, string)>, w: string)
    requires TagOrEnd(w)
    ensures TagOrEnd(ParamText(rest) + w)
  {
    if rest != [] {
      var c := Chunk("param", rest[0].0 + " " + rest[0].1);
      assert ParamText(rest) == c + ParamText(rest[1..]);
      assert c[..2] == " @";
      assert (ParamText(rest) + w)[..2] == c[..2];
    } else {
      assert ParamText(rest) + w == w;
    }
  }

  lemma ParamTextNil(params: seq<(string, string)>, w: string)
    requires params == []
    ensures ParamText(params) + w == w && params + ParamTags(w) == ParamTags(w)
  {
  }

  /** The first parameter tag is found, and the search resumes at the next tag. */
  lemma ParamTextStep(params: seq<(string, string)>, w: string)
    requires params != [] && ParamsPlain(params) && TagOrEnd(w)
    ensures ParamTags(ParamText(params) + w) == [params[0]] + ParamTags(ParamText(params[1..]) + w)
  {
    var (n, d) := params[0];
    ParamTextCons(params, w);
    ParamTextTail(params[1..], w);
    ParamAtChunk(n, d, ParamText(params[1..]) + w);
  }

  lemma {:induction false} ParamTextTags(params: seq<(string, string)>, w: string)
    requires ParamsPlain(params) && TagOrEnd(w)
    ensures ParamTags(ParamText(params) + w) == params + ParamTags(w)
    decreases |params|
  {
    if params == [] {
      ParamTextNil(params, w);
    } else {
      ParamTextStep(params, w);
      ParamsPlainTail(params);
      ParamTextTags(params[1..], w);
      ConsChain(params, ParamTags(ParamText(params) + w), ParamTags(ParamText(params[1..]) + w),
                ParamTags(w));
    }
  }

  // The description search.

  /** Every stop tag is non-empty and starts with `@`. */
  predicate StopsAreTags(stops: seq<string>) {
    forall k :: 0 <= k < |stops| ==> stops[k] != [] && stops[k][0] == '@'
  }

  /** No stop tag and no newline at any of the first `i` positions. */
  predicate NoStopBefore(t: string, i: nat, stops: seq<string>)
    requires i <= |t|
  {
    forall j :: 0 <= j < i ==> !StopHere(t[j..], stops) && t[j] != '\n'
  }

  lemma NoStopBeforeTail(t: string, i: nat, stops: seq<string>)
    requires 0 < i <= |t| && NoStopBefore(t, i, stops)
    ensures !StopHere(t, stops) && t[0] != '\n' && NoStopBefore(t[1..], i - 1, stops)
  {
    assert t[0..] == t;
    forall j | 0 <= j < i - 1 ensures !StopHere(t[1..][j..], stops) && t[1..][j] != '\n' {
      assert t[1..][j..] == t[j + 1..];
    }
  }

  lemma StopIndexStep(t: string, i: nat, stops: seq<string>)
    requires 0 < i <= |t| && !StopHere(t, stops) && t[0] != '\n'
    requires StopIndex(t[1..], stops) == Some(i - 1)
    ensures StopIndex(t, stops) == Some(i)
  {
    assert t != [] && t[0] != '\n';
    assert StopIndex(t, stops) == Some(i - 1 + 1);
  }

  lemma {:induction false} StopIndexAt(t: string, i: nat, stops: seq<string>)
    requires i <= |t| && StopHere(t[i..], stops) && NoStopBefore(t, i, stops)
    ensures StopIndex(t, stops) == Some(i)
    decreases i
  {
    if i == 0 {
      assert t[0..] == t;
    } else {
      NoStopBeforeTail(t, i, stops);
      assert t[1..][i - 1..] == t[i..];
      StopIndexAt(t[1..], i - 1, stops);
      StopIndexStep(t, i, stops);
    }
  }

  lemma {:induction false} StopIndexNone(t: string, stops: seq<string>)
    requires forall j :: 0 <= j <= |t| ==> !StopHere(t[j..], stops)
    ensures StopIndex(t, stops) == None
    decreases |t|
  {
    assert t[0..] == t;
    if t != [] && t[0] != '\n' {
      forall j | 0 <= j <= |t[1..]| ensures !StopHere(t[1..][j..], stops) {
        assert t[1..][j..] == t[j + 1..];
      }
      StopIndexNone(t[1..], stops);
    }
  }

  /** No stop tag is found inside a plain description, whatever follows it. */
  lemma DescQuiet(a: string, u: string, stops: seq<string>, j: nat)
    requires Plain(a) && j < |a| && StopsAreTags(stops)
    ensures !StopHere((a + u)[j..], stops) && (a + u)[j] != '\n'
  {
    var t := (a + u)[j..];
    var e := SpaceEnd(t, 0);
    assert t[|a| - 1 - j] == a[|a| - 1];
    assert t[e] == a[j + e];
    forall k | 0 <= k < |stops| ensures !StartsWith(t[e..], stops[k]) {
      DiffersAt(t[e..], stops[k], 0);
    }
    StartsWithAnyIff(t[e..], stops);
  }

  lemma EmptyNoStop(stops: seq<string>)
    requires StopsAreTags(stops)
    ensures !StopHere([], stops)
  {
    var t: string := [];
    assert SpaceEnd(t, 0) == 0 && t[0..] == [];
    StartsWithAnyIff([], stops);
  }

  /** A tag whose name is one of the stops ends the description. */
  lemma ChunkStop(name: string, body: string, w: string, stops: seq<string>, k: nat)
    requires k < |stops| && stops[k] == "@" + name
    ensures StopHere(Chunk(name, body) + w, stops)
  {
    var t := Chunk(name, body) + w;
    assert t[0] == ' ' && t[1] == '@';
    assert SpaceEnd(t, 0) == 1;
    assert t[1..][..|stops[k]|] == "@" + name;
    StartsWithAnyIff(t[1..], stops);
  }

  lemma DescriptionBefore(desc: string, u: string, stops: seq<string>)
    requires Plain(desc) && StopHere(u, stops) && StopsAreTags(stops)
    ensures Description(desc + u, stops) == desc
  {
    var t := desc + u;
    forall j | 0 <= j < |desc| ensures !StopHere(t[j..], stops) && t[j] != '\n' {
      DescQuiet(desc, u, stops, j);
    }
    assert t[|desc|..] == u;
    StopIndexAt(t, |desc|, stops);
    assert t[..|desc|] == desc;
    StripStripped(desc);
  }

  lemma DescriptionAlone(desc: string, stops: seq<string>)
    requires Plain(desc) && StopsAreTags(stops)
    ensures Description(desc, stops) == ""
  {
    forall j | 0 <= j <= |desc| ensures !StopHere(desc[j..], stops) {
      if j < |desc| {
        DescQuiet(desc, [], stops, j);
        assert desc + [] == desc;
      } else {
        EmptyNoStop(stops);
      }
    }
    StopIndexNone(desc, stops);
  }

  // The round trip itself.

  /** The tag that follows the description, if any. */
  function FirstTag(d: TagDoc): (r: Option<string>)
    ensures r.Some? <==> d.params != [] || d.ret.Some? || d.path.Some?
  {
    if d.params != [] then Some("@param")
    else if d.ret.Some? then Some("@return")
    else if d.path.Some? then Some("@module")
    else None
  }

  /** The tags after the description: the return and module tags, and the whole tail. */
  lemma TailFacts(d: TagDoc)
    requires WellFormed(d)
    ensures TagOrEnd(ModuleText(d.path)) && TagOrEnd(ReturnText(d.ret) + ModuleText(d.path))
    ensures NoTagStart(ModuleText(d.path), 'r') && NoTagStart(ModuleText(d.path), 'p')
    ensures NoTagStart(ReturnText(d.ret), 'm') && NoTagStart(ReturnText(d.ret), 'p')
    ensures NoTagStart(ParamText(d.params), 'm') && NoTagStart(ParamText(d.params), 'r')
    ensures NoTagStart(d.desc, 'm') && NoTagStart(d.desc, 'r') && NoTagStart(d.desc, 'p')
  {
    var r := ReturnText(d.ret);
    var m := ModuleText(d.path);
    if d.path.Some? {
      var p := d.path.value;
      assert '@' !in p;
      ChunkQuiet("module", p, 'r');
      ChunkQuiet("module", p, 'p');
    }
    if d.ret.Some? {
      ChunkQuiet("return", d.ret.value, 'm');
      ChunkQuiet("return", d.ret.value, 'p');
      assert (r + m)[..2] == r[..2];
    } else {
      assert r + m == m;
    }
    ParamTextQuiet(d.params, 'm');
    ParamTextQuiet(d.params, 'r');
  }

  /** The module search finds the module tag's path, and nothing when there is none. */
  lemma TagModuleRoundTrip(d: TagDoc)
    requires WellFormed(d)
    ensures ModulePath(TagText(d)) == d.path
  {
    var p := ParamText(d.params);
    var r := ReturnText(d.ret);
    var m := ModuleText(d.path);
    TailFacts(d);
    ModuleQuiet(d.desc, p + (r + m));
    ModuleQuiet(p, r + m);
    ModuleQuiet(r, m);
    if d.path.Some? {
      ModuleAtChunk(d.path.value);
    }
  }

  /** The return search finds the return tag's text, and the empty text when there is
      none. */
  lemma TagReturnRoundTrip(d: TagDoc)
    requires WellFormed(d)
    ensures ReturnDescription(TagText(d)) == if d.ret.Some? then d.ret.value else ""
  {
    var p := ParamText(d.params);
    var r := ReturnText(d.ret);
    var m := ModuleText(d.path);
    TailFacts(d);
    ReturnQuiet(d.desc, p + (r + m));
    ReturnQuiet(p, r + m);
    if d.ret.Some? {
      ReturnAtChunk(d.ret.value, m);
    } else {
      assert r + m == m + [];
      ReturnQuiet(m, []);
    }
  }

  /** `findall` gives back every parameter tag, in order. */
  lemma TagParamsRoundTrip(d: TagDoc)
    requires WellFormed(d)
    ensures ParamTags(TagText(d)) == d.params
  {
    var p := ParamText(d.params);
    var r := ReturnText(d.ret);
    var m := ModuleText(d.path);
    TailFacts(d);
    ParamQuiet(d.desc, p + (r + m));
    ParamTextTags(d.params, r + m);
    NoTagStartConcat(r, m, 'p');
    assert r + m == (r + m) + [];
    ParamQuiet(r + m, []);
  }

  /** The description is given back when the first tag after it is a stop tag, and is
      empty when no tag follows it at all. */
  lemma TagDescriptionRoundTrip(d: TagDoc, stops: seq<string>)
    requires WellFormed(d) && StopsAreTags(stops)
    ensures FirstTag(d).Some? && FirstTag(d).value in stops ==>
      Description(TagText(d), stops) == d.desc
    ensures FirstTag(d).None? ==> Description(TagText(d), stops) == ""
  {
    var p := ParamText(d.params);
    var r := ReturnText(d.ret);
    var m := ModuleText(d.path);
    var u := p + (r + m);
    if FirstTag(d).None? {
      assert TagText(d) == d.desc;
      DescriptionAlone(d.desc, stops);
    } else if FirstTag(d).value in stops {
      var k :| 0 <= k < |stops| && stops[k] == FirstTag(d).value;
      if d.params != [] {
        var (n, x) := d.params[0];
        ParamTextCons(d.params, r + m);
        assert stops[k] == "@" + "param";
        ChunkStop("param", n + " " + x, ParamText(d.params[1..]) + (r + m), stops, k);
      } else if d.ret.Some? {
        assert u == Chunk("return", d.ret.value) + m;
        assert stops[k] == "@" + "return";
        ChunkStop("return", d.ret.value, m, stops, k);
      } else {
        assert u == Chunk("module", d.path.value) + [];
        assert stops[k] == "@" + "module";
        ChunkStop("module", d.path.value, [], stops, k);
      }
      DescriptionBefore(d.desc, u, stops);
    }
  }

  /** The three stop lists of the generator are lists of tags. */
  lemma StopListsAreTags()
    ensures StopsAreTags(FunctionStops) && StopsAreTags(ClassStops) && StopsAreTags(MethodStops)
    ensures "@param" in FunctionStops && "@return" in FunctionStops && "@module" in FunctionStops
    ensures "@param" in ClassStops && "@module" in ClassStops
  {
    assert FunctionStops[0] == "@param" && FunctionStops[1] == "@return";
    assert FunctionStops[2] == "@module";
    assert ClassStops[0] == "@param" && ClassStops[1] == "@module";
  }
}
