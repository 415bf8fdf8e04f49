// Clean-up of a matched documentation block before its tags are read
// (cpp_bind_python.py, lines 97-99, repeated at 155-157 and 181-183). Three
// substitutions run in turn, each a left-to-right scan as Python's `re.sub` is:
//   1. at every line start, optional whitespace followed by a run of asterisks is removed
//      (the whitespace may itself span newlines);
//   2. an opening delimiter (slash, star, star) at a line start and a closing delimiter
//      (star, slash) at a line end or at the end of the text are removed;
//   3. every whitespace run becomes a single space, and the result is trimmed.
// The flag `lineStart` says whether the first character of the remaining text opens a
// line of that step's input (the MULTILINE reading of `^`).
module Comment {
  import opened Text

  /** Step 1. After a removal the next character follows a `*`, so it never opens a line. */
  function StripStars(s: string, lineStart: bool): string
    decreases |s|
  {
    if s == [] then []
    else
      var q := SpaceEnd(s, 0);
      if lineStart && q < |s| && s[q] == '*' then
        var e := RunEnd(s, q, IsStar);
        assert e > q;
        StripStars(s[e..], false)
      else [s[0]] + StripStars(s[1..], s[0] == '\n')
  }

  // Step 2. A line end (MULTILINE `$`) is just before a newline or at the end of the text.
  function StripDelimiters(s: string, lineStart: bool): string
    decreases |s|
  {
    if s == [] then []
    else if lineStart && StartsWith(s, "/**") then StripDelimiters(s[3..], false)
    else if StartsWith(s, "*/") && (|s| == 2 || s[2] == '\n') then StripDelimiters(s[2..], false)
    else [s[0]] + StripDelimiters(s[1..], s[0] == '\n')
  }

  /** Every whitespace character is a plain space and no two of them are adjacent. */
  predicate SingleSpaced(s: string) {
    forall i :: 0 <= i < |s| && IsSpace(s[i]) ==> s[i] == ' ' && (i + 1 == |s| || !IsSpace(s[i + 1]))
  }

  /** The shape of every cleaned comment: single-spaced and trimmed. */
  predicate IsNormalised(s: string) {
    SingleSpaced(s) && IsStripped(s)
  }

  /** Step 3, first half: each whitespace run becomes one space, so the result is never
      longer than `s`. */
  function CollapseSpaces(s: string): (r: string)
    ensures |r| <= |s|
    decreases |s|
  {
    if s == [] then []
    else if IsSpace(s[0]) then
      var e := SpaceEnd(s, 0);
      assert e > 0;
      " " + CollapseSpaces(s[e..])
    else [s[0]] + CollapseSpaces(s[1..])
  }

  /** A character in front of a single-spaced text keeps it single-spaced when it is not
      whitespace, or when it is a space and the text does not start with whitespace. */
  lemma SingleSpacedCons(c: char, t: string)
    requires SingleSpaced(t)
    requires IsSpace(c) ==> c == ' ' && (t == [] || !IsSpace(t[0]))
    ensures SingleSpaced([c] + t)
  {
    var s := [c] + t;
    forall i | 0 <= i < |s| && IsSpace(s[i]) ensures s[i] == ' ' && (i + 1 == |s| || !IsSpace(s[i + 1])) {
      if i > 0 {
        assert s[i] == t[i - 1];
        if i + 1 < |s| { assert s[i + 1] == t[i]; }
      } else if i + 1 < |s| {
        assert s[1] == t[0];
      }
    }
  }

  /** Step 3 leaves no two whitespace characters together and no whitespace but spaces,
      and its result starts with whitespace exactly when `s` does. */
  lemma {:induction false} CollapseSingleSpaced(s: string)
    ensures SingleSpaced(CollapseSpaces(s))
    ensures (CollapseSpaces(s) != [] && IsSpace(CollapseSpaces(s)[0])) == (s != [] && IsSpace(s[0]))
    decreases |s|
  {
    if s != [] {
      if IsSpace(s[0]) {
        var e := SpaceEnd(s, 0);
        CollapseSingleSpaced(s[e..]);
        assert s[e..] == [] || !IsSpace(s[e..][0]);
        SingleSpacedCons(' ', CollapseSpaces(s[e..]));
        assert " " + CollapseSpaces(s[e..]) == [' '] + CollapseSpaces(s[e..]);
      } else {
        CollapseSingleSpaced(s[1..]);
        SingleSpacedCons(s[0], CollapseSpaces(s[1..]));
      }
    }
  }

  /** A slice of a single-spaced text is single-spaced. */
  lemma SingleSpacedSlice(s: string, i: nat, j: nat)
    requires SingleSpaced(s) && i <= j <= |s|
    ensures SingleSpaced(s[i..j])
  {
    var t := s[i..j];
    forall k | 0 <= k < |t| && IsSpace(t[k]) ensures t[k] == ' ' && (k + 1 == |t| || !IsSpace(t[k + 1])) {
      assert t[k] == s[i + k];
      if k + 1 < |t| { assert t[k + 1] == s[i + k + 1]; }
    }
  }

  /** The cleaned comment that the tag extractors read. */
  function Normalise(block: string): (r: string)
    ensures IsNormalised(r)
  {
    var c := CollapseSpaces(StripDelimiters(StripStars(block, true), true));
    CollapseSingleSpaced(StripDelimiters(StripStars(block, true), true));
    SingleSpacedSlice(c, StripLeft(c), StripRight(c));
    Strip(c)
  }

  // ---------------------------------------------------------------------------------
  // The documented block shape (one tag or prose line per row, each row indented and led
  // by an asterisk, as in main/include/add.hpp) normalises to its lines joined by spaces.

  /** The rows of a block: for each line, a newline, the indent, an asterisk, a space and
      the line. */
  function Rows(indent: string, lines: seq<string>): string
    decreases |lines|
  {
    if lines == [] then "" else "\n" + indent + "* " + lines[0] + Rows(indent, lines[1..])
  }

  /** The text a comment pattern captures between the opening and the closing delimiter
      of such a block: its rows, then the indent of the closing row. */
  function DocBlock(indent: string, lines: seq<string>): string {
    Rows(indent, lines) + ("\n" + indent)
  }

  /** A line that survives the clean-up unchanged: non-empty, single-spaced, trimmed, and
      not ending in a closing delimiter. */
  predicate IsDocLine(line: string) {
    line != [] && IsNormalised(line) && !(|line| >= 2 && line[|line| - 2..] == "*/")
  }

  predicate DocLines(lines: seq<string>) {
    forall k :: 0 <= k < |lines| ==> IsDocLine(lines[k])
  }

  lemma DocLinesTail(lines: seq<string>)
    requires lines != [] && DocLines(lines)
    ensures IsDocLine(lines[0]) && DocLines(lines[1..])
  {
    forall k | 0 <= k < |lines| - 1 ensures lines[1..][k] == lines[k + 1] { }
  }

  /** The rows after step 1 (a row's leading asterisk gone, its newline kept). */
  function RowsAfterStars(lines: seq<string>): string
    decreases |lines|
  {
    if lines == [] then "" else "\n " + lines[0] + RowsAfterStars(lines[1..])
  }

  /** The rows after step 3. */
  function RowsCollapsed(lines: seq<string>): string
    decreases |lines|
  {
    if lines == [] then "" else " " + lines[0] + RowsCollapsed(lines[1..])
  }

  lemma RowsCons(indent: string, lines: seq<string>, tail: string)
    requires lines != []
    ensures Rows(indent, lines) + tail
      == "\n" + (indent + ("* " + lines[0] + (Rows(indent, lines[1..]) + tail)))
  {
  }

  lemma RowsAfterStarsCons(lines: seq<string>, tail: string)
    requires lines != []
    ensures RowsAfterStars(lines) + tail
      == "\n" + ((" " + lines[0]) + (RowsAfterStars(lines[1..]) + tail))
  {
  }

  lemma RowsAfterStarsStart(lines: seq<string>, indent: string)
    ensures (RowsAfterStars(lines) + ("\n" + indent))[0] == '\n'
  {
    if lines == [] {
      assert RowsAfterStars(lines) + ("\n" + indent) == "\n" + indent;
    }
  }

  lemma NormalisedHasNoNewline(s: string)
    requires SingleSpaced(s)
    ensures '\n' !in s
  {
    if '\n' in s {
      var i :| 0 <= i < |s| && s[i] == '\n';
      assert IsSpace(s[i]);
    }
  }

  // Step 1 lemmas.

  lemma {:induction false} StarsPlain(a: string, b: string)
    requires '\n' !in a
    ensures StripStars(a + b, false) == a + StripStars(b, false)
    decreases |a|
  {
    if a != [] {
      assert (a + b)[0] == a[0] && (a + b)[1..] == a[1..] + b;
      StarsPlain(a[1..], b);
      assert a == [a[0]] + a[1..];
    } else {
      assert a + b == b;
    }
  }

  lemma {:induction false} StarsNone(s: string, lineStart: bool)
    requires '*' !in s
    ensures StripStars(s, lineStart) == s
    decreases |s|
  {
    if s != [] {
      StarsNone(s[1..], s[0] == '\n');
      assert s == [s[0]] + s[1..];
    }
  }

  /** At a line start, whitespace and a single asterisk are dropped together. */
  lemma StarsLead(w: string, b: string)
    requires AllSpace(w) && |b| >= 2 && b[0] == '*' && b[1] != '*'
    ensures StripStars(w + b, true) == StripStars(b[1..], false)
  {
    var s := w + b;
    assert s[|w|] == '*' && s[|w| + 1] == b[1];
    assert AllSpace(s[0..|w|]) by { assert s[0..|w|] == w; }
    assert SpaceEnd(s, 0) == |w|;
    assert RunEnd(s, |w|, IsStar) == |w| + 1;
    assert s[|w| + 1..] == b[1..];
  }

  /** One row of step 1: the newline stays, the indent and the asterisk go, and the line
      passes through. */
  lemma StarsRow(indent: string, line: string, rest: string)
    requires AllSpace(indent) && '\n' !in line
    ensures StripStars("\n" + (indent + ("* " + line + rest)), false)
      == "\n" + ((" " + line) + StripStars(rest, false))
  {
    var b := "* " + line + rest;
    var x := "\n" + (indent + b);
    assert x[0] == '\n' && x[1..] == indent + b;
    assert b[1..] == (" " + line) + rest;
    StarsLead(indent, b);
    StarsPlain(" " + line, rest);
  }

  lemma {:induction false} StarsRows(indent: string, lines: seq<string>)
    requires AllSpace(indent)
    requires DocLines(lines)
    ensures StripStars(Rows(indent, lines) + ("\n" + indent), false)
      == RowsAfterStars(lines) + ("\n" + indent)
    decreases |lines|
  {
    var tail := "\n" + indent;
    if lines == [] {
      assert Rows(indent, lines) + tail == tail;
      assert RowsAfterStars(lines) + tail == tail;
      StarsNone(tail, false);
    } else {
      var line := lines[0];
      var rest := Rows(indent, lines[1..]) + tail;
      assert IsDocLine(line);
      NormalisedHasNoNewline(line);
      RowsCons(indent, lines, tail);
      RowsAfterStarsCons(lines, tail);
      StarsRow(indent, line, rest);
      DocLinesTail(lines);
      StarsRows(indent, lines[1..]);
    }
  }

  // Step 2 lemmas.

  lemma NotStartsWith(s: string, t: string)
    requires s != [] && t != [] && s[0] != t[0]
    ensures !StartsWith(s, t)
  {
    if |t| <= |s| { assert s[..|t|][0] == s[0]; }
  }

  /** One character of step 2 that starts no delimiter is kept. */
  lemma DelimitersKeep(s: string, lineStart: bool)
    requires s != [] && s[0] != '/' && s[0] != '*'
    ensures StripDelimiters(s, lineStart) == [s[0]] + StripDelimiters(s[1..], s[0] == '\n')
  {
    NotStartsWith(s, "/**");
    NotStartsWith(s, "*/");
  }

  /** Text without newlines, not ending in a closing delimiter and followed by a newline,
      starts no delimiter that step 2 removes. */
  lemma DelimitersHead(a: string, b: string, lineStart: bool)
    requires a != [] && '\n' !in a
    requires lineStart ==> a[0] != '/'
    requires !(|a| >= 2 && a[|a| - 2..] == "*/")
    requires b != [] && b[0] == '\n'
    ensures StripDelimiters(a + b, lineStart) == [a[0]] + StripDelimiters(a[1..] + b, false)
  {
    var s := a + b;
    assert s[0] == a[0] && a[0] != '\n' && s[1..] == a[1..] + b;
    assert !(lineStart && StartsWith(s, "/**")) by {
      if lineStart { NotStartsWith(s, "/**"); }
    }
    assert !(StartsWith(s, "*/") && (|s| == 2 || s[2] == '\n')) by {
      if |a| == 1 {
        assert s[1] == '\n';
      } else if |a| == 2 {
        assert s[..2] == a && s[2] == '\n';
      } else {
        assert s[..2] == a[..2] && s[2] == a[2];
      }
    }
  }

  lemma DelimitersTail(a: string)
    requires |a| >= 2 && '\n' !in a && !(|a| >= 2 && a[|a| - 2..] == "*/")
    ensures '\n' !in a[1..] && !(|a[1..]| >= 2 && a[1..][|a[1..]| - 2..] == "*/")
  {
    if |a| >= 3 {
      assert a[1..][|a[1..]| - 2..] == a[|a| - 2..];
    }
  }

  /** Text without newlines that does not end in a closing delimiter passes step 2
      unchanged when a newline follows it. */
  lemma {:induction false} DelimitersPlain(a: string, b: string, lineStart: bool)
    requires a != [] && '\n' !in a
    requires lineStart ==> a[0] != '/'
    requires !(|a| >= 2 && a[|a| - 2..] == "*/")
    requires b != [] && b[0] == '\n'
    ensures StripDelimiters(a + b, lineStart) == a + StripDelimiters(b, false)
    decreases |a|
  {
    if |a| >= 2 {
      DelimitersTail(a);
      DelimitersPlain(a[1..], b, false);
    }
    DelimitersCons(a, b, lineStart);
  }

  /** The step of the induction above: the first character is kept, the rest passes as
      the rest of `a` does. */
  lemma DelimitersCons(a: string, b: string, lineStart: bool)
    requires a != [] && '\n' !in a
    requires lineStart ==> a[0] != '/'
    requires !(|a| >= 2 && a[|a| - 2..] == "*/")
    requires b != [] && b[0] == '\n'
    requires |a| >= 2 ==> StripDelimiters(a[1..] + b, false) == a[1..] + StripDelimiters(b, false)
    ensures StripDelimiters(a + b, lineStart) == a + StripDelimiters(b, false)
  {
    DelimitersHead(a, b, lineStart);
    if |a| == 1 {
      assert a[1..] + b == b && a == [a[0]];
    } else {
      ConsChain(a, StripDelimiters(a + b, lineStart), StripDelimiters(a[1..] + b, false),
                StripDelimiters(b, false));
    }
  }

  lemma {:induction false} DelimitersSpaces(s: string, lineStart: bool)
    requires AllSpace(s)
    ensures StripDelimiters(s, lineStart) == s
    decreases |s|
  {
    if s != [] {
      assert IsSpace(s[0]);
      DelimitersSpaces(s[1..], s[0] == '\n');
      assert s == [s[0]] + s[1..];
    }
  }

  lemma {:induction false} DelimitersRows(indent: string, lines: seq<string>)
    requires AllSpace(indent)
    requires DocLines(lines)
    ensures StripDelimiters(RowsAfterStars(lines) + ("\n" + indent), false)
      == RowsAfterStars(lines) + ("\n" + indent)
    decreases |lines|
  {
    if lines == [] {
      assert RowsAfterStars(lines) + ("\n" + indent) == "\n" + indent;
      DelimitersSpaces("\n" + indent, false);
    } else {
      var line := lines[0];
      var rest := RowsAfterStars(lines[1..]) + ("\n" + indent);
      assert IsDocLine(line);
      NormalisedHasNoNewline(line);
      RowsAfterStarsCons(lines, "\n" + indent);
      RowsAfterStarsStart(lines[1..], indent);
      var x := "\n" + ((" " + line) + rest);
      DelimitersKeep(x, false);
      assert x[1..] == (" " + line) + rest;
      DocLineEnd(line);
      DelimitersPlain(" " + line, rest, true);
      DocLinesTail(lines);
      DelimitersRows(indent, lines[1..]);
      calc {
        StripDelimiters(x, false);
        "\n" + StripDelimiters((" " + line) + rest, true);
        "\n" + ((" " + line) + StripDelimiters(rest, false));
        x;
      }
    }
  }

  /** A space followed by a document line does not end in a closing delimiter either. */
  lemma DocLineEnd(line: string)
    requires IsDocLine(line)
    ensures !(|" " + line| >= 2 && (" " + line)[|" " + line| - 2..] == "*/")
  {
    if |line| >= 2 {
      assert (" " + line)[|" " + line| - 2..] == line[|line| - 2..];
    } else {
      assert (" " + line)[0] == ' ';
    }
  }

  // Step 3 lemmas.

  /** A character other than whitespace is kept by step 3. */
  lemma CollapseKeep(s: string)
    requires s != [] && !IsSpace(s[0])
    ensures CollapseSpaces(s) == [s[0]] + CollapseSpaces(s[1..])
  {
  }

  /** A whitespace run at the start becomes one space. */
  lemma CollapseRun(s: string, e: nat)
    requires 0 < e <= |s| && AllSpace(s[..e]) && (e == |s| || !IsSpace(s[e]))
    ensures CollapseSpaces(s) == " " + CollapseSpaces(s[e..])
  {
    assert s[0..e] == s[..e];
    SpaceEndAt(s, 0, e);
    assert IsSpace(s[..e][0]);
  }

  /** The first character of a single-spaced text that does not end in whitespace
      passes step 3 on its own. */
  lemma CollapseHead(a: string, b: string)
    requires a != [] && SingleSpaced(a) && !IsSpace(a[|a| - 1])
    ensures CollapseSpaces(a + b) == [a[0]] + CollapseSpaces(a[1..] + b)
  {
    var s := a + b;
    assert s[0] == a[0] && s[1..] == a[1..] + b;
    if IsSpace(a[0]) {
      assert |a| >= 2 && !IsSpace(a[1]) && a[0] == ' ';
      assert s[1] == a[1] && s[..1] == [a[0]];
      CollapseRun(s, 1);
    } else {
      CollapseKeep(s);
    }
  }

  lemma PlainTail(a: string)
    requires a != [] && SingleSpaced(a) && !IsSpace(a[|a| - 1])
    ensures SingleSpaced(a[1..]) && (a[1..] == [] || !IsSpace(a[1..][|a[1..]| - 1]))
  {
    SingleSpacedSlice(a, 1, |a|);
    assert a[1..|a|] == a[1..];
  }

  /** A single-spaced text that does not end in a space collapses to itself when what
      follows it is empty or begins with whitespace. */
  lemma {:induction false} CollapsePlain(a: string, b: string)
    requires SingleSpaced(a) && (a == [] || !IsSpace(a[|a| - 1]))
    requires b == [] || IsSpace(b[0])
    ensures CollapseSpaces(a + b) == a + CollapseSpaces(b)
    decreases |a|
  {
    if a == [] {
      assert a + b == b;
    } else {
      CollapseHead(a, b);
      PlainTail(a);
      CollapsePlain(a[1..], b);
      ConsChain(a, CollapseSpaces(a + b), CollapseSpaces(a[1..] + b), CollapseSpaces(b));
    }
  }

  lemma {:induction false} CollapseBlank(w: string)
    requires w != [] && AllSpace(w)
    ensures CollapseSpaces(w) == " "
  {
    assert SpaceEnd(w, 0) == |w|;
    assert w[|w|..] == [];
  }

  /** A non-empty whitespace prefix becomes one space. */
  lemma CollapsePrefix(w: string, t: string)
    requires w != [] && AllSpace(w) && (t == [] || !IsSpace(t[0]))
    ensures CollapseSpaces(w + t) == " " + CollapseSpaces(t)
  {
    var s := w + t;
    assert s[..|w|] == w && s[|w|..] == t;
    CollapseRun(s, |w|);
  }

  lemma CollapseLine(w: string, line: string, b: string)
    requires w != [] && AllSpace(w) && line != [] && IsNormalised(line)
    requires b == [] || IsSpace(b[0])
    ensures CollapseSpaces(w + (line + b)) == " " + (line + CollapseSpaces(b))
  {
    assert (line + b)[0] == line[0];
    CollapsePrefix(w, line + b);
    CollapsePlain(line, b);
  }

  /** The last step of the row induction of step 3. */
  lemma RowsChain(line: string, rest: string, c: string, rc: string)
    requires c == " " + (line + CollapseSpaces(rest)) && CollapseSpaces(rest) == rc + " "
    ensures c == (" " + line + rc) + " "
  {
  }

  lemma RowBreak(line: string, rest: string)
    ensures "\n" + ((" " + line) + rest) == "\n " + (line + rest)
  {
  }

  /** One row of step 3: the row's newline and space collapse to one space. */
  lemma CollapseRowsStep(indent: string, lines: seq<string>)
    requires AllSpace(indent) && lines != [] && IsDocLine(lines[0])
    requires CollapseSpaces(RowsAfterStars(lines[1..]) + ("\n" + indent))
      == RowsCollapsed(lines[1..]) + " "
    ensures CollapseSpaces(RowsAfterStars(lines) + ("\n" + indent)) == RowsCollapsed(lines) + " "
  {
    var tail := "\n" + indent;
    var line := lines[0];
    var rest := RowsAfterStars(lines[1..]) + tail;
    RowsAfterStarsCons(lines, tail);
    RowBreak(line, rest);
    RowsAfterStarsStart(lines[1..], indent);
    CollapseLine("\n ", line, rest);
    RowsChain(line, rest, CollapseSpaces(RowsAfterStars(lines) + tail), RowsCollapsed(lines[1..]));
  }

  lemma CollapseNoRows(indent: string, lines: seq<string>)
    requires AllSpace(indent) && lines == []
    ensures CollapseSpaces(RowsAfterStars(lines) + ("\n" + indent)) == RowsCollapsed(lines) + " "
  {
    assert RowsAfterStars(lines) + ("\n" + indent) == "\n" + indent;
    CollapseBlank("\n" + indent);
  }

  lemma {:induction false} CollapseRows(indent: string, lines: seq<string>)
    requires AllSpace(indent) && DocLines(lines)
    ensures CollapseSpaces(RowsAfterStars(lines) + ("\n" + indent)) == RowsCollapsed(lines) + " "
    decreases |lines|
  {
    if lines == [] {
      CollapseNoRows(indent, lines);
    } else {
      DocLinesTail(lines);
      CollapseRows(indent, lines[1..]);
      CollapseRowsStep(indent, lines);
    }
  }

  lemma {:induction false} RowsCollapsedJoin(first: string, lines: seq<string>)
    ensures first + RowsCollapsed(lines) == Join(" ", [first] + lines)
    decreases |lines|
  {
    if lines != [] {
      RowsCollapsedJoin(lines[0], lines[1..]);
      assert ([first] + lines)[1..] == [lines[0]] + lines[1..] == lines;
    }
  }

  /** The first row of a block, which opens the text: its newline goes too. */
  lemma StarsFirstRow(indent: string, line: string, rest: string)
    requires AllSpace(indent) && '\n' !in line
    ensures StripStars("\n" + (indent + ("* " + line + rest)), true)
      == (" " + line) + StripStars(rest, false)
  {
    var b := "* " + line + rest;
    StarRow(line, rest);
    NewlineIndent(indent, b);
    StarsLead("\n" + indent, b);
    StarsPlain(" " + line, rest);
  }

  lemma StarRow(line: string, rest: string)
    ensures |"* " + line + rest| >= 2 && ("* " + line + rest)[0] == '*'
    ensures ("* " + line + rest)[1] == ' ' && ("* " + line + rest)[1..] == (" " + line) + rest
  {
  }

  lemma NewlineIndent(indent: string, b: string)
    requires AllSpace(indent)
    ensures AllSpace("\n" + indent) && "\n" + (indent + b) == ("\n" + indent) + b
  {
  }

  /** Step 1 on a whole block: the first row's newline, indent and asterisk go at once. */
  lemma StarsBlock(indent: string, lines: seq<string>)
    requires AllSpace(indent) && lines != []
    requires DocLines(lines)
    ensures StripStars(DocBlock(indent, lines), true)
      == (" " + lines[0]) + (RowsAfterStars(lines[1..]) + ("\n" + indent))
  {
    var more := lines[1..];
    DocLinesTail(lines);
    assert IsDocLine(lines[0]);
    NormalisedHasNoNewline(lines[0]);
    RowsCons(indent, lines, "\n" + indent);
    StarsFirstRow(indent, lines[0], Rows(indent, more) + ("\n" + indent));
    StarsRows(indent, more);
  }

  /** Step 2 on the result of step 1: nothing to remove. */
  lemma DelimitersBlock(indent: string, lines: seq<string>)
    requires AllSpace(indent) && lines != []
    requires DocLines(lines)
    ensures var t := (" " + lines[0]) + (RowsAfterStars(lines[1..]) + ("\n" + indent));
      StripDelimiters(t, true) == t
  {
    var first := lines[0];
    var more := lines[1..];
    DocLinesTail(lines);
    assert IsDocLine(first);
    NormalisedHasNoNewline(first);
    var tail := RowsAfterStars(more) + ("\n" + indent);
    RowsAfterStarsStart(more, indent);
    DocLineEnd(first);
    DelimitersPlain(" " + first, tail, true);
    DelimitersRows(indent, more);
  }

  /** Step 3 on the result of step 2: one space per row break, one on either side. */
  lemma CollapseBlock(indent: string, lines: seq<string>)
    requires AllSpace(indent) && lines != []
    requires DocLines(lines)
    ensures CollapseSpaces((" " + lines[0]) + (RowsAfterStars(lines[1..]) + ("\n" + indent)))
      == " " + Join(" ", lines) + " "
  {
    var first := lines[0];
    var more := lines[1..];
    DocLinesTail(lines);
    assert IsDocLine(first);
    var tail := RowsAfterStars(more) + ("\n" + indent);
    RowsAfterStarsStart(more, indent);
    CollapseLine(" ", first, tail);
    CollapseRows(indent, more);
    RowsCollapsedJoin(first, more);
    assert [first] + more == lines;
    CollapseChain(first, tail, RowsCollapsed(more), Join(" ", lines));
  }

  lemma CollapseChain(first: string, tail: string, rc: string, joined: string)
    requires CollapseSpaces(" " + (first + tail)) == " " + (first + CollapseSpaces(tail))
    requires CollapseSpaces(tail) == rc + " " && first + rc == joined
    ensures CollapseSpaces((" " + first) + tail) == " " + joined + " "
  {
    assert " " + (first + tail) == (" " + first) + tail;
  }

  /** A joined run of document lines is itself trimmed. */
  lemma JoinedStripped(lines: seq<string>)
    requires lines != []
    requires DocLines(lines)
    ensures IsStripped(Join(" ", lines))
  {
    var joined := Join(" ", lines);
    JoinEnds(" ", lines);
    var first := lines[0];
    var last := lines[|lines| - 1];
    assert IsDocLine(first) && IsDocLine(last);
    assert joined[0] == first[0];
    assert joined[|joined| - 1] == last[|last| - 1] by {
      assert joined[|joined| - |last|..][|last| - 1] == last[|last| - 1];
    }
  }

  lemma EmptyBlock(indent: string)
    requires AllSpace(indent)
    ensures Normalise(DocBlock(indent, [])) == ""
  {
    var block := DocBlock(indent, []);
    assert block == "\n" + indent;
    assert AllSpace(block);
    assert '*' !in block;
    StarsNone(block, true);
    DelimitersSpaces(block, true);
    CollapseBlank(block);
    StripPadded(" ", "", "");
    assert " " + "" + "" == " ";
  }

  /** The three steps of the clean-up, chained. */
  lemma NormaliseSteps(block: string, t: string, r: string)
    requires StripStars(block, true) == t && StripDelimiters(t, true) == t
    requires CollapseSpaces(t) == " " + r + " " && IsStripped(r)
    ensures Normalise(block) == r
  {
    StripPadded(" ", r, " ");
  }

  /** A block written one line per row normalises to its lines joined by single spaces,
      whatever the indentation; an empty block normalises to the empty text. */
  lemma DocBlockNormalises(indent: string, lines: seq<string>)
    requires AllSpace(indent)
    requires DocLines(lines)
    ensures Normalise(DocBlock(indent, lines)) == Join(" ", lines)
  {
    if lines == [] {
      EmptyBlock(indent);
    } else {
      StarsBlock(indent, lines);
      DelimitersBlock(indent, lines);
      CollapseBlock(indent, lines);
      JoinedStripped(lines);
      NormaliseSteps(DocBlock(indent, lines),
        (" " + lines[0]) + (RowsAfterStars(lines[1..]) + ("\n" + indent)), Join(" ", lines));
    }
  }
}
