/** Python string primitives the generator and the build scripts rely on: character
    classes of `re` and `str`, `strip`, `split`, `rsplit`, `join` and `startswith`. */
module Text {

  /** Python's `str.isspace`, which is also what `\s` matches in a `str` pattern. */
  predicate IsSpace(c: char) {
    var n := c as int;
    (9 <= n <= 13) || (28 <= n <= 32) || n == 0x85 || n == 0xA0 || n == 0x1680
    || (0x2000 <= n <= 0x200A) || n == 0x2028 || n == 0x2029 || n == 0x202F
    || n == 0x205F || n == 0x3000
  }

  /** `\w`, restricted to ASCII letters, digits and the underscore. */
  predicate IsWordChar(c: char) {
    ('a' <= c <= 'z') || ('A' <= c <= 'Z') || ('0' <= c <= '9') || c == '_'
  }

  /** `[\w.]`, the characters of a dotted module path. */
  predicate IsPathChar(c: char) {
    IsWordChar(c) || c == '.'
  }

  predicate IsStar(c: char) { c == '*' }

  predicate NotAt(c: char) { c != '@' }

  predicate AllSpace(s: string) {
    forall i :: 0 <= i < |s| ==> IsSpace(s[i])
  }

  predicate AllWordChars(s: string) {
    forall i :: 0 <= i < |s| ==> IsWordChar(s[i])
  }

  predicate AllPathChars(s: string) {
    forall i :: 0 <= i < |s| ==> IsPathChar(s[i])
  }

  /** The end of the longest run of characters satisfying `inRun` that starts at `p`:
      what a greedy `X*` consumes from `p`. */
  function RunEnd(s: string, p: nat, inRun: char -> bool): (r: nat)
    requires p <= |s|
    ensures p <= r <= |s|
    ensures forall i :: p <= i < r ==> inRun(s[i])
    ensures r == |s| || !inRun(s[r])
    decreases |s| - p
  {
    if p == |s| || !inRun(s[p]) then p else RunEnd(s, p + 1, inRun)
  }

  /** A greedy run ends at the first character outside it. */
  lemma {:induction false} RunEndAt(s: string, p: nat, k: nat, inRun: char -> bool)
    requires p <= k <= |s| && (k == |s| || !inRun(s[k]))
    requires forall i :: p <= i < k ==> inRun(s[i])
    ensures RunEnd(s, p, inRun) == k
    decreases k - p
  {
    if p < k {
      RunEndAt(s, p + 1, k, inRun);
    }
  }

  /** A greedy `\s*` starting at `p`. */
  function SpaceEnd(s: string, p: nat): (r: nat)
    requires p <= |s|
    ensures p <= r <= |s| && AllSpace(s[p..r]) && (r == |s| || !IsSpace(s[r]))
  {
    RunEnd(s, p, IsSpace)
  }

  /** `s[p:].startswith(t)`. */
  predicate HasPrefixAt(s: string, p: nat, t: string) {
    p + |t| <= |s| && s[p..p + |t|] == t
  }

  predicate StartsWith(s: string, t: string) {
    |t| <= |s| && s[..|t|] == t
  }

  /** Two texts that differ at an index both have do not start one with the other. */
  lemma DiffersAt(s: string, t: string, k: nat)
    requires k < |s| && k < |t| && s[k] != t[k]
    ensures !StartsWith(s, t)
  {
    if |t| <= |s| { assert s[..|t|][k] == s[k]; }
  }

  /** A string with no leading and no trailing whitespace: a fixed point of `strip()`. */
  predicate IsStripped(s: string) {
    s == [] || (!IsSpace(s[0]) && !IsSpace(s[|s| - 1]))
  }

  /** Where `strip()` cuts on the left: the end of the leading whitespace. */
  function StripLeft(s: string): (i: nat)
    ensures i <= |s| && AllSpace(s[..i]) && (i == |s| || !IsSpace(s[i]))
  {
    SpaceEnd(s, 0)
  }

  /** Where `strip()` cuts on the right, searching back from `j` but not past `i`: the
      start of the trailing whitespace. */
  function StripRightFrom(s: string, i: nat, j: nat): (k: nat)
    requires i <= j <= |s| && AllSpace(s[j..])
    ensures i <= k <= j && AllSpace(s[k..]) && (k == i || !IsSpace(s[k - 1]))
    decreases j
  {
    if j > i && IsSpace(s[j - 1]) then
      assert s[j - 1..] == [s[j - 1]] + s[j..];
      StripRightFrom(s, i, j - 1)
    else j
  }

  function StripRight(s: string): (j: nat)
    ensures StripLeft(s) <= j <= |s| && AllSpace(s[j..])
    ensures j == StripLeft(s) || !IsSpace(s[j - 1])
  {
    StripRightFrom(s, StripLeft(s), |s|)
  }

  /** `s.strip()`: the stripped slice of `s` between the two cuts; only whitespace lies
      outside it. */
  function Strip(s: string): (r: string)
    ensures IsStripped(r) && r == s[StripLeft(s)..StripRight(s)]
  {
    s[StripLeft(s)..StripRight(s)]
  }

  /** A greedy whitespace run ends at the first non-whitespace character. */
  lemma {:induction false} SpaceEndAt(s: string, p: nat, k: nat)
    requires p <= k <= |s| && AllSpace(s[p..k]) && (k == |s| || !IsSpace(s[k]))
    ensures SpaceEnd(s, p) == k
    decreases k - p
  {
    if p < k {
      assert IsSpace(s[p..k][0]);
      assert s[p + 1..k] == s[p..k][1..];
      SpaceEndAt(s, p + 1, k);
    }
  }

  /** The backward search stops at the last non-whitespace character. */
  lemma {:induction false} StripRightAt(s: string, i: nat, j: nat, k: nat)
    requires i <= k <= j <= |s| && AllSpace(s[k..]) && (k == i || !IsSpace(s[k - 1]))
    ensures StripRightFrom(s, i, j) == k
    decreases j - k
  {
    if k < j {
      assert IsSpace(s[k..][j - 1 - k]);
      StripRightAt(s, i, j - 1, k);
    }
  }

  /** Stripping leaves a stripped string as it is. */
  lemma StripStripped(s: string)
    requires IsStripped(s)
    ensures Strip(s) == s
  {
    SpaceEndAt(s, 0, 0);
    StripRightAt(s, 0, |s|, |s|);
  }

  /** Whitespace around a stripped string is what `strip()` removes, and nothing more. */
  lemma StripPadded(w1: string, x: string, w2: string)
    requires AllSpace(w1) && AllSpace(w2) && IsStripped(x)
    ensures Strip(w1 + x + w2) == x
  {
    var s := w1 + x + w2;
    if x == [] {
      assert AllSpace(s[0..|s|]) by {
        forall k | 0 <= k < |s| ensures IsSpace(s[k]) {
          if k < |w1| { assert s[k] == w1[k]; } else { assert s[k] == w2[k - |w1|]; }
        }
      }
      SpaceEndAt(s, 0, |s|);
      StripRightAt(s, |s|, |s|, |s|);
    } else {
      assert s[0..|w1|] == w1 && s[|w1|] == x[0];
      SpaceEndAt(s, 0, |w1|);
      var e := |w1| + |x|;
      assert s[e..] == w2 && s[e - 1] == x[|x| - 1];
      StripRightAt(s, |w1|, |s|, e);
      assert s[|w1|..e] == x;
    }
  }

  /** Trimming keeps a character out. */
  lemma StripWithout(s: string, c: char)
    requires c !in s
    ensures c !in Strip(s)
  {
  }

  /** A character absent from a text's head and tail is absent from the whole. */
  lemma ConsWithout(s: string, i: nat, c: char)
    requires 0 < |s| && i + 1 <= |s| && s[0] != c && c !in s[1..][..i]
    ensures c !in s[..i + 1] && s[1..][i..] == s[i + 1..]
  {
    assert s[..i + 1] == [s[0]] + s[1..][..i];
  }

  /** The index of the first `c` in `s`, or `|s|` when there is none. */
  function IndexOf(s: string, c: char): (r: nat)
    ensures r <= |s| && (r < |s| ==> s[r] == c) && c !in s[..r]
  {
    RunEnd(s, 0, x => x != c)
  }

  /** `c in s` tests the same as looking for its first index. */
  lemma IndexOfFound(s: string, c: char)
    ensures IndexOf(s, c) < |s| <==> c in s
  {
    assert s[..|s|] == s;
  }

  /** The first `c` of a text made of a `c`-free part, then `c`, then anything. */
  lemma IndexOfAfter(p: string, c: char, rest: string)
    requires c !in p
    ensures IndexOf(p + [c] + rest, c) == |p|
  {
    var s := p + [c] + rest;
    assert s[..|p|] == p && s[|p|] == c;
  }

  /** A text without the separator splits into itself alone. */
  lemma SplitWithout(s: string, sep: char)
    requires sep !in s
    ensures Split(s, sep) == [s]
  {
    assert s[..|s|] == s;
  }

  /** The index of the last `c` in `s`, or `|s|` when there is none. */
  function LastIndexOf(s: string, c: char): (r: nat)
    ensures r <= |s|
    ensures r == |s| ==> c !in s
    ensures r < |s| ==> s[r] == c && c !in s[r + 1..]
    decreases |s|
  {
    if s == [] then 0
    else if s[|s| - 1] == c then |s| - 1
    else
      var k := LastIndexOf(s[..|s| - 1], c);
      if k == |s| - 1 then |s| else k
  }

  /** A sequence built from its head and a tail built from its rest is the sequence
      followed by that tail's suffix. */
  lemma ConsChain<T>(p: seq<T>, a: seq<T>, b: seq<T>, c: seq<T>)
    requires p != [] && a == [p[0]] + b && b == p[1..] + c
    ensures a == p + c
  {
    assert p == [p[0]] + p[1..];
  }

  /** `sep.join(parts)`. */
  function Join(sep: string, parts: seq<string>): string
    decreases |parts|
  {
    if parts == [] then ""
    else if |parts| == 1 then parts[0]
    else parts[0] + sep + Join(sep, parts[1..])
  }

  /** `s.split(sep)` for a one-character separator: the pieces between separators, of
      which there is always at least one; joining them back gives `s`. */
  function Split(s: string, sep: char): (parts: seq<string>)
    ensures |parts| >= 1
    ensures forall i :: 0 <= i < |parts| ==> sep !in parts[i]
    ensures Join([sep], parts) == s
    decreases |s|
  {
    var i := IndexOf(s, sep);
    if i == |s| then
      assert s[..i] == s;
      [s]
    else
      var rest := Split(s[i + 1..], sep);
      assert s == s[..i] + [sep] + s[i + 1..];
      [s[..i]] + rest
  }

  /** The lines of a text file without their line ends. A loop over an open file yields
      each line with its `\n`, and every reader here strips it off at once; a final line
      end adds an empty last line, which every reader skips. */
  function Lines(content: string): (lines: seq<string>)
    ensures forall i :: 0 <= i < |lines| ==> '\n' !in lines[i]
  {
    Split(content, '\n')
  }

  /** Splitting a join of separator-free pieces gives the pieces back. */
  lemma {:induction false} SplitJoin(parts: seq<string>, sep: char)
    requires |parts| >= 1
    requires forall i :: 0 <= i < |parts| ==> sep !in parts[i]
    ensures Split(Join([sep], parts), sep) == parts
    decreases |parts|
  {
    var s := Join([sep], parts);
    if |parts| == 1 {
      assert IndexOf(s, sep) == |s|;
    } else {
      var tail := Join([sep], parts[1..]);
      assert s == parts[0] + [sep] + tail;
      var i := IndexOf(s, sep);
      assert s[|parts[0]|] == sep;
      assert s[..|parts[0]|] == parts[0];
      assert i == |parts[0]|;
      assert s[..i] == parts[0];
      assert s[i + 1..] == tail;
      SplitJoin(parts[1..], sep);
      assert Split(s, sep) == [parts[0]] + parts[1..];
    }
  }

  /** A join of stripped, separator-free pieces that begins with a non-empty piece does
      not start with whitespace; used to show joined text is stripped. */
  lemma JoinEnds(sep: string, parts: seq<string>)
    requires |parts| >= 1
    ensures StartsWith(Join(sep, parts), parts[0])
    ensures |parts[|parts| - 1]| <= |Join(sep, parts)|
    ensures Join(sep, parts)[|Join(sep, parts)| - |parts[|parts| - 1]|..] == parts[|parts| - 1]
    decreases |parts|
  {
    if |parts| > 1 {
      JoinEnds(sep, parts[1..]);
    }
  }

  /** Every piece of an all-whitespace join is all whitespace. */
  lemma {:induction false} JoinAllSpace(sep: string, parts: seq<string>)
    requires AllSpace(Join(sep, parts))
    ensures forall k :: 0 <= k < |parts| ==> AllSpace(parts[k])
    decreases |parts|
  {
    if |parts| > 1 {
      var j := Join(sep, parts);
      assert j == parts[0] + sep + Join(sep, parts[1..]);
      assert AllSpace(parts[0]) by {
        forall i | 0 <= i < |parts[0]| ensures IsSpace(parts[0][i]) { assert j[i] == parts[0][i]; }
      }
      var tail := Join(sep, parts[1..]);
      assert AllSpace(tail) by {
        forall i | 0 <= i < |tail| ensures IsSpace(tail[i]) {
          assert j[|parts[0]| + |sep| + i] == tail[i];
        }
      }
      JoinAllSpace(sep, parts[1..]);
      forall k | 1 <= k < |parts| ensures AllSpace(parts[k]) { assert parts[k] == parts[1..][k - 1]; }
    }
  }
}
