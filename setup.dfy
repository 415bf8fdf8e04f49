// The configuration side of the packaging script setup.py (lines 9-51 and 57-67): reading
// global_config.mk into a dictionary of settings, where the keyword setting becomes a
// list and the project-URL setting a dictionary, and the package metadata taken from it
// with its defaults.
module Setup {
  import opened Text
  import opened Wrappers
  import opened Assignments

  /** A value of the parsed configuration: the text of a setting, or the list and the
      dictionary that two settings are turned into. */
  datatype MkValue = Plain(text: string) | KeywordList(words: seq<string>) | UrlMap(urls: map<string, string>)

  const KeywordsKey: string := "CONFIG_WHL_KEYWORDS"
  const UrlsKey: string := "CONFIG_WHL_PROJECT_URLS"

  // ---------------------------------------------------------------------------------
  // One line.

  /** The match of `^(\w+)\s*=\s*(.+?)\s*$` on a line without line breaks: a name of
      word characters, optional whitespace, `=`, optional whitespace, then the value,
      which stops where the trailing whitespace starts. When only whitespace follows the
      `=`, the pattern backtracks and the value is the last whitespace character. */
  function MatchAssignment(l: string): (r: Option<(string, string)>)
    ensures r.Some? ==> r.value.0 != [] && AllWordChars(r.value.0) && r.value.1 != []
  {
    var k := RunEnd(l, 0, IsWordChar);
    var e := SpaceEnd(l, k);
    if k == 0 || e == |l| || l[e] != '=' then None
    else
      var v := SpaceEnd(l, e + 1);
      if v < |l| then
        assert AllSpace(l[|l|..]);
        Some((l[..k], l[v..StripRightFrom(l, v, |l|)]))
      else if e + 1 < |l| then Some((l[..k], l[|l| - 1..]))
      else None
  }

  /** The value is wrapped in a matching pair of quotes, single or double. */
  predicate Quoted(v: string) {
    |v| >= 1 && ((v[0] == '"' && v[|v| - 1] == '"') || (v[0] == '\'' && v[|v| - 1] == '\''))
  }

  /** The value with its quotes removed, when it is quoted. */
  function Unquote(v: string): string {
    if Quoted(v) then (if |v| >= 2 then v[1..|v| - 1] else "") else v
  }

  /** Each piece stripped. */
  function StripAll(pieces: seq<string>): (r: seq<string>)
    ensures |r| == |pieces| && forall i :: 0 <= i < |pieces| ==> r[i] == Strip(pieces[i])
  {
    seq(|pieces|, i requires 0 <= i < |pieces| => Strip(pieces[i]))
  }

  /** The keyword list: the comma-separated pieces, stripped; none for an empty value. */
  function KeywordsOf(v: string): seq<string> {
    if v == "" then [] else StripAll(Split(v, ','))
  }

  /** What one comma-separated piece of the URL setting sets: a stripped piece holding a
      `:` maps the stripped text before its first `:` to the stripped text after it. */
  function UrlEntry(pair: string): Option<(string, string)> {
    var colon := IndexOf(pair, ':');
    if colon < |pair| then Some((Strip(pair[..colon]), Strip(pair[colon + 1..]))) else None
  }

  function UrlEntries(pairs: seq<string>): (r: seq<Option<(string, string)>>)
    ensures |r| == |pairs| && forall i :: 0 <= i < |pairs| ==> r[i] == UrlEntry(pairs[i])
  {
    seq(|pairs|, i requires 0 <= i < |pairs| => UrlEntry(pairs[i]))
  }

  /** The URL dictionary: the entries of the stripped pieces, the last one for a name
      winning; none for an empty value. */
  function UrlsOf(v: string): map<string, string> {
    if v == "" then map[] else Assigned(UrlEntries(StripAll(Split(v, ','))))
  }

  /** The value a setting is stored as: a keyword list, a URL dictionary, or the text. */
  function Converted(key: string, v: string): MkValue {
    if key == KeywordsKey then KeywordList(KeywordsOf(v))
    else if key == UrlsKey then UrlMap(UrlsOf(v))
    else Plain(v)
  }

  /** What one line of the file sets: blank lines and lines starting with `#` set
      nothing, and so do lines the pattern does not match. */
  function MkEntry(line: string): Option<(string, MkValue)> {
    var l := Strip(line);
    if l == "" || StartsWith(l, "#") then None
    else
      var m := MatchAssignment(l);
      if m.None? then None else Some((m.value.0, Converted(m.value.0, Unquote(m.value.1))))
  }

  function MkEntries(lines: seq<string>): (r: seq<Option<(string, MkValue)>>)
    ensures |r| == |lines| && forall i :: 0 <= i < |lines| ==> r[i] == MkEntry(lines[i])
  {
    seq(|lines|, i requires 0 <= i < |lines| => MkEntry(lines[i]))
  }

  /** The configuration read from the file's content, or `None` when there is no file,
      where the script reports the missing file and exits with status 1. */
  function MkConfigOf(content: Option<string>): Option<map<string, MkValue>> {
    if content.None? then None else Some(Assigned(MkEntries(Lines(content.value))))
  }

  // ---------------------------------------------------------------------------------
  // The loops of parse_mk_config.

  /** One pass of the inner loop: the URL one stripped piece sets, if any. */
  method ReadUrl(urls: map<string, string>, pair: string) returns (urls': map<string, string>)
    ensures urls' == if UrlEntry(pair).Some? then urls[UrlEntry(pair).value.0 := UrlEntry(pair).value.1] else urls
  {
    urls' := urls;
    IndexOfFound(pair, ':');
    if ':' in pair {
      var colon := IndexOf(pair, ':');
      urls' := urls[Strip(pair[..colon]) := Strip(pair[colon + 1..])];
    }
  }

  lemma UrlEntriesSnoc(pairs: seq<string>, i: nat)
    requires i < |pairs|
    ensures UrlEntries(pairs[..i + 1]) == UrlEntries(pairs[..i]) + [UrlEntry(pairs[i])]
  {
  }

  /** The inner loop: each stripped piece with a `:` sets one URL. */
  method ProjectUrls(value: string) returns (urls: map<string, string>)
    ensures urls == UrlsOf(value)
  {
    urls := map[];
    if value != "" {
      var pairs := StripAll(Split(value, ','));
      var i := 0;
      while i < |pairs|
        invariant 0 <= i <= |pairs|
        invariant urls == Assigned(UrlEntries(pairs[..i]))
      {
        urls := ReadUrl(urls, pairs[i]);
        UrlEntriesSnoc(pairs, i);
        AssignedSnoc(UrlEntries(pairs[..i]), UrlEntry(pairs[i]));
        i := i + 1;
      }
      assert pairs[..i] == pairs;
    }
  }

  /** The conversion of the two special settings. */
  method Convert(key: string, value: string) returns (converted: MkValue)
    ensures converted == Converted(key, value)
  {
    converted := Plain(value);
    if key == KeywordsKey {
      converted := KeywordList(KeywordsOf(value));
    } else if key == UrlsKey {
      var urls := ProjectUrls(value);
      converted := UrlMap(urls);
    }
  }

  /** A matched setting: the value unquoted and converted, then stored under its key. */
  method StoreSetting(config: map<string, MkValue>, key: string, value: string)
    returns (config': map<string, MkValue>)
    ensures config' == config[key := Converted(key, Unquote(value))]
  {
    var v := value;
    if Quoted(v) {
      v := if |v| >= 2 then v[1..|v| - 1] else "";
    }
    var converted := Convert(key, v);
    config' := config[key := converted];
  }

  /** One pass of the outer loop: the setting of one line, if any. */
  method ReadMkLine(config: map<string, MkValue>, line: string) returns (config': map<string, MkValue>)
    ensures config' == if MkEntry(line).Some? then config[MkEntry(line).value.0 := MkEntry(line).value.1] else config
  {
    config' := config;
    var l := Strip(line);
    if l == "" || StartsWith(l, "#") {
      return;
    }
    var m := MatchAssignment(l);
    if m.Some? {
      config' := StoreSetting(config, m.value.0, m.value.1);
    }
  }

  lemma MkEntriesSnoc(lines: seq<string>, i: nat)
    requires i < |lines|
    ensures MkEntries(lines[..i + 1]) == MkEntries(lines[..i]) + [MkEntry(lines[i])]
  {
  }

  /** `parse_mk_config`: the settings of the file, line by line, a later line for a key
      replacing an earlier one; `None` when the file does not exist. */
  method ParseMkConfig(content: Option<string>) returns (config: Option<map<string, MkValue>>)
    ensures config == MkConfigOf(content)
  {
    if content.None? {
      return None;
    }
    var lines := Split(content.value, '\n');
    var settings: map<string, MkValue> := map[];
    var i := 0;
    while i < |lines|
      invariant 0 <= i <= |lines|
      invariant settings == Assigned(MkEntries(lines[..i]))
    {
      settings := ReadMkLine(settings, lines[i]);
      MkEntriesSnoc(lines, i);
      AssignedSnoc(MkEntries(lines[..i]), MkEntry(lines[i]));
      i := i + 1;
    }
    assert lines[..i] == lines;
    return Some(settings);
  }

  // ---------------------------------------------------------------------------------
  // What reading the file promises.

  /** Quotes of either kind come off a value wrapped in them. */
  lemma UnquoteWrapped(q: char, s: string)
    requires q == '"' || q == '\''
    ensures Unquote([q] + s + [q]) == s
  {
    var v := [q] + s + [q];
    assert v[0] == q && v[|v| - 1] == q;
    assert v[1..|v| - 1] == s;
  }

  /** Unquoting changes a value exactly when it is quoted. */
  lemma UnquoteKeeps(v: string)
    ensures Unquote(v) == v <==> !Quoted(v)
  {
    if Quoted(v) {
      assert |Unquote(v)| < |v|;
    }
  }

  /** The pattern splits `key=value` back into the name and the value, for a name of
      word characters and a stripped, non-empty value. */
  lemma MatchAssignmentOf(key: string, value: string)
    requires key != [] && AllWordChars(key)
    requires value != [] && IsStripped(value)
    ensures MatchAssignment(key + "=" + value) == Some((key, value))
  {
    var line := key + "=" + value;
    var n := |key|;
    assert line[..n] == key && line[n] == '=' && line[n + 1..] == value;
    RunEndAt(line, 0, n, IsWordChar);
    assert AllSpace(line[n..n]);
    SpaceEndAt(line, n, n);
    assert AllSpace(line[n + 1..n + 1]);
    assert line[n + 1] == value[0];
    SpaceEndAt(line, n + 1, n + 1);
    assert line[|line| - 1] == value[|value| - 1];
    assert AllSpace(line[|line|..]);
    StripRightAt(line, n + 1, |line|, |line|);
    assert line[n + 1..|line|] == value;
  }

  /** A line `key=value` with a name of word characters and a stripped, non-empty value
      reads back as that setting, unquoted and converted. */
  lemma MkLineRoundTrip(key: string, value: string)
    requires key != [] && AllWordChars(key)
    requires value != [] && IsStripped(value)
    ensures MkEntry(key + "=" + value) == Some((key, Converted(key, Unquote(value))))
  {
    var line := key + "=" + value;
    assert line[0] == key[0] && line[|line| - 1] == value[|value| - 1];
    assert IsWordChar(key[0]);
    StripStripped(line);
    DiffersAt(line, "#", 0);
    MatchAssignmentOf(key, value);
  }

  /** Every setting read has a name of word characters, and the value of a setting is a
      keyword list exactly for the keyword setting and a URL dictionary exactly for the
      URL setting. */
  lemma MkConfigKinds(content: string)
    ensures forall key :: key in MkConfigOf(Some(content)).value ==>
      && key != [] && AllWordChars(key)
      && (MkConfigOf(Some(content)).value[key].KeywordList? <==> key == KeywordsKey)
      && (MkConfigOf(Some(content)).value[key].UrlMap? <==> key == UrlsKey)
  {
    var es := MkEntries(Lines(content));
    var p := (key: string, v: MkValue) =>
      key != [] && AllWordChars(key) && (v.KeywordList? <==> key == KeywordsKey) && (v.UrlMap? <==> key == UrlsKey);
    forall i | 0 <= i < |es| && es[i].Some? ensures p(es[i].value.0, es[i].value.1) {
      var l := Strip(Lines(content)[i]);
      assert MatchAssignment(l).Some?;
    }
    AssignedEvery(es, p);
  }

  /** A key is configured exactly when some line of the file sets it. */
  lemma MkConfigKeys(content: string, key: string)
    ensures key in MkConfigOf(Some(content)).value <==>
      exists i :: 0 <= i < |Lines(content)| && Sets(MkEntry(Lines(content)[i]), key)
  {
    AssignedKeys(MkEntries(Lines(content)), key);
  }

  /** The last line that sets a key gives its value. */
  lemma MkConfigLast(content: string, key: string, i: nat)
    requires LastSets(MkEntries(Lines(content)), i, key)
    ensures key in MkConfigOf(Some(content)).value
    ensures MkConfigOf(Some(content)).value[key] == MkEntry(Lines(content)[i]).value.1
  {
    AssignedLast(MkEntries(Lines(content)), i, key);
  }

  /** Every keyword is stripped and holds no comma. */
  lemma KeywordsShape(v: string)
    ensures forall i :: 0 <= i < |KeywordsOf(v)| ==> IsStripped(KeywordsOf(v)[i]) && ',' !in KeywordsOf(v)[i]
  {
    if v != "" {
      var pieces := Split(v, ',');
      forall i | 0 <= i < |pieces| ensures ',' !in Strip(pieces[i]) {
        StripWithout(pieces[i], ',');
      }
    }
  }

  /** Stripped, comma-free keywords written with commas between them read back as
      themselves. */
  lemma KeywordsRoundTrip(words: seq<string>)
    requires |words| >= 1 && Join(",", words) != ""
    requires forall i :: 0 <= i < |words| ==> IsStripped(words[i]) && ',' !in words[i]
    ensures KeywordsOf(Join(",", words)) == words
  {
    assert "," == [','];
    SplitJoin(words, ',');
    StripAllStripped(words);
  }

  lemma StripAllStripped(pieces: seq<string>)
    requires forall i :: 0 <= i < |pieces| ==> IsStripped(pieces[i])
    ensures StripAll(pieces) == pieces
  {
    forall i | 0 <= i < |pieces| ensures Strip(pieces[i]) == pieces[i] {
      StripStripped(pieces[i]);
    }
  }

  /** The piece `name:url` maps the name to the URL. */
  lemma UrlEntryOf(name: string, url: string)
    requires IsStripped(name) && IsStripped(url) && ':' !in name
    ensures UrlEntry(name + ":" + url) == Some((name, url))
  {
    var v := name + ":" + url;
    assert v[..|name|] == name && v[|name| + 1..] == url;
    IndexOfAfter(name, ':', url);
    StripStripped(name);
    StripStripped(url);
  }

  /** A single `name:url` entry gives a dictionary with that one URL. */
  lemma UrlRoundTrip(name: string, url: string)
    requires IsStripped(name) && IsStripped(url) && name != [] && url != []
    requires ':' !in name && ',' !in name && ',' !in url
    ensures UrlsOf(name + ":" + url) == map[name := url]
  {
    var v := name + ":" + url;
    assert v[0] == name[0] && v[|v| - 1] == url[|url| - 1];
    assert ',' !in v;
    SplitWithout(v, ',');
    StripStripped(v);
    UrlEntryOf(name, url);
    assert StripAll(Split(v, ',')) == [v];
    assert UrlEntries([v]) == [] + [Some((name, url))];
    AssignedSnoc([], Some((name, url)));
  }

  // ---------------------------------------------------------------------------------
  // The package metadata.

  const NameKey: string := "CONFIG_WHL_PACKAGE_NAME"
  const VersionKey: string := "CONFIG_WHL_VERSION"
  const AuthorKey: string := "CONFIG_WHL_AUTHOR"
  const DescriptionKey: string := "CONFIG_WHL_DESCRIPTION"

  /** `mk_config.get(key, default)` for a setting kept as text. */
  function Setting(config: map<string, MkValue>, key: string, default: string): string {
    if key in config && config[key].Plain? then config[key].text else default
  }

  function PackageName(config: map<string, MkValue>): string {
    Setting(config, NameKey, "add")
  }

  function Version(config: map<string, MkValue>): string {
    Setting(config, VersionKey, "0.1.0")
  }

  function Author(config: map<string, MkValue>): string {
    Setting(config, AuthorKey, "Tao")
  }

  function Description(config: map<string, MkValue>): string {
    Setting(config, DescriptionKey, "Auto bind Python from C/C++")
  }

  /** The name the built library is copied to: the package name with `.so`. */
  function TargetSoName(config: map<string, MkValue>): string {
    PackageName(config) + ".so"
  }

  /** No line of the file sets the key. */
  predicate Unset(content: string, key: string) {
    forall i :: 0 <= i < |Lines(content)| ==> !Sets(MkEntry(Lines(content)[i]), key)
  }

  /** A metadata setting no line sets takes its default. */
  lemma MetadataDefault(content: string, key: string, default: string)
    requires Unset(content, key)
    ensures Setting(MkConfigOf(Some(content)).value, key, default) == default
  {
    MkConfigKeys(content, key);
  }

  /** A metadata setting other than the keyword and URL settings is the text of the last
      line that sets it, unquoted. */
  lemma MetadataLast(content: string, key: string, default: string, i: nat)
    requires key != KeywordsKey && key != UrlsKey
    requires LastSets(MkEntries(Lines(content)), i, key)
    ensures MkEntry(Lines(content)[i]).value.1 == Plain(Setting(MkConfigOf(Some(content)).value, key, default))
  {
    MkConfigLast(content, key, i);
  }

  /** With none of the metadata set, the package is `add` 0.1.0 by Tao, and its library is
      copied to `add.so`. */
  lemma MetadataDefaults(content: string)
    requires Unset(content, NameKey) && Unset(content, VersionKey)
    requires Unset(content, AuthorKey) && Unset(content, DescriptionKey)
    ensures var config := MkConfigOf(Some(content)).value;
      && PackageName(config) == "add" && Version(config) == "0.1.0" && Author(config) == "Tao"
      && Description(config) == "Auto bind Python from C/C++" && TargetSoName(config) == "add.so"
  {
    MetadataDefault(content, NameKey, "add");
    MetadataDefault(content, VersionKey, "0.1.0");
    MetadataDefault(content, AuthorKey, "Tao");
    MetadataDefault(content, DescriptionKey, "Auto bind Python from C/C++");
  }
}
