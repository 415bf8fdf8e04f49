// The configuration side of the build driver project.py (lines 14-21 and 55-82): reading
// the `KEY=value` settings of global_config.mk, the switch that asks for a wheel package,
// and the CMake define that selects the target platform.
module Project {
  import opened Text
  import opened Wrappers
  import opened Assignments

  /** The setting that asks for a wheel package. */
  const WhlKey: string := "CONFIG_BUILD_WHL_PACKAGE"

  /** The architecture settings and the CMake variable each one turns on, in the order
      they are tried. */
  const ArchCmakeMap: seq<(string, string)> := [
    ("CONFIG_TARGET_ARCH_X86", "Linux"),
    ("CONFIG_TARGET_ARCH_ARM64", "MaixCam2"),
    ("CONFIG_TARGET_ARCH_RISCV64", "MaixCam")
  ]

  // ---------------------------------------------------------------------------------
  // Reading global_config.mk.

  /** What one line sets: after stripping, a line that holds an `=` and does not start
      with `#` sets the text before its first `=`, as it is, to the stripped text after
      it. */
  function SettingOf(line: string): Option<(string, string)> {
    var l := Strip(line);
    var eq := IndexOf(l, '=');
    if eq < |l| && !StartsWith(l, "#") then Some((l[..eq], Strip(l[eq + 1..]))) else None
  }

  function Settings(lines: seq<string>): (r: seq<Option<(string, string)>>)
    ensures |r| == |lines| && forall k :: 0 <= k < |lines| ==> r[k] == SettingOf(lines[k])
  {
    seq(|lines|, k requires 0 <= k < |lines| => SettingOf(lines[k]))
  }

  /** The configuration read from the file's content; a file that cannot be read (`None`)
      gives an empty configuration. */
  function ConfigOf(content: Option<string>): map<string, string> {
    if content.None? then map[] else Assigned(Settings(Lines(content.value)))
  }

  lemma SettingsSnoc(lines: seq<string>, i: nat)
    requires i < |lines|
    ensures Settings(lines[..i + 1]) == Settings(lines[..i]) + [SettingOf(lines[i])]
  {
  }

  /** One pass of the loop of `load_config`: the setting of one line, if any. */
  method ReadSetting(config: map<string, string>, line: string) returns (config': map<string, string>)
    ensures config' == if SettingOf(line).Some? then config[SettingOf(line).value.0 := SettingOf(line).value.1] else config
  {
    var l := Strip(line);
    config' := config;
    if '=' in l && !StartsWith(l, "#") {
      var eq := IndexOf(l, '=');
      config' := config[l[..eq] := Strip(l[eq + 1..])];
    }
  }

  /** `load_config`: the settings of the file, line by line; a later line for a key
      replaces an earlier one, and a file that cannot be read gives no settings. */
  method LoadConfig(content: Option<string>) returns (config: map<string, string>)
    ensures config == ConfigOf(content)
  {
    config := map[];
    if content.None? {
      return;
    }
    var lines := Split(content.value, '\n');
    var i := 0;
    while i < |lines|
      invariant 0 <= i <= |lines|
      invariant config == Assigned(Settings(lines[..i]))
    {
      config := ReadSetting(config, lines[i]);
      SettingsSnoc(lines, i);
      AssignedSnoc(Settings(lines[..i]), SettingOf(lines[i]));
      i := i + 1;
    }
    assert lines[..i] == lines;
  }

  /** A key read from the file holds no `=` and does not start with `#`; its value is
      stripped. */
  lemma SettingShape(line: string)
    requires SettingOf(line).Some?
    ensures '=' !in SettingOf(line).value.0
    ensures !StartsWith(SettingOf(line).value.0, "#")
    ensures IsStripped(SettingOf(line).value.1)
  {
    var l := Strip(line);
    var eq := IndexOf(l, '=');
    var key := l[..eq];
    if key != [] {
      assert key[0] == l[0];
    }
  }

  /** A line written as `key=value` reads back as that setting, when the key is a
      stripped name with no `=` that does not start with `#` and the value is
      stripped. */
  lemma SettingRoundTrip(key: string, value: string)
    requires key != [] && IsStripped(key) && '=' !in key && key[0] != '#'
    requires IsStripped(value)
    ensures SettingOf(key + "=" + value) == Some((key, value))
  {
    var line := key + "=" + value;
    assert line[0] == key[0] && line[|line| - 1] == if value == [] then '=' else value[|value| - 1];
    StripStripped(line);
    var eq := IndexOf(line, '=');
    assert line[|key|] == '=' && line[..|key|] == key;
    assert eq == |key|;
    assert line[eq + 1..] == value;
    StripStripped(value);
    assert !StartsWith(line, "#") by {
      assert line[0] != '#';
    }
  }

  /** A key is configured exactly when some line of the file sets it. */
  lemma ConfigKeys(content: string, key: string)
    ensures key in ConfigOf(Some(content)) <==>
      exists i :: 0 <= i < |Lines(content)| && Sets(SettingOf(Lines(content)[i]), key)
  {
    AssignedKeys(Settings(Lines(content)), key);
  }

  /** The last line that sets a key gives its value. */
  lemma ConfigLast(content: string, key: string, i: nat)
    requires LastSets(Settings(Lines(content)), i, key)
    ensures key in ConfigOf(Some(content))
    ensures ConfigOf(Some(content))[key] == SettingOf(Lines(content)[i]).value.1
  {
    AssignedLast(Settings(Lines(content)), i, key);
  }

  // ---------------------------------------------------------------------------------
  // The switches read from the configuration.

  /** `config.get(key, '') == 'y'`. */
  predicate Enabled(config: map<string, string>, key: string) {
    (if key in config then config[key] else "") == "y"
  }

  /** `get_build_whl_flag`: whether a wheel package is asked for. */
  predicate BuildWhl(config: map<string, string>) {
    Enabled(config, WhlKey)
  }

  /** A wheel is built exactly when the last line that sets the switch sets it to `y`. */
  lemma BuildWhlSetting(content: string)
    ensures BuildWhl(ConfigOf(Some(content))) <==>
      exists i :: 0 <= i && LastSets(Settings(Lines(content)), i, WhlKey) && SettingOf(Lines(content)[i]).value.1 == "y"
  {
    var es := Settings(Lines(content));
    var config := ConfigOf(Some(content));
    if BuildWhl(config) {
      var i := AssignedValue(es, WhlKey);
      assert SettingOf(Lines(content)[i]).value.1 == "y";
    }
    forall i | 0 <= i && LastSets(es, i, WhlKey) && SettingOf(Lines(content)[i]).value.1 == "y"
      ensures BuildWhl(config)
    {
      ConfigLast(content, WhlKey, i);
    }
  }

  /** The `i`-th architecture is the first one enabled. */
  predicate FirstEnabled(config: map<string, string>, i: nat) {
    && i < |ArchCmakeMap|
    && Enabled(config, ArchCmakeMap[i].0)
    && forall j :: 0 <= j < i ==> !Enabled(config, ArchCmakeMap[j].0)
  }

  /** The CMake define that turns a variable on. */
  function CmakeDefine(cmakeVar: string): string {
    "-D" + cmakeVar + "=ON"
  }

  /** `get_platform_cmake_args`: the define of the first enabled architecture, in the
      order of the map, or nothing when none is enabled. */
  method PlatformCmakeArgs(config: map<string, string>) returns (args: seq<string>)
    ensures args == [] <==> forall i :: 0 <= i < |ArchCmakeMap| ==> !Enabled(config, ArchCmakeMap[i].0)
    ensures args != [] ==>
      exists i :: 0 <= i && FirstEnabled(config, i) && args == [CmakeDefine(ArchCmakeMap[i].1)]
  {
    var i := 0;
    while i < |ArchCmakeMap|
      invariant 0 <= i <= |ArchCmakeMap|
      invariant forall j :: 0 <= j < i ==> !Enabled(config, ArchCmakeMap[j].0)
    {
      var (archKey, cmakeVar) := ArchCmakeMap[i];
      if (if archKey in config then config[archKey] else "") == "y" {
        assert FirstEnabled(config, i);
        return ["-D" + cmakeVar + "=ON"];
      }
      i := i + 1;
    }
    return [];
  }
}
