/**
 * Startup programs: the `reg query` listing of the two Run keys and the
 * entries of the user's Startup folder become startup entries, each with an
 * estimated boot impact; `toggle_startup` enables or disables one entry by
 * renaming a folder entry or deleting a registry value.  The `reg` commands
 * are not run (their outcome is a parameter), the Startup folder listing is
 * a parameter, and renames act on an `Fs.Volume`.
 */
module Startup {
  import opened Wrappers
  import opened Text
  import opened Parsing
  import opened Shell
  import Fs

  // ---------------------------------------------------------------------
  // Impact estimate
  // ---------------------------------------------------------------------

  const High := "High"
  const Medium := "Medium"
  const Low := "Low"

  /** Programs known to slow down boot. */
  const HighKeywords: seq<string> := ["onedrive", "teams", "discord", "zoom", "slack", "spotify", "steam", "epic", "battle.net"]
  /** Background helpers. */
  const MediumKeywords: seq<string> := ["update", "helper", "agent", "tray", "notify"]
  /** Security software, which is never rated worth disabling. */
  const LowKeywords: seq<string> := ["security", "antivirus", "defender"]

  predicate MentionsAny(n: string, keywords: seq<string>)
  {
    exists k :: k in keywords && Contains(n, k)
  }

  /**
   * `estimate_impact`: the High keywords are tried first, then the Medium
   * ones, then the security keywords; a name matching none is Medium.  Each
   * test of the `||` chain is a keyword list here.
   */
  function EstimateImpact(name: string): (r: string)
    ensures r == High || r == Medium || r == Low
  {
    var n := ToLower(name);
    if MentionsAny(n, HighKeywords) then High
    else if MentionsAny(n, MediumKeywords) then Medium
    else if MentionsAny(n, LowKeywords) then Low
    else Medium
  }

  /** A security product is rated Low unless its name also carries a High or Medium keyword. */
  lemma SecurityRatedLow(name: string, k: string)
    requires k in LowKeywords && Contains(ToLower(name), k)
    ensures EstimateImpact(name) == Low <==>
      !MentionsAny(ToLower(name), HighKeywords) && !MentionsAny(ToLower(name), MediumKeywords)
  {
  }

  lemma LowerTwice(s: string)
    ensures ToLower(ToLower(s)) == ToLower(s)
  {
    assert forall i :: 0 <= i < |s| ==> LowerChar(LowerChar(s[i])) == LowerChar(s[i]);
  }

  /** The estimate does not depend on letter case. */
  lemma ImpactIgnoresCase(name: string)
    ensures EstimateImpact(ToLower(name)) == EstimateImpact(name)
  {
    LowerTwice(name);
  }

  // ---------------------------------------------------------------------
  // Entries
  // ---------------------------------------------------------------------

  datatype StartupEntry = StartupEntry(
    name: string,
    command: string,
    location: string,
    registryPath: string,
    enabled: bool,
    publisher: string,
    impact: string)

  const RunKey := "\\SOFTWARE\\Microsoft\\Windows\\CurrentVersion\\Run"
  const HkcuRun := "HKCU" + RunKey
  const HklmRun := "HKLM" + RunKey
  const UserRun := "User (Run)"
  const SystemRun := "System (Run)"
  const FolderLocation := "Startup Folder"
  const UnknownPublisher := "Unknown"

  /** The column separator of `reg query` output. */
  const Gap := "    "

  /** One line of `reg query <key>`: `    Name    REG_SZ    Command`. */
  function ParseRegistryLine(line: string, key: string, location: string): (r: Option<StartupEntry>)
    ensures r.Some? ==> r.value.name != [] && r.value.name != "(Default)"
    ensures r.Some? ==> !StartsWith(Trim(line), "HKEY")
    ensures r.Some? ==> |SplitN(Trim(line), Gap, 3)| == 3
    ensures r.Some? ==> r.value.registryPath == key && r.value.location == location && r.value.enabled
    ensures r.Some? ==> r.value.impact == EstimateImpact(r.value.name)
  {
    var l := Trim(line);
    if l == [] || StartsWith(l, "HKEY") then None
    else
      var parts := SplitN(l, Gap, 3);
      if |parts| < 3 then None
      else
        var name := Trim(parts[0]);
        if name == [] || name == "(Default)" then None
        else Some(StartupEntry(name, Trim(parts[2]), location, key, true, UnknownPublisher, EstimateImpact(name)))
  }

  predicate NoWhitespace(s: string)
  {
    forall i :: 0 <= i < |s| ==> !IsWhitespace(s[i])
  }

  /**
   * A value line of `reg query` (indented, then name, type and command
   * separated by four spaces) gives the entry with that name and command.
   */
  lemma RegistryLineRoundTrip(name: string, kind: string, command: string, key: string, location: string)
    requires name != [] && name != "(Default)" && !StartsWith(name, "HKEY") && NoWhitespace(name)
    requires NoWhitespace(kind)
    requires command != [] && Trim(command) == command
    ensures ParseRegistryLine(Gap + name + Gap + kind + Gap + command, key, location)
      == Some(StartupEntry(name, command, location, key, true, UnknownPublisher, EstimateImpact(name)))
  {
    ValueLineColumns(name, kind, command);
    TrimOf(name);
    KeptColumns(Gap + name + Gap + kind + Gap + command, name + Gap + kind + Gap + command, name, kind, command, key, location);
  }

  /** What the parse sees of a value line: the unindented text, no header, three columns. */
  lemma ValueLineColumns(name: string, kind: string, command: string)
    requires name != [] && !StartsWith(name, "HKEY") && NoWhitespace(name)
    requires NoWhitespace(kind)
    requires command != [] && Trim(command) == command
    ensures var body := name + Gap + kind + Gap + command;
      && Trim(Gap + name + Gap + kind + Gap + command) == body
      && body != [] && !StartsWith(body, "HKEY")
      && SplitN(body, Gap, 3) == [name, kind, command]
  {
    var body := name + Gap + kind + Gap + command;
    TrimValueLine(name, kind, command);
    SplitValueLine(name, kind, command);
    assert body[..|name|] == name && body[|name|] == ' ';
    NotHeaderLine(name, body);
  }

  lemma KeptColumns(line: string, body: string, name: string, kind: string, command: string, key: string, location: string)
    requires Trim(line) == body && body != [] && !StartsWith(body, "HKEY")
    requires SplitN(body, Gap, 3) == [name, kind, command]
    requires Trim(name) == name && name != [] && name != "(Default)" && Trim(command) == command
    ensures ParseRegistryLine(line, key, location)
      == Some(StartupEntry(name, command, location, key, true, UnknownPublisher, EstimateImpact(name)))
  {
  }

  /** A whitespace-free first column that is no `HKEY` header keeps the line from looking like one. */
  lemma NotHeaderLine(name: string, s: string)
    requires NoWhitespace(name) && !StartsWith(name, "HKEY")
    requires |s| > |name| && s[..|name|] == name && s[|name|] == ' '
    ensures !StartsWith(s, "HKEY")
  {
    if |name| < 4 && |s| >= 4 {
      assert s[|name|] == ' ';
      assert s[..4][|name|] == s[|name|];
    } else if |name| >= 4 {
      assert s[..4] == s[..|name|][..4];
    }
  }

  /** `trim` removes exactly the indentation of a value line. */
  lemma TrimValueLine(name: string, kind: string, command: string)
    requires name != [] && NoWhitespace(name) && command != [] && Trim(command) == command
    ensures Trim(Gap + name + Gap + kind + Gap + command) == name + Gap + kind + Gap + command
  {
    var body := name + Gap + kind + Gap + command;
    assert Gap + name + Gap + kind + Gap + command == Gap + body;
    TrimIsSlice(command);
    assert body[0] == name[0];
    assert body[|body| - 1] == command[|command| - 1];
    TrimIndented(body);
  }

  /** The three columns of a value line. */
  lemma SplitValueLine(name: string, kind: string, command: string)
    requires NoWhitespace(name) && NoWhitespace(kind)
    ensures SplitN(name + Gap + kind + Gap + command, Gap, 3) == [name, kind, command]
  {
    var rest := kind + Gap + command;
    var line := name + Gap + kind + Gap + command;
    assert line == name + Gap + rest;
    assert Gap[0] == ' ' && IsWhitespace(' ');
    IndexAfter(name, Gap, rest);
    IndexAfter(kind, Gap, command);
    assert SplitN(command, Gap, 1) == [command];
    assert SplitN(rest, Gap, 2) == [kind] + SplitN(command, Gap, 1);
    assert SplitN(line, Gap, 3) == [name] + SplitN(rest, Gap, 2);
  }

  lemma TrimOf(s: string)
    requires s != [] && NoWhitespace(s)
    ensures Trim(s) == s
  {
    assert !IsWhitespace(s[0]) && !IsWhitespace(s[|s| - 1]);
    TrimUnchanged(s);
  }

  /** The indentation of a line is what `trim` removes. */
  lemma TrimIndented(body: string)
    requires body != [] && !IsWhitespace(body[0]) && !IsWhitespace(body[|body| - 1])
    ensures Trim(Gap + body) == body
  {
    var s := Gap + body;
    assert s[1..][1..][1..][1..] == body;
    assert TrimStartBy(s, IsWhitespace) == body;
  }

  function RegistryEntries(lines: seq<string>, key: string, location: string): seq<StartupEntry>
  {
    Collect(lines, l => ParseRegistryLine(l, key, location))
  }

  /** `add_registry_entries`: the entries of one key's listing, appended in line order. */
  method AddRegistryEntries(entries: seq<StartupEntry>, o: Outcome, key: string, location: string)
    returns (result: seq<StartupEntry>)
    ensures result == entries + RegistryEntries(Lines(Stdout(o)), key, location)
  {
    var lines := Lines(Stdout(o));
    var found: seq<StartupEntry> := [];
    for i := 0 to |lines|
      invariant found == RegistryEntries(lines[..i], key, location)
    {
      CollectStep(lines, i, l => ParseRegistryLine(l, key, location));
      var r := ParseRegistryLine(lines[i], key, location);
      if r.Some? {
        found := found + [r.value];
      }
    }
    assert lines[..|lines|] == lines;
    result := entries + found;
  }

  /** The Startup folder under `%APPDATA%`. */
  function StartupPath(appdata: string): string
  {
    appdata + "\\Microsoft\\Windows\\Start Menu\\Programs\\Startup"
  }

  /** The name shown for a folder entry: the file name without `.lnk` and `.url`. */
  function ShownName(fileName: string): string
  {
    Replace(Replace(fileName, ".lnk", ""), ".url", "")
  }

  /** One file of the Startup folder; `desktop.ini` is not an entry. */
  function FolderEntry(fileName: string, startupPath: string): (r: Option<StartupEntry>)
    ensures r.None? <==> StartsWith(fileName, "desktop.ini")
    ensures r.Some? ==> r.value.enabled && r.value.registryPath == startupPath && r.value.location == FolderLocation
    ensures r.Some? ==> r.value.name == ShownName(fileName) && r.value.impact == EstimateImpact(fileName)
  {
    if StartsWith(fileName, "desktop.ini") then None
    else
      Some(StartupEntry(ShownName(fileName), startupPath + "\\" + fileName, FolderLocation, startupPath, true,
                        UnknownPublisher, EstimateImpact(fileName)))
  }

  function FolderEntries(fileNames: seq<string>, startupPath: string): seq<StartupEntry>
  {
    Collect(fileNames, n => FolderEntry(n, startupPath))
  }

  /** What `list_startup_programs` returns. */
  function StartupPrograms(hkcu: Outcome, hklm: Outcome, appdata: Option<string>, folder: Option<seq<string>>): seq<StartupEntry>
  {
    RegistryEntries(Lines(Stdout(hkcu)), HkcuRun, UserRun)
    + RegistryEntries(Lines(Stdout(hklm)), HklmRun, SystemRun)
    + (if appdata.Some? && folder.Some? then FolderEntries(folder.value, StartupPath(appdata.value)) else [])
  }

  /** The Startup-folder loop of `list_startup_programs`: the entries of the files, appended in listing order. */
  method AddFolderEntries(entries: seq<StartupEntry>, fileNames: seq<string>, startupPath: string)
    returns (result: seq<StartupEntry>)
    ensures result == entries + FolderEntries(fileNames, startupPath)
  {
    result := entries;
    for i := 0 to |fileNames|
      invariant result == entries + FolderEntries(fileNames[..i], startupPath)
    {
      CollectStep(fileNames, i, n => FolderEntry(n, startupPath));
      var r := FolderEntry(fileNames[i], startupPath);
      if r.Some? {
        result := result + [r.value];
      }
    }
    assert fileNames[..|fileNames|] == fileNames;
  }

  /**
   * `list_startup_programs`: `hkcu` and `hklm` are the outcomes of the two
   * `reg query` commands, `appdata` the `APPDATA` variable and `folder` the
   * file names `read_dir` yields for the Startup folder (`None` when it
   * cannot be read).
   */
  method ListStartupPrograms(hkcu: Outcome, hklm: Outcome, appdata: Option<string>, folder: Option<seq<string>>)
    returns (entries: seq<StartupEntry>)
    ensures entries == StartupPrograms(hkcu, hklm, appdata, folder)
  {
    ghost var user := RegistryEntries(Lines(Stdout(hkcu)), HkcuRun, UserRun);
    ghost var system := RegistryEntries(Lines(Stdout(hklm)), HklmRun, SystemRun);
    entries := AddRegistryEntries([], hkcu, HkcuRun, UserRun);
    assert entries == user;
    entries := AddRegistryEntries(entries, hklm, HklmRun, SystemRun);
    assert entries == user + system;
    if appdata.Some? && folder.Some? {
      entries := AddFolderEntries(entries, folder.value, StartupPath(appdata.value));
    } else {
      assert user + system + [] == user + system;
    }
  }

  predicate Listed(e: StartupEntry)
  {
    e.enabled && e.publisher == UnknownPublisher && (e.impact == High || e.impact == Medium || e.impact == Low)
  }

  /** Every listed entry is enabled, of unknown publisher, and rated High, Medium or Low, never Unknown. */
  lemma StartupProgramsListed(hkcu: Outcome, hklm: Outcome, appdata: Option<string>, folder: Option<seq<string>>)
    ensures forall i :: 0 <= i < |StartupPrograms(hkcu, hklm, appdata, folder)| ==> Listed(StartupPrograms(hkcu, hklm, appdata, folder)[i])
  {
    var a := RegistryEntries(Lines(Stdout(hkcu)), HkcuRun, UserRun);
    var b := RegistryEntries(Lines(Stdout(hklm)), HklmRun, SystemRun);
    var c := if appdata.Some? && folder.Some? then FolderEntries(folder.value, StartupPath(appdata.value)) else [];
    RegistryEntriesListed(Lines(Stdout(hkcu)), HkcuRun, UserRun);
    RegistryEntriesListed(Lines(Stdout(hklm)), HklmRun, SystemRun);
    if appdata.Some? && folder.Some? {
      FolderEntriesListed(folder.value, StartupPath(appdata.value));
    }
    ListedConcat(a, b, c);
  }

  lemma RegistryEntriesListed(lines: seq<string>, key: string, location: string)
    ensures forall i :: 0 <= i < |RegistryEntries(lines, key, location)| ==> Listed(RegistryEntries(lines, key, location)[i])
  {
    CollectKeeps(lines, l => ParseRegistryLine(l, key, location), Listed);
  }

  lemma FolderEntriesListed(fileNames: seq<string>, startupPath: string)
    ensures forall i :: 0 <= i < |FolderEntries(fileNames, startupPath)| ==> Listed(FolderEntries(fileNames, startupPath)[i])
  {
    CollectKeeps(fileNames, n => FolderEntry(n, startupPath), Listed);
  }

  lemma ListedConcat(a: seq<StartupEntry>, b: seq<StartupEntry>, c: seq<StartupEntry>)
    requires forall i :: 0 <= i < |a| ==> Listed(a[i])
    requires forall i :: 0 <= i < |b| ==> Listed(b[i])
    requires forall i :: 0 <= i < |c| ==> Listed(c[i])
    ensures forall i :: 0 <= i < |a + b + c| ==> Listed((a + b + c)[i])
  {
    forall i | 0 <= i < |a + b + c|
      ensures Listed((a + b + c)[i])
    {
      if i < |a| {
        assert (a + b + c)[i] == a[i];
      } else if i < |a| + |b| {
        assert (a + b + c)[i] == b[i - |a|];
      } else {
        assert (a + b + c)[i] == c[i - |a| - |b|];
      }
    }
  }

  // ---------------------------------------------------------------------
  // Toggling
  // ---------------------------------------------------------------------

  /** `toggle_startup` treats a path as the Startup folder when it names it and no registry hive. */
  predicate IsFolderPath(registryPath: string)
  {
    Contains(registryPath, "Startup") && !Contains(registryPath, "HKCU") && !Contains(registryPath, "HKLM")
  }

  function BasePath(registryPath: string, name: string): string
  {
    registryPath + "\\" + name
  }

  function DisabledPath(registryPath: string, name: string): string
  {
    BasePath(registryPath, name) + ".disabled"
  }

  const FolderToggleFailed := "Failed to toggle startup folder entry"

  function DeleteValueCommand(registryPath: string, name: string): Invocation
  {
    Invocation("reg", ["delete", registryPath, "/v", name, "/f"])
  }

  /**
   * `toggle_startup`: the result, the new volume and the commands run.  A
   * folder entry is renamed between its base path and the `.disabled` path;
   * a registry entry is enabled without any action and disabled by deleting
   * its value (`reg` gives the outcome of that command).
   */
  function ToggleStartup(name: string, registryPath: string, enable: bool, v: Fs.Volume, reg: Outcome)
    : (r: (Result<string, string>, Fs.Volume, seq<Invocation>))
    ensures IsFolderPath(registryPath) ==> r.2 == []
    ensures IsFolderPath(registryPath) && enable ==>
      r.0.Ok? == Fs.Rename(v, DisabledPath(registryPath, name), BasePath(registryPath, name)).0.Ok?
    ensures IsFolderPath(registryPath) && !enable ==>
      r.0.Ok? == Fs.Rename(v, BasePath(registryPath, name), DisabledPath(registryPath, name)).0.Ok?
    ensures IsFolderPath(registryPath) && r.0.Err? ==> r.0.error == FolderToggleFailed && r.1 == v
    ensures !IsFolderPath(registryPath) ==> r.1 == v
    ensures !IsFolderPath(registryPath) && enable ==> r.0 == Ok("Enabled startup entry: " + name) && r.2 == []
    ensures !IsFolderPath(registryPath) && !enable ==>
      && r.2 == [DeleteValueCommand(registryPath, name)]
      && (r.0.Ok? <==> reg.Exited? && reg.success)
      && (r.0.Err? ==> r.0.error == "Failed to disable: " + name)
  {
    if IsFolderPath(registryPath) then
      var base := BasePath(registryPath, name);
      var disabled := DisabledPath(registryPath, name);
      var moved := if enable then Fs.Rename(v, disabled, base) else Fs.Rename(v, base, disabled);
      if moved.0.Ok? then
        (Ok(if enable then "Enabled startup entry: " + name else "Disabled startup entry: " + name), moved.1, [])
      else
        (Err(FolderToggleFailed), v, [])
    else if enable then
      (Ok("Enabled startup entry: " + name), v, [])
    else
      var res := if reg.Exited? && reg.success then Ok("Disabled startup entry: " + name) else Err("Failed to disable: " + name);
      (res, v, [DeleteValueCommand(registryPath, name)])
  }

  /**
   * Disabling a folder entry and enabling it again restores the volume,
   * when no `.disabled` file was in the way.
   */
  lemma DisableThenEnable(name: string, registryPath: string, v: Fs.Volume, reg: Outcome)
    requires IsFolderPath(registryPath)
    requires DisabledPath(registryPath, name) !in v.files
    requires ToggleStartup(name, registryPath, false, v, reg).0.Ok?
    ensures var v' := ToggleStartup(name, registryPath, false, v, reg).1;
      ToggleStartup(name, registryPath, true, v', reg) == (Ok("Enabled startup entry: " + name), v, [])
  {
    var base := BasePath(registryPath, name);
    var disabled := DisabledPath(registryPath, name);
    var v' := ToggleStartup(name, registryPath, false, v, reg).1;
    assert |disabled| == |base| + 9;
    assert v' == v.(files := v.files - {base} + {disabled});
    assert v'.files - {disabled} + {base} == v.files;
  }

  /** Entries read from the Startup folder carry a path that names it. */
  lemma FolderEntriesNameStartup(appdata: string)
    ensures Contains(StartupPath(appdata), "Startup")
  {
    var s := StartupPath(appdata);
    assert s[|s| - 7..] == "Startup";
    ContainsAt(s, "Startup", |s| - 7);
  }

  /** Entries read from the Run keys always toggle through the registry. */
  lemma RegistryEntriesToggleAsValues()
    ensures !IsFolderPath(HkcuRun) && !IsFolderPath(HklmRun)
  {
    assert HkcuRun[..4] == "HKCU" && HklmRun[..4] == "HKLM";
    ContainsAt(HkcuRun, "HKCU", 0);
    ContainsAt(HklmRun, "HKLM", 0);
  }

  /** A shortcut `<stem>.lnk` whose stem has no dot is listed under its stem. */
  lemma ShortcutShownName(stem: string)
    requires '.' !in stem
    ensures ShownName(stem + ".lnk") == stem
  {
    var lnk := ".lnk";
    assert stem + lnk == stem + lnk + "";
    IndexAfter(stem, lnk, "");
    assert Split(stem + lnk, lnk) == [stem] + Split("", lnk);
    assert Join([stem, ""], "") == stem;
    AbsentFirstChar(stem, ".url");
    ReplaceAbsent(stem, ".url", "");
  }

  /**
   * A shortcut `<stem>.lnk` is listed as `<stem>`, and toggling that name
   * renames `<folder>\<stem>`, not the shortcut: with only the shortcut
   * present, disabling the listed entry fails and leaves the folder as it was.
   */
  lemma ShortcutToggleMissesFile(stem: string, startupPath: string, reg: Outcome)
    requires '.' !in stem && IsFolderPath(startupPath)
    ensures var v := Fs.Volume({startupPath + "\\" + stem + ".lnk"}, {}, {});
      ToggleStartup(ShownName(stem + ".lnk"), startupPath, false, v, reg) == (Err(FolderToggleFailed), v, [])
  {
    ShortcutShownName(stem);
    var base := BasePath(startupPath, stem);
    assert base != startupPath + "\\" + stem + ".lnk" by {
      assert |base| + 4 == |startupPath + "\\" + stem + ".lnk"|;
    }
  }
}
