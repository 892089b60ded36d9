/**
 * The registry cleaner: five PowerShell scans whose output lines become
 * registry issues, the tally of issues by type, the cut of the list to 200
 * entries, and the whitelist and path rewrite of `fix_registry_issue`.  The
 * PowerShell commands are not run: the outcome of each is a parameter.
 */
module Registry {
  import opened Wrappers
  import opened Text
  import opened Parsing
  import opened Shell
  import Maps
  import Sorting

  datatype RegistryIssue = RegistryIssue(
    keyPath: string,
    valueName: string,
    issueType: string,
    description: string,
    severity: string,
    safeToFix: bool)

  const OrphanedSoftware := "orphaned_software"
  const BrokenShortcut := "broken_shortcut"
  const InvalidPath := "invalid_path"

  /** The issue types `fix_registry_issue` accepts. */
  predicate Fixable(issueType: string)
  {
    issueType == OrphanedSoftware || issueType == BrokenShortcut || issueType == InvalidPath
  }

  const ClassesKey := "HKLM\\SOFTWARE\\Classes\\"
  const SharedDllsKey := "HKLM\\SOFTWARE\\Microsoft\\Windows\\CurrentVersion\\SharedDLLs"
  const AppPathsKey := "HKLM\\SOFTWARE\\Microsoft\\Windows\\CurrentVersion\\App Paths"
  const MuiCacheKey := "HKCU\\SOFTWARE\\Classes\\Local Settings\\MuiCache"

  // ---------------------------------------------------------------------
  // The five scanners, one line at a time
  // ---------------------------------------------------------------------

  /** `PSPath|DisplayName|InstallLocation` of an uninstall entry whose folder is gone. */
  function ParseOrphaned(line: string): (r: Option<RegistryIssue>)
    ensures r.Some? <==> |Split(line, "|")| >= 3
    ensures r.Some? ==>
      var parts := Split(line, "|");
      r.value.keyPath == Trim(parts[0]) && r.value.valueName == Trim(parts[1])
      && r.value.issueType == OrphanedSoftware && r.value.severity == "medium"
  {
    var parts := Split(line, "|");
    if |parts| >= 3 then
      Some(RegistryIssue(Trim(parts[0]), Trim(parts[1]), OrphanedSoftware,
                         "'" + Trim(parts[1]) + "' install path no longer exists: " + Trim(parts[2]), "medium", true))
    else None
  }

  /** `extension|handler` of a file type whose handler class is missing. */
  function ParseAssociation(line: string): (r: Option<RegistryIssue>)
    ensures r.Some? <==> |Split(line, "|")| >= 2
    ensures r.Some? ==>
      var parts := Split(line, "|");
      r.value.keyPath == ClassesKey + Trim(parts[0]) && r.value.valueName == Trim(parts[0])
      && r.value.issueType == BrokenShortcut && r.value.severity == "low"
  {
    var parts := Split(line, "|");
    if |parts| >= 2 then
      Some(RegistryIssue(ClassesKey + Trim(parts[0]), Trim(parts[0]), BrokenShortcut,
                         Trim(parts[0]) + " file type points to missing handler: " + Trim(parts[1]), "low", true))
    else None
  }

  /** A SharedDLLs value naming a missing file. */
  function ParseSharedDll(line: string): (r: Option<RegistryIssue>)
    ensures r.Some? <==> Trim(line) != []
    ensures r.Some? ==>
      r.value.keyPath == SharedDllsKey && r.value.valueName == Trim(line)
      && r.value.issueType == InvalidPath && r.value.severity == "low"
  {
    var path := Trim(line);
    if path != [] then
      Some(RegistryIssue(SharedDllsKey, path, InvalidPath, "SharedDLL entry points to missing file: " + path, "low", true))
    else None
  }

  /** `name|path` of an App Paths entry pointing at a missing program. */
  function ParseAppPath(line: string): (r: Option<RegistryIssue>)
    ensures r.Some? <==> |Split(line, "|")| >= 2
    ensures r.Some? ==>
      var parts := Split(line, "|");
      r.value.keyPath == AppPathsKey && r.value.valueName == Trim(parts[0])
      && r.value.issueType == OrphanedSoftware && r.value.severity == "medium"
  {
    var parts := Split(line, "|");
    if |parts| >= 2 then
      Some(RegistryIssue(AppPathsKey, Trim(parts[0]), OrphanedSoftware,
                         "App path for '" + Trim(parts[0]) + "' points to missing: " + Trim(parts[1]), "medium", true))
    else None
  }

  /** The last `\`-separated piece of a path (`split('\\').last()`). */
  function LastComponent(s: string): (r: string)
    ensures EndsWith(s, r) && '\\' !in r
  {
    var pieces := Split(s, "\\");
    JoinEndsWithLast(pieces, "\\");
    JoinSplit(s, "\\");
    SplitPiecesFree(s, "\\");
    ContainsChar(pieces[|pieces| - 1], '\\');
    pieces[|pieces| - 1]
  }

  /** A MUI cache value of an application that is gone. */
  function ParseMui(line: string): (r: Option<RegistryIssue>)
    ensures r.Some? <==> Trim(line) != []
    ensures r.Some? ==>
      r.value.keyPath == MuiCacheKey && r.value.valueName == Trim(line)
      && r.value.issueType == OrphanedSoftware && r.value.severity == "low"
  {
    var entry := Trim(line);
    if entry != [] then
      Some(RegistryIssue(MuiCacheKey, entry, OrphanedSoftware,
                         "MUI cache entry for removed application: " + LastComponent(entry), "low", true))
    else None
  }

  /** Every issue a scanner reports can be fixed and is marked safe to fix. */
  predicate Reportable(i: RegistryIssue)
  {
    Fixable(i.issueType) && i.safeToFix
  }

  // ---------------------------------------------------------------------
  // The scan
  // ---------------------------------------------------------------------

  /** The outcomes of the five PowerShell scans, in the order they run. */
  datatype Outputs = Outputs(uninstall: Outcome, associations: Outcome, sharedDlls: Outcome, appPaths: Outcome, muiCache: Outcome)

  /** All issues, in scan order. */
  function AllIssues(out: Outputs): seq<RegistryIssue>
  {
    Collect(Lines(Stdout(out.uninstall)), ParseOrphaned)
    + Collect(Lines(Stdout(out.associations)), ParseAssociation)
    + Collect(Lines(Stdout(out.sharedDlls)), ParseSharedDll)
    + Collect(Lines(Stdout(out.appPaths)), ParseAppPath)
    + Collect(Lines(Stdout(out.muiCache)), ParseMui)
  }

  /** One `scan_*` function: the issues of one command's lines, appended in order. */
  method ScanInto(issues: seq<RegistryIssue>, o: Outcome, parse: string -> Option<RegistryIssue>)
    returns (result: seq<RegistryIssue>)
    ensures result == issues + Collect(Lines(Stdout(o)), parse)
  {
    var lines := Lines(Stdout(o));
    var found: seq<RegistryIssue> := [];
    for i := 0 to |lines|
      invariant found == Collect(lines[..i], parse)
    {
      CollectStep(lines, i, parse);
      var r := parse(lines[i]);
      if r.Some? {
        found := found + [r.value];
      }
    }
    assert lines[..|lines|] == lines;
    result := issues + found;
  }

  const MaxIssues: nat := 200

  datatype ScanResult = ScanResult(issues: seq<RegistryIssue>, totalIssues: nat, byType: seq<(string, nat)>)

  /**
   * `scan_registry`: the first 200 issues, the number of all of them, and
   * for each issue type that occurs its number of issues, each type once
   * (in the map's order, which the model leaves open).
   */
  method ScanRegistry(out: Outputs) returns (r: ScanResult)
    ensures r.totalIssues == |AllIssues(out)|
    ensures r.issues == Sorting.Take(AllIssues(out), MaxIssues)
    ensures |r.issues| <= MaxIssues
    ensures TypesDistinct(r.byType)
    ensures forall k :: 0 <= k < |r.byType| ==> r.byType[k].1 == CountType(AllIssues(out), r.byType[k].0) > 0
    ensures forall i :: 0 <= i < |AllIssues(out)| ==> exists k :: 0 <= k < |r.byType| && r.byType[k].0 == AllIssues(out)[i].issueType
    ensures Total(r.byType) == r.totalIssues
  {
    var issues := CollectIssues(out);
    var byType := TallyByType(issues);
    r := ScanResult(Sorting.Take(issues, MaxIssues), |issues|, byType);
  }

  /** The five scans in order. */
  method CollectIssues(out: Outputs) returns (issues: seq<RegistryIssue>)
    ensures issues == AllIssues(out)
  {
    ghost var a := Collect(Lines(Stdout(out.uninstall)), ParseOrphaned);
    ghost var b := Collect(Lines(Stdout(out.associations)), ParseAssociation);
    ghost var c := Collect(Lines(Stdout(out.sharedDlls)), ParseSharedDll);
    ghost var d := Collect(Lines(Stdout(out.appPaths)), ParseAppPath);
    ghost var e := Collect(Lines(Stdout(out.muiCache)), ParseMui);
    issues := ScanInto([], out.uninstall, ParseOrphaned);
    assert issues == a;
    issues := ScanInto(issues, out.associations, ParseAssociation);
    assert issues == a + b;
    issues := ScanInto(issues, out.sharedDlls, ParseSharedDll);
    assert issues == a + b + c;
    issues := ScanInto(issues, out.appPaths, ParseAppPath);
    assert issues == a + b + c + d;
    issues := ScanInto(issues, out.muiCache, ParseMui);
    assert issues == a + b + c + d + e;
  }

  /** Every reported issue is of a type `fix_registry_issue` accepts. */
  lemma ScannedIssuesFixable(out: Outputs)
    ensures forall i :: 0 <= i < |AllIssues(out)| ==> Reportable(AllIssues(out)[i])
  {
    var a := Collect(Lines(Stdout(out.uninstall)), ParseOrphaned);
    var b := Collect(Lines(Stdout(out.associations)), ParseAssociation);
    var c := Collect(Lines(Stdout(out.sharedDlls)), ParseSharedDll);
    var d := Collect(Lines(Stdout(out.appPaths)), ParseAppPath);
    var e := Collect(Lines(Stdout(out.muiCache)), ParseMui);
    CollectKeeps(Lines(Stdout(out.uninstall)), ParseOrphaned, Reportable);
    CollectKeeps(Lines(Stdout(out.associations)), ParseAssociation, Reportable);
    CollectKeeps(Lines(Stdout(out.sharedDlls)), ParseSharedDll, Reportable);
    CollectKeeps(Lines(Stdout(out.appPaths)), ParseAppPath, Reportable);
    CollectKeeps(Lines(Stdout(out.muiCache)), ParseMui, Reportable);
    AllReportable(a, b);
    AllReportable(a + b, c);
    AllReportable(a + b + c, d);
    AllReportable(a + b + c + d, e);
  }

  lemma AllReportable(x: seq<RegistryIssue>, y: seq<RegistryIssue>)
    requires forall i :: 0 <= i < |x| ==> Reportable(x[i])
    requires forall i :: 0 <= i < |y| ==> Reportable(y[i])
    ensures forall i :: 0 <= i < |x + y| ==> Reportable((x + y)[i])
  {
    forall i | 0 <= i < |x + y|
      ensures Reportable((x + y)[i])
    {
      if i < |x| {
        assert (x + y)[i] == x[i];
      } else {
        assert (x + y)[i] == y[i - |x|];
      }
    }
  }

  // ---------------------------------------------------------------------
  // The tally by type
  // ---------------------------------------------------------------------

  /** The number of issues of type `t`. */
  function CountType(s: seq<RegistryIssue>, t: string): nat
  {
    if s == [] then 0 else CountType(s[..|s| - 1], t) + (if s[|s| - 1].issueType == t then 1 else 0)
  }

  /** `type_counts` after the tally loop has seen the issues `s`. */
  function TypeCounts(s: seq<RegistryIssue>): (m: map<string, nat>)
    ensures forall t :: t in m <==> CountType(s, t) > 0
    ensures forall t :: t in m ==> m[t] == CountType(s, t)
  {
    if s == [] then map[]
    else
      var m := TypeCounts(s[..|s| - 1]);
      var t := s[|s| - 1].issueType;
      m[t := (if t in m then m[t] else 0) + 1]
  }

  predicate TypesDistinct(pairs: seq<(string, nat)>)
  {
    forall i, j :: 0 <= i < j < |pairs| ==> pairs[i].0 != pairs[j].0
  }

  function Total(pairs: seq<(string, nat)>): nat
  {
    if pairs == [] then 0 else Total(pairs[..|pairs| - 1]) + pairs[|pairs| - 1].1
  }

  /** The tally loop and the `collect` of the map into pairs. */
  method TallyByType(issues: seq<RegistryIssue>) returns (byType: seq<(string, nat)>)
    ensures TypesDistinct(byType)
    ensures forall k :: 0 <= k < |byType| ==> byType[k].1 == CountType(issues, byType[k].0) > 0
    ensures forall i :: 0 <= i < |issues| ==> exists k :: 0 <= k < |byType| && byType[k].0 == issues[i].issueType
    ensures Total(byType) == |issues|
  {
    var counts: map<string, nat> := map[];
    for i := 0 to |issues|
      invariant counts == TypeCounts(issues[..i])
    {
      assert issues[..i + 1][..i] == issues[..i];
      var t := issues[i].issueType;
      counts := counts[t := (if t in counts then counts[t] else 0) + 1];
    }
    assert issues[..|issues|] == issues;
    var keys := Maps.KeysInSomeOrder(counts);
    byType := [];
    for k := 0 to |keys|
      invariant |byType| == k
      invariant forall j :: 0 <= j < k ==> byType[j] == (keys[j], counts[keys[j]])
    {
      byType := byType + [(keys[k], counts[keys[k]])];
    }
    forall i | 0 <= i < |issues|
      ensures exists k :: 0 <= k < |byType| && byType[k].0 == issues[i].issueType
    {
      TypeOccurs(issues, i);
      var k :| 0 <= k < |keys| && keys[k] == issues[i].issueType;
      assert byType[k].0 == issues[i].issueType;
    }
    TallyTotal(issues, byType);
  }

  lemma {:induction false} TypeOccurs(s: seq<RegistryIssue>, i: nat)
    requires i < |s|
    ensures CountType(s, s[i].issueType) > 0
  {
    if i < |s| - 1 {
      assert s[..|s| - 1][i] == s[i];
      TypeOccurs(s[..|s| - 1], i);
    }
  }

  /** The counts of the distinct types sum to the number of issues. */
  lemma TallyTotal(s: seq<RegistryIssue>, pairs: seq<(string, nat)>)
    requires TypesDistinct(pairs)
    requires forall k :: 0 <= k < |pairs| ==> pairs[k].1 == CountType(s, pairs[k].0)
    requires forall i :: 0 <= i < |s| ==> exists k :: 0 <= k < |pairs| && pairs[k].0 == s[i].issueType
    ensures Total(pairs) == |s|
  {
    var keys := seq(|pairs|, k requires 0 <= k < |pairs| => pairs[k].0);
    TotalIsSum(pairs, s, keys);
    SumCountsIsLength(s, keys);
  }

  /** Sum of `CountType(s, k)` over the keys. */
  function SumCounts(keys: seq<string>, s: seq<RegistryIssue>): nat
  {
    if keys == [] then 0 else SumCounts(keys[..|keys| - 1], s) + CountType(s, keys[|keys| - 1])
  }

  lemma {:induction false} TotalIsSum(pairs: seq<(string, nat)>, s: seq<RegistryIssue>, keys: seq<string>)
    requires |keys| == |pairs|
    requires forall k :: 0 <= k < |pairs| ==> keys[k] == pairs[k].0 && pairs[k].1 == CountType(s, pairs[k].0)
    ensures Total(pairs) == SumCounts(keys, s)
  {
    if pairs != [] {
      TotalIsSum(pairs[..|pairs| - 1], s, keys[..|keys| - 1]);
    }
  }

  /** How many of the keys equal `t`: one, when the keys are distinct and hold `t`. */
  function Hits(keys: seq<string>, t: string): nat
  {
    if keys == [] then 0 else Hits(keys[..|keys| - 1], t) + (if keys[|keys| - 1] == t then 1 else 0)
  }

  lemma {:induction false} HitsOnce(keys: seq<string>, t: string)
    requires Maps.Distinct(keys)
    ensures Hits(keys, t) == (if t in keys then 1 else 0)
  {
    if keys != [] {
      var init := keys[..|keys| - 1];
      HitsOnce(init, t);
      assert keys == init + [keys[|keys| - 1]];
      if keys[|keys| - 1] == t {
        assert t !in init;
      }
    }
  }

  lemma {:induction false} SumCountsSnoc(keys: seq<string>, s: seq<RegistryIssue>, x: RegistryIssue)
    ensures SumCounts(keys, s + [x]) == SumCounts(keys, s) + Hits(keys, x.issueType)
  {
    assert (s + [x])[..|s + [x]| - 1] == s;
    if keys != [] {
      SumCountsSnoc(keys[..|keys| - 1], s, x);
    }
  }

  lemma {:induction false} SumCountsIsLength(s: seq<RegistryIssue>, keys: seq<string>)
    requires Maps.Distinct(keys)
    requires forall i :: 0 <= i < |s| ==> s[i].issueType in keys
    ensures SumCounts(keys, s) == |s|
  {
    if s == [] {
      SumCountsEmpty(keys);
    } else {
      var init := s[..|s| - 1];
      var x := s[|s| - 1];
      assert forall i :: 0 <= i < |init| ==> init[i] == s[i];
      SumCountsIsLength(init, keys);
      assert s == init + [x];
      SumCountsSnoc(keys, init, x);
      HitsOnce(keys, x.issueType);
    }
  }

  lemma {:induction false} SumCountsEmpty(keys: seq<string>)
    ensures SumCounts(keys, []) == 0
  {
    if keys != [] {
      SumCountsEmpty(keys[..|keys| - 1]);
    }
  }

  // ---------------------------------------------------------------------
  // Fixing
  // ---------------------------------------------------------------------

  const NotAutoFixable := "This issue type cannot be auto-fixed"

  /** The PowerShell form of a registry path: `HKLM\` and `HKCU\` become drive names. */
  function PsPath(keyPath: string): string
  {
    Replace(Replace(keyPath, "HKLM\\", "HKLM:\\"), "HKCU\\", "HKCU:\\")
  }

  function RemoveValueCommand(keyPath: string, valueName: string): Invocation
  {
    Invocation("powershell", ["-Command", "Remove-ItemProperty -Path '" + PsPath(keyPath) + "' -Name '" + valueName + "' -ErrorAction Stop"])
  }

  /**
   * `fix_registry_issue`: the result and the commands run.  Unknown types
   * are refused, SharedDLLs values are removed by PowerShell, and every
   * other issue is only marked.
   */
  function FixRegistryIssue(keyPath: string, valueName: string, issueType: string, o: Outcome)
    : (r: (Result<string, string>, seq<Invocation>))
    ensures !Fixable(issueType) ==> r == (Err(NotAutoFixable), [])
    ensures Fixable(issueType) && !Contains(keyPath, "SharedDLLs") ==>
      r == (Ok("Marked for cleanup: " + keyPath + " - " + valueName), [])
    ensures Fixable(issueType) && Contains(keyPath, "SharedDLLs") ==>
      && r.1 == [RemoveValueCommand(keyPath, valueName)]
      && (r.0.Ok? <==> o.Exited? && o.success)
      && (r.0.Ok? ==> r.0.value == "Fixed: removed " + valueName)
  {
    if !Fixable(issueType) then (Err(NotAutoFixable), [])
    else if Contains(keyPath, "SharedDLLs") then
      (CommandResult(o, "Fixed: removed " + valueName), [RemoveValueCommand(keyPath, valueName)])
    else
      (Ok("Marked for cleanup: " + keyPath + " - " + valueName), [])
  }

  /** A path that names no hive is passed on unchanged. */
  lemma PsPathWithoutHive(keyPath: string)
    requires !Contains(keyPath, "HKLM\\") && !Contains(keyPath, "HKCU\\")
    ensures PsPath(keyPath) == keyPath
  {
    ReplaceAbsent(keyPath, "HKLM\\", "HKLM:\\");
    ReplaceAbsent(keyPath, "HKCU\\", "HKCU:\\");
  }

  /** A key under `HKLM\` is passed on as the `HKLM:` drive path, the rest unchanged. */
  lemma PsPathOfMachineKey(rest: string)
    requires !Contains(rest, "HKLM\\") && !Contains(rest, "HKCU\\")
    ensures PsPath("HKLM\\" + rest) == "HKLM:\\" + rest
  {
    var hklm := "HKLM\\";
    var s := hklm + rest;
    assert s == [] + hklm + rest;
    IndexAfter([], hklm, rest);
    SplitWithout(rest, hklm);
    assert Split(s, hklm) == [[]] + Split(rest, hklm);
    assert Join([[], rest], "HKLM:\\") == "HKLM:\\" + rest;
    DriveNotUser(rest);
    ReplaceAbsent("HKLM:\\" + rest, "HKCU\\", "HKCU:\\");
  }

  /** `HKCU\` cannot start inside the `HKLM:\` prefix. */
  lemma DriveNotUser(rest: string)
    requires !Contains(rest, "HKCU\\")
    ensures !Contains("HKLM:\\" + rest, "HKCU\\")
  {
    var a := "HKLM:\\";
    var p := "HKCU\\";
    var s := a + rest;
    forall j: nat | j + |p| <= |s|
      ensures !OccursAt(s, p, j)
    {
      if j == 0 {
        assert s[j..j + |p|][2] == s[2] == 'L' != p[2];
      } else if j < |a| {
        assert s[j..j + |p|][0] == s[j] == a[j] != p[0];
      } else {
        var i := j - |a|;
        assert s[j..j + |p|] == rest[i..i + |p|];
        assert !OccursAt(rest, p, i);
      }
    }
  }
}
