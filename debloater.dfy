/**
 * The debloater: the parse of the `Get-AppxPackage` listing, the
 * classification of each package against the bloatware patterns and the
 * protected list, the order of the listing, and the removal guard.
 * PowerShell is not run (its outcome is a parameter), and the size of an
 * install directory is a function from its path to bytes.
 */
module Debloater {
  import opened Wrappers
  import opened Text
  import opened Parsing
  import opened Shell
  import Sorting

  datatype AppCategory = Bloatware | Utility | System | Game | Media

  function CategoryName(c: AppCategory): string
  {
    match c
    case Bloatware => "bloatware"
    case Utility => "utility"
    case System => "system"
    case Game => "game"
    case Media => "media"
  }

  /** One row of the bloatware table: name pattern, display name, category. */
  datatype BloatPattern = BloatPattern(pattern: string, display: string, category: AppCategory)

  const BloatwarePatterns: seq<BloatPattern> := [
    BloatPattern("Microsoft.BingWeather", "Weather", Bloatware),
    BloatPattern("Microsoft.BingNews", "News", Bloatware),
    BloatPattern("Microsoft.BingFinance", "Finance", Bloatware),
    BloatPattern("Microsoft.BingSports", "Sports", Bloatware),
    BloatPattern("Microsoft.GetHelp", "Get Help", Bloatware),
    BloatPattern("Microsoft.Getstarted", "Tips", Bloatware),
    BloatPattern("Microsoft.MicrosoftOfficeHub", "Office Hub", Bloatware),
    BloatPattern("Microsoft.MicrosoftSolitaireCollection", "Solitaire", Game),
    BloatPattern("Microsoft.MixedReality.Portal", "Mixed Reality", Bloatware),
    BloatPattern("Microsoft.People", "People", Bloatware),
    BloatPattern("Microsoft.SkypeApp", "Skype", Bloatware),
    BloatPattern("Microsoft.Todos", "To Do", Utility),
    BloatPattern("Microsoft.WindowsAlarms", "Alarms", Utility),
    BloatPattern("Microsoft.WindowsFeedbackHub", "Feedback Hub", Bloatware),
    BloatPattern("Microsoft.WindowsMaps", "Maps", Bloatware),
    BloatPattern("Microsoft.YourPhone", "Your Phone", Bloatware),
    BloatPattern("Microsoft.ZuneMusic", "Groove Music", Media),
    BloatPattern("Microsoft.ZuneVideo", "Movies & TV", Media),
    BloatPattern("Microsoft.Xbox", "Xbox", Game),
    BloatPattern("Microsoft.XboxApp", "Xbox App", Game),
    BloatPattern("Microsoft.XboxGameOverlay", "Xbox Game Overlay", Game),
    BloatPattern("Microsoft.XboxGamingOverlay", "Xbox Game Bar", Game),
    BloatPattern("Microsoft.XboxIdentityProvider", "Xbox Identity", Game),
    BloatPattern("Microsoft.XboxSpeechToTextOverlay", "Xbox Speech", Game),
    BloatPattern("king.com", "Candy Crush", Game),
    BloatPattern("SpotifyAB", "Spotify (Preinstalled)", Media),
    BloatPattern("Disney", "Disney+", Media),
    BloatPattern("Facebook", "Facebook", Bloatware),
    BloatPattern("Instagram", "Instagram", Bloatware),
    BloatPattern("Twitter", "Twitter", Bloatware),
    BloatPattern("TikTok", "TikTok", Bloatware),
    BloatPattern("Clipchamp", "Clipchamp", Media),
    BloatPattern("Microsoft.549981C3F5F10", "Cortana", Bloatware),
    BloatPattern("Microsoft.WindowsCommunicationsApps", "Mail & Calendar", Utility),
    BloatPattern("Microsoft.PowerAutomateDesktop", "Power Automate", Bloatware),
    BloatPattern("MicrosoftTeams", "Teams (Consumer)", Bloatware)
  ]

  /** Packages that must never be removed, matched case-sensitively. */
  const ProtectedPackages: seq<string> := [
    "Microsoft.WindowsStore",
    "Microsoft.WindowsTerminal",
    "Microsoft.WindowsCalculator",
    "Microsoft.WindowsNotepad",
    "Microsoft.Paint",
    "Microsoft.ScreenSketch",
    "Microsoft.Windows.Photos",
    "Microsoft.DesktopAppInstaller",
    "Microsoft.UI",
    "Microsoft.NET",
    "Microsoft.VCLibs",
    "Microsoft.DirectX",
    "Microsoft.StorePurchaseApp",
    "Microsoft.WindowsAppRuntime",
    "Microsoft.WindowsAppSDK"
  ]

  /** The two tables the rules consult. */
  datatype Catalog = Catalog(bloat: seq<BloatPattern>, protected: seq<string>)

  const Tables := Catalog(BloatwarePatterns, ProtectedPackages)

  // ---------------------------------------------------------------------
  // Classification
  // ---------------------------------------------------------------------

  /** The first bloatware row whose pattern occurs, ignoring case, in the name. */
  function BloatMatch(name: string, bloat: seq<BloatPattern>): (r: Option<nat>)
    ensures r.Some? ==> r.value < |bloat| && ContainsIgnoreCase(name, bloat[r.value].pattern)
    ensures r.Some? ==> forall j :: 0 <= j < r.value ==> !ContainsIgnoreCase(name, bloat[j].pattern)
    ensures r.None? <==> forall j :: 0 <= j < |bloat| ==> !ContainsIgnoreCase(name, bloat[j].pattern)
  {
    if bloat == [] then None
    else if ContainsIgnoreCase(name, bloat[0].pattern) then Some(0)
    else
      var rest := BloatMatch(name, bloat[1..]);
      if rest.None? then
        assert forall j :: 1 <= j < |bloat| ==> bloat[j] == bloat[1..][j - 1];
        None
      else
        assert forall j :: 1 <= j < rest.value + 1 ==> bloat[j] == bloat[1..][j - 1];
        Some(rest.value + 1)
  }

  /** Some protected entry occurs, with its case, in the name. */
  function IsProtected(name: string, protected: seq<string>): (r: bool)
    ensures r <==> exists i :: 0 <= i < |protected| && Contains(name, protected[i])
  {
    if protected == [] then false
    else if Contains(name, protected[0]) then true
    else
      assert forall i :: 1 <= i < |protected| ==> protected[i] == protected[1..][i - 1];
      IsProtected(name, protected[1..])
  }

  /** `name.split('.').last()`: the text after the last dot. */
  function LastSegment(name: string): string
  {
    var pieces := Split(name, ".");
    pieces[|pieces| - 1]
  }

  /** The default display name is a suffix of the package name and holds no dot. */
  lemma LastSegmentSuffix(name: string)
    ensures EndsWith(name, LastSegment(name))
    ensures '.' !in LastSegment(name)
  {
    var pieces := Split(name, ".");
    JoinSplit(name, ".");
    JoinEndsWithLast(pieces, ".");
    SplitPiecesFree(name, ".");
    ContainsChar(pieces[|pieces| - 1], '.');
  }

  /** Display name, category, safe flag and description of a package. */
  datatype PackageVerdict = PackageVerdict(display: string, category: AppCategory, safe: bool, description: string)

  const ProtectedDescription := "System component \U{2014} do not remove"

  function BloatDescription(c: AppCategory): string
  {
    "Preinstalled " + CategoryName(c) + " \U{2014} safe to remove if unused"
  }

  /** The verdict after the bloatware loop: the first match, or the defaults. */
  function BloatVerdict(name: string, isSystem: bool, bloat: seq<BloatPattern>): PackageVerdict
  {
    match BloatMatch(name, bloat)
    case None => PackageVerdict(LastSegment(name), if isSystem then System else Utility, false, "")
    case Some(i) => PackageVerdict(bloat[i].display, bloat[i].category, true, BloatDescription(bloat[i].category))
  }

  /** The protected-list loop: a protected package becomes a system package that is not removable. */
  function Protect(v: PackageVerdict, isProtected: bool): PackageVerdict
  {
    if isProtected then v.(category := System, safe := false, description := ProtectedDescription) else v
  }

  /** The two classification loops together. */
  function VerdictOf(name: string, isSystem: bool, t: Catalog): PackageVerdict
  {
    Protect(BloatVerdict(name, isSystem, t.bloat), IsProtected(name, t.protected))
  }

  /**
   * The first bloatware match sets display name and category and makes the
   * package removable; a protected entry overrides category and removability
   * whatever matched; with no match the defaults stand.
   */
  lemma VerdictRules(name: string, isSystem: bool, t: Catalog)
    ensures var v := VerdictOf(name, isSystem, t);
      (v.safe <==> BloatMatch(name, t.bloat).Some? && !IsProtected(name, t.protected))
      && (IsProtected(name, t.protected) ==> v.category == System && v.description == ProtectedDescription)
      && (BloatMatch(name, t.bloat).Some? ==> v.display == t.bloat[BloatMatch(name, t.bloat).value].display)
      && (BloatMatch(name, t.bloat).None? ==> v.display == LastSegment(name))
      && (BloatMatch(name, t.bloat).Some? && !IsProtected(name, t.protected) ==>
            v.category == t.bloat[BloatMatch(name, t.bloat).value].category)
      && (BloatMatch(name, t.bloat).None? && !IsProtected(name, t.protected) ==>
            v.category == (if isSystem then System else Utility) && v.description == "")
  {
  }

  /** The bloatware loop of `list_appx_packages`. */
  method FirstBloatVerdict(name: string, isSystem: bool, bloat: seq<BloatPattern>) returns (v: PackageVerdict)
    ensures v == BloatVerdict(name, isSystem, bloat)
  {
    v := PackageVerdict(LastSegment(name), if isSystem then System else Utility, false, "");
    var lowered := ToLower(name);
    var i := 0;
    while i < |bloat|
      invariant 0 <= i <= |bloat|
      invariant forall j :: 0 <= j < i ==> !ContainsIgnoreCase(name, bloat[j].pattern)
      invariant v == PackageVerdict(LastSegment(name), if isSystem then System else Utility, false, "")
    {
      var p := bloat[i];
      if Contains(lowered, ToLower(p.pattern)) {
        v := PackageVerdict(p.display, p.category, true, BloatDescription(p.category));
        return;
      }
      i := i + 1;
    }
  }

  /** Both classification loops of `list_appx_packages`. */
  method ClassifyPackage(name: string, isSystem: bool, t: Catalog) returns (v: PackageVerdict)
    ensures v == VerdictOf(name, isSystem, t)
  {
    v := FirstBloatVerdict(name, isSystem, t.bloat);
    ghost var afterBloat := v;
    var k := 0;
    while k < |t.protected|
      invariant 0 <= k <= |t.protected|
      invariant forall j :: 0 <= j < k ==> !Contains(name, t.protected[j])
      invariant v == afterBloat
    {
      if Contains(name, t.protected[k]) {
        v := v.(category := System, safe := false, description := ProtectedDescription);
        return;
      }
      k := k + 1;
    }
  }

  // ---------------------------------------------------------------------
  // The listing
  // ---------------------------------------------------------------------

  /** One package; `size` is in bytes. */
  datatype AppxPackage = AppxPackage(
    name: string,
    displayName: string,
    publisher: string,
    version: string,
    size: nat,
    installLocation: string,
    isFramework: bool,
    isSystem: bool,
    category: AppCategory,
    safeToRemove: bool,
    description: string)

  /** `publisher.split(',').next().unwrap_or("Unknown").replace("CN=", "")`; the split always has a first piece. */
  function Publisher(p: string): string
  {
    Replace(Split(p, ",")[0], "CN=", "")
  }

  /** A distinguished name `CN=x, …` gives the publisher `x`. */
  lemma PublisherOfDistinguishedName(x: string, rest: string)
    requires ',' !in x && !Contains(x, "CN=")
    ensures Publisher("CN=" + x + "," + rest) == x
  {
    var s := "CN=" + x;
    assert ',' !in s;
    ContainsChar(s, ',');
    SplitAfterFree(s, ",", rest);
    assert Split(s + "," + rest, ",")[0] == s;
    assert s[..3] == "CN=";
    assert IndexOf(s, "CN=") == Some(0);
    assert s[3..] == x;
    SplitWithout(x, "CN=");
    assert Split(s, "CN=") == [""] + [x];
    assert Join(["", x], "") == x;
  }

  /** One line `name|publisher|version|location|framework|signature` of the listing. */
  function ParsePackage(line: string, dirSize: string -> nat, t: Catalog): (r: Option<AppxPackage>)
    ensures r.Some? ==> |Split(line, "|")| >= 6
    ensures r.Some? ==> r.value.name != [] && !r.value.isFramework
    ensures r.Some? ==> (r.value.safeToRemove ==> !IsProtected(r.value.name, t.protected))
    ensures r.Some? ==> Verdict(r.value) == VerdictOf(r.value.name, r.value.isSystem, t)
  {
    var parts := Split(line, "|");
    if |parts| < 6 then None
    else
      var name := Trim(parts[0]);
      var isFramework := Trim(parts[4]) == "True";
      var isSystem := Trim(parts[5]) == "System";
      if isFramework || name == [] then None
      else Some(PackageOf(name, parts, isSystem, dirSize, t))
  }

  /** The classification part of a package. */
  function Verdict(p: AppxPackage): PackageVerdict
  {
    PackageVerdict(p.displayName, p.category, p.safeToRemove, p.description)
  }

  /** The record built from a kept line's fields. */
  function PackageOf(name: string, parts: seq<string>, isSystem: bool, dirSize: string -> nat, t: Catalog): (p: AppxPackage)
    requires |parts| >= 6
    ensures p.name == name && p.isSystem == isSystem && !p.isFramework
    ensures p.safeToRemove ==> !IsProtected(name, t.protected)
    ensures Verdict(p) == VerdictOf(name, isSystem, t)
  {
    var installLoc := Trim(parts[3]);
    var v := VerdictOf(name, isSystem, t);
    VerdictRules(name, isSystem, t);
    var size := if installLoc != [] then dirSize(installLoc) else 0;
    AppxPackage(name, v.display, Publisher(Trim(parts[1])), Trim(parts[2]), size, installLoc,
                false, isSystem, v.category, v.safe, v.description)
  }

  /** The per-line step of the listing loop. */
  method ReadPackageLine(line: string, dirSize: string -> nat, t: Catalog) returns (r: Option<AppxPackage>)
    ensures r == ParsePackage(line, dirSize, t)
  {
    var parts := Split(line, "|");
    if |parts| < 6 {
      return None;
    }
    var name := Trim(parts[0]);
    var isFramework := Trim(parts[4]) == "True";
    var isSystem := Trim(parts[5]) == "System";
    if isFramework || name == [] {
      return None;
    }
    var p := BuildPackage(name, parts, isSystem, dirSize, t);
    r := Some(p);
  }

  method BuildPackage(name: string, parts: seq<string>, isSystem: bool, dirSize: string -> nat, t: Catalog)
    returns (p: AppxPackage)
    requires |parts| >= 6
    ensures p == PackageOf(name, parts, isSystem, dirSize, t)
  {
    var v := ClassifyPackage(name, isSystem, t);
    var installLoc := Trim(parts[3]);
    var size := if installLoc != [] then dirSize(installLoc) else 0;
    p := AppxPackage(name, v.display, Publisher(Trim(parts[1])), Trim(parts[2]), size, installLoc,
                     false, isSystem, v.category, v.safe, v.description);
  }

  /** Which lines of trimmed, `|`-free fields the parse keeps: six or more fields, not a framework, a name. */
  lemma PackageLineKept(fields: seq<string>, dirSize: string -> nat, t: Catalog)
    requires |fields| >= 1
    requires forall k :: 0 <= k < |fields| ==> '|' !in fields[k] && Trim(fields[k]) == fields[k]
    ensures ParsePackage(Join(fields, "|"), dirSize, t).Some? <==>
      |fields| >= 6 && fields[4] != "True" && fields[0] != []
    ensures ParsePackage(Join(fields, "|"), dirSize, t).Some? ==>
      var p := ParsePackage(Join(fields, "|"), dirSize, t).value;
      p.name == fields[0] && p.version == fields[2] && p.installLocation == fields[3]
      && p.isSystem == (fields[5] == "System")
      && p.size == (if fields[3] == [] then 0 else dirSize(fields[3]))
  {
    FieldsFree(fields, '|');
    SplitJoin(fields, "|");
  }

  function ParsedPackages(lines: seq<string>, dirSize: string -> nat, t: Catalog): seq<AppxPackage>
  {
    Collect(lines, l => ParsePackage(l, dirSize, t))
  }

  /** Removable packages first; then larger first. */
  function PackageRank(p: AppxPackage): Sorting.Rank
  {
    Sorting.Rank(if p.safeToRemove then 0 else 1, p.size)
  }

  /** What `list_appx_packages` returns for a given listing. */
  function ListedPackages(stdout: string, dirSize: string -> nat, t: Catalog): seq<AppxPackage>
  {
    Sorting.SortBy(ParsedPackages(Lines(stdout), dirSize, t), PackageRank)
  }

  /** `list_appx_packages` with the built-in tables. */
  method ListAppxPackages(o: Outcome, dirSize: string -> nat) returns (packages: seq<AppxPackage>)
    ensures packages == ListedPackages(Stdout(o), dirSize, Tables)
  {
    packages := ListAppxPackagesBy(o, dirSize, Tables);
  }

  method ListAppxPackagesBy(o: Outcome, dirSize: string -> nat, t: Catalog) returns (packages: seq<AppxPackage>)
    ensures packages == ListedPackages(Stdout(o), dirSize, t)
  {
    var lines := Lines(Stdout(o));
    var parsed: seq<AppxPackage> := [];
    for i := 0 to |lines|
      invariant parsed == ParsedPackages(lines[..i], dirSize, t)
    {
      CollectStep(lines, i, l => ParsePackage(l, dirSize, t));
      var r := ReadPackageLine(lines[i], dirSize, t);
      if r.Some? {
        parsed := parsed + [r.value];
      }
    }
    assert lines[..|lines|] == lines;
    packages := Sorting.SortBy(parsed, PackageRank);
  }

  /**
   * The listing holds exactly the parsed packages, the removable ones
   * first, larger before smaller within each part, and no removable
   * package is protected.
   */
  lemma ListedPackagesOrder(stdout: string, dirSize: string -> nat, t: Catalog)
    ensures multiset(ListedPackages(stdout, dirSize, t)) == multiset(ParsedPackages(Lines(stdout), dirSize, t))
    ensures var r := ListedPackages(stdout, dirSize, t);
      forall i, j :: 0 <= i < j < |r| && r[j].safeToRemove ==> r[i].safeToRemove
    ensures var r := ListedPackages(stdout, dirSize, t);
      forall i, j :: 0 <= i < j < |r| && r[i].safeToRemove == r[j].safeToRemove ==> r[i].size >= r[j].size
    ensures var r := ListedPackages(stdout, dirSize, t);
      forall i :: 0 <= i < |r| && r[i].safeToRemove ==> !IsProtected(r[i].name, t.protected)
  {
    var r := ListedPackages(stdout, dirSize, t);
    var parsed := ParsedPackages(Lines(stdout), dirSize, t);
    forall i, j | 0 <= i < j < |r|
      ensures r[j].safeToRemove ==> r[i].safeToRemove
      ensures r[i].safeToRemove == r[j].safeToRemove ==> r[i].size >= r[j].size
    {
      assert Sorting.Precedes(PackageRank(r[i]), PackageRank(r[j]));
    }
    CollectKeeps(Lines(stdout), l => ParsePackage(l, dirSize, t), (p: AppxPackage) => p.safeToRemove ==> !IsProtected(p.name, t.protected));
    forall i | 0 <= i < |r| && r[i].safeToRemove
      ensures !IsProtected(r[i].name, t.protected)
    {
      assert r[i] in multiset(parsed);
    }
  }

  // ---------------------------------------------------------------------
  // Removal
  // ---------------------------------------------------------------------

  const ProtectedRefusal := " is a protected system component"

  function RemoveCommand(name: string): Invocation
  {
    Invocation("powershell", ["-Command", "Get-AppxPackage '" + name + "' | Remove-AppxPackage -ErrorAction Stop"])
  }

  /** `remove_appx_package`: the result and the commands run. */
  function RemoveAppxPackage(name: string, o: Outcome, t: Catalog): (r: (Result<string, string>, seq<Invocation>))
    ensures r.1 == [] <==> IsProtected(name, t.protected)
    ensures IsProtected(name, t.protected) ==> r.0 == Err(name + ProtectedRefusal)
    ensures !IsProtected(name, t.protected) ==>
      && r.1 == [RemoveCommand(name)]
      && (r.0.Ok? <==> o.Exited? && o.success)
      && (r.0.Ok? ==> r.0.value == "Removed " + name)
      && (o.Exited? && !o.success ==> r.0 == Err(Trim(o.stderr)))
      && (o.SpawnFailed? ==> r.0 == Err(o.error))
  {
    if IsProtected(name, t.protected) then (Err(name + ProtectedRefusal), [])
    else
      var res :=
        match o
        case Exited(success, _, stderr) => if success then Ok("Removed " + name) else Err(Trim(stderr))
        case SpawnFailed(error) => Err(error);
      (res, [RemoveCommand(name)])
  }

  /** One entry of the bulk removal report: display name, removed, message. */
  datatype Removal = Removal(displayName: string, removed: bool, message: string)

  /** The removable packages, in listing order. */
  function Removable(ps: seq<AppxPackage>): seq<AppxPackage>
  {
    if ps == [] then []
    else
      var last := ps[|ps| - 1];
      Removable(ps[..|ps| - 1]) + (if last.safeToRemove then [last] else [])
  }

  /** Exactly the removable packages of the listing are kept. */
  lemma {:induction false} RemovableExactly(ps: seq<AppxPackage>)
    ensures forall i :: 0 <= i < |Removable(ps)| ==> Removable(ps)[i].safeToRemove && Removable(ps)[i] in ps
    ensures forall p :: p in ps && p.safeToRemove ==> p in Removable(ps)
  {
    if ps != [] {
      var init := ps[..|ps| - 1];
      RemovableExactly(init);
      assert forall p :: p in ps ==> p in init || p == ps[|ps| - 1];
    }
  }

  /** The report entry for one package, given the outcome of its removal command. */
  function RemovalOf(p: AppxPackage, run: string -> Outcome, t: Catalog): Removal
  {
    var res := RemoveAppxPackage(p.name, run(p.name), t).0;
    if res.Ok? then Removal(p.displayName, true, res.value) else Removal(p.displayName, false, res.error)
  }

  function Removals(ps: seq<AppxPackage>, run: string -> Outcome, t: Catalog): (r: seq<Removal>)
    ensures |r| == |ps|
    ensures forall i :: 0 <= i < |ps| ==> r[i] == RemovalOf(ps[i], run, t)
  {
    if ps == [] then [] else Removals(ps[..|ps| - 1], run, t) + [RemovalOf(ps[|ps| - 1], run, t)]
  }

  /** `remove_all_bloatware`; `run` gives the outcome of the removal command of each package name. */
  method RemoveAllBloatware(o: Outcome, dirSize: string -> nat, run: string -> Outcome) returns (results: seq<Removal>)
    ensures results == Removals(Removable(ListedPackages(Stdout(o), dirSize, Tables)), run, Tables)
  {
    results := RemoveAllBloatwareBy(o, dirSize, run, Tables);
  }

  method RemoveAllBloatwareBy(o: Outcome, dirSize: string -> nat, run: string -> Outcome, t: Catalog) returns (results: seq<Removal>)
    ensures results == Removals(Removable(ListedPackages(Stdout(o), dirSize, t)), run, t)
  {
    var packages := ListAppxPackagesBy(o, dirSize, t);
    results := RemoveEach(packages, run, t);
  }

  /** The loop of `remove_all_bloatware` over a listing. */
  method RemoveEach(packages: seq<AppxPackage>, run: string -> Outcome, t: Catalog) returns (results: seq<Removal>)
    ensures results == Removals(Removable(packages), run, t)
  {
    results := [];
    for i := 0 to |packages|
      invariant results == Removals(Removable(packages[..i]), run, t)
    {
      RemovalsStep(packages, i, run, t);
      var p := packages[i];
      if p.safeToRemove {
        var entry := RemoveOne(p, run, t);
        results := results + [entry];
      }
    }
    assert packages[..|packages|] == packages;
  }

  /** The body of the bulk removal loop for one removable package. */
  method RemoveOne(p: AppxPackage, run: string -> Outcome, t: Catalog) returns (entry: Removal)
    ensures entry == RemovalOf(p, run, t)
  {
    var (res, _) := RemoveAppxPackage(p.name, run(p.name), t);
    match res
    case Ok(msg) => entry := Removal(p.displayName, true, msg);
    case Err(msg) => entry := Removal(p.displayName, false, msg);
  }

  lemma RemovalsStep(ps: seq<AppxPackage>, i: nat, run: string -> Outcome, t: Catalog)
    requires i < |ps|
    ensures Removals(Removable(ps[..i + 1]), run, t)
      == Removals(Removable(ps[..i]), run, t) + (if ps[i].safeToRemove then [RemovalOf(ps[i], run, t)] else [])
  {
    assert ps[..i + 1][..i] == ps[..i];
  }

  /**
   * The bulk removal reports one entry per removable package, in listing
   * order, and the protection guard never refuses one of them: each entry
   * says removed exactly when its command succeeded.
   */
  lemma BulkRemovalRunsEveryCommand(stdout: string, dirSize: string -> nat, run: string -> Outcome, t: Catalog)
    ensures var ps := Removable(ListedPackages(stdout, dirSize, t));
      var r := Removals(ps, run, t);
      |r| == |ps| && forall i :: 0 <= i < |ps| ==>
        r[i].displayName == ps[i].displayName
        && RemoveAppxPackage(ps[i].name, run(ps[i].name), t).1 == [RemoveCommand(ps[i].name)]
        && (r[i].removed <==> run(ps[i].name).Exited? && run(ps[i].name).success)
  {
    ListedPackagesOrder(stdout, dirSize, t);
    var listed := ListedPackages(stdout, dirSize, t);
    var ps := Removable(listed);
    RemovableExactly(listed);
    forall i | 0 <= i < |ps|
      ensures !IsProtected(ps[i].name, t.protected)
    {
      var k :| 0 <= k < |listed| && listed[k] == ps[i];
    }
  }
}
