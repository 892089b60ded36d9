/**
 * The services manager: the classification table, the parse of the
 * `Get-Service` listing into service records, their order, and the guards
 * of `stop_service` and `set_service_startup`.  The PowerShell and `sc`
 * commands are not run: their outcome is a parameter, and the per-process
 * memory figures sysinfo supplies are a map from process id to bytes.
 */
module Services {
  import opened Wrappers
  import opened Text
  import opened Parsing
  import opened Shell
  import Sorting

  datatype Category = Essential | Optional | Telemetry | Gaming | Media | Unknown

  /** The category as the records spell it. */
  function CategoryName(c: Category): string
  {
    match c
    case Essential => "essential"
    case Optional => "optional"
    case Telemetry => "telemetry"
    case Gaming => "gaming"
    case Media => "media"
    case Unknown => "unknown"
  }

  /** One row of the classification table: name pattern, category, display name, safe to disable, recommendation. */
  datatype ServiceClass = ServiceClass(pattern: string, category: Category, display: string, safe: bool, recommendation: string)

  const ServiceTable: seq<ServiceClass> := [
    ServiceClass("DiagTrack", Telemetry, "Connected User Experiences and Telemetry", true, "Sends usage data to Microsoft"),
    ServiceClass("dmwappushservice", Telemetry, "WAP Push Message Routing", true, "Telemetry routing service"),
    ServiceClass("diagnosticshub", Telemetry, "Diagnostics Hub", true, "Data collection for diagnostics"),
    ServiceClass("XblAuth", Gaming, "Xbox Live Auth Manager", true, "Only needed for Xbox Live features"),
    ServiceClass("XblGameSave", Gaming, "Xbox Live Game Save", true, "Cloud saves for Xbox games"),
    ServiceClass("XboxNetApiSvc", Gaming, "Xbox Live Networking", true, "Xbox online networking"),
    ServiceClass("XboxGipSvc", Gaming, "Xbox Accessory Management", true, "Xbox controller service"),
    ServiceClass("WSearch", Optional, "Windows Search", true, "Disk-intensive indexing service"),
    ServiceClass("SysMain", Optional, "SysMain (Superfetch)", true, "Memory prefetching \U{2014} minimal benefit on SSDs"),
    ServiceClass("Spooler", Optional, "Print Spooler", true, "Only needed if you use printers"),
    ServiceClass("RemoteRegistry", Optional, "Remote Registry", true, "Security risk if enabled"),
    ServiceClass("RemoteAccess", Optional, "Routing and Remote Access", true, "VPN/routing service"),
    ServiceClass("TermService", Optional, "Remote Desktop Services", true, "Only needed for remote desktop"),
    ServiceClass("WMPNetworkSvc", Media, "Windows Media Player Network", true, "WMP streaming service"),
    ServiceClass("Fax", Optional, "Fax", true, "Legacy fax support"),
    ServiceClass("Winmgmt", Essential, "WMI", false, "Critical system service"),
    ServiceClass("RpcSs", Essential, "RPC", false, "Critical system service"),
    ServiceClass("DcomLaunch", Essential, "DCOM Launch", false, "Critical system service"),
    ServiceClass("LSM", Essential, "Local Session Manager", false, "Critical system service"),
    ServiceClass("EventLog", Essential, "Windows Event Log", false, "System logging"),
    ServiceClass("Dhcp", Essential, "DHCP Client", false, "Network configuration"),
    ServiceClass("Dnscache", Essential, "DNS Client", false, "DNS resolution"),
    ServiceClass("BFE", Essential, "Base Filtering Engine", false, "Firewall foundation"),
    ServiceClass("mpssvc", Essential, "Windows Defender Firewall", false, "System firewall"),
    ServiceClass("WinDefend", Essential, "Windows Defender", false, "Antivirus protection"),
    ServiceClass("Schedule", Essential, "Task Scheduler", false, "System task management"),
    ServiceClass("Themes", Essential, "Themes", false, "Desktop appearance"),
    ServiceClass("AudioSrv", Essential, "Windows Audio", false, "Sound system"),
    ServiceClass("AudioEndpointBuilder", Essential, "Audio Endpoint Builder", false, "Audio device management"),
    ServiceClass("wuauserv", Essential, "Windows Update", false, "System updates"),
    ServiceClass("BITS", Essential, "Background Intelligent Transfer", false, "Download management"),
    ServiceClass("CryptSvc", Essential, "Cryptographic Services", false, "Security certificates")
  ]

  /** In the table, exactly the essential services are the ones not safe to disable. */
  lemma EssentialIffUnsafe()
    ensures forall i :: 0 <= i < |ServiceTable| ==> (ServiceTable[i].category == Essential <==> !ServiceTable[i].safe)
  {
  }

  // ---------------------------------------------------------------------
  // Classification
  // ---------------------------------------------------------------------

  /** The case-insensitive substring test of the classification loop. */
  predicate Matches(name: string, c: ServiceClass)
  {
    ContainsIgnoreCase(name, c.pattern)
  }

  /** The first row whose pattern occurs in the name. */
  function FirstMatch(name: string, t: seq<ServiceClass>): (r: Option<nat>)
    ensures r.Some? ==> r.value < |t| && Matches(name, t[r.value])
    ensures r.Some? ==> forall j :: 0 <= j < r.value ==> !Matches(name, t[j])
    ensures r.None? <==> forall j :: 0 <= j < |t| ==> !Matches(name, t[j])
  {
    if t == [] then None
    else if Matches(name, t[0]) then Some(0)
    else
      var rest := FirstMatch(name, t[1..]);
      if rest.None? then
        assert forall j :: 1 <= j < |t| ==> t[j] == t[1..][j - 1];
        None
      else
        assert forall j :: 1 <= j < rest.value + 1 ==> t[j] == t[1..][j - 1];
        Some(rest.value + 1)
  }

  /** Category, safe flag and recommendation of a service. */
  datatype Verdict = Verdict(category: Category, safe: bool, recommendation: string)

  const Unclassified := Verdict(Unknown, false, "")

  /** The verdict of the first matching row, or "unknown", not safe, no recommendation. */
  function VerdictOf(name: string, t: seq<ServiceClass>): Verdict
  {
    match FirstMatch(name, t)
    case None => Unclassified
    case Some(i) => Verdict(t[i].category, t[i].safe, t[i].recommendation)
  }

  /** The classification loop of `list_services`, stopping at the first match. */
  method ClassifyService(name: string, t: seq<ServiceClass>) returns (category: Category, safe: bool, rec: string)
    ensures Verdict(category, safe, rec) == VerdictOf(name, t)
  {
    category, safe, rec := Unknown, false, "";
    var lowered := ToLower(name);
    var i := 0;
    while i < |t|
      invariant 0 <= i <= |t|
      invariant forall j :: 0 <= j < i ==> !Matches(name, t[j])
      invariant category == Unknown && !safe && rec == ""
    {
      if Contains(lowered, ToLower(t[i].pattern)) {
        category, safe, rec := t[i].category, t[i].safe, t[i].recommendation;
        return;
      }
      i := i + 1;
    }
  }

  /** A service the table calls essential is never safe to disable, and one it does not know is not either. */
  lemma UnsafeUnlessListedSafe(name: string)
    ensures VerdictOf(name, ServiceTable).category == Essential ==> !VerdictOf(name, ServiceTable).safe
    ensures VerdictOf(name, ServiceTable).safe ==> FirstMatch(name, ServiceTable).Some?
  {
    EssentialIffUnsafe();
  }

  // ---------------------------------------------------------------------
  // The listing
  // ---------------------------------------------------------------------

  /** One service; `memory` is in bytes. */
  datatype ServiceInfo = ServiceInfo(
    name: string,
    displayName: string,
    status: string,
    startType: string,
    memory: nat,
    pid: nat,
    description: string,
    category: Category,
    safeToDisable: bool,
    recommendation: string)

  /** `pid_mem.get(&pid).copied().unwrap_or(0.0)`. */
  function MemoryOf(pidMem: map<nat, nat>, pid: nat): nat
  {
    if pid in pidMem then pidMem[pid] else 0
  }

  /** One line `name|display|status|start|pid|description` of the listing. */
  function ParseService(line: string, pidMem: map<nat, nat>, t: seq<ServiceClass>): (r: Option<ServiceInfo>)
    ensures r.Some? <==> |Split(line, "|")| >= 5
    ensures r.Some? ==> r.value.memory == MemoryOf(pidMem, r.value.pid)
    ensures r.Some? ==> Verdict(r.value.category, r.value.safeToDisable, r.value.recommendation) == VerdictOf(r.value.name, t)
  {
    var parts := Split(line, "|");
    if |parts| < 5 then None
    else
      var name := Trim(parts[0]);
      var pid := ParseU32Or0(Trim(parts[4]));
      var v := VerdictOf(name, t);
      Some(ServiceInfo(name, Trim(parts[1]), Trim(parts[2]), Trim(parts[3]), MemoryOf(pidMem, pid), pid,
                       Trim(FieldOr(parts, 5, "")), v.category, v.safe, v.recommendation))
  }

  /** The service a line built from trimmed, `|`-free fields describes. */
  function ServiceOfFields(fields: seq<string>, pidMem: map<nat, nat>, t: seq<ServiceClass>): ServiceInfo
    requires |fields| >= 5
  {
    var pid := ParseU32Or0(fields[4]);
    var v := VerdictOf(fields[0], t);
    ServiceInfo(fields[0], fields[1], fields[2], fields[3], MemoryOf(pidMem, pid), pid,
                if |fields| > 5 then fields[5] else "", v.category, v.safe, v.recommendation)
  }

  /**
   * A line of five or more trimmed fields parses back into those fields; a
   * missing description is empty and a pid that is not a `u32` is 0.
   */
  lemma ParseServiceFields(fields: seq<string>, pidMem: map<nat, nat>, t: seq<ServiceClass>)
    requires |fields| >= 5
    requires forall k :: 0 <= k < |fields| ==> '|' !in fields[k] && Trim(fields[k]) == fields[k]
    ensures ParseService(Join(fields, "|"), pidMem, t) == Some(ServiceOfFields(fields, pidMem, t))
  {
    FieldsFree(fields, '|');
    SplitJoin(fields, "|");
  }

  /** A line of fewer than five fields is skipped. */
  lemma ShortServiceLine(fields: seq<string>, pidMem: map<nat, nat>, t: seq<ServiceClass>)
    requires 1 <= |fields| < 5
    requires forall k :: 0 <= k < |fields| ==> '|' !in fields[k]
    ensures ParseService(Join(fields, "|"), pidMem, t) == None
  {
    FieldsFree(fields, '|');
    SplitJoin(fields, "|");
  }

  /** The records of the lines, in line order. */
  function ParsedServices(lines: seq<string>, pidMem: map<nat, nat>, t: seq<ServiceClass>): seq<ServiceInfo>
  {
    Collect(lines, l => ParseService(l, pidMem, t))
  }

  /** Running services first; then more memory first. */
  function ServiceRank(s: ServiceInfo): Sorting.Rank
  {
    Sorting.Rank(if s.status == "Running" then 0 else 1, s.memory)
  }

  /** What `list_services` returns for a given listing and table. */
  function ListedServices(stdout: string, pidMem: map<nat, nat>, t: seq<ServiceClass>): seq<ServiceInfo>
  {
    Sorting.SortBy(ParsedServices(Lines(stdout), pidMem, t), ServiceRank)
  }

  /** `list_services`: parse every line, classify it against the table, then sort. */
  method ListServices(o: Outcome, pidMem: map<nat, nat>) returns (services: seq<ServiceInfo>)
    ensures services == ListedServices(Stdout(o), pidMem, ServiceTable)
  {
    services := ListServicesBy(o, pidMem, ServiceTable);
  }

  /** The body of the listing loop for one line. */
  method ReadServiceLine(line: string, pidMem: map<nat, nat>, t: seq<ServiceClass>) returns (r: Option<ServiceInfo>)
    ensures r == ParseService(line, pidMem, t)
  {
    var parts := Split(line, "|");
    if |parts| < 5 {
      r := None;
    } else {
      var name := Trim(parts[0]);
      var pid := ParseU32Or0(Trim(parts[4]));
      var desc := Trim(FieldOr(parts, 5, ""));
      var category, safe, rec := ClassifyService(name, t);
      r := Some(ServiceInfo(name, Trim(parts[1]), Trim(parts[2]), Trim(parts[3]),
                            MemoryOf(pidMem, pid), pid, desc, category, safe, rec));
    }
  }

  method ListServicesBy(o: Outcome, pidMem: map<nat, nat>, t: seq<ServiceClass>) returns (services: seq<ServiceInfo>)
    ensures services == ListedServices(Stdout(o), pidMem, t)
  {
    var lines := Lines(Stdout(o));
    var parsed: seq<ServiceInfo> := [];
    for i := 0 to |lines|
      invariant parsed == ParsedServices(lines[..i], pidMem, t)
    {
      CollectStep(lines, i, l => ParseService(l, pidMem, t));
      var r := ReadServiceLine(lines[i], pidMem, t);
      if r.Some? {
        parsed := parsed + [r.value];
      }
    }
    assert lines[..|lines|] == lines;
    services := Sorting.SortBy(parsed, ServiceRank);
  }

  /**
   * The listing holds exactly the parsed services, every running one
   * before every other, and within each part memory never increases.
   */
  lemma ListedServicesOrder(stdout: string, pidMem: map<nat, nat>, t: seq<ServiceClass>)
    ensures multiset(ListedServices(stdout, pidMem, t)) == multiset(ParsedServices(Lines(stdout), pidMem, t))
    ensures var r := ListedServices(stdout, pidMem, t);
      forall i, j :: 0 <= i < j < |r| && r[j].status == "Running" ==> r[i].status == "Running"
    ensures var r := ListedServices(stdout, pidMem, t);
      forall i, j :: 0 <= i < j < |r| && (r[i].status == "Running" <==> r[j].status == "Running") ==> r[i].memory >= r[j].memory
  {
    var r := ListedServices(stdout, pidMem, t);
    forall i, j | 0 <= i < j < |r|
      ensures r[j].status == "Running" ==> r[i].status == "Running"
      ensures (r[i].status == "Running" <==> r[j].status == "Running") ==> r[i].memory >= r[j].memory
    {
      assert Sorting.Precedes(ServiceRank(r[i]), ServiceRank(r[j]));
    }
  }

  // ---------------------------------------------------------------------
  // Stop and startup type
  // ---------------------------------------------------------------------

  /** Some row that is not safe to disable matches the name. */
  function UnsafeMatch(name: string, t: seq<ServiceClass>): (r: bool)
    ensures r <==> exists i :: 0 <= i < |t| && Matches(name, t[i]) && !t[i].safe
  {
    if t == [] then false
    else if Matches(name, t[0]) && !t[0].safe then true
    else
      assert forall i :: 1 <= i < |t| ==> t[i] == t[1..][i - 1];
      UnsafeMatch(name, t[1..])
  }

  const EssentialRefusal := " is an essential system service"

  /** `stop_service`: the result and the commands run. */
  function StopService(name: string, o: Outcome): (r: (Result<string, string>, seq<Invocation>))
    ensures r.1 == [] <==> UnsafeMatch(name, ServiceTable)
    ensures UnsafeMatch(name, ServiceTable) ==> r.0 == Err(name + EssentialRefusal)
    ensures !UnsafeMatch(name, ServiceTable) ==>
      r.1 == [Invocation("sc", ["stop", name])] && r.0 == CommandResult(o, "Stopped " + name)
  {
    if UnsafeMatch(name, ServiceTable) then (Err(name + EssentialRefusal), [])
    else (CommandResult(o, "Stopped " + name), [Invocation("sc", ["stop", name])])
  }

  /** A service the table classifies as essential cannot be stopped. */
  lemma EssentialNotStopped(name: string, o: Outcome)
    requires VerdictOf(name, ServiceTable).category == Essential
    ensures StopService(name, o) == (Err(name + EssentialRefusal), [])
  {
    EssentialIffUnsafe();
    var i := FirstMatch(name, ServiceTable).value;
    assert Matches(name, ServiceTable[i]) && !ServiceTable[i].safe;
  }

  /**
   * The stop guard looks at every row, the classification only at the first
   * match: a name can be listed as safe to disable and still be refused.
   */
  lemma RefusedThoughListedSafe(o: Outcome)
    ensures VerdictOf("DiagTrackBITS", ServiceTable).safe
    ensures StopService("DiagTrackBITS", o).1 == []
  {
    var name := "DiagTrackBITS";
    var lowered := ToLower(name);
    assert lowered == "diagtrackbits";
    assert ToLower(ServiceTable[0].pattern) == "diagtrack";
    assert OccursAt(lowered, "diagtrack", 0);
    ContainsAt(lowered, "diagtrack", 0);
    assert Matches(name, ServiceTable[0]);
    assert ServiceTable[30].pattern == "BITS" && !ServiceTable[30].safe;
    assert ToLower("BITS") == "bits";
    assert OccursAt(lowered, "bits", 9);
    ContainsAt(lowered, "bits", 9);
    assert Matches(name, ServiceTable[30]);
  }

  /** The `sc` start type for a requested startup type. */
  function ScStartType(startup: string): (r: Option<string>)
    ensures r.Some? <==> startup == "Automatic" || startup == "Auto" || startup == "Manual" || startup == "Disabled"
    ensures r.Some? ==> (r.value == "auto" <==> startup == "Automatic" || startup == "Auto")
    ensures r.Some? ==> (r.value == "demand" <==> startup == "Manual")
    ensures r.Some? ==> (r.value == "disabled" <==> startup == "Disabled")
  {
    if startup == "Automatic" || startup == "Auto" then Some("auto")
    else if startup == "Manual" then Some("demand")
    else if startup == "Disabled" then Some("disabled")
    else None
  }

  /** `set_service_startup`: the result and the commands run. */
  function SetServiceStartup(name: string, startup: string, o: Outcome): (r: (Result<string, string>, seq<Invocation>))
    ensures r.1 == [] <==> ScStartType(startup).None?
    ensures ScStartType(startup).None? ==> r.0 == Err("Invalid startup type")
    ensures ScStartType(startup).Some? ==>
      r.1 == [Invocation("sc", ["config", name, "start=", ScStartType(startup).value])]
      && r.0 == CommandResult(o, "Set " + name + " to " + startup)
  {
    match ScStartType(startup)
    case None => (Err("Invalid startup type"), [])
    case Some(scType) =>
      (CommandResult(o, "Set " + name + " to " + startup), [Invocation("sc", ["config", name, "start=", scType])])
  }
}
