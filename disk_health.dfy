/**
 * Disk health: each line a PowerShell `Get-PhysicalDisk` pass prints,
 * `model|serial|firmware|bus|media|size|health|wear|temp|hours|reads|writes`,
 * becomes a disk record; when that pass yields no disk at all, the CSV
 * output of `wmic diskdrive get … /format:csv` is read instead.  Neither
 * command is run: their outcomes are parameters.  The floating-point
 * readings (size, temperature, read and write totals) are not modelled;
 * the health a non-empty wear reading gives is a parameter, because it is
 * computed in `f64`.
 */
module DiskHealth {
  import opened Wrappers
  import opened Text
  import opened Parsing
  import opened Shell

  datatype DiskHealthInfo = DiskHealthInfo(
    model: string,
    serial: string,
    firmware: string,
    interfaceType: string,
    mediaType: string,
    healthStatus: string,
    healthPct: nat,
    powerOnHours: Option<nat>)

  /** The fewest fields a line of either listing must have. */
  const MinFields: nat := 8

  /** The PowerShell pass; its script text is abbreviated here. */
  const PhysicalDiskQuery := Invocation("powershell", ["-Command", "Get-PhysicalDisk | ForEach-Object { ... }"])
  const WmicQuery := Invocation("wmic", ["diskdrive", "get", "Model,SerialNumber,FirmwareRevision,InterfaceType,MediaType,Size,Status", "/format:csv"])

  /** The health percentage a `HealthStatus` stands for when the disk reports no wear. */
  function StatusHealth(status: string): (p: nat)
    ensures p == 95 <==> status == "Healthy"
    ensures p == 60 <==> status == "Warning"
    ensures p == 40 <==> status == "Degraded"
    ensures p == 80 <==> status != "Healthy" && status != "Warning" && status != "Degraded"
  {
    match status
    case "Healthy" => 95
    case "Warning" => 60
    case "Degraded" => 40
    case _ => 80
  }

  // ---------------------------------------------------------------------
  // The PowerShell listing
  // ---------------------------------------------------------------------

  /**
   * One PowerShell line.  `wearHealth` is `(100 - wear * 100).max(0) as u32`
   * of the trimmed wear text, computed in floating point by the program.
   */
  function PsDisk(line: string, wearHealth: string -> nat): (r: Option<DiskHealthInfo>)
    ensures var parts := Split(line, "|");
      r.Some? <==> |parts| >= MinFields && Trim(parts[0]) != ""
    ensures r.Some? ==> r.value.model != "" && r.value.mediaType != ""
    ensures r.Some? ==> var wear := Trim(Split(line, "|")[7]);
      r.value.healthPct == (if wear == "" then StatusHealth(r.value.healthStatus) else wearHealth(wear))
    ensures r.Some? && r.value.powerOnHours.Some? ==> r.value.powerOnHours.value <= U64Max
  {
    var parts := Split(line, "|");
    if |parts| < MinFields then None
    else
      var model := Trim(parts[0]);
      if model == "" then None
      else
        var status := Trim(parts[6]);
        var wear := Trim(FieldOr(parts, 7, ""));
        var health := if wear == "" then StatusHealth(status) else wearHealth(wear);
        var hours := if 9 < |parts| then ParseU64(Trim(parts[9])) else None;
        var media := Trim(parts[4]);
        Some(DiskHealthInfo(model, Trim(parts[1]), Trim(parts[2]), Trim(parts[3]),
                            if media == "" then "Unknown" else media, status, health, hours))
  }

  function PsDisks(stdout: string, wearHealth: string -> nat): seq<DiskHealthInfo>
  {
    Collect(Lines(stdout), l => PsDisk(l, wearHealth))
  }

  // ---------------------------------------------------------------------
  // The wmic fallback
  // ---------------------------------------------------------------------

  /** One CSV line of `wmic`: `Node,FirmwareRevision,InterfaceType,Model,MediaType,SerialNumber,Size,Status`. */
  function WmicDisk(line: string): (r: Option<DiskHealthInfo>)
    ensures var parts := Split(line, ",");
      r.Some? <==> |parts| >= MinFields && Trim(parts[3]) != ""
    ensures r.Some? ==> var status := Trim(Split(line, ",")[7]);
      && (r.value.healthPct == 90 <==> status == "OK")
      && (r.value.healthPct == 90 || r.value.healthPct == 50)
      && (r.value.healthStatus == "Healthy" <==> status == "OK" || status == "Healthy")
      && (status != "OK" ==> r.value.healthStatus == status)
    ensures r.Some? ==> r.value.model != "" && r.value.powerOnHours.None?
  {
    var parts := Split(line, ",");
    if |parts| < MinFields then None
    else
      var model := Trim(parts[3]);
      if model == "" then None
      else
        var status := Trim(parts[7]);
        Some(DiskHealthInfo(model, Trim(parts[5]), Trim(parts[1]), Trim(parts[2]), Trim(parts[4]),
                            if status == "OK" then "Healthy" else status,
                            if status == "OK" then 90 else 50, None))
  }

  function WmicDisks(stdout: string): seq<DiskHealthInfo>
  {
    Collect(AfterHeader(Lines(stdout)), WmicDisk)
  }

  /** What `get_disk_health` returns: the PowerShell disks, or the wmic ones when there are none. */
  function DiskReport(ps: Outcome, wmic: Outcome, wearHealth: string -> nat): seq<DiskHealthInfo>
  {
    var fromPs := PsDisks(Stdout(ps), wearHealth);
    if fromPs != [] then fromPs else WmicDisks(Stdout(wmic))
  }

  /**
   * `get_disk_health`, reporting the commands it runs: the wmic query is
   * made exactly when the PowerShell pass found no disk.
   */
  method GetDiskHealth(ps: Outcome, wmic: Outcome, wearHealth: string -> nat)
    returns (disks: seq<DiskHealthInfo>, ran: seq<Invocation>)
    ensures disks == DiskReport(ps, wmic, wearHealth)
    ensures ran == [PhysicalDiskQuery] + (if PsDisks(Stdout(ps), wearHealth) == [] then [WmicQuery] else [])
  {
    ran := [PhysicalDiskQuery];
    disks := AppendParsed([], Lines(Stdout(ps)), l => PsDisk(l, wearHealth));
    assert disks == PsDisks(Stdout(ps), wearHealth);
    if disks == [] {
      ran := ran + [WmicQuery];
      disks := AppendParsed(disks, AfterHeader(Lines(Stdout(wmic))), WmicDisk);
    }
  }

  // ---------------------------------------------------------------------
  // Properties
  // ---------------------------------------------------------------------

  predicate Named(d: DiskHealthInfo)
  {
    d.model != ""
  }

  /**
   * Every reported disk has a model name; the wmic disks are reported only
   * when PowerShell found none, and each of them is rated 90 or 50.
   */
  lemma DiskReportShape(ps: Outcome, wmic: Outcome, wearHealth: string -> nat)
    ensures forall i :: 0 <= i < |DiskReport(ps, wmic, wearHealth)| ==> Named(DiskReport(ps, wmic, wearHealth)[i])
    ensures PsDisks(Stdout(ps), wearHealth) != [] ==> DiskReport(ps, wmic, wearHealth) == PsDisks(Stdout(ps), wearHealth)
    ensures PsDisks(Stdout(ps), wearHealth) == [] ==>
      forall i :: 0 <= i < |DiskReport(ps, wmic, wearHealth)| ==>
        DiskReport(ps, wmic, wearHealth)[i].healthPct in {90, 50}
  {
    CollectKeeps(Lines(Stdout(ps)), l => PsDisk(l, wearHealth), Named);
    CollectKeeps(AfterHeader(Lines(Stdout(wmic))), WmicDisk, Named);
    CollectKeeps(AfterHeader(Lines(Stdout(wmic))), WmicDisk, (d: DiskHealthInfo) => d.healthPct in {90, 50});
  }

  /** A PowerShell line of clean fields gives the disk those fields describe. */
  lemma PsLineRoundTrip(f: seq<string>, wearHealth: string -> nat)
    requires |f| == 12 && f[0] != ""
    requires '|' !in f[0] && '|' !in f[1] && '|' !in f[2] && '|' !in f[3] && '|' !in f[4] && '|' !in f[5]
    requires '|' !in f[6] && '|' !in f[7] && '|' !in f[8] && '|' !in f[9] && '|' !in f[10] && '|' !in f[11]
    requires Trim(f[0]) == f[0] && Trim(f[1]) == f[1] && Trim(f[2]) == f[2] && Trim(f[3]) == f[3]
    requires Trim(f[4]) == f[4] && Trim(f[6]) == f[6] && Trim(f[7]) == f[7] && Trim(f[9]) == f[9]
    ensures PsDisk(Join(f, "|"), wearHealth)
      == Some(DiskHealthInfo(f[0], f[1], f[2], f[3], if f[4] == "" then "Unknown" else f[4], f[6],
                             if f[7] == "" then StatusHealth(f[6]) else wearHealth(f[7]), ParseU64(f[9])))
  {
    TwelveFree(f);
    FieldsFree(f, '|');
    SplitJoin(f, "|");
  }

  lemma TwelveFree(f: seq<string>)
    requires |f| == 12
    requires '|' !in f[0] && '|' !in f[1] && '|' !in f[2] && '|' !in f[3] && '|' !in f[4] && '|' !in f[5]
    requires '|' !in f[6] && '|' !in f[7] && '|' !in f[8] && '|' !in f[9] && '|' !in f[10] && '|' !in f[11]
    ensures forall k :: 0 <= k < |f| ==> '|' !in f[k]
  {
    forall k | 0 <= k < |f|
      ensures '|' !in f[k]
    {
      assert k == 0 || k == 1 || k == 2 || k == 3 || k == 4 || k == 5
          || k == 6 || k == 7 || k == 8 || k == 9 || k == 10 || k == 11;
    }
  }

  /** A wmic CSV line of clean fields gives the disk those fields describe. */
  lemma WmicLineRoundTrip(f: seq<string>)
    requires |f| == 8 && f[3] != ""
    requires ',' !in f[0] && ',' !in f[1] && ',' !in f[2] && ',' !in f[3]
    requires ',' !in f[4] && ',' !in f[5] && ',' !in f[6] && ',' !in f[7]
    requires Trim(f[1]) == f[1] && Trim(f[2]) == f[2] && Trim(f[3]) == f[3]
    requires Trim(f[4]) == f[4] && Trim(f[5]) == f[5] && Trim(f[7]) == f[7]
    ensures WmicDisk(Join(f, ","))
      == Some(DiskHealthInfo(f[3], f[5], f[1], f[2], f[4], if f[7] == "OK" then "Healthy" else f[7],
                             if f[7] == "OK" then 90 else 50, None))
  {
    EightFree(f);
    FieldsFree(f, ',');
    SplitJoin(f, ",");
  }

  lemma EightFree(f: seq<string>)
    requires |f| == 8
    requires ',' !in f[0] && ',' !in f[1] && ',' !in f[2] && ',' !in f[3]
    requires ',' !in f[4] && ',' !in f[5] && ',' !in f[6] && ',' !in f[7]
    ensures forall k :: 0 <= k < |f| ==> ',' !in f[k]
  {
    forall k | 0 <= k < |f|
      ensures ',' !in f[k]
    {
      assert k == 0 || k == 1 || k == 2 || k == 3 || k == 4 || k == 5 || k == 6 || k == 7;
    }
  }
}
