/**
 * The system health score of `get_health_score`: five sub-scores, each a
 * banding of one reading, their integer average, and the five detail
 * records in a fixed order.  The readings (memory and CPU percentages, the
 * disks' byte counts, the process count and the uptime in seconds) are
 * parameters; sysinfo is not modelled.
 */
module Monitor {

  /** The five values a percentage band can take. */
  predicate IsBandScore(s: nat)
  {
    s == 100 || s == 80 || s == 60 || s == 30 || s == 10
  }

  /** A percentage reading placed in one of five bands by four strict cut-offs. */
  function Band(pct: real, c1: real, c2: real, c3: real, c4: real): (r: nat)
    requires c1 <= c2 <= c3 <= c4
    ensures IsBandScore(r)
    ensures r == 100 <==> pct < c1
    ensures r == 10 <==> pct >= c4
  {
    if pct < c1 then 100
    else if pct < c2 then 80
    else if pct < c3 then 60
    else if pct < c4 then 30
    else 10
  }

  /** A higher reading never scores better. */
  lemma BandMonotone(p: real, q: real, c1: real, c2: real, c3: real, c4: real)
    requires c1 <= c2 <= c3 <= c4
    requires p <= q
    ensures Band(q, c1, c2, c3, c4) <= Band(p, c1, c2, c3, c4)
  {
  }

  function MemoryScore(memPct: real): (r: nat)
    ensures IsBandScore(r)
  {
    Band(memPct, 50.0, 70.0, 85.0, 95.0)
  }

  function CpuScore(cpuAvg: real): (r: nat)
    ensures IsBandScore(r)
  {
    Band(cpuAvg, 30.0, 50.0, 70.0, 90.0)
  }

  function DiskScore(worstPct: real): (r: nat)
    ensures IsBandScore(r)
  {
    Band(worstPct, 60.0, 75.0, 85.0, 95.0)
  }

  lemma ScoresMonotone(p: real, q: real)
    requires p <= q
    ensures MemoryScore(q) <= MemoryScore(p)
    ensures CpuScore(q) <= CpuScore(p)
    ensures DiskScore(q) <= DiskScore(p)
  {
    BandMonotone(p, q, 50.0, 70.0, 85.0, 95.0);
    BandMonotone(p, q, 30.0, 50.0, 70.0, 90.0);
    BandMonotone(p, q, 60.0, 75.0, 85.0, 95.0);
  }

  /** Score from the number of running processes. */
  function StartupScore(procCount: nat): (r: nat)
    ensures r == 100 || r == 80 || r == 60 || r == 40
    ensures r == 100 <==> procCount < 100
    ensures r == 40 <==> procCount >= 300
  {
    if procCount < 100 then 100
    else if procCount < 200 then 80
    else if procCount < 300 then 60
    else 40
  }

  /** Score from the uptime, counted in whole days. */
  function UptimeScore(uptimeSeconds: nat): (r: nat)
    ensures r == 100 || r == 80 || r == 60 || r == 30
    ensures r == 100 <==> uptimeSeconds < 3 * 86400
    ensures r == 30 <==> uptimeSeconds >= 14 * 86400
  {
    var days := uptimeSeconds / 86400;
    if days < 3 then 100
    else if days < 7 then 80
    else if days < 14 then 60
    else 30
  }

  lemma CountScoresMonotone(m: nat, n: nat)
    requires m <= n
    ensures StartupScore(n) <= StartupScore(m)
    ensures UptimeScore(n) <= UptimeScore(m)
  {
    assert m / 86400 <= n / 86400;
  }

  /** One disk as sysinfo reports it: total and available bytes. */
  datatype Disk = Disk(total: nat, available: nat)

  /** Percentage of a disk in use; only defined for disks with space. */
  function UsedPct(d: Disk): real
    requires d.total > 0
  {
    ((d.total as real - d.available as real) / d.total as real) * 100.0
  }

  /** The value `worst_disk_pct` ends with: the largest used percentage, never below 0. */
  function WorstPct(disks: seq<Disk>): (r: real)
    ensures r >= 0.0
    ensures forall i :: 0 <= i < |disks| && disks[i].total > 0 ==> UsedPct(disks[i]) <= r
    ensures r == 0.0 || exists i :: 0 <= i < |disks| && disks[i].total > 0 && UsedPct(disks[i]) == r
  {
    if disks == [] then 0.0
    else
      var w := WorstPct(disks[..|disks| - 1]);
      var d := disks[|disks| - 1];
      if d.total > 0 && UsedPct(d) > w then UsedPct(d) else w
  }

  /** The loop over the disks, updating the running maximum. */
  method WorstDiskPct(disks: seq<Disk>) returns (worst: real)
    ensures worst == WorstPct(disks)
  {
    worst := 0.0;
    var i := 0;
    while i < |disks|
      invariant 0 <= i <= |disks|
      invariant worst == WorstPct(disks[..i])
    {
      assert disks[..i + 1][..i] == disks[..i];
      var d := disks[i];
      if d.total > 0 {
        var used := UsedPct(d);
        if used > worst {
          worst := used;
        }
      }
      i := i + 1;
    }
    assert disks[..|disks|] == disks;
  }

  /** The category names, in the order the details are pushed. */
  const MemoryCategory := "Memory"
  const CpuCategory := "CPU"
  const DiskCategory := "Disk"
  const StartupCategory := "Startup"
  const UptimeCategory := "Uptime"

  /** The suggestion texts of the five details. */
  const MemoryHigh := "Run memory optimization to free RAM"
  const MemoryOk := "Memory usage is healthy"
  const CpuHigh := "Consider lowering idle process priorities"
  const CpuOk := "CPU load is normal"
  const DiskHigh := "Run disk cleanup to free space"
  const DiskOk := "Disk space is adequate"
  const StartupHigh := "Review startup programs to reduce bloat"
  const StartupOk := "Process count is normal"
  const UptimeHigh := "Consider rebooting to clear stale state"
  const UptimeOk := "System uptime is fine"

  datatype HealthDetail = HealthDetail(category: string, score: nat, suggestion: string)

  datatype HealthScore = HealthScore(
    overall: nat,
    memoryScore: nat,
    cpuScore: nat,
    diskScore: nat,
    startupScore: nat,
    uptimeScore: nat,
    details: seq<HealthDetail>)

  /** The readings sysinfo supplies. */
  datatype Readings = Readings(memPct: real, cpuAvg: real, disks: seq<Disk>, procCount: nat, uptimeSeconds: nat)

  method GetHealthScore(rd: Readings) returns (h: HealthScore)
    ensures h.memoryScore == MemoryScore(rd.memPct) && h.cpuScore == CpuScore(rd.cpuAvg)
    ensures h.diskScore == DiskScore(WorstPct(rd.disks))
    ensures h.startupScore == StartupScore(rd.procCount) && h.uptimeScore == UptimeScore(rd.uptimeSeconds)
    ensures 5 * h.overall <= h.memoryScore + h.cpuScore + h.diskScore + h.startupScore + h.uptimeScore < 5 * h.overall + 5
    ensures 20 <= h.overall <= 100
    ensures |h.details| == 5
    ensures h.details[0].category == MemoryCategory && h.details[0].score == h.memoryScore
    ensures h.details[1].category == CpuCategory && h.details[1].score == h.cpuScore
    ensures h.details[2].category == DiskCategory && h.details[2].score == h.diskScore
    ensures h.details[3].category == StartupCategory && h.details[3].score == h.startupScore
    ensures h.details[4].category == UptimeCategory && h.details[4].score == h.uptimeScore
    ensures h.details[0].suggestion == (if rd.memPct > 80.0 then MemoryHigh else MemoryOk)
    ensures h.details[2].suggestion == (if WorstPct(rd.disks) > 85.0 then DiskHigh else DiskOk)
  {
    var details: seq<HealthDetail> := [];

    var memoryScore := MemoryScore(rd.memPct);
    var memoryDetail := HealthDetail(MemoryCategory, memoryScore,
      if rd.memPct > 80.0 then MemoryHigh else MemoryOk);
    details := details + [memoryDetail];

    var cpuScore := CpuScore(rd.cpuAvg);
    var cpuDetail := HealthDetail(CpuCategory, cpuScore,
      if rd.cpuAvg > 70.0 then CpuHigh else CpuOk);
    details := details + [cpuDetail];

    var worst := WorstDiskPct(rd.disks);
    var diskScore := DiskScore(worst);
    var diskDetail := HealthDetail(DiskCategory, diskScore,
      if worst > 85.0 then DiskHigh else DiskOk);
    details := details + [diskDetail];

    var startupScore := StartupScore(rd.procCount);
    var startupDetail := HealthDetail(StartupCategory, startupScore,
      if rd.procCount > 200 then StartupHigh else StartupOk);
    details := details + [startupDetail];

    var uptimeScore := UptimeScore(rd.uptimeSeconds);
    var uptimeDetail := HealthDetail(UptimeCategory, uptimeScore,
      if rd.uptimeSeconds / 86400 > 7 then UptimeHigh else UptimeOk);
    details := details + [uptimeDetail];
    assert details == [memoryDetail, cpuDetail, diskDetail, startupDetail, uptimeDetail];

    var sum := memoryScore + cpuScore + diskScore + startupScore + uptimeScore;
    ScoreSum(memoryScore, cpuScore, diskScore, startupScore, uptimeScore);
    var overall := sum / 5;
    Average(sum);
    h := HealthScore(overall, memoryScore, cpuScore, diskScore, startupScore, uptimeScore, details);
  }

  /** The five scores add up to between 100 and 500. */
  lemma ScoreSum(m: nat, c: nat, d: nat, s: nat, u: nat)
    requires IsBandScore(m) && IsBandScore(c) && IsBandScore(d)
    requires s == 100 || s == 80 || s == 60 || s == 40
    requires u == 100 || u == 80 || u == 60 || u == 30
    ensures 100 <= m + c + d + s + u <= 500
  {
    assert 10 <= m <= 100 && 10 <= c <= 100 && 10 <= d <= 100;
  }

  lemma Average(sum: nat)
    requires 100 <= sum <= 500
    ensures 20 <= sum / 5 <= 100
    ensures 5 * (sum / 5) <= sum < 5 * (sum / 5) + 5
  {
  }
}
