/**
 * Battery health: one PowerShell report line `FOUND|pct|design|full|
 * voltage|rate|runtime|cycles|chemistry|manufacturer|serial|charging|status`
 * (or `NONE`) becomes a battery record.  The command is not run: its
 * outcome is a parameter.  Capacities are in mWh; the health and wear
 * percentages are whole numbers, since the health is cast to `u32`.
 */
module Battery {
  import opened Wrappers
  import opened Text
  import opened Shell

  datatype BatteryHealth = BatteryHealth(
    present: bool,
    status: string,
    chargePercent: nat,
    designCapacity: nat,
    fullChargeCapacity: nat,
    currentCapacity: nat,
    healthPct: nat,
    wearPct: int,
    voltage: nat,
    chargeRate: int,
    estimatedRuntime: Option<nat>,
    cycleCount: Option<nat>,
    chemistry: string,
    manufacturer: string,
    serial: string)

  /** The record returned when no battery is reported. */
  const NotPresent := BatteryHealth(false, "Not Present", 0, 0, 0, 0, 0, 0, 0, 0, None, None, "Unknown", "Unknown", "")

  const FoundPrefix := "FOUND|"
  const ReportFields: nat := 13
  /** Runtimes of 71582 minutes or more are the "unknown" sentinel of `EstimatedRunTime`. */
  const RuntimeLimit: nat := 71582
  const CycleLimit: nat := 65535

  /** `BatteryStatus`: 1 discharging, 2 on AC (charging or not), 3 full, 4 low, 5 critical. */
  function StatusLabel(code: nat, charging: bool): (r: string)
    ensures r == "Charging" <==> charging && (code == 2 || code < 1 || code > 5)
    ensures r == "Unknown" <==> !charging && (code < 1 || code > 5)
    ensures r == "Discharging" <==> code == 1
  {
    match code
    case 1 => "Discharging"
    case 2 => if charging then "Charging" else "On AC"
    case 3 => "Full"
    case 4 => "Low"
    case 5 => "Critical"
    case _ => if charging then "Charging" else "Unknown"
  }

  /** `Chemistry` codes 1-8; anything else, 0 included, is taken to be lithium-ion. */
  function ChemistryName(code: nat): (r: string)
    ensures r == "Li-ion" <==> code == 6 || code < 1 || code > 8
    ensures r == "Unknown" <==> code == 2
  {
    match code
    case 1 => "Other"
    case 2 => "Unknown"
    case 3 => "Lead Acid"
    case 4 => "NiCd"
    case 5 => "NiMH"
    case 6 => "Li-ion"
    case 7 => "Zinc Air"
    case 8 => "LiPo"
    case _ => "Li-ion"
  }

  /** Full-charge capacity as a whole percentage of the design capacity, capped at 100, in exact arithmetic. */
  function HealthPct(full: nat, design: nat): (h: nat)
    requires design > 0
    ensures h <= 100
  {
    var q := full * 100 / design;
    if q > 100 then 100 else q
  }

  /**
   * Below the cap the health is the whole number of percent the full
   * capacity holds of the design capacity; it reaches 100 exactly when the
   * full capacity is at least the design capacity.
   */
  lemma HealthPctMeaning(full: nat, design: nat)
    requires design > 0
    ensures var h := HealthPct(full, design);
      (h < 100 ==> h * design <= full * 100 < h * design + design)
      && (h == 100 <==> full >= design)
  {
    var n := full * 100;
    var q := n / design;
    var r := n % design;
    assert n == q * design + r && 0 <= r < design;
    if full >= design {
      assert n >= design * 100;
      QuotientAtLeast(n, design, 100);
    } else {
      assert n < design * 100;
      QuotientBelow(n, design, 100);
    }
  }

  lemma QuotientAtLeast(n: nat, d: nat, k: nat)
    requires d > 0 && n >= d * k
    ensures n / d >= k
  {
    var q := n / d;
    assert n == q * d + n % d;
    MulMonotone(q + 1, k, d);
  }

  lemma QuotientBelow(n: nat, d: nat, k: nat)
    requires d > 0 && n < d * k
    ensures n / d < k
  {
    var q := n / d;
    assert n == q * d + n % d;
    MulMonotone(k, q, d);
  }

  lemma MulMonotone(a: nat, b: nat, d: nat)
    ensures a <= b ==> a * d <= b * d
  {
    if a <= b {
      assert b * d == a * d + (b - a) * d;
    }
  }

  lemma MulNat(a: nat, b: nat)
    ensures a * b >= 0
  {
  }

  /** `(full as f64 * pct as f64 / 100.0) as u64`, in exact arithmetic. */
  function ChargedCapacity(full: nat, pct: nat): (c: nat)
  {
    MulNat(full, pct);
    full * pct / 100
  }

  /** The current capacity is the whole number of mWh the charged share of the full capacity holds. */
  lemma ChargedShare(full: nat, pct: nat)
    ensures ChargedCapacity(full, pct) * 100 <= full * pct < ChargedCapacity(full, pct) * 100 + 100
    ensures pct <= 100 ==> ChargedCapacity(full, pct) <= full
  {
    MulNat(full, pct);
    var n := full * pct;
    assert n == (n / 100) * 100 + n % 100;
    if pct <= 100 {
      MulMonotone(pct, 100, full);
      QuotientAtMost(n, full);
    }
  }

  lemma QuotientAtMost(n: nat, full: nat)
    requires n <= full * 100
    ensures n / 100 <= full
  {
  }

  /** `parse().ok().filter(pred)` on a `u32` field. */
  function Filtered(s: string, lo: nat, hi: nat): (r: Option<nat>)
    ensures r.Some? ==> lo <= r.value < hi
  {
    var v := ParseU32(s);
    if v.Some? && lo <= v.value < hi then v else None
  }

  /** The report line has the `FOUND|` prefix and all thirteen fields. */
  predicate Found(line: string)
  {
    StartsWith(line, FoundPrefix) && |Split(line, "|")| >= ReportFields
  }

  /** What `get_battery_health` returns for the command's standard output. */
  function BatteryReport(stdout: string): BatteryHealth
  {
    var line := Trim(stdout);
    if !Found(line) then NotPresent else FromParts(Split(line, "|"))
  }

  /** The record read from the fields of an accepted line; numbers that do not parse read as 0. */
  function FromParts(parts: seq<string>): BatteryHealth
    requires |parts| >= ReportFields
  {
    WithDerived(Readings(parts))
  }

  /** The readings the fields carry, before health, wear and current capacity are worked out. */
  function Readings(parts: seq<string>): BatteryHealth
    requires |parts| >= ReportFields
  {
    BatteryHealth(
      true,
      StatusLabel(ParseU32Or0(parts[12]), Trim(parts[11]) == "True"),
      ParseU32Or0(parts[1]), ParseU64(parts[2]).GetOr(0), ParseU64(parts[3]).GetOr(0), 0, 0, 0,
      ParseU32Or0(parts[4]),
      ParseSigned(parts[5], I32Min, I32Max).GetOr(0),
      Filtered(parts[6], 0, RuntimeLimit),
      Filtered(parts[7], 1, CycleLimit),
      ChemistryName(ParseU32Or0(parts[8])),
      Trim(parts[9]), Trim(parts[10]))
  }

  /** Health, wear and current capacity worked out from the readings; nothing else changes. */
  function WithDerived(b: BatteryHealth): (r: BatteryHealth)
    ensures r == b.(healthPct := r.healthPct, wearPct := r.wearPct, currentCapacity := r.currentCapacity)
  {
    var health := if b.designCapacity > 0 then HealthPct(b.fullChargeCapacity, b.designCapacity) else 0;
    b.(healthPct := health, wearPct := if b.designCapacity > 0 then 100 - health else 0,
       currentCapacity := ChargedCapacity(b.fullChargeCapacity, b.chargePercent))
  }

  /** The default record, updated field by field once the line is accepted. */
  method GetBatteryHealth(o: Outcome) returns (b: BatteryHealth)
    ensures b == BatteryReport(Stdout(o))
  {
    b := NotPresent;
    var line := Trim(Stdout(o));
    if StartsWith(line, FoundPrefix) {
      var parts := Split(line, "|");
      if |parts| >= ReportFields {
        b := ReadReport(parts);
      }
    }
  }

  /** The field-by-field updates of the default record for an accepted line. */
  method ReadReport(parts: seq<string>) returns (b: BatteryHealth)
    requires |parts| >= ReportFields
    ensures b == FromParts(parts)
  {
    var charging := Trim(parts[11]) == "True";
    b := NotPresent.(present := true, chargePercent := ParseU32Or0(parts[1]),
            designCapacity := ParseU64(parts[2]).GetOr(0), fullChargeCapacity := ParseU64(parts[3]).GetOr(0),
            voltage := ParseU32Or0(parts[4]), chargeRate := ParseSigned(parts[5], I32Min, I32Max).GetOr(0),
            estimatedRuntime := Filtered(parts[6], 0, RuntimeLimit), cycleCount := Filtered(parts[7], 1, CycleLimit),
            manufacturer := Trim(parts[9]), serial := Trim(parts[10]),
            status := StatusLabel(ParseU32Or0(parts[12]), charging), chemistry := ChemistryName(ParseU32Or0(parts[8])));
    assert b == Readings(parts);
    if b.designCapacity > 0 {
      var health := HealthPct(b.fullChargeCapacity, b.designCapacity);
      b := b.(healthPct := health, wearPct := 100 - health);
    }
    b := b.(currentCapacity := ChargedCapacity(b.fullChargeCapacity, b.chargePercent));
  }

  /**
   * Without an accepted report the record is the default one; with one,
   * the battery is present, the filtered fields are in range, health is
   * a percentage and wear its complement, and the current capacity is the
   * charged share of the full capacity.
   */
  lemma ReportShape(stdout: string)
    ensures !Found(Trim(stdout)) ==> BatteryReport(stdout) == NotPresent
    ensures Found(Trim(stdout)) ==> BatteryReport(stdout).present
    ensures var b := BatteryReport(stdout);
      && (b.estimatedRuntime.Some? ==> b.estimatedRuntime.value < RuntimeLimit)
      && (b.cycleCount.Some? ==> 0 < b.cycleCount.value < CycleLimit)
      && b.healthPct <= 100
      && (b.designCapacity == 0 ==> b.healthPct == 0 && b.wearPct == 0)
      && (b.designCapacity > 0 ==> b.wearPct == 100 - b.healthPct)
      && b.currentCapacity == ChargedCapacity(b.fullChargeCapacity, b.chargePercent)
  {
  }

  /** The report line for the given readings. */
  function ReportLine(pct: nat, design: nat, full: nat, voltage: nat, rate: int, runtime: nat, cycles: nat,
                      chemistry: nat, manufacturer: string, serial: string, charging: bool, status: nat): string
  {
    Join(["FOUND", NatToString(pct), NatToString(design), NatToString(full), NatToString(voltage),
          IntToString(rate), NatToString(runtime), NatToString(cycles), NatToString(chemistry),
          manufacturer, serial, if charging then "True" else "False", NatToString(status)], "|")
  }

  /** A report line carries its readings through, each filter applied. */
  lemma ReportRoundTrip(pct: nat, design: nat, full: nat, voltage: nat, rate: int, runtime: nat, cycles: nat,
                        chemistry: nat, manufacturer: string, serial: string, charging: bool, status: nat)
    requires pct <= U32Max && voltage <= U32Max && runtime <= U32Max && cycles <= U32Max
    requires chemistry <= U32Max && status <= U32Max
    requires design <= U64Max && full <= U64Max && I32Min <= rate <= I32Max
    requires '|' !in manufacturer && '|' !in serial
    requires Trim(manufacturer) == manufacturer && Trim(serial) == serial
    ensures var b := BatteryReport(ReportLine(pct, design, full, voltage, rate, runtime, cycles,
                                              chemistry, manufacturer, serial, charging, status));
      && b.present && b.chargePercent == pct && b.designCapacity == design && b.fullChargeCapacity == full
      && b.voltage == voltage && b.chargeRate == rate
      && b.estimatedRuntime == (if runtime < RuntimeLimit then Some(runtime) else None)
      && b.cycleCount == (if 0 < cycles < CycleLimit then Some(cycles) else None)
      && b.chemistry == ChemistryName(chemistry) && b.status == StatusLabel(status, charging)
      && b.manufacturer == manufacturer && b.serial == serial
  {
    var flag := if charging then "True" else "False";
    var fields := ["FOUND", NatToString(pct), NatToString(design), NatToString(full), NatToString(voltage),
                   IntToString(rate), NatToString(runtime), NatToString(cycles), NatToString(chemistry),
                   manufacturer, serial, flag, NatToString(status)];
    var line := ReportLine(pct, design, full, voltage, rate, runtime, cycles, chemistry, manufacturer, serial, charging, status);
    assert line == Join(fields, "|");
    NatFree(pct);
    NatFree(design);
    NatFree(full);
    NatFree(voltage);
    IntFree(rate);
    NatFree(runtime);
    NatFree(cycles);
    NatFree(chemistry);
    NatFree(status);
    ReportLineShape(fields);
    assert BatteryReport(line) == FromParts(fields);
    ParseUnsignedOfNatToString(pct, U32Max);
    ParseUnsignedOfNatToString(design, U64Max);
    ParseUnsignedOfNatToString(full, U64Max);
    ParseUnsignedOfNatToString(voltage, U32Max);
    ParseSignedOfIntToString(rate, I32Min, I32Max);
    ParseUnsignedOfNatToString(runtime, U32Max);
    ParseUnsignedOfNatToString(cycles, U32Max);
    ParseUnsignedOfNatToString(chemistry, U32Max);
    ParseUnsignedOfNatToString(status, U32Max);
    FlagTrimmed(charging);
    PartsReadings(fields, pct, design, full, voltage, rate, runtime, cycles, chemistry, charging, status);
  }

  /** Fields that parse to the given readings give a record holding them. */
  lemma PartsReadings(parts: seq<string>, pct: nat, design: nat, full: nat, voltage: nat, rate: int,
                      runtime: nat, cycles: nat, chemistry: nat, charging: bool, status: nat)
    requires |parts| == ReportFields
    requires ParseU32(parts[1]) == Some(pct) && ParseU64(parts[2]) == Some(design)
    requires ParseU64(parts[3]) == Some(full) && ParseU32(parts[4]) == Some(voltage)
    requires ParseSigned(parts[5], I32Min, I32Max) == Some(rate)
    requires ParseU32(parts[6]) == Some(runtime) && ParseU32(parts[7]) == Some(cycles)
    requires ParseU32(parts[8]) == Some(chemistry) && ParseU32(parts[12]) == Some(status)
    requires Trim(parts[11]) == (if charging then "True" else "False")
    ensures var b := FromParts(parts);
      && b.present && b.chargePercent == pct && b.designCapacity == design && b.fullChargeCapacity == full
      && b.voltage == voltage && b.chargeRate == rate
      && b.estimatedRuntime == (if runtime < RuntimeLimit then Some(runtime) else None)
      && b.cycleCount == (if 0 < cycles < CycleLimit then Some(cycles) else None)
      && b.chemistry == ChemistryName(chemistry) && b.status == StatusLabel(status, charging)
      && b.manufacturer == Trim(parts[9]) && b.serial == Trim(parts[10])
  {
  }

  lemma FlagTrimmed(charging: bool)
    ensures Trim(if charging then "True" else "False") == (if charging then "True" else "False")
  {
    TrimUnchanged(if charging then "True" else "False");
  }

  /** The report line splits back into its fields, is its own trim, and is accepted. */
  lemma ReportLineShape(fields: seq<string>)
    requires |fields| == 13 && fields[0] == "FOUND"
    requires '|' !in fields[1] && '|' !in fields[2] && '|' !in fields[3] && '|' !in fields[4] && '|' !in fields[5]
    requires '|' !in fields[6] && '|' !in fields[7] && '|' !in fields[8] && '|' !in fields[9] && '|' !in fields[10]
    requires '|' !in fields[11] && '|' !in fields[12]
    requires |fields[12]| > 0 && IsDigit(fields[12][|fields[12]| - 1])
    ensures Split(Join(fields, "|"), "|") == fields
    ensures Trim(Join(fields, "|")) == Join(fields, "|")
    ensures Found(Join(fields, "|"))
  {
    FoundFree();
    ThirteenFree(fields);
    FieldsFree(fields, '|');
    SplitJoin(fields, "|");
    ReportLineTrimmed(fields);
    ReportLineFound(fields);
    Accepted(Join(fields, "|"), fields);
  }

  lemma ThirteenFree(f: seq<string>)
    requires |f| == 13
    requires '|' !in f[0] && '|' !in f[1] && '|' !in f[2] && '|' !in f[3] && '|' !in f[4] && '|' !in f[5]
    requires '|' !in f[6] && '|' !in f[7] && '|' !in f[8] && '|' !in f[9] && '|' !in f[10] && '|' !in f[11]
    requires '|' !in f[12]
    ensures forall k :: 0 <= k < |f| ==> '|' !in f[k]
  {
    forall k | 0 <= k < |f|
      ensures '|' !in f[k]
    {
      assert k == 0 || k == 1 || k == 2 || k == 3 || k == 4 || k == 5 || k == 6
          || k == 7 || k == 8 || k == 9 || k == 10 || k == 11 || k == 12;
    }
  }

  lemma Accepted(line: string, fields: seq<string>)
    requires Split(line, "|") == fields && |fields| == ReportFields && StartsWith(line, FoundPrefix)
    ensures Found(line)
  {
  }

  /** The line starts with `F` and ends with a digit, so `trim` leaves it alone. */
  lemma ReportLineTrimmed(fields: seq<string>)
    requires |fields| == 13 && fields[0] == "FOUND" && |fields[12]| > 0 && IsDigit(fields[12][|fields[12]| - 1])
    ensures Trim(Join(fields, "|")) == Join(fields, "|")
  {
    var line := Join(fields, "|");
    JoinCons("FOUND", fields[1..], "|");
    assert fields == ["FOUND"] + fields[1..];
    JoinEndsWithLast(fields, "|");
    var d := fields[12];
    assert line[|line| - 1] == d[|d| - 1];
    TrimUnchanged(line);
  }

  lemma FoundFree()
    ensures '|' !in "FOUND"
  {
  }

  lemma ReportLineFound(fields: seq<string>)
    requires |fields| == 13 && fields[0] == "FOUND"
    ensures StartsWith(Join(fields, "|"), FoundPrefix)
  {
    JoinCons("FOUND", fields[1..], "|");
    assert fields == ["FOUND"] + fields[1..];
  }
}
