/**
 * The command layer: the guard chain of `cmd_delete_file` and the rule
 * engine of `cmd_get_process_suggestions`.
 *
 * The process table is a value: the processes in the order the `sysinfo`
 * map yields them, each with its lower-casing done by `ToLower`, its
 * resident memory in whole bytes and its CPU share as an exact `real`.
 * The program compares `memory / 1048576.0` with whole megabyte
 * thresholds; that division is by a power of two, so the comparisons are
 * the byte comparisons made here.
 */
module Commands {
  import opened Wrappers
  import opened Text
  import opened Sorting
  import Fs

  const MiB: nat := 1048576

  // ---------------------------------------------------------------------
  // cmd_delete_file
  // ---------------------------------------------------------------------

  /** The system-directory guard: the lower-cased path starts with `c:\windows` or `c:\program files`. */
  predicate SystemPath(path: string)
  {
    StartsWith(ToLower(path), "c:\\windows") || StartsWith(ToLower(path), "c:\\program files")
  }

  /**
   * `cmd_delete_file`: missing path, then not a regular file, then a system
   * path, each refused without touching the volume; otherwise one
   * `remove_file`.  `sizeText` is the size in megabytes with one decimal,
   * which the program formats in floating point.
   */
  function DeleteFile(path: string, v: Fs.Volume, sizeText: string): (r: (Result<string, string>, Fs.Volume))
    ensures !Fs.Exists(v, path) ==> r == (Err("File not found"), v)
    ensures Fs.Exists(v, path) && !Fs.IsFile(v, path) ==> r == (Err("Not a file"), v)
    ensures Fs.IsFile(v, path) && SystemPath(path) ==> r == (Err("Cannot delete system files"), v)
    ensures r.0.Ok? <==> Fs.IsFile(v, path) && !SystemPath(path) && path !in v.dirs && path !in v.locked
    ensures r.0.Ok? ==> r.0.value == "Deleted " + path + " (" + sizeText + " MB)"
    ensures r.0.Ok? ==> r.1 == v.(files := v.files - {path})
    ensures r.0.Err? ==> r.1 == v
  {
    if !Fs.Exists(v, path) then (Err("File not found"), v)
    else if !Fs.IsFile(v, path) then (Err("Not a file"), v)
    else if SystemPath(path) then (Err("Cannot delete system files"), v)
    else
      var (res, v') := Fs.RemoveFile(v, path);
      match res
      case Ok(_) => (Ok("Deleted " + path + " (" + sizeText + " MB)"), v')
      case Err(e) => (Err("Failed to delete: " + Fs.IoErrorText(e)), v')
  }

  /** Upper-case letters do not get a path past the guard. */
  lemma SystemPathIgnoresCase(path: string)
    ensures SystemPath(path) <==> SystemPath(ToLower(path))
  {
    assert ToLower(ToLower(path)) == ToLower(path);
  }

  /** Whatever the outcome, no path but `path` loses or gains a file, and no directory changes. */
  lemma DeleteFileTouchesOnlyPath(path: string, v: Fs.Volume, sizeText: string)
    ensures var v' := DeleteFile(path, v, sizeText).1;
      && v'.dirs == v.dirs && v'.locked == v.locked
      && v'.files <= v.files
      && (forall p :: p != path ==> (p in v'.files <==> p in v.files))
  {
  }

  // ---------------------------------------------------------------------
  // cmd_get_process_suggestions: the process table and the name tallies
  // ---------------------------------------------------------------------

  datatype Proc = Proc(pid: nat, name: string, memory: nat, cpu: real)

  /** `PROTECTED_PROCESSES`: lower-case names never suggested. */
  const ProtectedProcesses: seq<string> := [
    "system", "smss.exe", "csrss.exe", "wininit.exe", "services.exe", "lsass.exe",
    "svchost.exe", "winlogon.exe", "dwm.exe", "explorer.exe", "taskhostw.exe",
    "runtimebroker.exe", "ntoskrnl.exe", "registry", "memory compression",
    "secure system", "system idle process"]

  /** The lower-cased names of the table, in its order. */
  function LowerNames(ps: seq<Proc>): (r: seq<string>)
    ensures |r| == |ps| && forall i :: 0 <= i < |ps| ==> r[i] == ToLower(ps[i].name)
  {
    seq(|ps|, i requires 0 <= i < |ps| => ToLower(ps[i].name))
  }

  /** The memory of the processes whose lower-cased name is `n`. */
  function NamedMemory(ps: seq<Proc>, n: string): nat
  {
    if ps == [] then 0
    else (if ToLower(ps[0].name) == n then ps[0].memory else 0) + NamedMemory(ps[1..], n)
  }

  /** `name_counts`: every lower-cased name, with the number of processes that carry it. */
  function NameCounts(ps: seq<Proc>): map<string, nat>
  {
    map n | n in LowerNames(ps) :: multiset(LowerNames(ps))[n]
  }

  /** `name_memory`: every lower-cased name, with the memory of the processes that carry it. */
  function NameMemory(ps: seq<Proc>): map<string, nat>
  {
    map n | n in LowerNames(ps) :: NamedMemory(ps, n)
  }

  lemma {:induction false} NamedMemoryAppend(ps: seq<Proc>, p: Proc, n: string)
    ensures NamedMemory(ps + [p], n) == NamedMemory(ps, n) + (if ToLower(p.name) == n then p.memory else 0)
  {
    if ps == [] {
      assert [p][1..] == [];
    } else {
      assert (ps + [p])[1..] == ps[1..] + [p];
      NamedMemoryAppend(ps[1..], p, n);
    }
  }

  /** One more process adds one instance to its own name's count. */
  lemma CountsStep(ps: seq<Proc>, p: Proc)
    ensures var n := ToLower(p.name);
      NameCounts(ps + [p]) == NameCounts(ps)[n := Instances(NameCounts(ps), n) + 1]
  {
    var n := ToLower(p.name);
    var a, b := LowerNames(ps), LowerNames(ps + [p]);
    assert b == a + [n];
    var before, after := NameCounts(ps), NameCounts(ps + [p]);
    var expected := before[n := Instances(before, n) + 1];
    assert after.Keys == expected.Keys;
    forall m | m in after
      ensures after[m] == expected[m]
    {
      assert multiset(b) == multiset(a) + multiset{n};
      if m != n {
        assert m in a;
      } else if n !in a {
        assert multiset(a)[n] == 0;
      }
    }
  }

  /** One more process adds its memory to its own name's total. */
  lemma MemoryStep(ps: seq<Proc>, p: Proc)
    ensures var n := ToLower(p.name);
      NameMemory(ps + [p]) == NameMemory(ps)[n := TotalMemory(NameMemory(ps), n) + p.memory]
  {
    var n := ToLower(p.name);
    var a, b := LowerNames(ps), LowerNames(ps + [p]);
    assert b == a + [n];
    var before, after := NameMemory(ps), NameMemory(ps + [p]);
    var expected := before[n := TotalMemory(before, n) + p.memory];
    assert after.Keys == expected.Keys;
    forall m | m in after
      ensures after[m] == expected[m]
    {
      NamedMemoryAppend(ps, p, m);
      if m != n {
        assert m in a;
      } else if n !in a {
        NamedMemoryAbsent(ps, n);
      }
    }
  }

  lemma {:induction false} NamedMemoryAbsent(ps: seq<Proc>, n: string)
    requires n !in LowerNames(ps)
    ensures NamedMemory(ps, n) == 0
  {
    if ps != [] {
      assert LowerNames(ps[1..]) == LowerNames(ps)[1..];
      NamedMemoryAbsent(ps[1..], n);
    }
  }

  lemma CountsAt(ps: seq<Proc>, i: nat)
    requires i < |ps|
    ensures var n := ToLower(ps[i].name);
      NameCounts(ps[..i + 1]) == NameCounts(ps[..i])[n := Instances(NameCounts(ps[..i]), n) + 1]
  {
    var prefix := ps[..i];
    assert ps[..i + 1] == prefix + [ps[i]];
    CountsStep(prefix, ps[i]);
  }

  lemma MemoryAt(ps: seq<Proc>, i: nat)
    requires i < |ps|
    ensures var n := ToLower(ps[i].name);
      NameMemory(ps[..i + 1]) == NameMemory(ps[..i])[n := TotalMemory(NameMemory(ps[..i]), n) + ps[i].memory]
  {
    var prefix := ps[..i];
    assert ps[..i + 1] == prefix + [ps[i]];
    MemoryStep(prefix, ps[i]);
  }

  /** The first loop of `cmd_get_process_suggestions`: count and sum per lower-cased name. */
  method TallyNames(ps: seq<Proc>) returns (counts: map<string, nat>, memory: map<string, nat>)
    ensures counts == NameCounts(ps)
    ensures memory == NameMemory(ps)
  {
    counts := map[];
    memory := map[];
    for i := 0 to |ps|
      invariant counts == NameCounts(ps[..i])
      invariant memory == NameMemory(ps[..i])
    {
      var n := ToLower(ps[i].name);
      CountsAt(ps, i);
      MemoryAt(ps, i);
      counts := counts[n := Instances(counts, n) + 1];
      memory := memory[n := TotalMemory(memory, n) + ps[i].memory];
    }
    assert ps[..|ps|] == ps;
  }

  /** A name has a tally exactly when some process carries it, and its count is at least one. */
  lemma NameCountsMeaning(ps: seq<Proc>, n: string)
    ensures n in NameCounts(ps) <==> exists i :: 0 <= i < |ps| && ToLower(ps[i].name) == n
    ensures n in NameCounts(ps) ==> NameCounts(ps)[n] >= 1 && n in NameMemory(ps)
  {
    if exists i :: 0 <= i < |ps| && ToLower(ps[i].name) == n {
      var i :| 0 <= i < |ps| && ToLower(ps[i].name) == n;
      assert LowerNames(ps)[i] == n;
    }
  }

  // ---------------------------------------------------------------------
  // The rules
  // ---------------------------------------------------------------------

  datatype Kind = Bloated | IdleHog | Duplicate | Background

  /**
   * One `ProcessSuggestion`; `safe_to_optimize` is always true.  The memory
   * is kept in bytes and the saving in exact megabytes; the reason text is
   * not modelled.
   */
  datatype Suggestion = Suggestion(pid: nat, name: string, memory: nat, cpu: real, savingsMb: real, kind: Kind)

  /** The `category` string. */
  function KindName(k: Kind): string
  {
    match k
    case Bloated => "bloated"
    case IdleHog => "idle_hog"
    case Duplicate => "duplicate"
    case Background => "background"
  }

  /** The `severity` string each rule sets. */
  function SeverityName(k: Kind): string
  {
    match k
    case Bloated => "high"
    case IdleHog => "medium"
    case Duplicate => "medium"
    case Background => "low"
  }

  /** The `sev` closure of the sort. */
  function SeverityOrder(s: string): nat
  {
    match s
    case "high" => 0
    case "medium" => 1
    case _ => 2
  }

  function MemoryMb(bytes: nat): real
  {
    bytes as real / MiB as real
  }

  /** The process a suggestion was made for. */
  function ProcOf(s: Suggestion): Proc
  {
    Proc(s.pid, s.name, s.memory, s.cpu)
  }

  /** Not protected, and at least 2 MB resident. */
  predicate Eligible(p: Proc, protected: seq<string>)
  {
    ToLower(p.name) !in protected && p.memory >= 2 * MiB
  }

  predicate BloatedRule(p: Proc)
  {
    p.memory > 200 * MiB && p.cpu < 2.0
  }

  /** The `else if` branch: only tried when the process is not bloated. */
  predicate IdleRule(p: Proc)
  {
    !BloatedRule(p) && p.memory > 50 * MiB && p.cpu < 1.0
  }

  predicate BackgroundRule(p: Proc)
  {
    p.memory > 30 * MiB && p.cpu < 0.5
  }

  /** `name_counts.get(..).unwrap_or(0)`. */
  function Instances(counts: map<string, nat>, n: string): nat
  {
    if n in counts then counts[n] else 0
  }

  /** `name_memory.get(..).unwrap_or(0.0)`. */
  function TotalMemory(memory: map<string, nat>, n: string): nat
  {
    if n in memory then memory[n] else 0
  }

  predicate DuplicateRule(p: Proc, counts: map<string, nat>, memory: map<string, nat>)
  {
    var n := ToLower(p.name);
    Instances(counts, n) > 3 && TotalMemory(memory, n) > 100 * MiB && p.memory > 20 * MiB
  }

  function BloatedOf(p: Proc): Suggestion
  {
    Suggestion(p.pid, p.name, p.memory, p.cpu, MemoryMb(p.memory) * 0.3, Bloated)
  }

  function IdleOf(p: Proc): Suggestion
  {
    Suggestion(p.pid, p.name, p.memory, p.cpu, MemoryMb(p.memory) * 0.2, IdleHog)
  }

  function DuplicateOf(p: Proc, total: nat): Suggestion
  {
    Suggestion(p.pid, p.name, p.memory, p.cpu, MemoryMb(total) * 0.15, Duplicate)
  }

  function BackgroundOf(p: Proc): Suggestion
  {
    Suggestion(p.pid, p.name, p.memory, p.cpu, MemoryMb(p.memory) * 0.15, Background)
  }

  /** The `already` test: a duplicate suggestion for this lower-cased name exists. */
  predicate HasDuplicateNamed(sugs: seq<Suggestion>, n: string)
  {
    exists i :: 0 <= i < |sugs| && sugs[i].kind == Duplicate && ToLower(sugs[i].name) == n
  }

  /** Some suggestion carries this pid. */
  predicate HasPid(sugs: seq<Suggestion>, pid: nat)
  {
    exists i :: 0 <= i < |sugs| && sugs[i].pid == pid
  }

  /** What the second loop pushes for `p`, given the suggestions made before it. */
  function Pushed(sugs: seq<Suggestion>, p: Proc, counts: map<string, nat>, memory: map<string, nat>,
                  protected: seq<string>): seq<Suggestion>
  {
    if !Eligible(p, protected) then []
    else
      var n := ToLower(p.name);
      var first := FirstPush(p);
      var dup := if DuplicateRule(p, counts, memory) && !HasDuplicateNamed(sugs + first, n)
        then [DuplicateOf(p, TotalMemory(memory, n))] else [];
      var bg := if BackgroundRule(p) && !HasPid(sugs + first + dup, p.pid) then [BackgroundOf(p)] else [];
      first + dup + bg
  }

  /** The suggestions, unsorted, after the loop has visited `ps`. */
  function Candidates(ps: seq<Proc>, counts: map<string, nat>, memory: map<string, nat>,
                      protected: seq<string>): seq<Suggestion>
  {
    if ps == [] then []
    else
      var before := Candidates(ps[..|ps| - 1], counts, memory, protected);
      before + Pushed(before, ps[|ps| - 1], counts, memory, protected)
  }

  /** High first, then medium, then the rest; within a severity, more memory first. */
  function SuggestionRank(s: Suggestion): Rank
  {
    Rank(SeverityOrder(SeverityName(s.kind)), s.memory)
  }

  /** The sort key puts "bloated" first, "idle_hog" and "duplicate" next, "background" last. */
  lemma RankBySeverity(s: Suggestion)
    ensures SuggestionRank(s).tier == 0 <==> s.kind == Bloated
    ensures SuggestionRank(s).tier == 1 <==> s.kind == IdleHog || s.kind == Duplicate
    ensures SuggestionRank(s).tier == 2 <==> s.kind == Background
    ensures SuggestionRank(s).weight == s.memory
  {
  }

  const MaxSuggestions: nat := 50

  /** What `cmd_get_process_suggestions` returns for a process table. */
  function Suggestions(ps: seq<Proc>, protected: seq<string>): seq<Suggestion>
  {
    Take(SortBy(Candidates(ps, NameCounts(ps), NameMemory(ps), protected), SuggestionRank), MaxSuggestions)
  }

  /** `cmd_get_process_suggestions` against `PROTECTED_PROCESSES`. */
  method GetProcessSuggestions(ps: seq<Proc>) returns (suggestions: seq<Suggestion>)
    ensures suggestions == Suggestions(ps, ProtectedProcesses)
  {
    suggestions := SuggestFor(ps, ProtectedProcesses);
  }

  /** The two loops, the sort and the truncation, for a given protected list. */
  method SuggestFor(ps: seq<Proc>, protected: seq<string>) returns (suggestions: seq<Suggestion>)
    ensures suggestions == Suggestions(ps, protected)
  {
    var counts, memory := TallyNames(ps);
    suggestions := [];
    for i := 0 to |ps|
      invariant suggestions == Candidates(ps[..i], counts, memory, protected)
    {
      assert ps[..i + 1][..i] == ps[..i];
      suggestions := PushFor(suggestions, ps[i], counts, memory, protected);
    }
    assert ps[..|ps|] == ps;
    suggestions := SortBy(suggestions, SuggestionRank);
    if |suggestions| > MaxSuggestions {
      suggestions := suggestions[..MaxSuggestions];
    }
  }

  /** The body of the second loop for one process. */
  method PushFor(sugs: seq<Suggestion>, p: Proc, counts: map<string, nat>, memory: map<string, nat>,
                 protected: seq<string>) returns (sugs': seq<Suggestion>)
    ensures sugs' == sugs + Pushed(sugs, p, counts, memory, protected)
  {
    sugs' := sugs;
    var n := ToLower(p.name);
    if n in protected || p.memory < 2 * MiB {
      return;
    }
    if p.memory > 200 * MiB && p.cpu < 2.0 {
      sugs' := sugs' + [BloatedOf(p)];
    } else if p.memory > 50 * MiB && p.cpu < 1.0 {
      sugs' := sugs' + [IdleOf(p)];
    }
    ghost var afterFirst := sugs';
    var count := if n in counts then counts[n] else 0;
    var total := if n in memory then memory[n] else 0;
    if count > 3 && total > 100 * MiB && p.memory > 20 * MiB {
      var already := HasDuplicateNamed(sugs', n);
      if !already {
        sugs' := sugs' + [DuplicateOf(p, total)];
      }
    }
    ghost var first := FirstPush(p);
    ghost var dup := if DuplicateRule(p, counts, memory) && !HasDuplicateNamed(sugs + first, n)
      then [DuplicateOf(p, TotalMemory(memory, n))] else [];
    assert afterFirst == sugs + first;
    assert sugs' == sugs + first + dup;
    if p.memory > 30 * MiB && p.cpu < 0.5 && !HasPid(sugs', p.pid) {
      sugs' := sugs' + [BackgroundOf(p)];
    }
  }

  // ---------------------------------------------------------------------
  // Properties of the rules
  // ---------------------------------------------------------------------

  /** `s` is one of the four suggestions the rules can make for process `q`. */
  predicate MadeFor(s: Suggestion, q: Proc, memory: map<string, nat>)
  {
    || s == BloatedOf(q) || s == IdleOf(q)
    || s == DuplicateOf(q, TotalMemory(memory, ToLower(q.name))) || s == BackgroundOf(q)
  }

  lemma HasPidAppend(a: seq<Suggestion>, b: seq<Suggestion>, pid: nat)
    ensures HasPid(a + b, pid) <==> HasPid(a, pid) || HasPid(b, pid)
  {
    if HasPid(a + b, pid) {
      var i :| 0 <= i < |a + b| && (a + b)[i].pid == pid;
      if i >= |a| {
        assert b[i - |a|].pid == pid;
      }
    }
    if HasPid(b, pid) {
      var i :| 0 <= i < |b| && b[i].pid == pid;
      assert (a + b)[|a| + i] == b[i];
    }
    if HasPid(a, pid) {
      var i :| 0 <= i < |a| && a[i].pid == pid;
      assert (a + b)[i] == a[i];
    }
  }

  lemma HasDuplicateNamedAppend(a: seq<Suggestion>, b: seq<Suggestion>, n: string)
    ensures HasDuplicateNamed(a + b, n) <==> HasDuplicateNamed(a, n) || HasDuplicateNamed(b, n)
  {
    if HasDuplicateNamed(a + b, n) {
      var i :| 0 <= i < |a + b| && (a + b)[i].kind == Duplicate && ToLower((a + b)[i].name) == n;
      if i >= |a| {
        assert b[i - |a|] == (a + b)[i];
      }
    }
    if HasDuplicateNamed(b, n) {
      var i :| 0 <= i < |b| && b[i].kind == Duplicate && ToLower(b[i].name) == n;
      assert (a + b)[|a| + i] == b[i];
    }
    if HasDuplicateNamed(a, n) {
      var i :| 0 <= i < |a| && a[i].kind == Duplicate && ToLower(a[i].name) == n;
      assert (a + b)[i] == a[i];
    }
  }

  /** The rule that admits a suggestion of this kind holds for its process. */
  predicate RuleHolds(s: Suggestion, counts: map<string, nat>, memory: map<string, nat>)
  {
    match s.kind
    case Bloated => BloatedRule(ProcOf(s))
    case IdleHog => IdleRule(ProcOf(s))
    case Duplicate => DuplicateRule(ProcOf(s), counts, memory)
    case Background => BackgroundRule(ProcOf(s))
  }

  /** The pushes of one step, named. */
  function FirstPush(p: Proc): seq<Suggestion>
  {
    if BloatedRule(p) then [BloatedOf(p)] else if IdleRule(p) then [IdleOf(p)] else []
  }

  /** Everything pushed is for `p`, only when `p` is eligible, and at most two suggestions. */
  lemma PushedFor(sugs: seq<Suggestion>, p: Proc, counts: map<string, nat>, memory: map<string, nat>, protected: seq<string>)
    ensures var r := Pushed(sugs, p, counts, memory, protected);
      && |r| <= 2
      && (r != [] ==> Eligible(p, protected))
      && (forall i :: 0 <= i < |r| ==> ProcOf(r[i]) == p && MadeFor(r[i], p, memory) && RuleHolds(r[i], counts, memory))
  {
    var n := ToLower(p.name);
    var first := FirstPush(p);
    var dup := if DuplicateRule(p, counts, memory) && !HasDuplicateNamed(sugs + first, n)
      then [DuplicateOf(p, TotalMemory(memory, n))] else [];
    if first + dup != [] {
      assert (first + dup)[0].pid == p.pid;
      HasPidAppend(sugs, first + dup, p.pid);
      assert sugs + first + dup == sugs + (first + dup);
    }
  }

  /** At most one of "bloated" and "idle_hog", each exactly under its rule. */
  lemma PushedFirst(sugs: seq<Suggestion>, p: Proc, counts: map<string, nat>, memory: map<string, nat>, protected: seq<string>)
    ensures var r := Pushed(sugs, p, counts, memory, protected);
      && (BloatedOf(p) in r <==> Eligible(p, protected) && BloatedRule(p))
      && (IdleOf(p) in r <==> Eligible(p, protected) && IdleRule(p))
      && !(BloatedOf(p) in r && IdleOf(p) in r)
  {
  }

  /** "duplicate" exactly under its rule when no suggestion of that kind names the process yet. */
  lemma PushedDuplicate(sugs: seq<Suggestion>, p: Proc, counts: map<string, nat>, memory: map<string, nat>, protected: seq<string>)
    ensures var n := ToLower(p.name);
      var r := Pushed(sugs, p, counts, memory, protected);
      && (DuplicateOf(p, TotalMemory(memory, n)) in r <==>
            Eligible(p, protected) && DuplicateRule(p, counts, memory) && !HasDuplicateNamed(sugs, n))
      && (forall k :: 0 <= k < |r| && r[k].kind == Duplicate ==> !HasDuplicateNamed(sugs, n))
      && (forall k, l :: 0 <= k < l < |r| ==> r[k].kind != Duplicate || r[l].kind != Duplicate)
  {
    var n := ToLower(p.name);
    HasDuplicateNamedAppend(sugs, FirstPush(p), n);
  }

  /** "background" only for a process with no other suggestion, and then as its only one. */
  lemma PushedBackground(sugs: seq<Suggestion>, p: Proc, counts: map<string, nat>, memory: map<string, nat>, protected: seq<string>)
    ensures var n := ToLower(p.name);
      var r := Pushed(sugs, p, counts, memory, protected);
      && (BackgroundOf(p) in r ==> r == [BackgroundOf(p)] && !HasPid(sugs, p.pid))
      && (BackgroundOf(p) in r <==>
            && Eligible(p, protected) && BackgroundRule(p) && !HasPid(sugs, p.pid)
            && !BloatedRule(p) && !IdleRule(p)
            && !(DuplicateRule(p, counts, memory) && !HasDuplicateNamed(sugs, n)))
  {
    var n := ToLower(p.name);
    var first := FirstPush(p);
    HasDuplicateNamedAppend(sugs, first, n);
    var dup := if DuplicateRule(p, counts, memory) && !HasDuplicateNamed(sugs + first, n)
      then [DuplicateOf(p, TotalMemory(memory, n))] else [];
    HasPidAppend(sugs, first + dup, p.pid);
    assert sugs + first + dup == sugs + (first + dup);
    if first + dup != [] {
      assert (first + dup)[0].pid == p.pid;
    }
  }

  // ---------------------------------------------------------------------
  // Properties of the whole list
  // ---------------------------------------------------------------------

  /** `sysinfo` keys its table by pid. */
  predicate DistinctPids(ps: seq<Proc>)
  {
    forall i, j :: 0 <= i < j < |ps| ==> ps[i].pid != ps[j].pid
  }

  /** `s` was made for an eligible process of `ps` by the rule of its kind. */
  predicate Sound(s: Suggestion, ps: seq<Proc>, counts: map<string, nat>, memory: map<string, nat>, protected: seq<string>)
  {
    && ProcOf(s) in ps && Eligible(ProcOf(s), protected)
    && MadeFor(s, ProcOf(s), memory) && RuleHolds(s, counts, memory)
  }

  predicate AllSound(c: seq<Suggestion>, ps: seq<Proc>, counts: map<string, nat>, memory: map<string, nat>, protected: seq<string>)
  {
    forall i :: 0 <= i < |c| ==> Sound(c[i], ps, counts, memory, protected)
  }

  /**
   * Every candidate is one of the suggestions the rules can make for an
   * eligible process of the table, and the rule of its kind holds.
   */
  lemma {:induction false} CandidatesSound(ps: seq<Proc>, counts: map<string, nat>, memory: map<string, nat>, protected: seq<string>)
    ensures AllSound(Candidates(ps, counts, memory, protected), ps, counts, memory, protected)
  {
    if ps != [] {
      var init, p := ps[..|ps| - 1], ps[|ps| - 1];
      assert ps == init + [p];
      var before := Candidates(init, counts, memory, protected);
      var r := Pushed(before, p, counts, memory, protected);
      CandidatesSound(init, counts, memory, protected);
      PushedFor(before, p, counts, memory, protected);
      var c := before + r;
      assert Candidates(ps, counts, memory, protected) == c;
      forall i | 0 <= i < |c|
        ensures Sound(c[i], ps, counts, memory, protected)
      {
        if i < |before| {
          assert c[i] == before[i];
          assert Sound(before[i], init, counts, memory, protected);
        } else {
          assert c[i] == r[i - |before|];
        }
      }
    }
  }

  /**
   * An eligible process of the table that meets the "bloated" or "idle_hog"
   * rule gets that suggestion, and one that meets the "duplicate" rule has
   * a duplicate suggestion for its name (its own or an earlier instance's).
   */
  lemma {:induction false} CandidatesComplete(ps: seq<Proc>, counts: map<string, nat>, memory: map<string, nat>,
                                              protected: seq<string>, p: Proc)
    requires p in ps && Eligible(p, protected)
    ensures var c := Candidates(ps, counts, memory, protected);
      && (BloatedRule(p) ==> BloatedOf(p) in c)
      && (IdleRule(p) ==> IdleOf(p) in c)
      && (DuplicateRule(p, counts, memory) ==> HasDuplicateNamed(c, ToLower(p.name)))
  {
    var init, last := ps[..|ps| - 1], ps[|ps| - 1];
    assert ps == init + [last];
    var before := Candidates(init, counts, memory, protected);
    var r := Pushed(before, last, counts, memory, protected);
    var n := ToLower(p.name);
    HasDuplicateNamedAppend(before, r, n);
    if p == last {
      PushedFirst(before, p, counts, memory, protected);
      PushedDuplicate(before, p, counts, memory, protected);
      if DuplicateRule(p, counts, memory) && !HasDuplicateNamed(before, n) {
        var d := DuplicateOf(p, TotalMemory(memory, n));
        var k :| 0 <= k < |r| && r[k] == d;
        assert r[k].kind == Duplicate && ToLower(r[k].name) == n;
      }
    } else {
      assert p in init;
      CandidatesComplete(init, counts, memory, protected, p);
    }
  }

  predicate DuplicateNamesDistinct(c: seq<Suggestion>)
  {
    forall i, j :: 0 <= i < j < |c| && c[i].kind == Duplicate && c[j].kind == Duplicate ==>
      ToLower(c[i].name) != ToLower(c[j].name)
  }

  predicate BackgroundsAlone(c: seq<Suggestion>)
  {
    forall i, j :: 0 <= i < |c| && 0 <= j < |c| && i != j && c[i].pid == c[j].pid ==> c[i].kind != Background
  }

  /** No two "duplicate" suggestions share a lower-cased name. */
  lemma {:induction false} DuplicatesPerName(ps: seq<Proc>, counts: map<string, nat>, memory: map<string, nat>, protected: seq<string>)
    ensures DuplicateNamesDistinct(Candidates(ps, counts, memory, protected))
  {
    if ps != [] {
      var init, p := ps[..|ps| - 1], ps[|ps| - 1];
      var before := Candidates(init, counts, memory, protected);
      var r := Pushed(before, p, counts, memory, protected);
      DuplicatesPerName(init, counts, memory, protected);
      PushedFor(before, p, counts, memory, protected);
      PushedDuplicate(before, p, counts, memory, protected);
      var c := before + r;
      assert Candidates(ps, counts, memory, protected) == c;
      forall i, j | 0 <= i < j < |c| && c[i].kind == Duplicate && c[j].kind == Duplicate
        ensures ToLower(c[i].name) != ToLower(c[j].name)
      {
        if j >= |before| {
          assert c[j] == r[j - |before|];
          if i < |before| {
            assert c[i] == before[i];
            assert !HasDuplicateNamed(before, ToLower(p.name));
          } else {
            assert false;
          }
        } else {
          assert c[i] == before[i] && c[j] == before[j];
        }
      }
    }
  }

  /** With the table keyed by pid, a "background" suggestion is the only one for its process. */
  lemma {:induction false} BackgroundAlone(ps: seq<Proc>, counts: map<string, nat>, memory: map<string, nat>, protected: seq<string>)
    requires DistinctPids(ps)
    ensures BackgroundsAlone(Candidates(ps, counts, memory, protected))
  {
    if ps != [] {
      var init, p := ps[..|ps| - 1], ps[|ps| - 1];
      assert ps == init + [p];
      var before := Candidates(init, counts, memory, protected);
      var r := Pushed(before, p, counts, memory, protected);
      BackgroundAlone(init, counts, memory, protected);
      CandidatesSound(init, counts, memory, protected);
      PushedFor(before, p, counts, memory, protected);
      PushedBackground(before, p, counts, memory, protected);
      var c := before + r;
      assert Candidates(ps, counts, memory, protected) == c;
      forall i, j | 0 <= i < |c| && 0 <= j < |c| && i != j && c[i].pid == c[j].pid
        ensures c[i].kind != Background
      {
        if i < |before| && j < |before| {
          assert c[i] == before[i] && c[j] == before[j];
        } else if i >= |before| && j >= |before| {
          assert c[i] == r[i - |before|] && c[j] == r[j - |before|];
        } else {
          var k := if i < |before| then i else j;
          assert c[k] == before[k];
          assert Sound(before[k], init, counts, memory, protected);
          EarlierPid(ps, ProcOf(before[k]));
        }
      }
    }
  }

  lemma EarlierPid(ps: seq<Proc>, q: Proc)
    requires DistinctPids(ps) && ps != [] && q in ps[..|ps| - 1]
    ensures q.pid != ps[|ps| - 1].pid
  {
    var k :| 0 <= k < |ps| - 1 && ps[..|ps| - 1][k] == q;
    assert ps[k] == q;
  }

  /**
   * The list returned: at most 50 suggestions, high before medium before
   * low and more memory first within a severity, drawn from the candidates
   * (all of them when there are no more than 50), and none for a
   * protected or small process.
   */
  lemma SuggestionsShape(ps: seq<Proc>, protected: seq<string>)
    ensures var r := Suggestions(ps, protected);
      var c := Candidates(ps, NameCounts(ps), NameMemory(ps), protected);
      && |r| <= MaxSuggestions && SortedBy(r, SuggestionRank)
      && multiset(r) <= multiset(c)
      && (|c| <= MaxSuggestions ==> multiset(r) == multiset(c))
      && (forall i :: 0 <= i < |r| ==> ProcOf(r[i]) in ps && Eligible(ProcOf(r[i]), protected))
  {
    var c := Candidates(ps, NameCounts(ps), NameMemory(ps), protected);
    var sorted := SortBy(c, SuggestionRank);
    var r := Take(sorted, MaxSuggestions);
    TakeSorted(sorted, MaxSuggestions, SuggestionRank);
    if |sorted| > MaxSuggestions {
      assert sorted == r + sorted[MaxSuggestions..];
    }
    assert multiset(r) <= multiset(sorted);
    CandidatesSound(ps, NameCounts(ps), NameMemory(ps), protected);
    forall i | 0 <= i < |r|
      ensures ProcOf(r[i]) in ps && Eligible(ProcOf(r[i]), protected)
    {
      assert r[i] in multiset(c);
    }
  }
}
