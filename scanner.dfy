/**
 * The scanner: the bounded large-file walk with its extension categories and
 * age labels, the driver listing read from `driverquery` and a PnP query,
 * and which browser caches and privacy items the clean-up commands accept.
 *
 * The directory tree is a value; the walk is specified by `Walk`, which
 * threads the list of files found so far exactly as `scan_dir_recursive`
 * threads its `&mut Vec`, because the result bound is checked against that
 * list.  Sizes are whole bytes: the source's `size_mb` is the byte count
 * divided by 1048576 in floating point, which orders files the same way.
 */
module Scanner {
  import opened Wrappers
  import opened Text
  import opened Parsing
  import opened Shell
  import opened Sorting
  import Duplicates
  import opened Categories

  const U64Modulus: nat := 18446744073709551616
  /** Seconds since the Unix epoch, as `u64`. */
  type U64 = Duplicates.U64
  const BytesPerMb: nat := 1048576
  const SecondsPerDay: nat := 86400
  /** The depth `scan_large_files` gives each root: its entries, and two levels below. */
  const StartDepth: nat := 3

  // ---------------------------------------------------------------------
  // Categories and ages
  // ---------------------------------------------------------------------

  /** The lower-cased extension of a file name, or "" when it has none. */
  function FileExtension(name: string): string
  {
    match Duplicates.Extension(name)
    case Some(e) => ToLower(e)
    case None => ""
  }

  /**
   * Whole days from `secs` (the modification time) to `now`, both seconds
   * since the Unix epoch, with the `u64` subtraction wrapping as it does in
   * a release build when the file is dated after `now`.
   */
  function DaysAgo(now: U64, secs: U64): (d: nat)
    ensures secs <= now ==> d == (now - secs) / SecondsPerDay
  {
    ((now - secs) % U64Modulus) / SecondsPerDay
  }

  /** The age label of a file; `modified` is None when the time cannot be read or is before the epoch. */
  function AgeLabel(now: U64, modified: Option<U64>): (r: string)
    ensures r == "Unknown" <==> modified.None?
    ensures r == "Today" <==> modified.Some? && DaysAgo(now, modified.value) == 0
    ensures r == "Yesterday" <==> modified.Some? && DaysAgo(now, modified.value) == 1
    ensures modified.Some? && DaysAgo(now, modified.value) >= 2 ==>
      r == NatToString(DaysAgo(now, modified.value)) + " days ago"
  {
    match modified
    case None => "Unknown"
    case Some(secs) =>
      var days := DaysAgo(now, secs);
      if days == 0 then "Today"
      else if days == 1 then "Yesterday"
      else
        var s := NatToString(days) + " days ago";
        assert |s| >= 10;
        s
  }

  /** Files of different ages, in whole days, are labelled differently. */
  lemma AgeLabelsDistinct(now: U64, a: U64, b: U64)
    requires DaysAgo(now, a) != DaysAgo(now, b)
    ensures AgeLabel(now, Some(a)) != AgeLabel(now, Some(b))
  {
    var m, n := DaysAgo(now, a), DaysAgo(now, b);
    if m >= 2 && n >= 2 {
      var x, y := NatToString(m), NatToString(n);
      if x + " days ago" == y + " days ago" {
        assert |x| == |y|;
        assert x == (x + " days ago")[..|x|];
        assert y == (y + " days ago")[..|y|];
        NatToStringInjective(m, n);
      }
    }
  }

  // ---------------------------------------------------------------------
  // The directory tree and the walk
  // ---------------------------------------------------------------------

  /** An entry of a directory listing; `Other` is one whose metadata cannot be read. */
  datatype Node =
    | File(name: string, size: nat, modified: Option<U64>)
    | Dir(name: string, readable: bool, children: seq<Node>)
    | Other(name: string)

  /** The listing of a root folder; `readable` is false when `read_dir` fails. */
  datatype Listing = Listing(readable: bool, entries: seq<Node>)

  datatype LargeFile = LargeFile(path: string, size: nat, extension: string, category: string, modified: string)

  const SkipDirs: set<string> := {"Windows", "Program Files", "Program Files (x86)", "$Recycle.Bin",
                                  "System Volume Information", ".git", "node_modules", "target", "AppData"}

  /** A directory name the walk does not enter: one of `SkipDirs`, ignoring ASCII case. */
  predicate Skipped(name: string)
  {
    exists s :: s in SkipDirs && EqIgnoreAsciiCase(name, s)
  }

  /** `min_size_mb * 1_048_576` in `u64`, wrapping in a release build. */
  function MinBytes(minSizeMb: nat): nat
  {
    (minSizeMb * BytesPerMb) % U64Modulus
  }

  function Record(dir: string, name: string, size: nat, modified: Option<U64>, now: U64): LargeFile
  {
    var ext := FileExtension(name);
    LargeFile(Duplicates.ChildPath(dir, name), size, ext, Category(ext), AgeLabel(now, modified))
  }

  /** What `scan_dir_recursive(dir, …, files, depth, max)` leaves in `files`. */
  function Walk(files: seq<LargeFile>, dir: string, readable: bool, entries: seq<Node>,
                minBytes: nat, depth: nat, max: nat, now: U64): seq<LargeFile>
    decreases entries, 1, 0
  {
    if depth == 0 || |files| >= max || !readable then files
    else WalkFrom(files, dir, entries, 0, minBytes, depth, max, now)
  }

  /** The walk from entry `i` of a listing on, checking the bound before each entry. */
  function WalkFrom(files: seq<LargeFile>, dir: string, entries: seq<Node>, i: nat,
                    minBytes: nat, depth: nat, max: nat, now: U64): seq<LargeFile>
    requires i <= |entries| && depth > 0
    decreases entries, 0, |entries| - i
  {
    if i == |entries| || |files| >= max then files
    else WalkFrom(Visit(files, dir, entries, i, minBytes, depth, max, now), dir, entries, i + 1, minBytes, depth, max, now)
  }

  /** One entry: a large enough file is recorded, a directory not skipped is walked one level down. */
  function Visit(files: seq<LargeFile>, dir: string, entries: seq<Node>, i: nat,
                 minBytes: nat, depth: nat, max: nat, now: U64): seq<LargeFile>
    requires i < |entries| && depth > 0
    decreases entries, 0, 0
  {
    match entries[i]
    case File(name, size, modified) =>
      if size >= minBytes
      then files + [Record(dir, name, size, modified, now)]
      else files
    case Dir(name, r, children) =>
      if Skipped(name) then files
      else Walk(files, Duplicates.ChildPath(dir, name), r, children, minBytes, depth - 1, max, now)
    case Other(_) => files
  }

  /** `scan_dir_recursive`. */
  method ScanDirRecursive(dir: string, readable: bool, entries: seq<Node>, files: seq<LargeFile>,
                          minBytes: nat, depth: nat, max: nat, now: U64)
    returns (files': seq<LargeFile>)
    ensures files' == Walk(files, dir, readable, entries, minBytes, depth, max, now)
    decreases entries
  {
    files' := files;
    if depth == 0 || |files'| >= max {
      return;
    }
    if !readable {
      return;
    }
    for i := 0 to |entries|
      invariant WalkFrom(files', dir, entries, i, minBytes, depth, max, now)
             == Walk(files, dir, readable, entries, minBytes, depth, max, now)
    {
      if |files'| >= max {
        return;
      }
      match entries[i] {
        case File(name, size, modified) =>
          if size >= minBytes {
            files' := files' + [Record(dir, name, size, modified, now)];
          }
        case Dir(name, r, children) =>
          if !Skipped(name) {
            files' := ScanDirRecursive(Duplicates.ChildPath(dir, name), r, children, files', minBytes, depth - 1, max, now);
          }
        case Other(_) =>
      }
    }
  }

  /** The roots `scan_large_files` walks: the user profile (skipped when unset) and `C:\`. */
  function Roots(userProfile: Option<string>): seq<string>
  {
    [userProfile.GetOr(""), "C:\\"]
  }

  /** The walks of the roots from `i` on, stopping once `max` files are found. */
  function GatherFrom(files: seq<LargeFile>, roots: seq<string>, i: nat, listing: string -> Listing,
                      minBytes: nat, max: nat, now: U64): seq<LargeFile>
    requires i <= |roots|
    decreases |roots| - i
  {
    if i == |roots| then files
    else if roots[i] == "" then GatherFrom(files, roots, i + 1, listing, minBytes, max, now)
    else
      var l := listing(roots[i]);
      var found := Walk(files, roots[i], l.readable, l.entries, minBytes, StartDepth, max, now);
      if |found| >= max then found else GatherFrom(found, roots, i + 1, listing, minBytes, max, now)
  }

  function SizeRank(f: LargeFile): Rank
  {
    Rank(0, f.size)
  }

  /** What `scan_large_files` returns: the files found, largest first, at most `maxResults` of them. */
  function LargeFiles(userProfile: Option<string>, listing: string -> Listing, minSizeMb: nat, maxResults: nat,
                      now: U64): seq<LargeFile>
  {
    var found := GatherFrom([], Roots(userProfile), 0, listing, MinBytes(minSizeMb), maxResults, now);
    Take(SortBy(found, SizeRank), maxResults)
  }

  /** `scan_large_files`; `listing` gives what `read_dir` sees at each root and `now` the clock. */
  method ScanLargeFiles(userProfile: Option<string>, listing: string -> Listing, minSizeMb: nat, maxResults: nat,
                        now: U64)
    returns (files: seq<LargeFile>)
    ensures files == LargeFiles(userProfile, listing, minSizeMb, maxResults, now)
  {
    var minBytes := MinBytes(minSizeMb);
    var roots := Roots(userProfile);
    ghost var total := GatherFrom([], roots, 0, listing, minBytes, maxResults, now);
    files := [];
    var i := 0;
    while i < |roots|
      invariant 0 <= i <= |roots|
      invariant GatherFrom(files, roots, i, listing, minBytes, maxResults, now) == total
    {
      if roots[i] != "" {
        var l := listing(roots[i]);
        files := ScanDirRecursive(roots[i], l.readable, l.entries, files, minBytes, StartDepth, maxResults, now);
        if |files| >= maxResults {
          break;
        }
      }
      i := i + 1;
    }
    files := SortBy(files, SizeRank);
    files := Take(files, maxResults);
  }

  // ---------------------------------------------------------------------
  // Properties of the walk
  // ---------------------------------------------------------------------

  /** A recorded file: at least `minBytes`, and categorised by its own extension. */
  predicate Recorded(f: LargeFile, minBytes: nat)
  {
    f.size >= minBytes && f.category == Category(f.extension)
  }

  /**
   * `after` extends `before` with recorded files only, and does not pass
   * `max` unless `before` already did.
   */
  predicate Grown(before: seq<LargeFile>, after: seq<LargeFile>, minBytes: nat, max: nat)
  {
    && |before| <= |after| && after[..|before|] == before
    && (forall k :: |before| <= k < |after| ==> Recorded(after[k], minBytes))
    && (|before| <= max ==> |after| <= max)
  }

  lemma GrownRefl(files: seq<LargeFile>, minBytes: nat, max: nat)
    ensures Grown(files, files, minBytes, max)
  {
    assert files[..|files|] == files;
  }

  lemma GrownTrans(a: seq<LargeFile>, b: seq<LargeFile>, c: seq<LargeFile>, minBytes: nat, max: nat)
    requires Grown(a, b, minBytes, max) && Grown(b, c, minBytes, max)
    ensures Grown(a, c, minBytes, max)
  {
    assert c[..|a|] == c[..|b|][..|a|];
    forall k | |a| <= k < |c|
      ensures Recorded(c[k], minBytes)
    {
      if k < |b| {
        assert c[k] == c[..|b|][k];
      }
    }
  }

  lemma {:induction false} WalkGrown(files: seq<LargeFile>, dir: string, readable: bool, entries: seq<Node>,
                                     minBytes: nat, depth: nat, max: nat, now: U64)
    ensures Grown(files, Walk(files, dir, readable, entries, minBytes, depth, max, now), minBytes, max)
    decreases entries, 1, 0
  {
    if depth == 0 || |files| >= max || !readable {
      GrownRefl(files, minBytes, max);
    } else {
      WalkFromGrown(files, dir, entries, 0, minBytes, depth, max, now);
    }
  }

  lemma {:induction false} WalkFromGrown(files: seq<LargeFile>, dir: string, entries: seq<Node>, i: nat,
                                         minBytes: nat, depth: nat, max: nat, now: U64)
    requires i <= |entries| && depth > 0
    ensures Grown(files, WalkFrom(files, dir, entries, i, minBytes, depth, max, now), minBytes, max)
    decreases entries, 0, |entries| - i
  {
    if i == |entries| || |files| >= max {
      GrownRefl(files, minBytes, max);
    } else {
      var next := Visit(files, dir, entries, i, minBytes, depth, max, now);
      VisitGrown(files, dir, entries, i, minBytes, depth, max, now);
      WalkFromGrown(next, dir, entries, i + 1, minBytes, depth, max, now);
      GrownTrans(files, next, WalkFrom(next, dir, entries, i + 1, minBytes, depth, max, now), minBytes, max);
    }
  }

  lemma {:induction false} VisitGrown(files: seq<LargeFile>, dir: string, entries: seq<Node>, i: nat,
                                      minBytes: nat, depth: nat, max: nat, now: U64)
    requires i < |entries| && depth > 0 && |files| < max
    ensures Grown(files, Visit(files, dir, entries, i, minBytes, depth, max, now), minBytes, max)
    decreases entries, 0, 0
  {
    match entries[i]
    case File(name, size, modified) =>
      if size >= minBytes {
        var r := files + [Record(dir, name, size, modified, now)];
        assert r[..|files|] == files;
      } else {
        GrownRefl(files, minBytes, max);
      }
    case Dir(name, r, children) =>
      if Skipped(name) {
        GrownRefl(files, minBytes, max);
      } else {
        WalkGrown(files, Duplicates.ChildPath(dir, name), r, children, minBytes, depth - 1, max, now);
      }
    case Other(_) =>
      GrownRefl(files, minBytes, max);
  }

  lemma {:induction false} GatherGrown(files: seq<LargeFile>, roots: seq<string>, i: nat, listing: string -> Listing,
                                       minBytes: nat, max: nat, now: U64)
    requires i <= |roots|
    ensures Grown(files, GatherFrom(files, roots, i, listing, minBytes, max, now), minBytes, max)
    decreases |roots| - i
  {
    if i == |roots| {
      GrownRefl(files, minBytes, max);
    } else if roots[i] == "" {
      GatherGrown(files, roots, i + 1, listing, minBytes, max, now);
    } else {
      var l := listing(roots[i]);
      var found := Walk(files, roots[i], l.readable, l.entries, minBytes, StartDepth, max, now);
      WalkGrown(files, roots[i], l.readable, l.entries, minBytes, StartDepth, max, now);
      if |found| < max {
        GatherGrown(found, roots, i + 1, listing, minBytes, max, now);
        GrownTrans(files, found, GatherFrom(found, roots, i + 1, listing, minBytes, max, now), minBytes, max);
      }
    }
  }

  /**
   * The walk itself never finds more than `maxResults` files, so the final
   * truncation drops none: the result is every file found, largest first,
   * each at least the minimum size and categorised by its extension.
   */
  lemma LargeFilesShape(userProfile: Option<string>, listing: string -> Listing, minSizeMb: nat, maxResults: nat,
                        now: U64)
    ensures var r := LargeFiles(userProfile, listing, minSizeMb, maxResults, now);
      && |r| <= maxResults
      && SortedBy(r, SizeRank)
      && multiset(r) == multiset(GatherFrom([], Roots(userProfile), 0, listing, MinBytes(minSizeMb), maxResults, now))
      && (forall k :: 0 <= k < |r| ==> Recorded(r[k], MinBytes(minSizeMb)))
  {
    var found := GatherFrom([], Roots(userProfile), 0, listing, MinBytes(minSizeMb), maxResults, now);
    GatherGrown([], Roots(userProfile), 0, listing, MinBytes(minSizeMb), maxResults, now);
    var sorted := SortBy(found, SizeRank);
    assert Take(sorted, maxResults) == sorted;
    forall k | 0 <= k < |sorted|
      ensures Recorded(sorted[k], MinBytes(minSizeMb))
    {
      assert sorted[k] in multiset(found);
      var j :| 0 <= j < |found| && found[j] == sorted[k];
    }
  }

  /**
   * What lies inside a skipped directory, or inside any directory at the
   * last level (depth 1), never affects the result.
   */
  lemma DirContentsIgnored(files: seq<LargeFile>, dir: string, readable: bool, entries: seq<Node>, i: nat,
                           minBytes: nat, depth: nat, max: nat, now: U64, readable': bool, children': seq<Node>)
    requires i < |entries| && entries[i].Dir?
    requires Skipped(entries[i].name) || depth == 1
    ensures Walk(files, dir, readable, entries, minBytes, depth, max, now)
         == Walk(files, dir, readable, entries[i := Dir(entries[i].name, readable', children')], minBytes, depth, max, now)
  {
    if depth > 0 && |files| < max && readable {
      WalkFromIgnores(files, dir, entries, i, Dir(entries[i].name, readable', children'), 0, minBytes, depth, max, now);
    }
  }

  lemma {:induction false} WalkFromIgnores(files: seq<LargeFile>, dir: string, a: seq<Node>, i: nat, d: Node, j: nat,
                                           minBytes: nat, depth: nat, max: nat, now: U64)
    requires i < |a| && j <= |a| && depth > 0
    requires a[i].Dir? && d.Dir? && a[i].name == d.name && (Skipped(d.name) || depth == 1)
    ensures WalkFrom(files, dir, a, j, minBytes, depth, max, now) == WalkFrom(files, dir, a[i := d], j, minBytes, depth, max, now)
    decreases |a| - j
  {
    if j < |a| && |files| < max {
      var next := Visit(files, dir, a, j, minBytes, depth, max, now);
      VisitSame(files, dir, a, i, d, j, minBytes, depth, max, now);
      assert WalkFrom(files, dir, a, j, minBytes, depth, max, now) == WalkFrom(next, dir, a, j + 1, minBytes, depth, max, now);
      assert WalkFrom(files, dir, a[i := d], j, minBytes, depth, max, now)
          == WalkFrom(next, dir, a[i := d], j + 1, minBytes, depth, max, now);
      WalkFromIgnores(next, dir, a, i, d, j + 1, minBytes, depth, max, now);
    }
  }

  lemma VisitSame(files: seq<LargeFile>, dir: string, a: seq<Node>, i: nat, d: Node, j: nat,
                  minBytes: nat, depth: nat, max: nat, now: U64)
    requires i < |a| && j < |a| && depth > 0
    requires a[i].Dir? && d.Dir? && a[i].name == d.name && (Skipped(d.name) || depth == 1)
    ensures Visit(files, dir, a, j, minBytes, depth, max, now) == Visit(files, dir, a[i := d], j, minBytes, depth, max, now)
  {
    if j == i {
      VisitIgnoresDir(files, dir, a, j, minBytes, depth, max, now);
      VisitIgnoresDir(files, dir, a[i := d], j, minBytes, depth, max, now);
    } else {
      VisitOfEntry(files, dir, a, a[i := d], j, minBytes, depth, max, now);
    }
  }

  lemma VisitIgnoresDir(files: seq<LargeFile>, dir: string, entries: seq<Node>, i: nat,
                        minBytes: nat, depth: nat, max: nat, now: U64)
    requires i < |entries| && depth > 0 && entries[i].Dir? && (Skipped(entries[i].name) || depth == 1)
    ensures Visit(files, dir, entries, i, minBytes, depth, max, now) == files
  {
  }

  lemma VisitOfEntry(files: seq<LargeFile>, dir: string, a: seq<Node>, b: seq<Node>, j: nat,
                     minBytes: nat, depth: nat, max: nat, now: U64)
    requires j < |a| && j < |b| && a[j] == b[j] && depth > 0
    ensures Visit(files, dir, a, j, minBytes, depth, max, now) == Visit(files, dir, b, j, minBytes, depth, max, now)
  {
  }

  // ---------------------------------------------------------------------
  // Drivers
  // ---------------------------------------------------------------------

  datatype DriverInfo = DriverInfo(
    name: string, provider: string, version: string, date: string, deviceClass: string, signed: bool, status: string)

  /** The separator between quoted CSV fields. */
  const FieldSep := "\",\""

  const DriverQuery := Invocation("driverquery", ["/v", "/fo", "csv"])
  const PnpQuery := Invocation("powershell", ["-Command", "Get-WmiObject Win32_PnPSignedDriver | Select-Object DeviceName,DriverVersion,Manufacturer,DriverDate,IsSigned | ConvertTo-Csv -NoTypeInformation | Select-Object -First 50"])

  function Unquote(s: string): string
  {
    TrimMatches(s, '"')
  }

  /**
   * One `driverquery /v /fo csv` line: module name, display name, type,
   * state, … link date in field 10.  With at least six fields, fields 3
   * and 4 always exist.
   */
  function DriverRecord(line: string): (r: Option<DriverInfo>)
    ensures var f := Split(line, FieldSep);
      r.Some? <==> |f| >= 6 && Unquote(f[0]) != ""
    ensures r.Some? ==> var f := Split(line, FieldSep);
      && r.value.provider == Unquote(f[0]) && r.value.name == Unquote(f[1])
      && (r.value.status == "OK" <==> Contains(Unquote(f[4]), "Running"))
      && (r.value.status == "OK" || r.value.status == "Stopped")
      && r.value.signed && r.value.version == ""
  {
    var f := Split(line, FieldSep);
    if |f| < 6 then None
    else
      var name := Unquote(f[0]);
      if name == "" then None
      else
        var date := if |f| > 10 then Unquote(f[10]) else "Unknown";
        var state := Unquote(f[4]);
        Some(DriverInfo(Unquote(f[1]), name, "", date, Unquote(f[3]), true,
                        if Contains(state, "Running") then "OK" else "Stopped"))
  }

  /** One line of the PnP query's CSV: device name, version, manufacturer, date, signed. */
  function PnpRecord(line: string): (r: Option<DriverInfo>)
    ensures var f := Split(line, FieldSep);
      r.Some? <==> |f| >= 5 && Unquote(f[0]) != ""
    ensures r.Some? ==> var f := Split(line, FieldSep);
      && r.value.deviceClass == "PnP Device" && r.value.status == "OK"
      && (r.value.signed <==> Contains(Unquote(f[4]), "True"))
  {
    var f := Split(line, FieldSep);
    if |f| < 5 then None
    else
      var name := Unquote(f[0]);
      if name == "" then None
      else Some(DriverInfo(name, Unquote(f[2]), Unquote(f[1]), Unquote(f[3]), "PnP Device", Contains(Unquote(f[4]), "True"), "OK"))
  }

  /** What `list_drivers` returns: nothing if `driverquery` cannot start, else its drivers then the PnP ones. */
  function Drivers(dq: Outcome, pnp: Outcome): seq<DriverInfo>
  {
    if dq.SpawnFailed? then []
    else Collect(AfterHeader(Lines(dq.stdout)), DriverRecord) + Collect(AfterHeader(Lines(Stdout(pnp))), PnpRecord)
  }

  /** `list_drivers`, reporting the commands it runs: the PnP query only after `driverquery` started. */
  method ListDrivers(dq: Outcome, pnp: Outcome) returns (drivers: seq<DriverInfo>, ran: seq<Invocation>)
    ensures drivers == Drivers(dq, pnp)
    ensures ran == [DriverQuery] + (if dq.Exited? then [PnpQuery] else [])
  {
    ran := [DriverQuery];
    drivers := [];
    if dq.Exited? {
      ghost var a := Collect(AfterHeader(Lines(dq.stdout)), DriverRecord);
      ghost var b := Collect(AfterHeader(Lines(Stdout(pnp))), PnpRecord);
      drivers := AppendParsed(drivers, AfterHeader(Lines(dq.stdout)), DriverRecord);
      assert drivers == a;
      ran := ran + [PnpQuery];
      drivers := AppendParsed(drivers, AfterHeader(Lines(Stdout(pnp))), PnpRecord);
      assert drivers == a + b;
    }
  }

  predicate Listed(d: DriverInfo)
  {
    (d.status == "OK" || d.status == "Stopped") && d.name + d.provider != "" && (d.deviceClass == "PnP Device" ==> d.status == "OK")
  }

  predicate FromDriverquery(d: DriverInfo)
  {
    d.signed && d.version == "" && d.provider != ""
  }

  predicate FromPnp(d: DriverInfo)
  {
    d.deviceClass == "PnP Device" && d.status == "OK" && d.name != ""
  }

  /**
   * The `driverquery` drivers come first, each signed, without a version
   * and named by its module; the PnP devices follow, each "OK".
   */
  lemma DriversShape(dq: Outcome, pnp: Outcome)
    ensures dq.SpawnFailed? ==> Drivers(dq, pnp) == []
    ensures dq.Exited? ==>
      var a := Collect(AfterHeader(Lines(dq.stdout)), DriverRecord);
      var b := Collect(AfterHeader(Lines(Stdout(pnp))), PnpRecord);
      && Drivers(dq, pnp) == a + b
      && (forall k :: 0 <= k < |a| ==> FromDriverquery(a[k]) && (a[k].status == "OK" || a[k].status == "Stopped"))
      && (forall k :: 0 <= k < |b| ==> FromPnp(b[k]))
  {
    if dq.Exited? {
      CollectKeeps(AfterHeader(Lines(dq.stdout)), DriverRecord,
                   (d: DriverInfo) => FromDriverquery(d) && (d.status == "OK" || d.status == "Stopped"));
      CollectKeeps(AfterHeader(Lines(Stdout(pnp))), PnpRecord, FromPnp);
    }
  }

  // ---------------------------------------------------------------------
  // Browser caches
  // ---------------------------------------------------------------------

  datatype BrowserInfo = BrowserInfo(name: string, cachePath: string, installed: bool)

  /** The browsers `detect_browsers` looks for, with the cache folder it looks at. */
  function BrowserCaches(local: string, appdata: string): seq<(string, string)>
  {
    [("Google Chrome", local + "\\Google\\Chrome\\User Data\\Default\\Cache"),
     ("Microsoft Edge", local + "\\Microsoft\\Edge\\User Data\\Default\\Cache"),
     ("Mozilla Firefox", appdata + "\\Mozilla\\Firefox\\Profiles"),
     ("Brave", local + "\\BraveSoftware\\Brave-Browser\\User Data\\Default\\Cache"),
     ("Opera", appdata + "\\Opera Software\\Opera Stable\\Cache"),
     ("Vivaldi", local + "\\Vivaldi\\User Data\\Default\\Cache")]
  }

  /** `detect_browsers`; `pathExists` is `Path::exists`.  Cache sizes are not modelled. */
  function DetectBrowsers(local: string, appdata: string, pathExists: string -> bool): (r: seq<BrowserInfo>)
    ensures |r| == 6
    ensures forall k :: 0 <= k < |r| ==>
      (r[k].name == BrowserCaches(local, appdata)[k].0
       && r[k].cachePath == BrowserCaches(local, appdata)[k].1 && r[k].installed == pathExists(r[k].cachePath))
  {
    var caches := BrowserCaches(local, appdata);
    seq(|caches|, k requires 0 <= k < |caches| => BrowserInfo(caches[k].0, caches[k].1, pathExists(caches[k].1)))
  }

  const CleanableBrowsers: set<string> := {"Google Chrome", "Microsoft Edge", "Brave", "Mozilla Firefox"}

  /**
   * The folders `clean_browser_cache` empties, or its error for a name it
   * does not handle.  `firefoxProfiles` are the paths of the directories
   * under Firefox's `Profiles` folder.
   */
  function BrowserCachePaths(name: string, local: string, appdata: string, firefoxProfiles: seq<string>)
    : (r: Result<seq<string>, string>)
    ensures r.Err? <==> name !in CleanableBrowsers
    ensures r.Err? ==> r.error == "Unknown browser: " + name
    ensures name == "Mozilla Firefox" ==>
      (r.Ok? && |r.value| == |firefoxProfiles|
       && forall k :: 0 <= k < |firefoxProfiles| ==> r.value[k] == firefoxProfiles[k] + "\\cache2")
  {
    match name
    case "Google Chrome" =>
      Ok([local + "\\Google\\Chrome\\User Data\\Default\\Cache",
          local + "\\Google\\Chrome\\User Data\\Default\\Code Cache",
          local + "\\Google\\Chrome\\User Data\\Default\\GPUCache"])
    case "Microsoft Edge" =>
      Ok([local + "\\Microsoft\\Edge\\User Data\\Default\\Cache",
          local + "\\Microsoft\\Edge\\User Data\\Default\\Code Cache"])
    case "Brave" => Ok([local + "\\BraveSoftware\\Brave-Browser\\User Data\\Default\\Cache"])
    case "Mozilla Firefox" =>
      Ok(seq(|firefoxProfiles|, k requires 0 <= k < |firefoxProfiles| => firefoxProfiles[k] + "\\cache2"))
    case _ => Err("Unknown browser: " + name)
  }

  /**
   * Of the six browsers detected, Opera and Vivaldi are refused by the
   * clean command; for Chrome, Edge and Brave the detected cache folder is
   * the first folder cleaned.
   */
  lemma DetectedBrowsersCleanable(local: string, appdata: string, pathExists: string -> bool, firefoxProfiles: seq<string>)
    ensures var d := DetectBrowsers(local, appdata, pathExists);
      forall k :: 0 <= k < |d| ==>
        var r := BrowserCachePaths(d[k].name, local, appdata, firefoxProfiles);
        && (r.Err? <==> d[k].name == "Opera" || d[k].name == "Vivaldi")
        && (d[k].name != "Mozilla Firefox" && r.Ok? ==> r.value != [] && r.value[0] == d[k].cachePath)
  {
    var d := DetectBrowsers(local, appdata, pathExists);
    forall k | 0 <= k < |d|
      ensures var r := BrowserCachePaths(d[k].name, local, appdata, firefoxProfiles);
        && (r.Err? <==> d[k].name == "Opera" || d[k].name == "Vivaldi")
        && (d[k].name != "Mozilla Firefox" && r.Ok? ==> r.value != [] && r.value[0] == d[k].cachePath)
    {
      assert k == 0 || k == 1 || k == 2 || k == 3 || k == 4 || k == 5;
    }
  }

  // ---------------------------------------------------------------------
  // Privacy items
  // ---------------------------------------------------------------------

  datatype PrivacyItem = PrivacyItem(id: string, name: string, description: string, category: string)

  /** The items `get_privacy_items` offers; their data sizes are not modelled. */
  const PrivacyItems: seq<PrivacyItem> := [
    PrivacyItem("recent_files", "Recent File History", "Clear recently accessed files list", "Windows"),
    PrivacyItem("clipboard", "Clipboard History", "Clear clipboard contents and history", "Windows"),
    PrivacyItem("explorer_history", "Explorer Address Bar History", "Clear typed paths in File Explorer", "Windows"),
    PrivacyItem("notification_cache", "Notification Cache", "Clear Windows notification history", "Windows"),
    PrivacyItem("activity_history", "Activity Timeline", "Clear Windows Timeline/Activity History", "Windows"),
    PrivacyItem("prefetch", "Prefetch Data", "Clear application prefetch traces", "System")]

  predicate Offered(id: string)
  {
    exists k :: 0 <= k < |PrivacyItems| && PrivacyItems[k].id == id
  }

  /** What `clean_privacy_item` does: empty a folder of its files, or run a command whose outcome is ignored. */
  datatype PrivacyAction = ClearFiles(path: string) | RunCommand(cmd: Invocation) | NoAction

  /**
   * `clean_privacy_item`; `cleared` is the number of files `clean_dir_files`
   * removes from a folder.  Unknown ids are refused and touch nothing.
   */
  function CleanPrivacyItem(id: string, appdata: string, local: string, cleared: string -> nat)
    : (r: (Result<string, string>, PrivacyAction))
    ensures r.0.Err? ==> r.0.error == "Unknown privacy item: " + id && r.1 == NoAction
    ensures r.0.Ok? ==> r.1 != NoAction
  {
    match id
    case "recent_files" =>
      var path := appdata + "\\Microsoft\\Windows\\Recent";
      (Ok("Cleared " + NatToString(cleared(path)) + " recent file entries"), ClearFiles(path))
    case "clipboard" =>
      (Ok("Clipboard cleared"), RunCommand(Invocation("cmd", ["/C", "echo off | clip"])))
    case "explorer_history" =>
      (Ok("Explorer history cleared"),
       RunCommand(Invocation("reg", ["delete", "HKCU\\Software\\Microsoft\\Windows\\CurrentVersion\\Explorer\\TypedPaths", "/f"])))
    case "notification_cache" =>
      var path := local + "\\Microsoft\\Windows\\Notifications";
      (Ok("Cleared " + NatToString(cleared(path)) + " notification entries"), ClearFiles(path))
    case "activity_history" =>
      var path := local + "\\ConnectedDevicesPlatform";
      (Ok("Cleared activity history (" + NatToString(cleared(path)) + " items)"), ClearFiles(path))
    case "prefetch" =>
      var path := "C:\\Windows\\Prefetch";
      (Ok("Cleared " + NatToString(cleared(path)) + " prefetch files"), ClearFiles(path))
    case _ => (Err("Unknown privacy item: " + id), NoAction)
  }

  /** The clean command accepts exactly the ids the listing offers. */
  lemma PrivacyItemsAccepted(id: string, appdata: string, local: string, cleared: string -> nat)
    ensures CleanPrivacyItem(id, appdata, local, cleared).0.Ok? <==> Offered(id)
  {
    if Offered(id) {
      var k :| 0 <= k < |PrivacyItems| && PrivacyItems[k].id == id;
      assert k == 0 || k == 1 || k == 2 || k == 3 || k == 4 || k == 5;
    } else {
      assert PrivacyItems[0].id != id && PrivacyItems[1].id != id && PrivacyItems[2].id != id;
      assert PrivacyItems[3].id != id && PrivacyItems[4].id != id && PrivacyItems[5].id != id;
    }
  }
}
