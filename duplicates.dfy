/**
 * The duplicate-file engine: a bounded walk of the user's folders that
 * buckets files by size, a fingerprint of the files in buckets of two or
 * more, grouping by fingerprint, ranking by wasted space, and the guarded
 * delete.
 *
 * Sizes are whole bytes.  The directory tree is an inductive value; the
 * walk is specified by `WalkDir` and carried out by `ScanDirectory`, which
 * threads the size buckets and the counter through the recursion as the
 * Rust code threads its `&mut` arguments.
 */
module Duplicates {
  import opened Wrappers
  import opened Text
  import opened Sorting
  import Fs
  import Maps

  type Byte = b: int | 0 <= b < 256
  type U64 = n: nat | n <= 18446744073709551615

  /** Directories deeper than this below a root are not listed. */
  const MaxDepth: nat := 4
  /** Bytes read from the start, and from the end, of a file. */
  const SampleBytes: nat := 8192
  /** Files larger than this also have their last bytes read. */
  const TailThreshold: nat := 16384
  /** Number of groups returned. */
  const MaxGroups: nat := 100
  const SecondsPerDay: nat := 86400
  /** Length of the rendered fingerprint. */
  const HashWidth: nat := 16

  // ---------------------------------------------------------------------
  // The directory tree
  // ---------------------------------------------------------------------

  /**
   * What reading one regular file yields: its contents, whether opening
   * and reading it succeeds, and its modification time in seconds relative
   * to the Unix epoch (None when the metadata cannot be read).
   */
  datatype FileData = FileData(data: seq<Byte>, readable: bool, modified: Option<int>)

  /** An entry of a directory listing, as `read_dir` and `metadata` see it. */
  datatype Node =
    | File(name: string, info: FileData)
    | Dir(name: string, readable: bool, children: seq<Node>)
      /** Metadata that cannot be read, or an entry that is neither file nor directory. */
    | Other(name: string)

  /** The listing of a top-level folder; `readable` is false when `read_dir` fails. */
  datatype Listing = Listing(readable: bool, entries: seq<Node>)

  /** A file the walk has bucketed: its full path, its own name and its data. */
  datatype Candidate = Candidate(path: string, name: string, info: FileData)

  function SizeOf(c: Candidate): nat
  {
    |c.info.data|
  }

  /** `entry.path()` for an entry of `dir`: a separator is added unless `dir` already ends in one, as `C:\` does. */
  function ChildPath(dir: string, name: string): string
  {
    if EndsWith(dir, "\\") then dir + name else dir + "\\" + name
  }

  /** The directory names the walk skips besides hidden ones. */
  const SkippedNames: set<string> := {"node_modules", ".git", "AppData"}

  /** A directory name the walk never enters. */
  predicate Pruned(name: string)
  {
    StartsWith(name, ".") || name in SkippedNames
  }

  /** The folders `scan_duplicates` starts from. */
  function ScanDirs(userProfile: Option<string>): (r: seq<string>)
    ensures |r| == 6
  {
    var home := userProfile.GetOr("C:\\Users\\Default");
    [home + "\\Desktop", home + "\\Documents", home + "\\Downloads",
     home + "\\Pictures", home + "\\Videos", home + "\\Music"]
  }

  // ---------------------------------------------------------------------
  // Specification of the walk
  // ---------------------------------------------------------------------

  /** The files `scan_directory(dir, …, depth, 4)` buckets, in the order it buckets them. */
  function WalkDir(dir: string, readable: bool, entries: seq<Node>, minBytes: nat, depth: nat): seq<Candidate>
    decreases entries, |entries| + 1
  {
    if depth > MaxDepth || !readable then [] else WalkPrefix(dir, entries, |entries|, minBytes, depth)
  }

  /** What the walk of a listing buckets from its first `n` entries. */
  function WalkPrefix(dir: string, entries: seq<Node>, n: nat, minBytes: nat, depth: nat): seq<Candidate>
    requires n <= |entries|
    decreases entries, n
  {
    if n == 0 then []
    else WalkPrefix(dir, entries, n - 1, minBytes, depth) + WalkEntry(dir, entries, n - 1, minBytes, depth)
  }

  /** What the walk buckets because of entry `i` of a listing. */
  function WalkEntry(dir: string, entries: seq<Node>, i: nat, minBytes: nat, depth: nat): seq<Candidate>
    requires i < |entries|
    decreases entries, 0
  {
    match entries[i]
    case File(name, info) =>
      if |info.data| >= minBytes then [Candidate(ChildPath(dir, name), name, info)] else []
    case Dir(name, r, children) =>
      if Pruned(name) then [] else WalkDir(ChildPath(dir, name), r, children, minBytes, depth + 1)
    case Other(_) => []
  }

  /** The files bucketed from the first `n` top-level folders, all walked at depth 0. */
  function Discovered(dirs: seq<string>, listing: string -> Listing, n: nat, minBytes: nat): seq<Candidate>
    requires n <= |dirs|
  {
    if n == 0 then []
    else
      var d := dirs[n - 1];
      Discovered(dirs, listing, n - 1, minBytes) + WalkDir(d, listing(d).readable, listing(d).entries, minBytes, 0)
  }

  /**
   * The file at the end of `route` (a sequence of child indices), provided
   * the route ends at a regular file and every directory it passes through
   * can be listed, is not pruned and lies within the depth limit.
   */
  ghost function FileAt(dir: string, readable: bool, entries: seq<Node>, depth: nat, route: seq<nat>): Option<Candidate>
    decreases route
  {
    if depth > MaxDepth || !readable || route == [] || route[0] >= |entries| then None
    else match entries[route[0]]
      case File(name, info) =>
        if |route| == 1 then Some(Candidate(ChildPath(dir, name), name, info)) else None
      case Dir(name, r, children) =>
        if Pruned(name) then None else FileAt(ChildPath(dir, name), r, children, depth + 1, route[1..])
      case Other(_) => None
  }

  /** A file reached along some permitted route. */
  ghost predicate Reached(dir: string, readable: bool, entries: seq<Node>, depth: nat, c: Candidate)
  {
    exists route :: FileAt(dir, readable, entries, depth, route) == Some(c)
  }

  // ---------------------------------------------------------------------
  // Size buckets
  // ---------------------------------------------------------------------

  type Buckets = map<nat, seq<Candidate>>

  function Bucket(b: Buckets, k: nat): seq<Candidate>
  {
    if k in b then b[k] else []
  }

  /** `size_groups.entry(len).or_default().push(path)`. */
  function AddToBucket(b: Buckets, c: Candidate): Buckets
  {
    b[SizeOf(c) := Bucket(b, SizeOf(c)) + [c]]
  }

  /** The buckets after adding `cs` one by one. */
  function AddAll(b: Buckets, cs: seq<Candidate>): Buckets
    decreases |cs|
  {
    if cs == [] then b else AddToBucket(AddAll(b, cs[..|cs| - 1]), cs[|cs| - 1])
  }

  /** The files of `cs` whose size is `k`, in order. */
  function WithSize(cs: seq<Candidate>, k: nat): seq<Candidate>
    decreases |cs|
  {
    if cs == [] then []
    else WithSize(cs[..|cs| - 1], k) + (if SizeOf(cs[|cs| - 1]) == k then [cs[|cs| - 1]] else [])
  }

  /** Every bucket holds only files of its own size. */
  ghost predicate SizeHomogeneous(b: Buckets)
  {
    forall k, c :: k in b && c in b[k] ==> SizeOf(c) == k
  }

  lemma {:induction false} AddAllConcat(b: Buckets, xs: seq<Candidate>, ys: seq<Candidate>)
    ensures AddAll(b, xs + ys) == AddAll(AddAll(b, xs), ys)
    decreases |ys|
  {
    if ys == [] {
      assert xs + ys == xs;
    } else {
      assert (xs + ys)[..|xs + ys| - 1] == xs + ys[..|ys| - 1];
      assert (xs + ys)[|xs + ys| - 1] == ys[|ys| - 1];
      AddAllConcat(b, xs, ys[..|ys| - 1]);
    }
  }

  /** Bucket `k` gains exactly the files of size `k`, in the order they are added. */
  lemma {:induction false} BucketOfAddAll(b: Buckets, cs: seq<Candidate>, k: nat)
    ensures Bucket(AddAll(b, cs), k) == Bucket(b, k) + WithSize(cs, k)
    ensures k in AddAll(b, cs) <==> k in b || WithSize(cs, k) != []
    decreases |cs|
  {
    if cs != [] {
      BucketOfAddAll(b, cs[..|cs| - 1], k);
    }
  }

  lemma {:induction false} WithSizeMembers(cs: seq<Candidate>, k: nat, c: Candidate)
    requires c in WithSize(cs, k)
    ensures c in cs && SizeOf(c) == k
    decreases |cs|
  {
    if c in WithSize(cs[..|cs| - 1], k) {
      WithSizeMembers(cs[..|cs| - 1], k, c);
    }
  }

  /**
   * The buckets built from `cs`: bucket `k` is the files of `cs` of size `k`
   * in order, there is a bucket only for a size some file has, and so every
   * bucket is size-homogeneous.
   */
  lemma BucketsOf(cs: seq<Candidate>)
    ensures forall k :: Bucket(AddAll(map[], cs), k) == WithSize(cs, k)
    ensures forall k :: k in AddAll(map[], cs) ==> exists c :: c in cs && SizeOf(c) == k
    ensures SizeHomogeneous(AddAll(map[], cs))
  {
    forall k
      ensures Bucket(AddAll(map[], cs), k) == WithSize(cs, k)
      ensures k in AddAll(map[], cs) ==> exists c :: c in cs && SizeOf(c) == k
    {
      BucketOfAddAll(map[], cs, k);
      if k in AddAll(map[], cs) {
        WithSizeMembers(cs, k, WithSize(cs, k)[0]);
      }
    }
    forall k, c | k in AddAll(map[], cs) && c in AddAll(map[], cs)[k]
      ensures SizeOf(c) == k
    {
      BucketOfAddAll(map[], cs, k);
      WithSizeMembers(cs, k, c);
    }
  }

  // ---------------------------------------------------------------------
  // What the walk reaches
  // ---------------------------------------------------------------------

  /**
   * A file is bucketed by the walk of a listing exactly when it is at least
   * `minBytes` long and reached along a permitted route: no pruned or
   * unreadable directory on the way, and no directory beyond depth 4.
   */
  lemma {:induction false} WalkDirReached(dir: string, readable: bool, entries: seq<Node>, minBytes: nat, depth: nat)
    ensures forall c :: c in WalkDir(dir, readable, entries, minBytes, depth) <==>
      SizeOf(c) >= minBytes && Reached(dir, readable, entries, depth, c)
    decreases entries, |entries| + 1
  {
    if depth > MaxDepth || !readable {
      forall c
        ensures !Reached(dir, readable, entries, depth, c)
      {
        forall route
          ensures FileAt(dir, readable, entries, depth, route) == None
        {
        }
      }
    } else {
      WalkPrefixReached(dir, entries, |entries|, minBytes, depth);
      forall c
        ensures Reached(dir, readable, entries, depth, c) <==> ReachedBelow(dir, entries, depth, |entries|, c)
      {
        if Reached(dir, readable, entries, depth, c) {
          var route :| FileAt(dir, readable, entries, depth, route) == Some(c);
          assert |route| >= 1 && route[0] < |entries|;
        }
        if ReachedBelow(dir, entries, depth, |entries|, c) {
          var route :| |route| >= 1 && route[0] < |entries| && FileAt(dir, true, entries, depth, route) == Some(c);
        }
      }
    }
  }

  /** Reached along a route whose first step is one of the first `n` entries. */
  ghost predicate ReachedBelow(dir: string, entries: seq<Node>, depth: nat, n: nat, c: Candidate)
  {
    exists route :: |route| >= 1 && route[0] < n && FileAt(dir, true, entries, depth, route) == Some(c)
  }

  /** Reached along a route whose first step is entry `i`. */
  ghost predicate ReachedVia(dir: string, entries: seq<Node>, depth: nat, i: nat, c: Candidate)
  {
    exists route :: |route| >= 1 && route[0] == i && FileAt(dir, true, entries, depth, route) == Some(c)
  }

  lemma {:induction false} WalkPrefixReached(dir: string, entries: seq<Node>, n: nat, minBytes: nat, depth: nat)
    requires n <= |entries| && depth <= MaxDepth
    ensures forall c :: c in WalkPrefix(dir, entries, n, minBytes, depth) <==>
      SizeOf(c) >= minBytes && ReachedBelow(dir, entries, depth, n, c)
    decreases entries, n
  {
    if n > 0 {
      var before := WalkPrefix(dir, entries, n - 1, minBytes, depth);
      var entry := WalkEntry(dir, entries, n - 1, minBytes, depth);
      assert WalkPrefix(dir, entries, n, minBytes, depth) == before + entry;
      WalkPrefixReached(dir, entries, n - 1, minBytes, depth);
      WalkEntryReached(dir, entries, n - 1, minBytes, depth);
      forall c
        ensures c in before + entry <==> SizeOf(c) >= minBytes && ReachedBelow(dir, entries, depth, n, c)
      {
        assert c in before + entry <==> c in before || c in entry;
        ReachedBelowSplit(dir, entries, depth, n, c);
      }
    } else {
      forall c
        ensures !ReachedBelow(dir, entries, depth, n, c)
      {
      }
    }
  }

  /** A route through the first `n` entries starts at one of the first `n - 1` or at entry `n - 1`. */
  lemma ReachedBelowSplit(dir: string, entries: seq<Node>, depth: nat, n: nat, c: Candidate)
    requires n > 0
    ensures ReachedBelow(dir, entries, depth, n, c) <==>
      ReachedBelow(dir, entries, depth, n - 1, c) || ReachedVia(dir, entries, depth, n - 1, c)
  {
    if ReachedBelow(dir, entries, depth, n, c) {
      var route :| |route| >= 1 && route[0] < n && FileAt(dir, true, entries, depth, route) == Some(c);
      if route[0] < n - 1 {
        assert ReachedBelow(dir, entries, depth, n - 1, c);
      } else {
        assert ReachedVia(dir, entries, depth, n - 1, c);
      }
    }
    if ReachedBelow(dir, entries, depth, n - 1, c) {
      var route :| |route| >= 1 && route[0] < n - 1 && FileAt(dir, true, entries, depth, route) == Some(c);
      assert route[0] < n;
    }
    if ReachedVia(dir, entries, depth, n - 1, c) {
      var route :| |route| >= 1 && route[0] == n - 1 && FileAt(dir, true, entries, depth, route) == Some(c);
      assert route[0] < n;
    }
  }

  lemma {:induction false} WalkEntryReached(dir: string, entries: seq<Node>, i: nat, minBytes: nat, depth: nat)
    requires i < |entries| && depth <= MaxDepth
    ensures forall c :: c in WalkEntry(dir, entries, i, minBytes, depth) <==>
      SizeOf(c) >= minBytes && ReachedVia(dir, entries, depth, i, c)
    decreases entries, 0
  {
    match entries[i]
    case File(name, info) =>
      forall c
        ensures c in WalkEntry(dir, entries, i, minBytes, depth) <==>
          SizeOf(c) >= minBytes && ReachedVia(dir, entries, depth, i, c)
      {
        if c in WalkEntry(dir, entries, i, minBytes, depth) {
          assert FileAt(dir, true, entries, depth, [i]) == Some(c);
        }
      }
    case Dir(name, r, children) =>
      if Pruned(name) {
        forall route: seq<nat> | |route| >= 1 && route[0] == i
          ensures FileAt(dir, true, entries, depth, route) == None
        {
        }
      } else {
        var child := ChildPath(dir, name);
        WalkDirReached(child, r, children, minBytes, depth + 1);
        forall c
          ensures c in WalkEntry(dir, entries, i, minBytes, depth) <==>
            SizeOf(c) >= minBytes && ReachedVia(dir, entries, depth, i, c)
        {
          if c in WalkEntry(dir, entries, i, minBytes, depth) {
            assert c in WalkDir(child, r, children, minBytes, depth + 1);
            assert Reached(child, r, children, depth + 1, c);
            var route' :| FileAt(child, r, children, depth + 1, route') == Some(c);
            var route := [i] + route';
            assert route[1..] == route';
            assert FileAt(dir, true, entries, depth, route) == Some(c);
            assert ReachedVia(dir, entries, depth, i, c);
          }
          if SizeOf(c) >= minBytes && ReachedVia(dir, entries, depth, i, c) {
            var route :| |route| >= 1 && route[0] == i && FileAt(dir, true, entries, depth, route) == Some(c);
            assert FileAt(child, r, children, depth + 1, route[1..]) == Some(c);
          }
        }
      }
    case Other(_) =>
      forall route: seq<nat> | |route| >= 1 && route[0] == i
        ensures FileAt(dir, true, entries, depth, route) == None
      {
      }
  }

  /**
   * `files_scanned` counts, and the buckets hold, exactly the files of at
   * least `minBytes` that the walk of some top-level folder reaches.
   */
  lemma {:induction false} DiscoveredReached(dirs: seq<string>, listing: string -> Listing, n: nat, minBytes: nat)
    requires n <= |dirs|
    ensures forall c :: c in Discovered(dirs, listing, n, minBytes) <==>
      SizeOf(c) >= minBytes
      && exists i :: 0 <= i < n && Reached(dirs[i], listing(dirs[i]).readable, listing(dirs[i]).entries, 0, c)
  {
    if n > 0 {
      DiscoveredReached(dirs, listing, n - 1, minBytes);
      var d := dirs[n - 1];
      WalkDirReached(d, listing(d).readable, listing(d).entries, minBytes, 0);
    }
  }

  // ---------------------------------------------------------------------
  // The walk
  // ---------------------------------------------------------------------

  /** `scan_directory`: buckets what `WalkDir` describes and counts it. */
  method ScanDirectory(dir: string, readable: bool, entries: seq<Node>, buckets: Buckets,
                       minBytes: nat, count: nat, depth: nat)
    returns (buckets': Buckets, count': nat)
    ensures count' == count + |WalkDir(dir, readable, entries, minBytes, depth)|
    ensures buckets' == AddAll(buckets, WalkDir(dir, readable, entries, minBytes, depth))
    decreases entries, 1
  {
    buckets', count' := buckets, count;
    if depth > MaxDepth {
      return;
    }
    if !readable {
      return;
    }
    var i := 0;
    while i < |entries|
      invariant 0 <= i <= |entries|
      invariant count' == count + |WalkPrefix(dir, entries, i, minBytes, depth)|
      invariant buckets' == AddAll(buckets, WalkPrefix(dir, entries, i, minBytes, depth))
    {
      PrefixStep(buckets, dir, entries, i, minBytes, depth);
      buckets', count' := ScanEntry(dir, entries, i, buckets', minBytes, count', depth);
      i := i + 1;
    }
    assert WalkDir(dir, readable, entries, minBytes, depth) == WalkPrefix(dir, entries, |entries|, minBytes, depth);
  }

  /** The body of the loop in `scan_directory` for entry `i`: bucket a file, or descend into a directory. */
  method ScanEntry(dir: string, entries: seq<Node>, i: nat, buckets: Buckets, minBytes: nat, count: nat, depth: nat)
    returns (buckets': Buckets, count': nat)
    requires i < |entries|
    ensures count' == count + |WalkEntry(dir, entries, i, minBytes, depth)|
    ensures buckets' == AddAll(buckets, WalkEntry(dir, entries, i, minBytes, depth))
    decreases entries, 0
  {
    buckets', count' := buckets, count;
    match entries[i] {
      case File(name, info) =>
        if |info.data| >= minBytes {
          var c := Candidate(ChildPath(dir, name), name, info);
          AddOne(buckets, c);
          count' := count + 1;
          buckets' := AddToBucket(buckets, c);
        }
      case Dir(name, r, children) =>
        if !Pruned(name) {
          buckets', count' := ScanDirectory(ChildPath(dir, name), r, children, buckets, minBytes, count, depth + 1);
        }
      case Other(_) =>
    }
  }

  /** Entry `i`'s turn of the loop in `ScanDirectory`: the prefix grows by what the entry contributes. */
  lemma PrefixStep(buckets: Buckets, dir: string, entries: seq<Node>, i: nat, minBytes: nat, depth: nat)
    requires i < |entries|
    ensures var prefix := WalkPrefix(dir, entries, i, minBytes, depth);
      var entry := WalkEntry(dir, entries, i, minBytes, depth);
      && |WalkPrefix(dir, entries, i + 1, minBytes, depth)| == |prefix| + |entry|
      && AddAll(buckets, WalkPrefix(dir, entries, i + 1, minBytes, depth)) == AddAll(AddAll(buckets, prefix), entry)
  {
    var prefix := WalkPrefix(dir, entries, i, minBytes, depth);
    var entry := WalkEntry(dir, entries, i, minBytes, depth);
    assert WalkPrefix(dir, entries, i + 1, minBytes, depth) == prefix + entry;
    AddAllConcat(buckets, prefix, entry);
  }

  lemma AddOne(b: Buckets, c: Candidate)
    ensures AddAll(b, [c]) == AddToBucket(b, c)
  {
    assert [c][..0] == [];
  }

  /** Phase 1 of `scan_duplicates`: walks every top-level folder from depth 0. */
  method ScanFolders(dirs: seq<string>, listing: string -> Listing, minBytes: nat)
    returns (buckets: Buckets, filesScanned: nat)
    ensures filesScanned == |Discovered(dirs, listing, |dirs|, minBytes)|
    ensures buckets == AddAll(map[], Discovered(dirs, listing, |dirs|, minBytes))
  {
    buckets, filesScanned := map[], 0;
    var i := 0;
    while i < |dirs|
      invariant 0 <= i <= |dirs|
      invariant filesScanned == |Discovered(dirs, listing, i, minBytes)|
      invariant buckets == AddAll(map[], Discovered(dirs, listing, i, minBytes))
    {
      var d := dirs[i];
      AddAllConcat(map[], Discovered(dirs, listing, i, minBytes),
                   WalkDir(d, listing(d).readable, listing(d).entries, minBytes, 0));
      buckets, filesScanned := ScanDirectory(d, listing(d).readable, listing(d).entries, buckets, minBytes, filesScanned, 0);
      i := i + 1;
    }
  }

  // ---------------------------------------------------------------------
  // Fingerprint
  // ---------------------------------------------------------------------

  /** What `quick_hash` feeds to the hasher: the size, the head and, for large files, the tail. */
  datatype Sample = Sample(size: nat, head: seq<Byte>, tail: Option<seq<Byte>>)

  function SampleOf(data: seq<Byte>): (s: Sample)
    ensures s.size == |data|
    ensures s.head == data[..if |data| < SampleBytes then |data| else SampleBytes]
    ensures s.tail.Some? <==> |data| > TailThreshold
    ensures s.tail.Some? ==> s.tail.value == data[|data| - SampleBytes..]
  {
    var size := |data|;
    var headLen := if size < SampleBytes then size else SampleBytes;
    Sample(size, data[..headLen], if size > TailThreshold then Some(data[size - SampleBytes..]) else None)
  }

  /** `quick_hash`: the rendered fingerprint, or None when the file cannot be read. */
  function QuickHash(info: FileData, hasher: Sample -> U64): (r: Option<string>)
    ensures r.Some? <==> info.readable
    ensures r.Some? ==> |r.value| == HashWidth
  {
    if info.readable then Some(HexPadded(hasher(SampleOf(info.data)), HashWidth)) else None
  }

  /** The fingerprint is 16 hex digits that spell out the hasher's 64-bit value. */
  lemma FingerprintIsHex(info: FileData, hasher: Sample -> U64)
    requires info.readable
    ensures forall i :: 0 <= i < |QuickHash(info, hasher).value| ==> IsHexDigit(QuickHash(info, hasher).value[i])
    ensures HexValue(QuickHash(info, hasher).value) == hasher(SampleOf(info.data))
  {
    Pow16Sixteen();
    HexPaddedRoundTrip(hasher(SampleOf(info.data)), HashWidth);
  }

  /**
   * Two fingerprints agree exactly when both files are readable and the
   * hasher gives their samples the same 64-bit value: the rendering loses
   * nothing.
   */
  lemma FingerprintDeterminesHash(a: FileData, b: FileData, hasher: Sample -> U64)
    requires a.readable
    ensures QuickHash(a, hasher) == QuickHash(b, hasher) <==> b.readable && hasher(SampleOf(a.data)) == hasher(SampleOf(b.data))
  {
    if b.readable && QuickHash(a, hasher) == QuickHash(b, hasher) {
      Pow16Sixteen();
      HexPaddedInjective(hasher(SampleOf(a.data)), hasher(SampleOf(b.data)), HashWidth);
    }
  }

  /** Two readable files of one size that agree on the sampled bytes get the same fingerprint, however their middles differ. */
  lemma MiddleIgnored(a: FileData, b: FileData, hasher: Sample -> U64)
    requires a.readable && b.readable && |a.data| == |b.data|
    requires forall i :: 0 <= i < |a.data| && (i < SampleBytes || (|a.data| > TailThreshold && i >= |a.data| - SampleBytes)) ==> a.data[i] == b.data[i]
    ensures QuickHash(a, hasher) == QuickHash(b, hasher)
  {
    var n := |a.data|;
    var h := if n < SampleBytes then n else SampleBytes;
    assert a.data[..h] == b.data[..h];
    if n > TailThreshold {
      assert a.data[n - SampleBytes..] == b.data[n - SampleBytes..];
    }
  }

  // ---------------------------------------------------------------------
  // Grouping by fingerprint
  // ---------------------------------------------------------------------

  /** An entry of `hash_groups`: the file and the size of the bucket it came from. */
  datatype Member = Member(file: Candidate, size: nat)

  type HashGroups = map<string, seq<Member>>

  function Lookup(g: HashGroups, h: string): seq<Member>
  {
    if h in g then g[h] else []
  }

  /** The members bucket `b` (of size `size`) contributes under fingerprint `h`, in order. */
  function Hashed(b: seq<Candidate>, size: nat, h: string, hasher: Sample -> U64): seq<Member>
    decreases |b|
  {
    if b == [] then []
    else
      var c := b[|b| - 1];
      Hashed(b[..|b| - 1], size, h, hasher) + (if QuickHash(c.info, hasher) == Some(h) then [Member(c, size)] else [])
  }

  lemma HashedSnoc(b: seq<Candidate>, c: Candidate, size: nat, h: string, hasher: Sample -> U64)
    ensures Hashed(b + [c], size, h, hasher)
      == Hashed(b, size, h, hasher) + (if QuickHash(c.info, hasher) == Some(h) then [Member(c, size)] else [])
  {
    assert (b + [c])[..|b + [c]| - 1] == b;
  }

  /** One push of the inner loop of phase 2 extends the groups by that file's contribution. */
  lemma HashStep(base: HashGroups, cur: HashGroups, prefix: seq<Candidate>, c: Candidate, size: nat, hasher: Sample -> U64)
    requires Extends(base, cur, prefix, size, hasher)
    ensures Extends(base, Push(cur, c, size, hasher), prefix + [c], size, hasher)
  {
    forall h
      ensures Lookup(Push(cur, c, size, hasher), h) == Lookup(base, h) + Hashed(prefix + [c], size, h, hasher)
      ensures h in Push(cur, c, size, hasher) <==> h in base || Hashed(prefix + [c], size, h, hasher) != []
    {
      HashStepAt(base, cur, prefix, c, size, hasher, h);
    }
  }

  /** `HashStep` for one fingerprint. */
  lemma HashStepAt(base: HashGroups, cur: HashGroups, prefix: seq<Candidate>, c: Candidate, size: nat,
                   hasher: Sample -> U64, h: string)
    requires Lookup(cur, h) == Lookup(base, h) + Hashed(prefix, size, h, hasher)
    requires h in cur <==> h in base || Hashed(prefix, size, h, hasher) != []
    ensures Lookup(Push(cur, c, size, hasher), h) == Lookup(base, h) + Hashed(prefix + [c], size, h, hasher)
    ensures h in Push(cur, c, size, hasher) <==> h in base || Hashed(prefix + [c], size, h, hasher) != []
  {
    var next := Push(cur, c, size, hasher);
    HashedSnoc(prefix, c, size, h, hasher);
    if QuickHash(c.info, hasher) == Some(h) {
      assert Lookup(next, h) == Lookup(cur, h) + [Member(c, size)];
    } else {
      assert Lookup(next, h) == Lookup(cur, h);
    }
  }

  /** `cur` is `base` with the contributions of `files` added under their fingerprints. */
  ghost predicate Extends(base: HashGroups, cur: HashGroups, files: seq<Candidate>, size: nat, hasher: Sample -> U64)
  {
    && (forall h :: Lookup(cur, h) == Lookup(base, h) + Hashed(files, size, h, hasher))
    && (forall h :: h in cur <==> h in base || Hashed(files, size, h, hasher) != [])
  }

  /** `hash_groups.entry(hash).or_default().push((path, size))` when the file could be fingerprinted. */
  function Push(g: HashGroups, c: Candidate, size: nat, hasher: Sample -> U64): HashGroups
  {
    var fp := QuickHash(c.info, hasher);
    if fp.Some? then g[fp.value := Lookup(g, fp.value) + [Member(c, size)]] else g
  }

  /** Size bucket `k` is hashed (it has two files or more) and contributes under `h`. */
  predicate Contributes(buckets: Buckets, k: nat, h: string, hasher: Sample -> U64)
  {
    k in buckets && |buckets[k]| >= 2 && Hashed(buckets[k], k, h, hasher) != []
  }

  /** The inner loop of phase 2: fingerprints one bucket into the groups. */
  method HashBucket(groups: HashGroups, bucket: seq<Candidate>, size: nat, hasher: Sample -> U64)
    returns (groups': HashGroups)
    ensures forall h :: Lookup(groups', h) == Lookup(groups, h) + Hashed(bucket, size, h, hasher)
    ensures forall h :: h in groups' <==> h in groups || Hashed(bucket, size, h, hasher) != []
  {
    groups' := groups;
    var j := 0;
    while j < |bucket|
      invariant 0 <= j <= |bucket|
      invariant Extends(groups, groups', bucket[..j], size, hasher)
    {
      var c := bucket[j];
      HashStep(groups, groups', bucket[..j], c, size, hasher);
      groups' := Push(groups', c, size, hasher);
      assert bucket[..j + 1] == bucket[..j] + [c];
      j := j + 1;
    }
    assert bucket[..|bucket|] == bucket;
  }

  /**
   * What `hash_groups[h]` holds once the size buckets `order` have been
   * visited in that order: the contributions of every bucket of two or
   * more files, one after another.  The one map serves every bucket, so
   * files of different sizes whose fingerprints collide land under the
   * same `h`.
   */
  function Gathered(buckets: Buckets, order: seq<nat>, h: string, hasher: Sample -> U64): seq<Member>
    decreases |order|
  {
    if order == [] then []
    else
      var k := order[|order| - 1];
      Gathered(buckets, order[..|order| - 1], h, hasher) + (if |Bucket(buckets, k)| >= 2 then Hashed(Bucket(buckets, k), k, h, hasher) else [])
  }

  /** `groups` is `hash_groups` after the buckets `order` have been visited. */
  ghost predicate GatheredAll(buckets: Buckets, order: seq<nat>, groups: HashGroups, hasher: Sample -> U64)
  {
    && (forall h :: Lookup(groups, h) == Gathered(buckets, order, h, hasher))
    && (forall h :: h in groups <==> Gathered(buckets, order, h, hasher) != [])
  }

  /** An order in which a `HashMap` of buckets can be iterated: every key once. */
  ghost predicate KeyOrder(buckets: Buckets, order: seq<nat>)
  {
    Maps.Distinct(order) && forall k :: k in order <==> k in buckets
  }

  /** Phase 2: fingerprints every bucket of two or more files into one map, in the map's own order. */
  method HashPhase(buckets: Buckets, hasher: Sample -> U64) returns (groups: HashGroups)
    ensures exists order :: KeyOrder(buckets, order) && GatheredAll(buckets, order, groups, hasher)
  {
    var keys := Maps.KeysInSomeOrder(buckets);
    groups := map[];
    for i := 0 to |keys|
      invariant GatheredAll(buckets, keys[..i], groups, hasher)
    {
      var k := keys[i];
      ghost var before := groups;
      if |buckets[k]| >= 2 {
        groups := HashBucket(groups, buckets[k], k, hasher);
      }
      PhaseStep(buckets, keys[..i], k, before, groups, hasher);
      assert keys[..i + 1] == keys[..i] + [k];
    }
    assert keys[..|keys|] == keys;
  }

  /** Visiting one more bucket appends its contributions, and only a bucket of two or more contributes. */
  lemma PhaseStep(buckets: Buckets, order: seq<nat>, k: nat, groups: HashGroups, groups': HashGroups, hasher: Sample -> U64)
    requires k in buckets
    requires GatheredAll(buckets, order, groups, hasher)
    requires |buckets[k]| >= 2 ==> Extends(groups, groups', buckets[k], k, hasher)
    requires |buckets[k]| < 2 ==> groups' == groups
    ensures GatheredAll(buckets, order + [k], groups', hasher)
  {
    assert (order + [k])[..|order + [k]| - 1] == order;
  }

  /** Every member of `Hashed(b, size, h, …)` is a readable file of `b` with fingerprint `h`, tagged `size`. */
  lemma {:induction false} HashedMembers(b: seq<Candidate>, size: nat, h: string, hasher: Sample -> U64, m: Member)
    requires m in Hashed(b, size, h, hasher)
    ensures m.file in b && m.size == size
    ensures QuickHash(m.file.info, hasher) == Some(h) && m.file.info.readable
    decreases |b|
  {
    var c := b[|b| - 1];
    if m in Hashed(b[..|b| - 1], size, h, hasher) {
      HashedMembers(b[..|b| - 1], size, h, hasher, m);
    }
  }

  /** `Hashed` keeps every readable file with fingerprint `h` and drops the rest. */
  lemma {:induction false} HashedComplete(b: seq<Candidate>, size: nat, h: string, hasher: Sample -> U64, c: Candidate)
    requires c in b && QuickHash(c.info, hasher) == Some(h)
    ensures Member(c, size) in Hashed(b, size, h, hasher)
    decreases |b|
  {
    if c != b[|b| - 1] {
      assert c in b[..|b| - 1] by {
        var i :| 0 <= i < |b| && b[i] == c;
        assert i < |b| - 1;
        assert b[..|b| - 1][i] == c;
      }
      HashedComplete(b[..|b| - 1], size, h, hasher, c);
    }
  }

  /**
   * Every member gathered under `h` is a readable file with fingerprint
   * `h`, from a visited bucket of two or more files, tagged with that
   * bucket's size.
   */
  lemma {:induction false} GatheredMembers(buckets: Buckets, order: seq<nat>, h: string, hasher: Sample -> U64, m: Member)
    requires m in Gathered(buckets, order, h, hasher)
    ensures m.size in order && m.file in Bucket(buckets, m.size)
    ensures QuickHash(m.file.info, hasher) == Some(h) && Contributes(buckets, m.size, h, hasher)
    decreases |order|
  {
    var init := order[..|order| - 1];
    var k := order[|order| - 1];
    if m in Gathered(buckets, init, h, hasher) {
      GatheredMembers(buckets, init, h, hasher, m);
      assert m.size in order by {
        var j :| 0 <= j < |init| && init[j] == m.size;
        assert order[j] == m.size;
      }
    } else {
      assert m in Hashed(Bucket(buckets, k), k, h, hasher);
      HashedMembers(Bucket(buckets, k), k, h, hasher, m);
    }
  }

  /** Every readable file of a visited bucket of two or more files is gathered under its fingerprint. */
  lemma {:induction false} GatheredComplete(buckets: Buckets, order: seq<nat>, h: string, hasher: Sample -> U64, k: nat, c: Candidate)
    requires k in order && |Bucket(buckets, k)| >= 2 && c in Bucket(buckets, k) && QuickHash(c.info, hasher) == Some(h)
    ensures Member(c, k) in Gathered(buckets, order, h, hasher)
    decreases |order|
  {
    var init := order[..|order| - 1];
    if k == order[|order| - 1] {
      HashedComplete(Bucket(buckets, k), k, h, hasher, c);
    } else {
      assert k in init by {
        var j :| 0 <= j < |order| && order[j] == k;
        assert init[j] == k;
      }
      GatheredComplete(buckets, init, h, hasher, k, c);
    }
  }

  /**
   * No two files of different hashed buckets share a fingerprint: on the
   * files the walk found, the hasher does not collide across sizes.
   */
  ghost predicate NoCrossSizeCollision(buckets: Buckets, hasher: Sample -> U64)
  {
    forall k1, k2, c1, c2 ::
      k1 in buckets && k2 in buckets && |buckets[k1]| >= 2 && |buckets[k2]| >= 2
      && c1 in buckets[k1] && c2 in buckets[k2]
      && QuickHash(c1.info, hasher).Some? && QuickHash(c1.info, hasher) == QuickHash(c2.info, hasher)
      ==> k1 == k2
  }

  /** Without cross-size collisions, two different size buckets never contribute to the same fingerprint. */
  lemma BucketsDisjoint(buckets: Buckets, k1: nat, k2: nat, h: string, hasher: Sample -> U64)
    requires NoCrossSizeCollision(buckets, hasher)
    requires k1 != k2 && Contributes(buckets, k1, h, hasher)
    ensures !Contributes(buckets, k2, h, hasher)
  {
    if Contributes(buckets, k2, h, hasher) {
      var m1 := Hashed(buckets[k1], k1, h, hasher)[0];
      var m2 := Hashed(buckets[k2], k2, h, hasher)[0];
      HashedMembers(buckets[k1], k1, h, hasher, m1);
      HashedMembers(buckets[k2], k2, h, hasher, m2);
      assert false;
    }
  }

  /**
   * Without cross-size collisions, what phase 2 gathers under `h` is
   * exactly what the one bucket contributing to `h` gives.
   */
  lemma {:induction false} GatheredSingle(buckets: Buckets, order: seq<nat>, h: string, hasher: Sample -> U64, k: nat)
    requires NoCrossSizeCollision(buckets, hasher)
    requires Maps.Distinct(order)
    requires k in order && Contributes(buckets, k, h, hasher)
    ensures Gathered(buckets, order, h, hasher) == Hashed(buckets[k], k, h, hasher)
    decreases |order|
  {
    var init := order[..|order| - 1];
    var last := order[|order| - 1];
    if last == k {
      if Gathered(buckets, init, h, hasher) != [] {
        var m := Gathered(buckets, init, h, hasher)[0];
        GatheredMembers(buckets, init, h, hasher, m);
        var j :| 0 <= j < |init| && init[j] == m.size;
        assert order[j] == m.size && j < |order| - 1;
        BucketsDisjoint(buckets, k, m.size, h, hasher);
        assert false;
      }
    } else {
      assert k in init by {
        var j :| 0 <= j < |order| && order[j] == k;
        assert init[j] == k;
      }
      assert Maps.Distinct(init) by {
        forall i, j | 0 <= i < j < |init|
          ensures init[i] != init[j]
        {
          assert init[i] == order[i] && init[j] == order[j];
        }
      }
      GatheredSingle(buckets, init, h, hasher, k);
      BucketsDisjoint(buckets, k, last, h, hasher);
    }
  }

  /**
   * The groups of phase 2 when no two sizes collide: every group comes
   * from one hashed bucket and holds exactly what that bucket contributes,
   * and every contribution is a group.
   */
  ghost predicate Grouped(buckets: Buckets, groups: HashGroups, hasher: Sample -> U64)
  {
    && (forall h :: h in groups ==>
      exists k :: Contributes(buckets, k, h, hasher) && groups[h] == Hashed(buckets[k], k, h, hasher))
    && (forall k, h :: Contributes(buckets, k, h, hasher) ==>
      h in groups && groups[h] == Hashed(buckets[k], k, h, hasher))
  }

  /** Without cross-size collisions, phase 2 in any order of the buckets groups each bucket on its own. */
  lemma GroupedWithoutCollision(buckets: Buckets, order: seq<nat>, groups: HashGroups, hasher: Sample -> U64)
    requires NoCrossSizeCollision(buckets, hasher)
    requires KeyOrder(buckets, order)
    requires GatheredAll(buckets, order, groups, hasher)
    ensures Grouped(buckets, groups, hasher)
  {
    forall h | h in groups
      ensures exists k :: Contributes(buckets, k, h, hasher) && groups[h] == Hashed(buckets[k], k, h, hasher)
    {
      assert Lookup(groups, h) == Gathered(buckets, order, h, hasher);
      var m := Gathered(buckets, order, h, hasher)[0];
      GatheredMembers(buckets, order, h, hasher, m);
      GatheredSingle(buckets, order, h, hasher, m.size);
    }
    forall k, h | Contributes(buckets, k, h, hasher)
      ensures h in groups && groups[h] == Hashed(buckets[k], k, h, hasher)
    {
      GatheredSingle(buckets, order, h, hasher, k);
      assert Lookup(groups, h) == Gathered(buckets, order, h, hasher);
    }
  }

  // ---------------------------------------------------------------------
  // Groups, labels and extensions
  // ---------------------------------------------------------------------

  datatype DuplicateFile = DuplicateFile(path: string, size: nat, modified: string, extension: string)

  /** `size` is the size of one copy; `wasted` is what all copies but one occupy. */
  datatype DuplicateGroup = DuplicateGroup(hash: string, size: nat, count: nat, wasted: nat, files: seq<DuplicateFile>)

  function Dist(a: int, b: int): nat
  {
    if a >= b then a - b else b - a
  }

  /** n / d rounded to the nearest integer, ties to even, as `{:.0}` renders it. */
  function RoundDiv(n: nat, d: nat): (q: nat)
    requires d > 0
    ensures 2 * Dist(n, q * d) <= d
    ensures 2 * Dist(n, q * d) == d ==> q % 2 == 0
  {
    DivParts(n, d);
    var q: nat := n / d;
    var r: nat := n % d;
    var res := if 2 * r > d then q + 1 else if 2 * r < d then q else if q % 2 == 0 then q else q + 1;
    RoundChoice(n, d, q, r, res);
    res
  }

  /** Rounding to the nearer of `q` and `q + 1`, ties to the even one. */
  lemma RoundChoice(n: nat, d: nat, q: nat, r: nat, res: nat)
    requires d > 0 && r < d
    requires Dist(n, q * d) == r && Dist(n, (q + 1) * d) == d - r
    requires res == if 2 * r > d then q + 1 else if 2 * r < d then q else if q % 2 == 0 then q else q + 1
    ensures 2 * Dist(n, res * d) <= d
    ensures 2 * Dist(n, res * d) == d ==> res % 2 == 0
  {
    if res == q {
      assert Dist(n, res * d) == r;
    } else {
      assert Dist(n, res * d) == d - r;
    }
  }

  lemma DivParts(n: nat, d: nat)
    requires d > 0
    ensures n / d >= 0 && 0 <= n % d < d
    ensures Dist(n, (n / d) * d) == n % d
    ensures Dist(n, (n / d + 1) * d) == d - n % d
  {
    var q := n / d;
    assert n == q * d + n % d;
    assert (q + 1) * d == q * d + d;
  }

  /** Whole days from the Unix epoch to `t`, zero for a time before the epoch. */
  function EpochDays(t: int): nat
  {
    if t < 0 then 0 else t / SecondsPerDay
  }

  /**
   * The age label: whole days from the Unix epoch to the modification time
   * (zero for a time before the epoch), shown in years, months or days.
   */
  function AgeLabel(modified: Option<int>): (r: string)
    ensures r == "Unknown" <==> modified.None?
    ensures r == "Today" <==> modified.Some? && modified.value < SecondsPerDay
  {
    match modified
    case None => "Unknown"
    case Some(t) =>
      var days := EpochDays(t);
      if days > 365 then
        var s := NatToString(RoundDiv(days, 365)) + "y ago";
        assert s[|s| - 1] == 'o';
        s
      else if days > 30 then
        var s := NatToString(RoundDiv(days, 30)) + "mo ago";
        assert s[|s| - 1] == 'o';
        s
      else if days > 0 then
        var s := NatToString(days) + "d ago";
        assert s[|s| - 1] == 'o';
        s
      else "Today"
  }

  /**
   * The unit of the label follows the strict thresholds on the day count:
   * years above 365 days, months above 30, days above 0; a label in days
   * shows the day count itself.
   */
  lemma AgeLabelUnits(t: int)
    ensures EndsWith(AgeLabel(Some(t)), "y ago") <==> EpochDays(t) > 365
    ensures EndsWith(AgeLabel(Some(t)), "mo ago") <==> 30 < EpochDays(t) <= 365
    ensures EndsWith(AgeLabel(Some(t)), "d ago") <==> 0 < EpochDays(t) <= 30
    ensures 0 < EpochDays(t) <= 30 ==> AgeLabel(Some(t)) == NatToString(EpochDays(t)) + "d ago"
  {
    var days := EpochDays(t);
    var r := AgeLabel(Some(t));
    if days > 365 {
      var n := NatToString(RoundDiv(days, 365));
      assert r == n + "y ago";
      YearsSuffix(n);
    } else if days > 30 {
      var n := NatToString(RoundDiv(days, 30));
      assert r == n + "mo ago";
      MonthsSuffix(n);
    } else if days > 0 {
      var n := NatToString(days);
      assert r == n + "d ago";
      DaysSuffix(n);
    } else {
      assert r == "Today";
    }
  }

  lemma YearsSuffix(n: string)
    requires |n| >= 1 && AllDigits(n)
    ensures EndsWith(n + "y ago", "y ago") && !EndsWith(n + "y ago", "mo ago") && !EndsWith(n + "y ago", "d ago")
  {
    var r := n + "y ago";
    assert r[|r| - 5..] == "y ago";
    assert r[|r| - 5] == 'y';
    assert r[|r| - 6] == n[|n| - 1];
  }

  lemma MonthsSuffix(n: string)
    requires |n| >= 1 && AllDigits(n)
    ensures EndsWith(n + "mo ago", "mo ago") && !EndsWith(n + "mo ago", "y ago") && !EndsWith(n + "mo ago", "d ago")
  {
    var r := n + "mo ago";
    assert r[|r| - 6..] == "mo ago";
    assert r[|r| - 5] == 'o';
  }

  lemma DaysSuffix(n: string)
    requires |n| >= 1 && AllDigits(n)
    ensures EndsWith(n + "d ago", "d ago") && !EndsWith(n + "d ago", "y ago") && !EndsWith(n + "d ago", "mo ago")
  {
    var r := n + "d ago";
    assert r[|r| - 5..] == "d ago";
    assert r[|r| - 5] == 'd';
    assert r[|r| - 6] == n[|n| - 1];
  }

  /** The position of the last '.' in `s`. */
  function LastDot(s: string): (r: Option<nat>)
    ensures r.Some? ==> r.value < |s| && s[r.value] == '.' && forall j :: r.value < j < |s| ==> s[j] != '.'
    ensures r.None? ==> forall j :: 0 <= j < |s| ==> s[j] != '.'
  {
    if s == [] then None
    else if s[|s| - 1] == '.' then Some(|s| - 1)
    else LastDot(s[..|s| - 1])
  }

  /** `Path::extension` of a file name: None without a dot, for a leading dot only, and for "..". */
  function Extension(name: string): (r: Option<string>)
    ensures r.Some? ==> exists i :: 0 < i < |name| && name[i] == '.' && r.value == name[i + 1..]
    ensures r.Some? ==> forall j :: 0 <= j < |r.value| ==> r.value[j] != '.'
    ensures (forall j :: 0 <= j < |name| ==> name[j] != '.') ==> r.None?
  {
    if name == ".." then None
    else match LastDot(name)
      case None => None
      case Some(i) => if i == 0 then None else Some(name[i + 1..])
  }

  function ToDuplicateFile(m: Member): (f: DuplicateFile)
    ensures f.path == m.file.path && f.size == m.size
  {
    DuplicateFile(m.file.path, m.size, AgeLabel(m.file.info.modified), Extension(m.file.name).GetOr(""))
  }

  /** The `DuplicateGroup` phase 3 builds for fingerprint `h` and its members. */
  function MakeGroup(h: string, members: seq<Member>): DuplicateGroup
    requires |members| >= 1 && |h| >= HashWidth
  {
    var files := ToDuplicateFiles(members);
    DuplicateGroup(h[..HashWidth], members[0].size, |files|, members[0].size * (|files| - 1), files)
  }

  /** `files.iter().map(…).collect()`. */
  function ToDuplicateFiles(members: seq<Member>): (files: seq<DuplicateFile>)
    ensures |files| == |members|
    ensures forall i :: 0 <= i < |members| ==> files[i] == ToDuplicateFile(members[i])
  {
    if members == [] then [] else [ToDuplicateFile(members[0])] + ToDuplicateFiles(members[1..])
  }

  /**
   * A group lists every member once, in order, takes its size from the
   * first member, and wastes that size once for every copy but one.
   */
  lemma MakeGroupShape(h: string, members: seq<Member>)
    requires |members| >= 1 && |h| >= HashWidth
    ensures var g := MakeGroup(h, members);
      && g.hash == h[..HashWidth] && |g.hash| == HashWidth && g.size == members[0].size
      && g.count == |members| == |g.files|
      && g.wasted == g.size * (g.count - 1)
      && (forall i :: 0 <= i < |members| ==> g.files[i].path == members[i].file.path && g.files[i].size == members[i].size)
  {
  }

  /** Rank for `sort_by` on wasted space, largest first. */
  function WasteRank(g: DuplicateGroup): Rank
  {
    Rank(0, g.wasted)
  }

  function Copies(g: DuplicateGroup): int
  {
    g.count - 1
  }

  function Wasted(g: DuplicateGroup): int
  {
    g.wasted
  }

  /** Fingerprint `h` is one phase 3 turns into a group: two or more members. */
  predicate Kept(groups: HashGroups, h: string)
  {
    h in groups && |groups[h]| >= 2 && |h| >= HashWidth
  }

  /**
   * After the fingerprints in `done` have been visited: `all` holds, once
   * each, the group of every visited fingerprint with two or more members.
   */
  ghost predicate Built(groups: HashGroups, done: set<string>, all: seq<DuplicateGroup>)
  {
    BuiltFrom(groups, done, all) && BuiltCovers(groups, done, all) && HashesIn(done, all) && HashesDistinct(all)
  }

  /** Every group comes from a visited fingerprint. */
  ghost predicate BuiltFrom(groups: HashGroups, done: set<string>, all: seq<DuplicateGroup>)
  {
    forall g :: g in all ==> exists h :: h in done && Kept(groups, h) && g == MakeGroup(h, groups[h])
  }

  /** Every visited fingerprint with two or more members has its group. */
  ghost predicate BuiltCovers(groups: HashGroups, done: set<string>, all: seq<DuplicateGroup>)
  {
    forall h :: h in done && Kept(groups, h) ==> MakeGroup(h, groups[h]) in all
  }

  ghost predicate HashesIn(done: set<string>, all: seq<DuplicateGroup>)
  {
    forall i :: 0 <= i < |all| ==> all[i].hash in done
  }

  predicate HashesDistinct(all: seq<DuplicateGroup>)
  {
    forall i, j :: 0 <= i < j < |all| ==> all[i].hash != all[j].hash
  }

  /** The groups phase 3 makes for the fingerprints `keys`, visited in that order. */
  function GroupsOf(groups: HashGroups, keys: seq<string>): seq<DuplicateGroup>
    requires forall h :: h in keys ==> h in groups && |h| >= HashWidth
  {
    if keys == [] then []
    else
      var h := keys[|keys| - 1];
      GroupsOf(groups, keys[..|keys| - 1]) + (if |groups[h]| >= 2 then [MakeGroup(h, groups[h])] else [])
  }

  /** Phase 3: one group per fingerprint with two or more members, in the map's own order. */
  method BuildGroups(groups: HashGroups) returns (all: seq<DuplicateGroup>)
    requires forall h :: h in groups ==> |h| == HashWidth
    ensures Built(groups, groups.Keys, all)
  {
    var keys := Maps.KeysInSomeOrder(groups);
    all := [];
    for i := 0 to |keys|
      invariant all == GroupsOf(groups, keys[..i])
    {
      assert keys[..i + 1][..i] == keys[..i];
      var h := keys[i];
      if |groups[h]| >= 2 {
        all := all + [MakeGroup(h, groups[h])];
      }
    }
    assert keys[..|keys|] == keys;
    GroupsOfBuilt(groups, keys, groups.Keys);
  }

  /** Visiting distinct fingerprints one after another builds their groups once each. */
  lemma {:induction false} GroupsOfBuilt(groups: HashGroups, keys: seq<string>, done: set<string>)
    requires forall h :: h in keys ==> h in groups && |h| == HashWidth
    requires Maps.Distinct(keys)
    requires forall h :: h in done <==> h in keys
    ensures Built(groups, done, GroupsOf(groups, keys))
    decreases |keys|
  {
    if keys == [] {
      assert done == {};
    } else {
      var init := keys[..|keys| - 1];
      var h := keys[|keys| - 1];
      var before := done - {h};
      LastRemoved(keys);
      GroupsOfBuilt(groups, init, before);
      assert done == before + {h};
      BuildStep(groups, before, GroupsOf(groups, init), GroupsOf(groups, keys), h);
    }
  }

  /** Without its last element, a sequence of distinct keys holds exactly the other keys. */
  lemma LastRemoved<K>(keys: seq<K>)
    requires keys != [] && Maps.Distinct(keys)
    ensures forall x :: x in keys[..|keys| - 1] <==> x in keys && x != keys[|keys| - 1]
  {
    forall x | x in keys && x != keys[|keys| - 1]
      ensures x in keys[..|keys| - 1]
    {
      var j :| 0 <= j < |keys| && keys[j] == x;
      assert keys[..|keys| - 1][j] == x;
    }
  }

  /** Visiting one more fingerprint keeps `Built`; its group's hash is new. */
  lemma BuildStep(groups: HashGroups, done: set<string>, all: seq<DuplicateGroup>, all': seq<DuplicateGroup>, h: string)
    requires h in groups && h !in done && |h| == HashWidth
    requires Built(groups, done, all)
    requires all' == if |groups[h]| >= 2 then all + [MakeGroup(h, groups[h])] else all
    ensures Built(groups, done + {h}, all')
  {
    if |groups[h]| >= 2 {
      var g := MakeGroup(h, groups[h]);
      assert g.hash == h[..HashWidth] == h;
      StepFrom(groups, done, all, h);
      StepCovers(groups, done, all, h);
      StepHashes(done, all, g);
    }
  }

  lemma StepFrom(groups: HashGroups, done: set<string>, all: seq<DuplicateGroup>, h: string)
    requires Kept(groups, h) && BuiltFrom(groups, done, all)
    ensures BuiltFrom(groups, done + {h}, all + [MakeGroup(h, groups[h])])
  {
    forall g' | g' in all + [MakeGroup(h, groups[h])]
      ensures exists h' :: h' in done + {h} && Kept(groups, h') && g' == MakeGroup(h', groups[h'])
    {
      if g' in all {
        var h' :| h' in done && Kept(groups, h') && g' == MakeGroup(h', groups[h']);
        assert h' in done + {h};
      } else {
        assert g' == MakeGroup(h, groups[h]);
      }
    }
  }

  lemma StepCovers(groups: HashGroups, done: set<string>, all: seq<DuplicateGroup>, h: string)
    requires Kept(groups, h) && BuiltCovers(groups, done, all)
    ensures BuiltCovers(groups, done + {h}, all + [MakeGroup(h, groups[h])])
  {
  }

  lemma StepHashes(done: set<string>, all: seq<DuplicateGroup>, g: DuplicateGroup)
    requires g.hash !in done && HashesIn(done, all) && HashesDistinct(all)
    ensures HashesIn(done + {g.hash}, all + [g]) && HashesDistinct(all + [g])
  {
    var all' := all + [g];
    forall i, j | 0 <= i < j < |all'|
      ensures all'[i].hash != all'[j].hash
    {
      if j == |all| {
        assert all'[i].hash in done;
      } else {
        assert all'[i] == all[i] && all'[j] == all[j];
      }
    }
  }

  /**
   * `all` lists, once each, the group of every fingerprint under which
   * phase 2, visiting the buckets in `order`, gathered two or more files.
   */
  ghost predicate IsMergedGrouping(buckets: Buckets, order: seq<nat>, hasher: Sample -> U64, all: seq<DuplicateGroup>)
  {
    MergedFrom(buckets, order, hasher, all) && MergedCovers(buckets, order, hasher, all) && HashesDistinct(all)
  }

  /** Every group is that of a fingerprint under which two or more files were gathered. */
  ghost predicate MergedFrom(buckets: Buckets, order: seq<nat>, hasher: Sample -> U64, all: seq<DuplicateGroup>)
  {
    forall g :: g in all ==> exists h ::
      |Gathered(buckets, order, h, hasher)| >= 2 && |h| == HashWidth && g == MakeGroup(h, Gathered(buckets, order, h, hasher))
  }

  /** Every fingerprint under which two or more files were gathered has its group. */
  ghost predicate MergedCovers(buckets: Buckets, order: seq<nat>, hasher: Sample -> U64, all: seq<DuplicateGroup>)
  {
    forall h :: |Gathered(buckets, order, h, hasher)| >= 2 ==>
      |h| == HashWidth && MakeGroup(h, Gathered(buckets, order, h, hasher)) in all
  }

  /**
   * `all` lists, once each, the group of every fingerprint that two or more
   * files of one hashed bucket share.
   */
  ghost predicate IsGrouping(buckets: Buckets, hasher: Sample -> U64, all: seq<DuplicateGroup>)
  {
    (forall g :: g in all ==> exists k, h ::
      Contributes(buckets, k, h, hasher) && |Hashed(buckets[k], k, h, hasher)| >= 2 && |h| >= HashWidth
      && g == MakeGroup(h, Hashed(buckets[k], k, h, hasher)))
    && (forall k, h :: Contributes(buckets, k, h, hasher) && |Hashed(buckets[k], k, h, hasher)| >= 2 && |h| >= HashWidth ==>
      MakeGroup(h, Hashed(buckets[k], k, h, hasher)) in all)
    && (forall i, j :: 0 <= i < j < |all| ==> all[i].hash != all[j].hash)
  }

  /** Every fingerprint key of phase 2 is a 16-digit rendering. */
  lemma GroupKeys(buckets: Buckets, order: seq<nat>, groups: HashGroups, hasher: Sample -> U64)
    requires GatheredAll(buckets, order, groups, hasher)
    ensures forall h :: h in groups ==> |h| == HashWidth
  {
    forall h | h in groups
      ensures |h| == HashWidth
    {
      GatheredWidth(buckets, order, h, hasher);
    }
  }

  lemma GatheredWidth(buckets: Buckets, order: seq<nat>, h: string, hasher: Sample -> U64)
    requires Gathered(buckets, order, h, hasher) != []
    ensures |h| == HashWidth
  {
    GatheredMembers(buckets, order, h, hasher, Gathered(buckets, order, h, hasher)[0]);
  }

  /** The groups phase 3 builds from the map phase 2 fills are its fingerprints of two or more files. */
  lemma GroupingOfPhases(buckets: Buckets, order: seq<nat>, hasher: Sample -> U64, groups: HashGroups, all: seq<DuplicateGroup>)
    requires KeyOrder(buckets, order)
    requires GatheredAll(buckets, order, groups, hasher)
    requires Built(groups, groups.Keys, all)
    ensures IsMergedGrouping(buckets, order, hasher, all)
  {
    BuiltFromGathered(buckets, order, hasher, groups, all);
    BuiltCoversGathered(buckets, order, hasher, groups, all);
  }

  lemma BuiltFromGathered(buckets: Buckets, order: seq<nat>, hasher: Sample -> U64, groups: HashGroups, all: seq<DuplicateGroup>)
    requires GatheredAll(buckets, order, groups, hasher)
    requires BuiltFrom(groups, groups.Keys, all)
    ensures MergedFrom(buckets, order, hasher, all)
  {
    forall g | g in all
      ensures exists h :: (|Gathered(buckets, order, h, hasher)| >= 2 && |h| == HashWidth
        && g == MakeGroup(h, Gathered(buckets, order, h, hasher)))
    {
      BuiltGroupGathered(buckets, order, hasher, groups, all, g);
    }
  }

  lemma BuiltCoversGathered(buckets: Buckets, order: seq<nat>, hasher: Sample -> U64, groups: HashGroups, all: seq<DuplicateGroup>)
    requires GatheredAll(buckets, order, groups, hasher)
    requires BuiltCovers(groups, groups.Keys, all)
    ensures MergedCovers(buckets, order, hasher, all)
  {
    forall h | |Gathered(buckets, order, h, hasher)| >= 2
      ensures |h| == HashWidth && MakeGroup(h, Gathered(buckets, order, h, hasher)) in all
    {
      GatheredGroupBuilt(buckets, order, hasher, groups, all, h);
    }
  }

  lemma BuiltGroupGathered(buckets: Buckets, order: seq<nat>, hasher: Sample -> U64, groups: HashGroups, all: seq<DuplicateGroup>,
                           g: DuplicateGroup)
    requires GatheredAll(buckets, order, groups, hasher)
    requires BuiltFrom(groups, groups.Keys, all)
    requires g in all
    ensures exists h :: (|Gathered(buckets, order, h, hasher)| >= 2 && |h| == HashWidth
      && g == MakeGroup(h, Gathered(buckets, order, h, hasher)))
  {
    var h :| h in groups.Keys && Kept(groups, h) && g == MakeGroup(h, groups[h]);
    assert Lookup(groups, h) == Gathered(buckets, order, h, hasher);
    GatheredWidth(buckets, order, h, hasher);
  }

  lemma GatheredGroupBuilt(buckets: Buckets, order: seq<nat>, hasher: Sample -> U64, groups: HashGroups, all: seq<DuplicateGroup>,
                           h: string)
    requires GatheredAll(buckets, order, groups, hasher)
    requires BuiltCovers(groups, groups.Keys, all)
    requires |Gathered(buckets, order, h, hasher)| >= 2
    ensures |h| == HashWidth && MakeGroup(h, Gathered(buckets, order, h, hasher)) in all
  {
    assert Lookup(groups, h) == Gathered(buckets, order, h, hasher);
    GatheredWidth(buckets, order, h, hasher);
    assert h in groups && Kept(groups, h);
  }

  /** Without cross-size collisions, the merged grouping is the grouping of each bucket on its own. */
  lemma MergedIsGrouping(buckets: Buckets, order: seq<nat>, hasher: Sample -> U64, all: seq<DuplicateGroup>)
    requires NoCrossSizeCollision(buckets, hasher)
    requires KeyOrder(buckets, order)
    requires IsMergedGrouping(buckets, order, hasher, all)
    ensures IsGrouping(buckets, hasher, all)
  {
    forall g | g in all
      ensures exists k, h ::
        Contributes(buckets, k, h, hasher) && |Hashed(buckets[k], k, h, hasher)| >= 2 && |h| >= HashWidth
        && g == MakeGroup(h, Hashed(buckets[k], k, h, hasher))
    {
      MergedGroupFromBucket(buckets, order, hasher, all, g);
    }
    forall k, h | Contributes(buckets, k, h, hasher) && |Hashed(buckets[k], k, h, hasher)| >= 2 && |h| >= HashWidth
      ensures MakeGroup(h, Hashed(buckets[k], k, h, hasher)) in all
    {
      GatheredSingle(buckets, order, h, hasher, k);
      assert |Gathered(buckets, order, h, hasher)| >= 2;
    }
  }

  lemma MergedGroupFromBucket(buckets: Buckets, order: seq<nat>, hasher: Sample -> U64, all: seq<DuplicateGroup>, g: DuplicateGroup)
    requires NoCrossSizeCollision(buckets, hasher)
    requires KeyOrder(buckets, order)
    requires IsMergedGrouping(buckets, order, hasher, all)
    requires g in all
    ensures exists k, h ::
      Contributes(buckets, k, h, hasher) && |Hashed(buckets[k], k, h, hasher)| >= 2 && |h| >= HashWidth
      && g == MakeGroup(h, Hashed(buckets[k], k, h, hasher))
  {
    var h :| |Gathered(buckets, order, h, hasher)| >= 2 && |h| == HashWidth && g == MakeGroup(h, Gathered(buckets, order, h, hasher));
    var m := Gathered(buckets, order, h, hasher)[0];
    GatheredMembers(buckets, order, h, hasher, m);
    GatheredSingle(buckets, order, h, hasher, m.size);
    assert Contributes(buckets, m.size, h, hasher) && g == MakeGroup(h, Hashed(buckets[m.size], m.size, h, hasher));
  }

  /**
   * A group of the merged grouping is shaped as the program builds it: two
   * or more copies, the first member's size, and the waste that size times
   * the copies but one; no file in it is smaller than `minBytes`.
   */
  lemma MergedGroupsShaped(buckets: Buckets, order: seq<nat>, hasher: Sample -> U64, all: seq<DuplicateGroup>, minBytes: nat)
    requires KeyOrder(buckets, order)
    requires IsMergedGrouping(buckets, order, hasher, all)
    requires forall k :: k in buckets ==> k >= minBytes
    ensures forall g :: g in all ==> Shaped(g) && g.size >= minBytes
    ensures forall g, f :: g in all && f in g.files ==> f.size >= minBytes
  {
    forall g | g in all
      ensures Shaped(g) && g.size >= minBytes
      ensures forall f :: f in g.files ==> f.size >= minBytes
    {
      var h :| |Gathered(buckets, order, h, hasher)| >= 2 && |h| == HashWidth && g == MakeGroup(h, Gathered(buckets, order, h, hasher));
      var ms := Gathered(buckets, order, h, hasher);
      MakeGroupShape(h, ms);
      forall i | 0 <= i < |ms|
        ensures ms[i].size >= minBytes
      {
        GatheredMembers(buckets, order, h, hasher, ms[i]);
      }
    }
  }

  /** A readable file holding `data`, named by `tag`. */
  function CollidingFile(data: seq<Byte>, tag: char): Candidate
  {
    Candidate([tag], [tag], FileData(data, true, None))
  }

  /** Two buckets of two files each, of sizes 1 and 2. */
  function CollidingBuckets(): Buckets
  {
    map[1 := [CollidingFile([0], 'a'), CollidingFile([1], 'b')], 2 := [CollidingFile([0, 0], 'c'), CollidingFile([1, 1], 'd')]]
  }

  /**
   * One `hash_groups` map serves every size bucket: when the fingerprints
   * of two sizes collide, in either order of the buckets, their files form
   * one group of four whose size is its first member's, and which so
   * holds a file of the other size.
   */
  lemma CollisionMergesSizes(hasher: Sample -> U64, z: U64)
    requires forall s :: hasher(s) == z
    ensures KeyOrder(CollidingBuckets(), [1, 2]) && KeyOrder(CollidingBuckets(), [2, 1])
    ensures !NoCrossSizeCollision(CollidingBuckets(), hasher)
    ensures var h := HexPadded(z, HashWidth);
      && |Gathered(CollidingBuckets(), [1, 2], h, hasher)| == 4
      && !WellFormed(MakeGroup(h, Gathered(CollidingBuckets(), [1, 2], h, hasher)))
      && |Gathered(CollidingBuckets(), [2, 1], h, hasher)| == 4
      && !WellFormed(MakeGroup(h, Gathered(CollidingBuckets(), [2, 1], h, hasher)))
  {
    CollidingOrders();
    CollidingAcrossSizes(hasher, z);
    CollidingGathered(hasher, z);
  }

  lemma CollidingOrders()
    ensures KeyOrder(CollidingBuckets(), [1, 2]) && KeyOrder(CollidingBuckets(), [2, 1])
  {
  }

  lemma CollidingAcrossSizes(hasher: Sample -> U64, z: U64)
    requires forall s :: hasher(s) == z
    ensures !NoCrossSizeCollision(CollidingBuckets(), hasher)
  {
    var b := CollidingBuckets();
    var x, y := CollidingFile([0], 'a'), CollidingFile([0, 0], 'c');
    assert x in b[1] && y in b[2];
    assert QuickHash(x.info, hasher) == Some(HexPadded(z, HashWidth)) == QuickHash(y.info, hasher);
  }

  lemma CollidingGathered(hasher: Sample -> U64, z: U64)
    requires forall s :: hasher(s) == z
    ensures var h := HexPadded(z, HashWidth);
      && |Gathered(CollidingBuckets(), [1, 2], h, hasher)| == 4
      && !WellFormed(MakeGroup(h, Gathered(CollidingBuckets(), [1, 2], h, hasher)))
      && |Gathered(CollidingBuckets(), [2, 1], h, hasher)| == 4
      && !WellFormed(MakeGroup(h, Gathered(CollidingBuckets(), [2, 1], h, hasher)))
  {
    var h := HexPadded(z, HashWidth);
    var one, two := CollidingBucketHashed(hasher, z);
    CollidingInOrder(hasher, h, 1, 2, one, two);
    CollidingInOrder(hasher, h, 2, 1, two, one);
  }

  /** What each of the two buckets contributes under the one fingerprint. */
  lemma CollidingBucketHashed(hasher: Sample -> U64, z: U64) returns (one: seq<Member>, two: seq<Member>)
    requires forall s :: hasher(s) == z
    ensures one == [Member(CollidingFile([0], 'a'), 1), Member(CollidingFile([1], 'b'), 1)]
    ensures two == [Member(CollidingFile([0, 0], 'c'), 2), Member(CollidingFile([1, 1], 'd'), 2)]
    ensures Hashed(Bucket(CollidingBuckets(), 1), 1, HexPadded(z, HashWidth), hasher) == one
    ensures Hashed(Bucket(CollidingBuckets(), 2), 2, HexPadded(z, HashWidth), hasher) == two
  {
    one := [Member(CollidingFile([0], 'a'), 1), Member(CollidingFile([1], 'b'), 1)];
    two := [Member(CollidingFile([0, 0], 'c'), 2), Member(CollidingFile([1, 1], 'd'), 2)];
    PairHashed(CollidingFile([0], 'a'), CollidingFile([1], 'b'), 1, hasher, z);
    PairHashed(CollidingFile([0, 0], 'c'), CollidingFile([1, 1], 'd'), 2, hasher, z);
  }

  /** Visiting bucket `k1`, then `k2`: the group is the first bucket's files, then the second's. */
  lemma CollidingInOrder(hasher: Sample -> U64, h: string, k1: nat, k2: nat, first: seq<Member>, second: seq<Member>)
    requires |h| == HashWidth
    requires k1 in CollidingBuckets() && k2 in CollidingBuckets()
    requires |CollidingBuckets()[k1]| >= 2 && |CollidingBuckets()[k2]| >= 2
    requires Hashed(Bucket(CollidingBuckets(), k1), k1, h, hasher) == first
    requires Hashed(Bucket(CollidingBuckets(), k2), k2, h, hasher) == second
    requires |first| == 2 && |second| == 2
    requires forall i :: 0 <= i < 2 ==> first[i].size == k1 && second[i].size == k2
    requires k1 != k2
    ensures |Gathered(CollidingBuckets(), [k1, k2], h, hasher)| == 4
    ensures !WellFormed(MakeGroup(h, Gathered(CollidingBuckets(), [k1, k2], h, hasher)))
  {
    var b := CollidingBuckets();
    assert |Bucket(b, k1)| >= 2 && |Bucket(b, k2)| >= 2;
    assert [k1][..0] == [] && [k1][0] == k1;
    assert Gathered(b, [k1], h, hasher) == Gathered(b, [], h, hasher) + first == first;
    assert [k1, k2][..1] == [k1] && [k1, k2][1] == k2;
    var g := Gathered(b, [k1, k2], h, hasher);
    assert g == Gathered(b, [k1], h, hasher) + second;
    MakeGroupShape(h, g);
    assert MakeGroup(h, g).files[2].size == k2 != MakeGroup(h, g).size;
  }

  /** Under a constant hasher, two readable files both contribute in order. */
  lemma PairHashed(x: Candidate, y: Candidate, size: nat, hasher: Sample -> U64, z: U64)
    requires forall s :: hasher(s) == z
    requires x.info.readable && y.info.readable
    ensures Hashed([x, y], size, HexPadded(z, HashWidth), hasher) == [Member(x, size), Member(y, size)]
  {
    var h := HexPadded(z, HashWidth);
    assert QuickHash(x.info, hasher) == Some(h) && QuickHash(y.info, hasher) == Some(h);
    HashedSnoc([], x, size, h, hasher);
    HashedSnoc([x], y, size, h, hasher);
    assert [] + [x] == [x] && [x] + [y] == [x, y];
  }

  /** A group made from what one bucket contributes is well formed and has that bucket's size. */
  lemma HashedGroupWellFormed(b: seq<Candidate>, k: nat, h: string, hasher: Sample -> U64)
    requires |Hashed(b, k, h, hasher)| >= 2 && |h| >= HashWidth
    ensures WellFormed(MakeGroup(h, Hashed(b, k, h, hasher)))
    ensures MakeGroup(h, Hashed(b, k, h, hasher)).size == k
  {
    var ms := Hashed(b, k, h, hasher);
    forall i | 0 <= i < |ms|
      ensures ms[i].size == k
    {
      HashedMembers(b, k, h, hasher, ms[i]);
    }
    MakeGroupShape(h, ms);
  }

  /** Every group of a per-bucket grouping is well formed, and no smaller than the smallest bucket size. */
  lemma GroupsWellFormed(buckets: Buckets, hasher: Sample -> U64, all: seq<DuplicateGroup>, minBytes: nat)
    requires IsGrouping(buckets, hasher, all)
    requires forall k :: k in buckets ==> k >= minBytes
    ensures forall g :: g in all ==> WellFormed(g) && g.size >= minBytes
  {
    forall g | g in all
      ensures WellFormed(g) && g.size >= minBytes
    {
      var k, h :| Contributes(buckets, k, h, hasher) && |Hashed(buckets[k], k, h, hasher)| >= 2 && |h| >= HashWidth
        && g == MakeGroup(h, Hashed(buckets[k], k, h, hasher));
      HashedGroupWellFormed(buckets[k], k, h, hasher);
    }
  }

  /** The figures `scan_duplicates` returns; the duration is not modelled. */
  datatype ScanResult = ScanResult(groups: seq<DuplicateGroup>, totalDuplicates: int, totalWasted: int, filesScanned: nat)

  /**
   * A group as phase 3 builds it: two or more copies, the size of the
   * first, and that size wasted once for every copy but one.
   */
  predicate Shaped(g: DuplicateGroup)
  {
    g.count >= 2 && |g.files| == g.count && g.wasted == g.size * (g.count - 1)
    && g.files[0].size == g.size && |g.hash| == HashWidth
  }

  /** A group as the source promises it: shaped, and every copy of one size. */
  predicate WellFormed(g: DuplicateGroup)
  {
    Shaped(g) && forall i :: 0 <= i < |g.files| ==> g.files[i].size == g.size
  }

  /** The size buckets phase 1 fills. */
  ghost function FoundBuckets(userProfile: Option<string>, listing: string -> Listing, minBytes: nat): Buckets
  {
    AddAll(map[], Discovered(ScanDirs(userProfile), listing, 6, minBytes))
  }

  /**
   * `scan_duplicates`, with the folder listings and the hasher as inputs.
   * The groups are those of one fingerprint map over every bucket; when the
   * found files have no cross-size collision, each group is one bucket's.
   */
  method ScanDuplicates(userProfile: Option<string>, listing: string -> Listing, minBytes: nat, hasher: Sample -> U64)
    returns (r: ScanResult)
    ensures r.filesScanned == |Discovered(ScanDirs(userProfile), listing, 6, minBytes)|
    ensures exists order, all ::
      && KeyOrder(FoundBuckets(userProfile, listing, minBytes), order)
      && IsMergedGrouping(FoundBuckets(userProfile, listing, minBytes), order, hasher, all)
      && Summarises(r, all)
    ensures |r.groups| <= MaxGroups && SortedBy(r.groups, WasteRank)
    ensures forall g :: g in r.groups ==> Shaped(g) && g.size >= minBytes
    ensures forall g, f :: g in r.groups && f in g.files ==> f.size >= minBytes
    ensures NoCrossSizeCollision(FoundBuckets(userProfile, listing, minBytes), hasher) ==>
      exists all :: IsGrouping(FoundBuckets(userProfile, listing, minBytes), hasher, all) && Summarises(r, all)
    ensures NoCrossSizeCollision(FoundBuckets(userProfile, listing, minBytes), hasher) ==>
      forall g :: g in r.groups ==> WellFormed(g)
  {
    var dirs := ScanDirs(userProfile);
    ghost var found := Discovered(dirs, listing, 6, minBytes);
    var buckets, filesScanned := ScanFolders(dirs, listing, minBytes);
    DiscoveredReached(dirs, listing, 6, minBytes);
    BucketSizes(found, minBytes);
    var groups := HashPhase(buckets, hasher);
    ghost var order :| KeyOrder(buckets, order) && GatheredAll(buckets, order, groups, hasher);
    GroupKeys(buckets, order, groups, hasher);
    var all := BuildGroups(groups);
    GroupingOfPhases(buckets, order, hasher, groups, all);
    MergedGroupsShaped(buckets, order, hasher, all, minBytes);
    var sorted := SortBy(all, WasteRank);
    Ranked(all);
    r := ScanResult(Take(sorted, MaxGroups), Sum(sorted, Copies), Sum(sorted, Wasted), filesScanned);
    assert buckets == FoundBuckets(userProfile, listing, minBytes);
    assert Summarises(r, all);
    assert KeyOrder(buckets, order) && IsMergedGrouping(buckets, order, hasher, all);
    if NoCrossSizeCollision(buckets, hasher) {
      MergedIsGrouping(buckets, order, hasher, all);
      GroupsWellFormed(buckets, hasher, all, minBytes);
    }
  }

  /** `r` reports the first 100 of `all` by wasted space, and the totals over all of `all`. */
  predicate Summarises(r: ScanResult, all: seq<DuplicateGroup>)
  {
    && r.groups == Take(SortBy(all, WasteRank), MaxGroups)
    && r.totalDuplicates == Sum(all, Copies)
    && r.totalWasted == Sum(all, Wasted)
  }

  /**
   * Sorting and cutting the groups: the totals of the sorted list are those
   * of the unsorted one, and the first 100 are sorted and drawn from it.
   */
  lemma Ranked(all: seq<DuplicateGroup>)
    ensures Sum(SortBy(all, WasteRank), Copies) == Sum(all, Copies)
    ensures Sum(SortBy(all, WasteRank), Wasted) == Sum(all, Wasted)
    ensures var top := Take(SortBy(all, WasteRank), MaxGroups);
      && |top| <= MaxGroups && SortedBy(top, WasteRank)
      && forall g :: g in top ==> g in all
  {
    var sorted := SortBy(all, WasteRank);
    SumPermutation(sorted, all, Copies);
    SumPermutation(sorted, all, Wasted);
    TakeSorted(sorted, MaxGroups, WasteRank);
    forall g | g in Take(sorted, MaxGroups)
      ensures g in all
    {
      assert g in sorted;
      assert g in multiset(sorted);
    }
  }

  /** The buckets of the discovered files all have sizes of at least `minBytes`. */
  lemma BucketSizes(found: seq<Candidate>, minBytes: nat)
    requires forall c :: c in found ==> minBytes <= SizeOf(c)
    ensures forall k :: k in AddAll(map[], found) ==> minBytes <= k
  {
    BucketsOf(found);
  }

  // ---------------------------------------------------------------------
  // Delete
  // ---------------------------------------------------------------------

  /** The guard of `delete_duplicate`. */
  predicate InSystemDirectory(path: string)
  {
    Contains(ToLower(path), "\\windows\\")
    || Contains(ToLower(path), "\\program files")
    || Contains(ToLower(path), "\\system32")
  }

  /** `delete_duplicate`: the message and the volume after the call. */
  function DeleteDuplicate(path: string, v: Fs.Volume): (r: (Result<string, string>, Fs.Volume))
    ensures InSystemDirectory(path) ==> r == (Err("Cannot delete files from system directories"), v)
    ensures r.0.Ok? <==> !InSystemDirectory(path) && Fs.RemoveFile(v, path).0.Ok?
    ensures r.0.Ok? ==> r.0.value == "Deleted: " + path && r.1.files == v.files - {path}
    ensures r.0.Err? ==> r.1 == v
    ensures forall p :: p != path ==> (p in r.1.files <==> p in v.files)
  {
    if InSystemDirectory(path) then (Err("Cannot delete files from system directories"), v)
    else
      var (res, v') := Fs.RemoveFile(v, path);
      match res
      case Ok(_) => (Ok("Deleted: " + path), v')
      case Err(e) => (Err("Failed to delete: " + Fs.IoErrorText(e)), v')
  }
}
