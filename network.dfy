/**
 * The network monitor: the TCP and UDP listings become connections, the
 * connections are counted per process, the processes with connections
 * become "top talkers" ranked by connection count, and the overview counts
 * states and cuts both lists.  The three PowerShell listings are `Outcome`
 * parameters and the process table is a map from pid to process name.
 */
module Network {
  import opened Wrappers
  import opened Text
  import opened Parsing
  import opened Shell
  import Maps
  import opened Sorting

  datatype Connection = Connection(
    protocol: string,
    localAddr: string,
    remoteAddr: string,
    state: string,
    pid: nat,
    processName: string)

  datatype Talker = Talker(
    pid: nat,
    name: string,
    connections: nat,
    bytesSent: nat,
    bytesRecv: nat,
    status: string)

  datatype Overview = Overview(
    totalConnections: nat,
    tcpEstablished: nat,
    tcpListening: nat,
    udpActive: nat,
    processesWithNetwork: nat,
    topTalkers: seq<Talker>,
    connections: seq<Connection>)

  const MaxTalkers: nat := 30
  const MaxConnections: nat := 200

  // ---------------------------------------------------------------------
  // Listing lines
  // ---------------------------------------------------------------------

  /** A connection from the `local|remote|state|pid` fields; the pid is trimmed, and 0 when it does not parse. */
  function Endpoint(parts: seq<string>, protocol: string, state: string): Connection
    requires |parts| >= 4
  {
    Connection(protocol, Trim(parts[0]), Trim(parts[1]), state, ParseU32Or0(Trim(parts[3])), "")
  }

  /** A `Get-NetTCPConnection` line: four `|` fields at least; the state is the third field. */
  function ParseTcp(line: string): (r: Option<Connection>)
    ensures r.Some? <==> |Split(line, "|")| >= 4
    ensures r.Some? ==> r.value.protocol == "TCP" && r.value.pid <= U32Max && r.value.processName == ""
  {
    var parts := Split(line, "|");
    if |parts| >= 4 then Some(Endpoint(parts, "TCP", Trim(parts[2]))) else None
  }

  /** A `Get-NetUDPEndpoint` line: four `|` fields at least; the state is always "Active". */
  function ParseUdp(line: string): (r: Option<Connection>)
    ensures r.Some? <==> |Split(line, "|")| >= 4
    ensures r.Some? ==> r.value.protocol == "UDP" && r.value.state == "Active" && r.value.pid <= U32Max
  {
    var parts := Split(line, "|");
    if |parts| >= 4 then Some(Endpoint(parts, "UDP", "Active")) else None
  }

  /** Every parsed connection, TCP first, in listing order. */
  function Connections(tcp: Outcome, udp: Outcome): seq<Connection>
  {
    Collect(Lines(Stdout(tcp)), ParseTcp) + Collect(Lines(Stdout(udp)), ParseUdp)
  }

  /** Fields without `|` and without surrounding whitespace, and a printed pid, come back from a TCP line. */
  lemma TcpLineRoundTrip(local: string, remote: string, state: string, pid: nat)
    requires '|' !in local && '|' !in remote && '|' !in state
    requires Trim(local) == local && Trim(remote) == remote && Trim(state) == state
    requires pid <= U32Max
    ensures ParseTcp(Join([local, remote, state, NatToString(pid)], "|"))
            == Some(Connection("TCP", local, remote, state, pid, ""))
  {
    LineFields(local, remote, state, pid);
  }

  /** The same for a UDP line, whose state field is ignored. */
  lemma UdpLineRoundTrip(local: string, remote: string, state: string, pid: nat)
    requires '|' !in local && '|' !in remote && '|' !in state
    requires Trim(local) == local && Trim(remote) == remote
    requires pid <= U32Max
    ensures ParseUdp(Join([local, remote, state, NatToString(pid)], "|"))
            == Some(Connection("UDP", local, remote, "Active", pid, ""))
  {
    LineFields(local, remote, state, pid);
  }

  lemma LineFields(local: string, remote: string, state: string, pid: nat)
    requires '|' !in local && '|' !in remote && '|' !in state
    requires pid <= U32Max
    ensures Split(Join([local, remote, state, NatToString(pid)], "|"), "|") == [local, remote, state, NatToString(pid)]
    ensures ParseU32Or0(Trim(NatToString(pid))) == pid
  {
    var digits := NatToString(pid);
    var fields := [local, remote, state, digits];
    assert '|' !in digits by {
      assert forall i :: 0 <= i < |digits| ==> IsDigit(digits[i]);
    }
    FieldsFree(fields, '|');
    SplitJoin(fields, "|");
    TrimDigits(digits);
    ParseUnsignedOfNatToString(pid, U32Max);
  }

  // ---------------------------------------------------------------------
  // Per-process counts
  // ---------------------------------------------------------------------

  /** The number of connections owned by `pid`. */
  function CountPid(cs: seq<Connection>, pid: nat): nat
  {
    if cs == [] then 0 else CountPid(cs[..|cs| - 1], pid) + (if cs[|cs| - 1].pid == pid then 1 else 0)
  }

  /** `proc_conn_count` after the connections `cs` were pushed. */
  function PidCounts(cs: seq<Connection>): (m: map<nat, nat>)
    ensures forall p :: p in m <==> CountPid(cs, p) > 0
    ensures forall p :: p in m ==> m[p] == CountPid(cs, p)
  {
    if cs == [] then map[]
    else
      var m := PidCounts(cs[..|cs| - 1]);
      var p := cs[|cs| - 1].pid;
      m[p := (if p in m then m[p] else 0) + 1]
  }

  lemma {:induction false} PidOccurs(cs: seq<Connection>, i: nat)
    requires i < |cs|
    ensures CountPid(cs, cs[i].pid) > 0
  {
    if i < |cs| - 1 {
      assert cs[..|cs| - 1][i] == cs[i];
      PidOccurs(cs[..|cs| - 1], i);
    }
  }

  /** Pushing one connection increments its pid's count. */
  lemma PidCountsSnoc(cs: seq<Connection>, c: Connection)
    ensures PidCounts(cs + [c]) == PidCounts(cs)[c.pid := (if c.pid in PidCounts(cs) then PidCounts(cs)[c.pid] else 0) + 1]
  {
    assert (cs + [c])[..|cs|] == cs;
  }

  /**
   * One listing loop: each line that parses is pushed and its pid's count
   * is incremented.
   */
  method ReadConnections(lines: seq<string>, parse: string -> Option<Connection>,
                         conns: seq<Connection>, counts: map<nat, nat>)
    returns (conns': seq<Connection>, counts': map<nat, nat>)
    requires counts == PidCounts(conns)
    ensures conns' == conns + Collect(lines, parse)
    ensures counts' == PidCounts(conns')
  {
    var found: seq<Connection> := [];
    counts' := counts;
    assert conns + found == conns;
    for i := 0 to |lines|
      invariant found == Collect(lines[..i], parse)
      invariant counts' == PidCounts(conns + found)
    {
      CollectStep(lines, i, parse);
      var c := parse(lines[i]);
      if c.Some? {
        var pid := c.value.pid;
        PidCountsAppend(conns, found, c.value);
        counts' := counts'[pid := (if pid in counts' then counts'[pid] else 0) + 1];
        found := found + [c.value];
      }
    }
    assert lines[..|lines|] == lines;
    conns' := conns + found;
  }

  /** Appending one connection to the ones read so far adds 1 to its pid's count. */
  lemma PidCountsAppend(conns: seq<Connection>, found: seq<Connection>, c: Connection)
    ensures PidCounts(conns + (found + [c]))
      == PidCounts(conns + found)[c.pid := (if c.pid in PidCounts(conns + found) then PidCounts(conns + found)[c.pid] else 0) + 1]
  {
    assert conns + (found + [c]) == conns + found + [c];
    PidCountsSnoc(conns + found, c);
  }

  /** Both listing loops: TCP lines, then UDP lines. */
  method ReadListings(tcp: Outcome, udp: Outcome) returns (conns: seq<Connection>, counts: map<nat, nat>)
    ensures conns == Connections(tcp, udp)
    ensures counts == PidCounts(conns)
  {
    conns, counts := ReadConnections(Lines(Stdout(tcp)), ParseTcp, [], map[]);
    assert conns == Collect(Lines(Stdout(tcp)), ParseTcp);
    conns, counts := ReadConnections(Lines(Stdout(udp)), ParseUdp, conns, counts);
  }

  // ---------------------------------------------------------------------
  // Process names
  // ---------------------------------------------------------------------

  /** `proc_names.get(&pid).cloned().unwrap_or_else(|| fallback)`. */
  function NameOr(names: map<nat, string>, pid: nat, fallback: string): string
  {
    if pid in names then names[pid] else fallback
  }

  /** A connection carrying its owner's name, or "System" for a pid the process table lacks. */
  function WithName(c: Connection, names: map<nat, string>): Connection
  {
    c.(processName := NameOr(names, c.pid, "System"))
  }

  function Named(cs: seq<Connection>, names: map<nat, string>): seq<Connection>
  {
    seq(|cs|, i requires 0 <= i < |cs| => WithName(cs[i], names))
  }

  /** The loop that overwrites `process_name` in place. */
  method FillNames(conns: seq<Connection>, names: map<nat, string>) returns (named: seq<Connection>)
    ensures named == Named(conns, names)
  {
    named := conns;
    for i := 0 to |named|
      invariant |named| == |conns|
      invariant forall j :: 0 <= j < i ==> named[j] == WithName(conns[j], names)
      invariant forall j :: i <= j < |conns| ==> named[j] == conns[j]
    {
      named := named[i := WithName(named[i], names)];
    }
  }

  /** Connections with the given state. */
  function CountState(cs: seq<Connection>, state: string): nat
  {
    if cs == [] then 0 else CountState(cs[..|cs| - 1], state) + (if cs[|cs| - 1].state == state then 1 else 0)
  }

  /** Connections of the given protocol. */
  function CountProtocol(cs: seq<Connection>, protocol: string): nat
  {
    if cs == [] then 0 else CountProtocol(cs[..|cs| - 1], protocol) + (if cs[|cs| - 1].protocol == protocol then 1 else 0)
  }

  /** Filling in names changes no state, protocol or pid, so no count. */
  lemma {:induction false} NamedCounts(cs: seq<Connection>, names: map<nat, string>, state: string, protocol: string)
    ensures CountState(Named(cs, names), state) == CountState(cs, state)
    ensures CountProtocol(Named(cs, names), protocol) == CountProtocol(cs, protocol)
  {
    if cs != [] {
      var init := cs[..|cs| - 1];
      NamedCounts(init, names, state, protocol);
      assert Named(cs, names)[..|cs| - 1] == Named(init, names);
    }
  }

  predicate IsTcp(c: Connection)
  {
    c.protocol == "TCP"
  }

  predicate IsUdp(c: Connection)
  {
    c.protocol == "UDP" && c.state == "Active"
  }

  /**
   * `udp_active` is the number of UDP lines that parsed, and every
   * connection in state "Listen" is a TCP one.
   */
  lemma UdpAndListenCounts(tcp: Outcome, udp: Outcome)
    ensures CountProtocol(Connections(tcp, udp), "UDP") == |Collect(Lines(Stdout(udp)), ParseUdp)|
    ensures forall i :: 0 <= i < |Connections(tcp, udp)| && Connections(tcp, udp)[i].state == "Listen" ==>
              Connections(tcp, udp)[i].protocol == "TCP"
  {
    var a := Collect(Lines(Stdout(tcp)), ParseTcp);
    var b := Collect(Lines(Stdout(udp)), ParseUdp);
    CollectKeeps(Lines(Stdout(tcp)), ParseTcp, IsTcp);
    CollectKeeps(Lines(Stdout(udp)), ParseUdp, IsUdp);
    CountUdpOf(a, b);
    ListenIsTcp(a, b);
  }

  /** Only the TCP listing has connections in state "Listen". */
  lemma ListenIsTcp(a: seq<Connection>, b: seq<Connection>)
    requires forall i :: 0 <= i < |a| ==> IsTcp(a[i])
    requires forall i :: 0 <= i < |b| ==> IsUdp(b[i])
    ensures forall i :: 0 <= i < |a + b| && (a + b)[i].state == "Listen" ==> (a + b)[i].protocol == "TCP"
  {
    forall i | 0 <= i < |a + b|
      ensures (a + b)[i].state == "Listen" ==> (a + b)[i].protocol == "TCP"
    {
      if i < |a| {
        assert (a + b)[i] == a[i];
      } else {
        assert (a + b)[i] == b[i - |a|];
      }
    }
  }

  lemma {:induction false} CountUdpOf(a: seq<Connection>, b: seq<Connection>)
    requires forall i :: 0 <= i < |a| ==> IsTcp(a[i])
    requires forall i :: 0 <= i < |b| ==> IsUdp(b[i])
    ensures CountProtocol(a + b, "UDP") == |b|
  {
    if b == [] {
      assert a + b == a;
      NoUdp(a);
    } else {
      var init := b[..|b| - 1];
      CountUdpOf(a, init);
      assert (a + b)[..|a + b| - 1] == a + init;
    }
  }

  lemma {:induction false} NoUdp(a: seq<Connection>)
    requires forall i :: 0 <= i < |a| ==> IsTcp(a[i])
    ensures CountProtocol(a, "UDP") == 0
  {
    if a != [] {
      NoUdp(a[..|a| - 1]);
    }
  }

  // ---------------------------------------------------------------------
  // Per-process traffic
  // ---------------------------------------------------------------------

  /** An `Id|Sent|Recv` line: the id must parse as written; the counters fall back to 0. */
  function ParseIo(line: string): (r: Option<(nat, (nat, nat))>)
    ensures r.Some? <==> |Split(line, "|")| >= 3 && ParseU32(Split(line, "|")[0]).Some?
    ensures r.Some? ==> r.value.0 <= U32Max && r.value.1.0 <= U64Max && r.value.1.1 <= U64Max
  {
    var p := Split(line, "|");
    if |p| >= 3 && ParseU32(p[0]).Some? then
      Some((ParseU32(p[0]).value, (ParseU64(p[1]).GetOr(0), ParseU64(p[2]).GetOr(0))))
    else None
  }

  /** `io_map`: collecting into a map keeps the last line for each id. */
  function IoMap(lines: seq<string>): map<nat, (nat, nat)>
  {
    LastByKey(lines, ParseIo)
  }

  /** Collecting keyed records into a map: a later record replaces an earlier one with the same key. */
  function LastByKey<V>(lines: seq<string>, parse: string -> Option<(nat, V)>): map<nat, V>
  {
    if lines == [] then map[]
    else
      var m := LastByKey(lines[..|lines| - 1], parse);
      var e := parse(lines[|lines| - 1]);
      if e.Some? then m[e.value.0 := e.value.1] else m
  }

  /** The line `line` holds a record for `key`. */
  predicate Reports<V>(line: string, key: nat, parse: string -> Option<(nat, V)>)
  {
    parse(line).Some? && parse(line).value.0 == key
  }

  /**
   * An id has traffic figures exactly when some line reports it, and the
   * figures are those of the last line that does.
   */
  lemma IoMapLastWins(lines: seq<string>, pid: nat)
    ensures pid in IoMap(lines) <==> exists i :: 0 <= i < |lines| && Reports(lines[i], pid, ParseIo)
    ensures pid in IoMap(lines) ==>
      exists i :: 0 <= i < |lines| && ParseIo(lines[i]) == Some((pid, IoMap(lines)[pid]))
        && forall j :: i < j < |lines| ==> !Reports(lines[j], pid, ParseIo)
  {
    LastByKeyHas(lines, pid, ParseIo);
    if pid in IoMap(lines) {
      LastByKeyLast(lines, pid, ParseIo);
    }
  }

  lemma {:induction false} LastByKeyHas<V>(lines: seq<string>, key: nat, parse: string -> Option<(nat, V)>)
    ensures key in LastByKey(lines, parse) <==> exists i :: 0 <= i < |lines| && Reports(lines[i], key, parse)
  {
    if lines != [] {
      var n := |lines| - 1;
      var init := lines[..n];
      LastByKeyHas(init, key, parse);
      LastByKeyUnfold(lines, key, parse);
      if key in LastByKey(init, parse) {
        var i :| 0 <= i < n && Reports(init[i], key, parse);
        assert lines[i] == init[i];
      }
      if exists i :: 0 <= i < |lines| && Reports(lines[i], key, parse) {
        var i :| 0 <= i < |lines| && Reports(lines[i], key, parse);
        if i < n {
          assert lines[i] == init[i];
        }
      }
    }
  }

  lemma LastByKeyUnfold<V>(lines: seq<string>, key: nat, parse: string -> Option<(nat, V)>)
    requires lines != []
    ensures Reports(lines[|lines| - 1], key, parse) ==>
      key in LastByKey(lines, parse) && LastByKey(lines, parse)[key] == parse(lines[|lines| - 1]).value.1
    ensures !Reports(lines[|lines| - 1], key, parse) ==>
      (key in LastByKey(lines, parse) <==> key in LastByKey(lines[..|lines| - 1], parse))
      && (key in LastByKey(lines, parse) ==> LastByKey(lines, parse)[key] == LastByKey(lines[..|lines| - 1], parse)[key])
  {
  }

  lemma {:induction false} LastByKeyLast<V>(lines: seq<string>, key: nat, parse: string -> Option<(nat, V)>)
    requires key in LastByKey(lines, parse)
    ensures exists i :: 0 <= i < |lines| && parse(lines[i]) == Some((key, LastByKey(lines, parse)[key]))
              && forall j :: i < j < |lines| ==> !Reports(lines[j], key, parse)
  {
    var n := |lines| - 1;
    var init := lines[..n];
    LastByKeyUnfold(lines, key, parse);
    if Reports(lines[n], key, parse) {
      assert parse(lines[n]) == Some((key, LastByKey(lines, parse)[key]));
    } else {
      LastByKeyLast(init, key, parse);
      var i :| 0 <= i < n && parse(init[i]) == Some((key, LastByKey(init, parse)[key]))
        && forall j :: i < j < n ==> !Reports(init[j], key, parse);
      assert lines[i] == init[i];
      forall j | i < j < |lines|
        ensures !Reports(lines[j], key, parse)
      {
        if j < n {
          assert lines[j] == init[j];
        }
      }
    }
  }

  // ---------------------------------------------------------------------
  // Top talkers
  // ---------------------------------------------------------------------

  /** Above 10 connections a process is "Heavy", above 3 "Active", otherwise "Light". */
  function Status(count: nat): (r: string)
    ensures r == "Heavy" <==> count > 10
    ensures r == "Light" <==> count <= 3
  {
    if count > 10 then "Heavy" else if count > 3 then "Active" else "Light"
  }

  /** The traffic figures of a process, zero when the traffic listing has none. */
  function Traffic(io: map<nat, (nat, nat)>, pid: nat): (nat, nat)
  {
    if pid in io then io[pid] else (0, 0)
  }

  /** The talker record of a process with `count` connections; "Unknown" when the process table lacks it. */
  function TalkerOf(pid: nat, count: nat, names: map<nat, string>, io: map<nat, (nat, nat)>): Talker
  {
    Talker(pid, NameOr(names, pid, "Unknown"), count, Traffic(io, pid).0, Traffic(io, pid).1, Status(count))
  }

  /**
   * `ts` holds one record per pid that has a positive count and is not 0,
   * and nothing else.
   */
  ghost predicate TalkersFor(counts: map<nat, nat>, names: map<nat, string>, io: map<nat, (nat, nat)>, ts: seq<Talker>)
  {
    && (forall i :: 0 <= i < |ts| ==>
          && ts[i].pid != 0 && ts[i].pid in counts && counts[ts[i].pid] > 0
          && ts[i] == TalkerOf(ts[i].pid, counts[ts[i].pid], names, io))
    && (forall i, j :: 0 <= i < j < |ts| ==> ts[i].pid != ts[j].pid)
    && (forall p :: p in counts && p != 0 && counts[p] > 0 ==> exists j :: 0 <= j < |ts| && ts[j].pid == p)
  }

  /** The talkers of the connections `cs`. */
  ghost predicate TalkersOf(cs: seq<Connection>, names: map<nat, string>, io: map<nat, (nat, nat)>, ts: seq<Talker>)
  {
    TalkersFor(PidCounts(cs), names, io, ts)
  }

  /** Every talker in `ts` is the record of one of the first `k` keys, with a positive count and not 0. */
  ghost predicate SoundSoFar(counts: map<nat, nat>, names: map<nat, string>, keys: seq<nat>, k: nat, ts: seq<Talker>)
    requires k <= |keys|
  {
    forall i :: 0 <= i < |ts| ==>
      && ts[i].pid != 0 && ts[i].pid in keys[..k] && ts[i].pid in counts && counts[ts[i].pid] > 0
      && ts[i] == TalkerOf(ts[i].pid, counts[ts[i].pid], names, map[])
  }

  ghost predicate PidsDistinct(ts: seq<Talker>)
  {
    forall i, j :: 0 <= i < j < |ts| ==> ts[i].pid != ts[j].pid
  }

  /** Each of the first `k` keys with a positive count, other than 0, has its talker in `ts`. */
  ghost predicate CoveredSoFar(counts: map<nat, nat>, keys: seq<nat>, k: nat, ts: seq<Talker>)
    requires k <= |keys|
  {
    forall j :: 0 <= j < k && keys[j] in counts && keys[j] != 0 && counts[keys[j]] > 0 ==>
      exists i :: 0 <= i < |ts| && ts[i].pid == keys[j]
  }

  /** The talkers of the first `k` keys of `keys`, in order: the state of the loop in `BuildTalkers`. */
  ghost predicate TalkersSoFar(counts: map<nat, nat>, names: map<nat, string>, keys: seq<nat>, k: nat, ts: seq<Talker>)
    requires k <= |keys|
  {
    SoundSoFar(counts, names, keys, k, ts) && PidsDistinct(ts) && CoveredSoFar(counts, keys, k, ts)
  }

  /** What one key's turn of the loop appends. */
  function TalkerStep(counts: map<nat, nat>, names: map<nat, string>, p: nat, ts: seq<Talker>): seq<Talker>
    requires p in counts
  {
    if counts[p] > 0 && p != 0 then ts + [TalkerOf(p, counts[p], names, map[])] else ts
  }

  lemma SoundStep(counts: map<nat, nat>, names: map<nat, string>, keys: seq<nat>, k: nat, ts: seq<Talker>)
    requires k < |keys| && keys[k] in counts
    requires SoundSoFar(counts, names, keys, k, ts)
    ensures SoundSoFar(counts, names, keys, k + 1, TalkerStep(counts, names, keys[k], ts))
  {
    var ts' := TalkerStep(counts, names, keys[k], ts);
    assert keys[..k + 1] == keys[..k] + [keys[k]];
    forall i | 0 <= i < |ts'|
      ensures ts'[i].pid in keys[..k + 1]
    {
      if i < |ts| {
        assert ts'[i] == ts[i];
      }
    }
  }

  lemma DistinctStep(counts: map<nat, nat>, names: map<nat, string>, keys: seq<nat>, k: nat, ts: seq<Talker>)
    requires k < |keys| && keys[k] in counts && Maps.Distinct(keys)
    requires SoundSoFar(counts, names, keys, k, ts) && PidsDistinct(ts)
    ensures PidsDistinct(TalkerStep(counts, names, keys[k], ts))
  {
    var p := keys[k];
    if counts[p] > 0 && p != 0 {
      var ts' := TalkerStep(counts, names, p, ts);
      assert p !in keys[..k];
      forall i, j | 0 <= i < j < |ts'|
        ensures ts'[i].pid != ts'[j].pid
      {
        assert ts'[i] == ts[i];
        if j < |ts| {
          assert ts'[j] == ts[j];
        }
      }
    }
  }

  lemma CoveredStep(counts: map<nat, nat>, names: map<nat, string>, keys: seq<nat>, k: nat, ts: seq<Talker>)
    requires k < |keys| && keys[k] in counts
    requires CoveredSoFar(counts, keys, k, ts)
    ensures CoveredSoFar(counts, keys, k + 1, TalkerStep(counts, names, keys[k], ts))
  {
    var ts' := TalkerStep(counts, names, keys[k], ts);
    forall j | 0 <= j < k + 1 && keys[j] in counts && keys[j] != 0 && counts[keys[j]] > 0
      ensures exists i :: 0 <= i < |ts'| && ts'[i].pid == keys[j]
    {
      if j < k {
        var i :| 0 <= i < |ts| && ts[i].pid == keys[j];
        assert ts'[i] == ts[i];
      } else {
        assert ts'[|ts|].pid == keys[j];
      }
    }
  }

  /** After every key, `TalkersSoFar` is `TalkersFor`. */
  lemma TalkersDone(counts: map<nat, nat>, names: map<nat, string>, keys: seq<nat>, ts: seq<Talker>)
    requires forall p :: p in keys <==> p in counts
    requires TalkersSoFar(counts, names, keys, |keys|, ts)
    ensures TalkersFor(counts, names, map[], ts)
  {
    assert keys[..|keys|] == keys;
    forall p | p in counts && p != 0 && counts[p] > 0
      ensures exists j :: 0 <= j < |ts| && ts[j].pid == p
    {
      var j :| 0 <= j < |keys| && keys[j] == p;
    }
  }

  /** The `filter` and `map` over `proc_conn_count`, in the map's iteration order. */
  method BuildTalkers(counts: map<nat, nat>, names: map<nat, string>) returns (ts: seq<Talker>)
    ensures TalkersFor(counts, names, map[], ts)
  {
    var keys := Maps.KeysInSomeOrder(counts);
    ts := [];
    for k := 0 to |keys|
      invariant TalkersSoFar(counts, names, keys, k, ts)
    {
      var p := keys[k];
      SoundStep(counts, names, keys, k, ts);
      DistinctStep(counts, names, keys, k, ts);
      CoveredStep(counts, names, keys, k, ts);
      if counts[p] > 0 && p != 0 {
        ts := ts + [TalkerOf(p, counts[p], names, map[])];
      }
    }
    TalkersDone(counts, names, keys, ts);
  }

  /** A talker with the traffic figures of the listing, where it has some. */
  function WithTraffic(t: Talker, io: map<nat, (nat, nat)>): Talker
  {
    if t.pid in io then t.(bytesSent := io[t.pid].0, bytesRecv := io[t.pid].1) else t
  }

  /** The loop that overwrites the byte fields in place. */
  method FillTraffic(ts: seq<Talker>, io: map<nat, (nat, nat)>) returns (filled: seq<Talker>)
    ensures |filled| == |ts|
    ensures forall i :: 0 <= i < |ts| ==> filled[i] == WithTraffic(ts[i], io)
  {
    filled := ts;
    for i := 0 to |filled|
      invariant |filled| == |ts|
      invariant forall j :: 0 <= j < i ==> filled[j] == WithTraffic(ts[j], io)
      invariant forall j :: i <= j < |ts| ==> filled[j] == ts[j]
    {
      var t := filled[i];
      if t.pid in io {
        filled := filled[i := t.(bytesSent := io[t.pid].0, bytesRecv := io[t.pid].1)];
      }
    }
  }

  /** Filling in traffic turns zero-traffic talkers into the talkers with traffic. */
  lemma TrafficFilled(counts: map<nat, nat>, names: map<nat, string>, io: map<nat, (nat, nat)>,
                      ts: seq<Talker>, filled: seq<Talker>)
    requires TalkersFor(counts, names, map[], ts)
    requires |filled| == |ts|
    requires forall i :: 0 <= i < |ts| ==> filled[i] == WithTraffic(ts[i], io)
    ensures TalkersFor(counts, names, io, filled)
  {
    forall i | 0 <= i < |ts|
      ensures filled[i].pid == ts[i].pid
      ensures filled[i] == TalkerOf(ts[i].pid, counts[ts[i].pid], names, io)
    {
      TrafficOf(ts[i].pid, counts[ts[i].pid], names, io);
    }
    forall p | p in counts && p != 0 && counts[p] > 0
      ensures exists j :: 0 <= j < |filled| && filled[j].pid == p
    {
      var j :| 0 <= j < |ts| && ts[j].pid == p;
      assert filled[j].pid == p;
    }
  }

  lemma TrafficOf(pid: nat, count: nat, names: map<nat, string>, io: map<nat, (nat, nat)>)
    ensures WithTraffic(TalkerOf(pid, count, names, map[]), io) == TalkerOf(pid, count, names, io)
  {
  }

  /** Most connections first; `sort_by` is stable. */
  function ConnRank(t: Talker): Rank
  {
    Rank(0, t.connections)
  }

  /** Reordering the talkers keeps them the talkers. */
  lemma TalkersPermuted(counts: map<nat, nat>, names: map<nat, string>, io: map<nat, (nat, nat)>,
                        a: seq<Talker>, b: seq<Talker>)
    requires TalkersFor(counts, names, io, a)
    requires multiset(a) == multiset(b)
    ensures TalkersFor(counts, names, io, b)
  {
    forall i | 0 <= i < |b|
      ensures b[i] in a
    {
      assert b[i] in multiset(b);
    }
    assert Maps.Distinct(a);
    Maps.DistinctPermutation(a, b);
    forall p | p in counts && p != 0 && counts[p] > 0
      ensures exists j :: 0 <= j < |b| && b[j].pid == p
    {
      var j :| 0 <= j < |a| && a[j].pid == p;
      assert a[j] in multiset(b);
      var k :| 0 <= k < |b| && b[k] == a[j];
    }
  }

  // ---------------------------------------------------------------------
  // The overview
  // ---------------------------------------------------------------------

  /** The talkers of `proc_conn_count`, with their traffic, sorted busiest first. */
  method RankTalkers(counts: map<nat, nat>, names: map<nat, string>, ioOut: Outcome) returns (ranked: seq<Talker>)
    ensures TalkersFor(counts, names, IoMap(Lines(Stdout(ioOut))), ranked)
    ensures SortedBy(ranked, ConnRank)
  {
    var talkers := BuildTalkers(counts, names);
    var io := IoMap(Lines(Stdout(ioOut)));
    var filled := FillTraffic(talkers, io);
    TrafficFilled(counts, names, io, talkers, filled);
    ranked := SortBy(filled, ConnRank);
    TalkersPermuted(counts, names, io, filled, ranked);
  }

  /**
   * `get_network_connections`: the counts cover every parsed connection,
   * while only the first 200 connections and the 30 busiest talkers are
   * returned.  `ranked` is the full sorted talker list before the cut.
   */
  method GetNetworkConnections(tcp: Outcome, udp: Outcome, names: map<nat, string>, ioOut: Outcome)
    returns (ov: Overview, ghost ranked: seq<Talker>)
    ensures ov.totalConnections == |Connections(tcp, udp)|
    ensures ov.connections == Take(Named(Connections(tcp, udp), names), MaxConnections)
    ensures ov.tcpEstablished == CountState(Connections(tcp, udp), "Established")
    ensures ov.tcpListening == CountState(Connections(tcp, udp), "Listen")
    ensures ov.udpActive == CountProtocol(Connections(tcp, udp), "UDP")
    ensures TalkersOf(Connections(tcp, udp), names, IoMap(Lines(Stdout(ioOut))), ranked)
    ensures SortedBy(ranked, ConnRank)
    ensures ov.processesWithNetwork == |ranked|
    ensures ov.topTalkers == Take(ranked, MaxTalkers)
  {
    var raw, counts := ReadListings(tcp, udp);
    var conns := FillNames(raw, names);
    var sorted := RankTalkers(counts, names, ioOut);
    NamedCounts(raw, names, "Established", "UDP");
    NamedCounts(raw, names, "Listen", "UDP");
    ov := Overview(|conns|, CountState(conns, "Established"), CountState(conns, "Listen"),
                   CountProtocol(conns, "UDP"), |sorted|, Take(sorted, MaxTalkers), Take(conns, MaxConnections));
    ranked := sorted;
  }

  /** Every returned talker has at least as many connections as every talker cut off. */
  lemma TopTalkersLead(ranked: seq<Talker>)
    requires SortedBy(ranked, ConnRank)
    ensures forall i, j :: 0 <= i < |Take(ranked, MaxTalkers)| <= j < |ranked| ==>
              Take(ranked, MaxTalkers)[i].connections >= ranked[j].connections
  {
  }

  /** Every connection of a pid other than 0 is attributed to exactly that pid's talker. */
  lemma ConnectionHasTalker(cs: seq<Connection>, names: map<nat, string>, io: map<nat, (nat, nat)>,
                            ts: seq<Talker>, i: nat)
    requires TalkersOf(cs, names, io, ts)
    requires i < |cs| && cs[i].pid != 0
    ensures exists j :: 0 <= j < |ts| && ts[j].pid == cs[i].pid && ts[j].connections == CountPid(cs, cs[i].pid)
  {
    PidOccurs(cs, i);
  }

  // The talkers' counts and pid 0's count make up every connection.

  function TalkerTotal(ts: seq<Talker>): nat
  {
    if ts == [] then 0 else TalkerTotal(ts[..|ts| - 1]) + ts[|ts| - 1].connections
  }

  /** Sum over the talkers of the number of connections in `cs` with the talker's pid. */
  function PidSum(ts: seq<Talker>, cs: seq<Connection>): nat
  {
    if ts == [] then 0 else PidSum(ts[..|ts| - 1], cs) + CountPid(cs, ts[|ts| - 1].pid)
  }

  /** Number of talkers with pid `p`. */
  function Hits(ts: seq<Talker>, p: nat): nat
  {
    if ts == [] then 0 else Hits(ts[..|ts| - 1], p) + (if ts[|ts| - 1].pid == p then 1 else 0)
  }

  /**
   * `processes_with_network` talkers share out all connections but those
   * of pid 0.
   */
  lemma TalkersAccountForAll(cs: seq<Connection>, names: map<nat, string>, io: map<nat, (nat, nat)>, ts: seq<Talker>)
    requires TalkersOf(cs, names, io, ts)
    ensures TalkerTotal(ts) + CountPid(cs, 0) == |cs|
  {
    TalkerTotalIsPidSum(ts, cs);
    forall i | 0 <= i < |cs| && cs[i].pid != 0
      ensures exists j :: 0 <= j < |ts| && ts[j].pid == cs[i].pid
    {
      PidOccurs(cs, i);
    }
    PidSumIsLength(ts, cs);
  }

  lemma {:induction false} TalkerTotalIsPidSum(ts: seq<Talker>, cs: seq<Connection>)
    requires forall i :: 0 <= i < |ts| ==> ts[i].connections == CountPid(cs, ts[i].pid)
    ensures TalkerTotal(ts) == PidSum(ts, cs)
  {
    if ts != [] {
      TalkerTotalIsPidSum(ts[..|ts| - 1], cs);
    }
  }

  lemma {:induction false} PidSumIsLength(ts: seq<Talker>, cs: seq<Connection>)
    requires forall i, j :: 0 <= i < j < |ts| ==> ts[i].pid != ts[j].pid
    requires forall j :: 0 <= j < |ts| ==> ts[j].pid != 0
    requires forall i :: 0 <= i < |cs| && cs[i].pid != 0 ==> exists j :: 0 <= j < |ts| && ts[j].pid == cs[i].pid
    ensures PidSum(ts, cs) + CountPid(cs, 0) == |cs|
  {
    if cs == [] {
      PidSumEmpty(ts);
    } else {
      var init := cs[..|cs| - 1];
      var c := cs[|cs| - 1];
      assert forall i :: 0 <= i < |init| ==> init[i] == cs[i];
      PidSumIsLength(ts, init);
      assert cs == init + [c];
      PidSumSnoc(ts, init, c);
      if c.pid == 0 {
        HitsNone(ts, 0);
      } else {
        var j :| 0 <= j < |ts| && ts[j].pid == c.pid;
        HitsOne(ts, c.pid, j);
      }
    }
  }

  lemma {:induction false} PidSumEmpty(ts: seq<Talker>)
    ensures PidSum(ts, []) == 0
  {
    if ts != [] {
      PidSumEmpty(ts[..|ts| - 1]);
    }
  }

  lemma {:induction false} PidSumSnoc(ts: seq<Talker>, cs: seq<Connection>, c: Connection)
    ensures PidSum(ts, cs + [c]) == PidSum(ts, cs) + Hits(ts, c.pid)
  {
    assert (cs + [c])[..|cs + [c]| - 1] == cs;
    if ts != [] {
      PidSumSnoc(ts[..|ts| - 1], cs, c);
    }
  }

  lemma {:induction false} HitsNone(ts: seq<Talker>, p: nat)
    requires forall j :: 0 <= j < |ts| ==> ts[j].pid != p
    ensures Hits(ts, p) == 0
  {
    if ts != [] {
      HitsNone(ts[..|ts| - 1], p);
    }
  }

  lemma {:induction false} HitsOne(ts: seq<Talker>, p: nat, j: nat)
    requires forall a, b :: 0 <= a < b < |ts| ==> ts[a].pid != ts[b].pid
    requires j < |ts| && ts[j].pid == p
    ensures Hits(ts, p) == 1
  {
    var init := ts[..|ts| - 1];
    if j == |ts| - 1 {
      HitsNone(init, p);
    } else {
      HitsOne(init, p, j);
    }
  }
}
