/**
 Node snapshots in memory, the snapshots queued for the table, and the table itself, over any run of
 packets, failed or dropped writes and restarts.
 */
module NodeCounters {
  import opened Prelude
  import opened NodeTable

  const PORTNUM_TEXT := 1
  const PORTNUM_POSITION := 3
  const PORTNUM_TELEMETRY := 67

  /** The node description some packets carry; a missing or empty field changes nothing. */
  datatype User = User(id: Option<string>, names: Names)

  datatype Packet = Packet(
    sender: Option<int>, senderId: Option<string>, portnum: Option<int>, last: Observation, user: Option<User>)

  /** Python's `a or b` on optional strings. */
  function Or(a: Option<string>, b: Option<string>): Option<string> {
    if a.Some? && a.value != "" then a else b
  }

  function OrNames(a: Names, b: Names): Names {
    Names(Or(a.longName, b.longName), Or(a.shortName, b.shortName), Or(a.role, b.role), Or(a.hwModel, b.hwModel))
  }

  const NO_NAMES := Names(None, None, None, None)
  const NOTHING_HEARD := Observation(None, None, None, None, None)

  function Fresh(num: int, nodeId: Option<string>, firstSeen: Option<int>): NodeRecord {
    NodeRecord(num, nodeId, NO_NAMES, firstSeen, None, NO_PACKETS, NOTHING_HEARD)
  }

  /** One packet: once in the total, at most once by transport, at most once by kind. */
  function Counted(c: Counters, p: Packet): Counters {
    Counters(
      c.packets + 1,
      c.texts + if p.portnum == Some(PORTNUM_TEXT) then 1 else 0,
      c.rf + if p.last.viaMqtt == Some(false) then 1 else 0,
      c.mqtt + if p.last.viaMqtt == Some(true) then 1 else 0,
      c.positions + if p.portnum == Some(PORTNUM_POSITION) then 1 else 0,
      c.telemetry + if p.portnum == Some(PORTNUM_TELEMETRY) then 1 else 0)
  }

  function Heard(node: NodeRecord, p: Packet, now: int): NodeRecord {
    var named := if p.user.None? then node else
      node.(names := OrNames(p.user.value.names, node.names),
            nodeId := if node.nodeId.Some? && node.nodeId.value != "" then node.nodeId
                      else Or(p.user.value.id, p.senderId));
    named.(lastHeard := Some(now), counters := Counted(node.counters, p), last := p.last)
  }

  function FillIn(a: Observation, b: Observation): Observation {
    Observation(Coalesce(a.snr, b.snr), Coalesce(a.rssi, b.rssi), Coalesce(a.hopsUsed, b.hopsUsed),
                Coalesce(a.hopStart, b.hopStart), Coalesce(a.viaMqtt, b.viaMqtt))
  }

  /** seed_from_store on one row: counters never go down, the rest only fills gaps. */
  function SeedNode(node: NodeRecord, row: NodeRecord): NodeRecord {
    NodeRecord(node.num, Or(row.nodeId, node.nodeId), OrNames(row.names, node.names),
               Coalesce(node.firstSeen, row.firstSeen), Coalesce(node.lastHeard, row.lastHeard),
               node.counters.Max(row.counters), FillIn(node.last, row.last))
  }

  function Known(nodes: map<int, NodeRecord>, num: int, nodeId: Option<string>, firstSeen: Option<int>): NodeRecord {
    if num in nodes then nodes[num] else Fresh(num, nodeId, firstSeen)
  }

  function SeedRow(nodes: map<int, NodeRecord>, row: NodeRecord): map<int, NodeRecord> {
    nodes[row.num := SeedNode(Known(nodes, row.num, None, None), row)]
  }

  function SeedAll(nodes: map<int, NodeRecord>, rows: seq<NodeRecord>): map<int, NodeRecord> {
    if rows == [] then nodes else SeedRow(SeedAll(nodes, rows[..|rows| - 1]), rows[|rows| - 1])
  }

  /** Once by transport, if the packet says which, and once by kind. */
  method CountPacket(before: Counters, p: Packet) returns (c: Counters)
    ensures c == Counted(before, p)
  {
    c := before.(packets := before.packets + 1);
    if p.last.viaMqtt == Some(true) {
      c := c.(mqtt := c.mqtt + 1);
    } else if p.last.viaMqtt == Some(false) {
      c := c.(rf := c.rf + 1);
    }
    if p.portnum == Some(PORTNUM_TEXT) {
      c := c.(texts := c.texts + 1);
    } else if p.portnum == Some(PORTNUM_POSITION) {
      c := c.(positions := c.positions + 1);
    } else if p.portnum == Some(PORTNUM_TELEMETRY) {
      c := c.(telemetry := c.telemetry + 1);
    }
  }

  /** The node bookkeeping of the ingestion pipeline; `upserts` are the snapshots offered to the store. */
  class PacketIngestor {
    var nodes: map<int, NodeRecord>
    var upserts: seq<NodeRecord>

    constructor ()
      ensures nodes == map[] && upserts == []
    {
      nodes, upserts := map[], [];
    }

    method UpdateNode(p: Packet, now: int)
      modifies this
      ensures p.sender.None? ==> nodes == old(nodes) && upserts == old(upserts)
      ensures p.sender.Some? ==>
                var num := p.sender.value;
                var node := Heard(Known(old(nodes), num, p.senderId, Some(now)), p, now);
                nodes == old(nodes)[num := node] && upserts == old(upserts) + [node]
    {
      if p.sender.None? {
        return;
      }
      var num := p.sender.value;
      if num !in nodes {
        nodes := nodes[num := Fresh(num, p.senderId, Some(now))];
      }
      var node := nodes[num];
      node := node.(lastHeard := Some(now), last := p.last);
      var c := CountPacket(node.counters, p);
      node := node.(counters := c);
      if p.user.Some? {
        node := node.(names := OrNames(p.user.value.names, node.names));
        if node.nodeId.None? || node.nodeId.value == "" {
          node := node.(nodeId := Or(p.user.value.id, p.senderId));
        }
      }
      nodes := nodes[num := node];
      upserts := upserts + [node];
    }

    method SeedFromStore(rows: seq<NodeRecord>)
      modifies this`nodes
      ensures nodes == SeedAll(old(nodes), rows)
    {
      for k := 0 to |rows|
        invariant nodes == SeedAll(old(nodes), rows[..k])
      {
        assert rows[..k + 1][..k] == rows[..k];
        var row := rows[k];
        if row.num !in nodes {
          nodes := nodes[row.num := Fresh(row.num, None, None)];
        }
        nodes := nodes[row.num := SeedNode(nodes[row.num], row)];
      }
      assert rows[..|rows|] == rows;
    }
  }

  // ---------------------------------------------------------------------------------------
  // Memory, queue and table together
  // ---------------------------------------------------------------------------------------

  /** `taken`: whether the bounded queue had room for the snapshot this step offers. */
  datatype Step =
    | Ingest(packet: Packet, now: int, taken: bool)
    | Telemetry(num: int, at: int, taken: bool)             // _merge_telemetry_into_node
    | NodeDb(num: int, user: User, heard: Option<int>, now: int, taken: bool)   // seed_from_nodedb
    | Seed(rows: seq<NodeRecord>)                           // seed_from_store
    | CommitNext | FailNext                                 // the writer settles the oldest snapshot
    | Restart(readable: bool, rows: seq<NodeRecord>)        // start-up: memory from what read_nodes returns

  datatype System = System(
    mem: map<int, NodeRecord>, pending: seq<NodeRecord>, table: map<int, NodeRecord>,
    lastCommitted: map<int, Counters>)

  const EMPTY := System(map[], [], map[], map[])

  function Offer(s: System, node: NodeRecord, taken: bool): System {
    s.(mem := s.mem[node.num := node], pending := if taken then s.pending + [node] else s.pending)
  }

  function Next(s: System, step: Step): System {
    match step
    case Ingest(p, now, taken) =>
      if p.sender.None? then s
      else Offer(s, Heard(Known(s.mem, p.sender.value, p.senderId, Some(now)), p, now), taken)
    case Telemetry(num, at, taken) => Offer(s, Known(s.mem, num, None, Some(at)), taken)
    case NodeDb(num, user, heard, now, taken) =>
      var node := Known(s.mem, num, None, Some(now));
      Offer(s, node.(nodeId := Or(user.id, node.nodeId), names := OrNames(user.names, node.names),
                     lastHeard := Coalesce(node.lastHeard, heard)), taken)
    case Seed(rows) => s.(mem := SeedAll(s.mem, rows))
    case CommitNext =>
      if s.pending == [] then s
      else
        var node := s.pending[0];
        s.(pending := s.pending[1..], table := Write(s.table, node),
           lastCommitted := s.lastCommitted[node.num := node.counters])
    case FailNext => if s.pending == [] then s else s.(pending := s.pending[1..])
    case Restart(readable, rows) => s.(mem := if readable then SeedAll(map[], rows) else map[], pending := [])
  }

  function Run(steps: seq<Step>): System {
    if steps == [] then EMPTY else Next(Run(steps[..|steps| - 1]), steps[|steps| - 1])
  }

  /** `rows` is the table, row by row, in some order. */
  ghost predicate Lists(rows: seq<NodeRecord>, table: map<int, NodeRecord>) {
    && (forall r <- rows :: r.num in table && table[r.num] == r)
    && (forall n <- table :: table[n] in rows)
    && (forall i, j | 0 <= i < j < |rows| :: rows[i].num != rows[j].num)
  }

  /** A step that reads the table, if it does, reads all of it. */
  ghost predicate Reads(s: System, step: Step) {
    && (step.Restart? ==> step.readable && Lists(step.rows, s.table))
    && (step.Seed? ==> Lists(step.rows, s.table))
  }

  /** Seeding reads the whole table, and every restart could. */
  ghost predicate Disciplined(steps: seq<Step>) {
    forall k | 0 <= k < |steps| :: Reads(Run(steps[..k]), steps[k])
  }

  /** Each table row carries its own key. */
  ghost predicate Keyed(m: map<int, NodeRecord>) {
    forall n <- m :: m[n].num == n
  }

  ghost predicate AllSound(m: map<int, NodeRecord>) {
    forall n <- m :: m[n].counters.Sound()
  }

  /** Nothing but the packet total: what a node's row may hold that memory has forgotten. */
  predicate OnlyPackets(c: Counters) {
    c.rf == 0 && c.mqtt == 0 && c.texts == 0 && c.positions == 0 && c.telemetry == 0
  }

  /** a counts no more than b; when not `exact`, the packet totals are left out. */
  predicate Below(a: Counters, b: Counters, exact: bool) {
    a.AtMost(if exact then b else b.(packets := a.packets))
  }

  /** Table, then the pending snapshots in order, then memory: counters only grow along the way. */
  ghost predicate Chained(s: System, exact: bool) {
    && (forall n <- s.table :: Below(s.table[n].counters, MemoryOf(s, n), exact))
    && (forall i | 0 <= i < |s.pending| :: PendingFits(s, s.pending[i], exact))
    && (forall i, j | 0 <= i < j < |s.pending| && s.pending[i].num == s.pending[j].num ::
          s.pending[i].counters.AtMost(s.pending[j].counters))
  }

  function MemoryOf(s: System, n: int): Counters {
    Known(s.mem, n, None, None).counters
  }

  ghost predicate PendingFits(s: System, p: NodeRecord, exact: bool) {
    && p.num in s.mem && p.counters.AtMost(s.mem[p.num].counters) && p.counters.Sound()
    && (p.num in s.table ==> Below(s.table[p.num].counters, p.counters, exact))
  }

  ghost predicate Faithful(s: System) {
    && s.table.Keys == s.lastCommitted.Keys
    && forall n <- s.table :: s.table[n].counters == s.lastCommitted[n]
  }

  /** With `exact`, what every run keeps; without it, what is left once a restart has read nothing. */
  ghost predicate Kept(s: System, exact: bool) {
    && Keyed(s.table) && Keyed(s.mem) && AllSound(s.table) && AllSound(s.mem) && Chained(s, exact)
    && (exact ==> Faithful(s))
  }

  ghost predicate Inv(s: System) {
    Kept(s, true)
  }

  /** Replacing one node in memory by one that counts no less keeps everything. */
  lemma OfferKeepsInv(s: System, node: NodeRecord, taken: bool, exact: bool)
    requires Kept(s, exact) && node.counters.Sound()
    requires MemoryOf(s, node.num).AtMost(node.counters)
    ensures Kept(Offer(s, node, taken), exact)
  {
    var s' := Offer(s, node, taken);
    forall i | 0 <= i < |s'.pending| ensures PendingFits(s', s'.pending[i], exact) {
      if i < |s.pending| { assert PendingFits(s, s.pending[i], exact); }
    }
    forall i, j | 0 <= i < j < |s'.pending| && s'.pending[i].num == s'.pending[j].num
      ensures s'.pending[i].counters.AtMost(s'.pending[j].counters)
    {
      assert PendingFits(s, s.pending[i], exact);
    }
  }

  /** The writer takes the oldest pending snapshot; with `exact`, MAX over columns is simply that snapshot. */
  lemma CommitKeepsInv(s: System, exact: bool)
    requires Kept(s, exact) && s.pending != []
    ensures Kept(Next(s, CommitNext), exact) && Kept(Next(s, FailNext), exact)
    ensures exact ==> Next(s, CommitNext).table[s.pending[0].num].counters == s.pending[0].counters
  {
    var p, c, f := s.pending[0], Next(s, CommitNext), Next(s, FailNext);
    assert PendingFits(s, p, exact);
    forall i | 0 <= i < |c.pending| ensures PendingFits(c, c.pending[i], exact) && PendingFits(f, f.pending[i], exact) {
      assert PendingFits(s, s.pending[i + 1], exact);
    }
  }

  ghost predicate InRows(num: int, rows: seq<NodeRecord>) {
    exists i | 0 <= i < |rows| :: rows[i].num == num
  }

  /** What seeding does to one node: its row, if it has one, joins the counters column by column. */
  lemma {:induction false} SeedOne(nodes: map<int, NodeRecord>, rows: seq<NodeRecord>, num: int)
    requires forall i, j | 0 <= i < j < |rows| :: rows[i].num != rows[j].num
    ensures !InRows(num, rows) ==>
      (num in SeedAll(nodes, rows) <==> num in nodes) && (num in nodes ==> SeedAll(nodes, rows)[num] == nodes[num])
    ensures forall i | 0 <= i < |rows| && rows[i].num == num ::
      num in SeedAll(nodes, rows)
      && SeedAll(nodes, rows)[num] == SeedNode(Known(nodes, num, None, None), rows[i])
  {
    if rows != [] {
      var k := |rows| - 1;
      SeedOne(nodes, rows[..k], num);
      if rows[k].num == num {
        assert !InRows(num, rows[..k]);
      } else if !InRows(num, rows) {
        assert !InRows(num, rows[..k]);
      } else {
        assert forall i | 0 <= i < k :: rows[..k][i] == rows[i];
      }
    }
  }

  /** Seeding from the table's rows: every row's node is known, and no counter exceeds memory's or the row's. */
  lemma SeedCounters(nodes: map<int, NodeRecord>, rows: seq<NodeRecord>)
    requires Keyed(nodes)
    requires forall i, j | 0 <= i < j < |rows| :: rows[i].num != rows[j].num
    ensures var seeded := SeedAll(nodes, rows);
            && Keyed(seeded)
            && (forall n :: n in seeded <==> n in nodes || exists r <- rows :: r.num == n)
            && (forall r <- rows :: r.num in seeded && seeded[r.num].counters ==
                  Known(nodes, r.num, None, None).counters.Max(r.counters))
            && (forall n <- nodes :: (forall r <- rows :: r.num != n) ==> seeded[n] == nodes[n])
  {
    var seeded := SeedAll(nodes, rows);
    forall n
      ensures n in seeded <==> n in nodes || exists r <- rows :: r.num == n
      ensures n in seeded ==> seeded[n].num == n
      ensures n in nodes && (forall r <- rows :: r.num != n) ==> seeded[n] == nodes[n]
    {
      SeedOne(nodes, rows, n);
      if InRows(n, rows) {
        var i :| 0 <= i < |rows| && rows[i].num == n;
        assert rows[i] in rows;
      }
    }
    forall r <- rows
      ensures r.num in seeded && seeded[r.num].counters == Known(nodes, r.num, None, None).counters.Max(r.counters)
    {
      var i :| 0 <= i < |rows| && rows[i] == r;
      SeedOne(nodes, rows, r.num);
    }
  }

  /** What seeding from the table does to one node's counters in memory. */
  lemma SeededMemory(s: System, rows: seq<NodeRecord>, exact: bool, n: int)
    requires Kept(s, exact) && Lists(rows, s.table)
    ensures var s' := s.(mem := SeedAll(s.mem, rows));
            && MemoryOf(s, n).AtMost(MemoryOf(s', n)) && MemoryOf(s', n).Sound()
            && (n in s.mem ==> n in s'.mem)
            && (n in s'.mem ==> s'.mem[n].num == n)
  {
    SeedOne(s.mem, rows, n);
    if InRows(n, rows) {
      var i :| 0 <= i < |rows| && rows[i].num == n;
      assert rows[i] in rows;
      assert Below(s.table[n].counters, MemoryOf(s, n), exact);
    }
  }

  lemma SeedKeepsInv(s: System, rows: seq<NodeRecord>, exact: bool)
    requires Kept(s, exact) && Lists(rows, s.table)
    ensures Kept(s.(mem := SeedAll(s.mem, rows)), exact)
  {
    var s' := s.(mem := SeedAll(s.mem, rows));
    forall n ensures n in s'.mem ==> s'.mem[n].counters.Sound() && s'.mem[n].num == n {
      SeededMemory(s, rows, exact, n);
      assert n in s'.mem ==> MemoryOf(s', n) == s'.mem[n].counters;
    }
    forall n <- s.table ensures Below(s.table[n].counters, MemoryOf(s', n), exact) {
      SeededMemory(s, rows, exact, n);
      assert Below(s.table[n].counters, MemoryOf(s, n), exact);
    }
    forall i | 0 <= i < |s.pending| ensures PendingFits(s', s.pending[i], exact) {
      assert PendingFits(s, s.pending[i], exact);
      SeededMemory(s, rows, exact, s.pending[i].num);
    }
  }

  /** Memory after a restart: the table's counters, for the table's nodes. */
  lemma RestartedMemory(s: System, rows: seq<NodeRecord>, n: int)
    requires Keyed(s.table) && Lists(rows, s.table)
    ensures var mem := SeedAll(map[], rows);
            && (n in mem <==> n in s.table)
            && (n in mem ==> mem[n].num == n && mem[n].counters == s.table[n].counters)
  {
    SeedOne(map[], rows, n);
    assert n in s.table ==> s.table[n] in rows;
    if InRows(n, rows) {
      var i :| 0 <= i < |rows| && rows[i].num == n;
      assert rows[i] in rows;
    }
  }

  lemma RestartKeepsInv(s: System, rows: seq<NodeRecord>, exact: bool)
    requires Kept(s, exact) && Lists(rows, s.table)
    ensures Kept(Next(s, Restart(true, rows)), exact)
    ensures forall n <- s.table :: MemoryOf(Next(s, Restart(true, rows)), n) == s.table[n].counters
  {
    var mem := SeedAll(map[], rows);
    forall n
      ensures n in mem <==> n in s.table
      ensures n in mem ==> mem[n].num == n && mem[n].counters == s.table[n].counters
    {
      RestartedMemory(s, rows, n);
    }
  }

  lemma NextKeepsInv(s: System, step: Step, exact: bool)
    requires Kept(s, exact) && Reads(s, step)
    ensures Kept(Next(s, step), exact)
  {
    match step
    case Ingest(p, now, taken) =>
      if p.sender.Some? {
        OfferKeepsInv(s, Heard(Known(s.mem, p.sender.value, p.senderId, Some(now)), p, now), taken, exact);
      }
    case Telemetry(num, at, taken) => OfferKeepsInv(s, Known(s.mem, num, None, Some(at)), taken, exact);
    case NodeDb(num, user, heard, now, taken) =>
      var node := Known(s.mem, num, None, Some(now));
      OfferKeepsInv(s, node.(nodeId := Or(user.id, node.nodeId), names := OrNames(user.names, node.names),
                             lastHeard := Coalesce(node.lastHeard, heard)), taken, exact);
    case Seed(rows) => SeedKeepsInv(s, rows, exact);
    case CommitNext => if s.pending != [] { CommitKeepsInv(s, exact); }
    case FailNext => if s.pending != [] { CommitKeepsInv(s, exact); }
    case Restart(_, rows) => RestartKeepsInv(s, rows, exact);
  }

  /**
   Over every run whose restarts could read the table back: each persisted counter is that of the
   last committed snapshot, the sums hold in memory and in the table, and memory is never behind.
   */
  lemma {:induction false} CountersSurvive(steps: seq<Step>)
    requires Disciplined(steps)
    ensures Inv(Run(steps))
  {
    if steps != [] {
      var n := |steps| - 1;
      forall k | 0 <= k < n ensures Reads(Run(steps[..n][..k]), steps[..n][k]) {
        assert steps[..n][..k] == steps[..k];
      }
      CountersSurvive(steps[..n]);
      NextKeepsInv(Run(steps[..n]), steps[n], true);
    }
  }

  /** How many packets of a kind a node has sent. */
  function PacketsOf(steps: seq<Step>, n: int, kind: Packet -> bool): nat {
    if steps == [] then 0
    else
      var e := steps[|steps| - 1];
      PacketsOf(steps[..|steps| - 1], n, kind)
      + if e.Ingest? && e.packet.sender == Some(n) && kind(e.packet) then 1 else 0
  }

  function Any(): Packet -> bool { (p: Packet) => true }
  function OnPort(portnum: int): Packet -> bool { (p: Packet) => p.portnum == Some(portnum) }
  function Over(mqtt: bool): Packet -> bool { (p: Packet) => p.last.viaMqtt == Some(mqtt) }

  /** Within one session memory counts every packet by sender: in all, on ports 1, 3 and 67, by radio and over MQTT. */
  lemma {:induction false} MemoryCounts(steps: seq<Step>, n: int)
    requires forall k | 0 <= k < |steps| :: !steps[k].Restart? && !steps[k].Seed?
    ensures MemoryOf(Run(steps), n)
         == Counters(PacketsOf(steps, n, Any()), PacketsOf(steps, n, OnPort(1)), PacketsOf(steps, n, Over(false)),
                     PacketsOf(steps, n, Over(true)), PacketsOf(steps, n, OnPort(3)),
                     PacketsOf(steps, n, OnPort(67)))
    ensures Keyed(Run(steps).mem)
  {
    if steps != [] {
      var (front, e) := (steps[..|steps| - 1], steps[|steps| - 1]);
      MemoryCounts(front, n);
      MemoryStep(Run(front), e, n);
    }
  }

  /** Only a packet of its own changes a node's counters in memory. */
  lemma MemoryStep(s: System, step: Step, n: int)
    requires Keyed(s.mem) && !step.Restart? && !step.Seed?
    ensures Keyed(Next(s, step).mem)
    ensures MemoryOf(Next(s, step), n)
         == if step.Ingest? && step.packet.sender == Some(n) then Counted(MemoryOf(s, n), step.packet)
            else MemoryOf(s, n)
  {
  }

  /** The name of this kind a step tells of the node; an empty one tells nothing. */
  function Told(step: Step, n: int, pick: Names -> Option<string>): Option<string> {
    var name :=
      match step
      case Ingest(p, _, _) => if p.sender == Some(n) && p.user.Some? then pick(p.user.value.names) else None
      case NodeDb(num, user, _, _, _) => if num == n then pick(user.names) else None
      case _ => None;
    NonEmpty(name)
  }

  /** The last name told. */
  function LastTold(steps: seq<Step>, n: int, pick: Names -> Option<string>): (name: Option<string>)
    ensures name.None? ==> forall i | 0 <= i < |steps| :: Told(steps[i], n, pick).None?
    ensures name.Some? ==> exists i | 0 <= i < |steps| ::
              Told(steps[i], n, pick) == name && forall j | i < j < |steps| :: Told(steps[j], n, pick).None?
  {
    if steps == [] then None
    else
      var (k, front) := (|steps| - 1, steps[..|steps| - 1]);
      var before := LastTold(front, n, pick);
      assert forall i | 0 <= i < k :: front[i] == steps[i];
      assert before.Some? && Told(steps[k], n, pick).None? ==>
          exists i | 0 <= i < k ::
            Told(steps[i], n, pick) == before && forall j | i < j < k :: Told(steps[j], n, pick).None?;
      if Told(steps[k], n, pick).Some? then Told(steps[k], n, pick) else before
  }

  /** Within one session a node's names in memory are the last ones told of it. */
  lemma {:induction false} MemoryNames(steps: seq<Step>, n: int)
    requires forall k | 0 <= k < |steps| :: !steps[k].Restart? && !steps[k].Seed?
    ensures Keyed(Run(steps).mem)
    ensures Known(Run(steps).mem, n, None, None).names
         == Names(LastTold(steps, n, LongName), LastTold(steps, n, ShortName), LastTold(steps, n, Role),
                  LastTold(steps, n, HwModel))
  {
    if steps != [] {
      var (front, e) := (steps[..|steps| - 1], steps[|steps| - 1]);
      MemoryNames(front, n);
      NamesStep(Run(front), e, n);
    }
  }

  lemma NamesStep(s: System, step: Step, n: int)
    requires Keyed(s.mem) && !step.Restart? && !step.Seed?
    ensures Keyed(Next(s, step).mem)
    ensures var (before, after) := (Known(s.mem, n, None, None).names, Known(Next(s, step).mem, n, None, None).names);
            && TellsOr(after.longName, Told(step, n, LongName), before.longName)
            && TellsOr(after.shortName, Told(step, n, ShortName), before.shortName)
            && TellsOr(after.role, Told(step, n, Role), before.role)
            && TellsOr(after.hwModel, Told(step, n, HwModel), before.hwModel)
  {
    match step
    case Ingest(p, now, taken) =>
      if p.sender == Some(n) && p.user.Some? {
        OrNamesTells(p.user.value.names, Known(s.mem, n, p.senderId, Some(now)).names);
      }
    case NodeDb(num, user, _, now, _) =>
      if num == n { OrNamesTells(user.names, Known(s.mem, num, None, Some(now)).names); }
    case _ =>
  }

  function NonEmpty(name: Option<string>): Option<string> {
    if name == Some("") then None else name
  }

  lemma OrNamesTells(told: Names, before: Names)
    ensures var after := OrNames(told, before);
            && TellsOr(after.longName, NonEmpty(told.longName), before.longName)
            && TellsOr(after.shortName, NonEmpty(told.shortName), before.shortName)
            && TellsOr(after.role, NonEmpty(told.role), before.role)
            && TellsOr(after.hwModel, NonEmpty(told.hwModel), before.hwModel)
  {}

  /** The new value if there is one, else the old. */
  predicate TellsOr<T(==)>(after: Option<T>, told: Option<T>, before: Option<T>) {
    if told.Some? then after == told else after == before
  }

  /** What a packet leaves alone, and that it names a node only while it has no id. */
  lemma HeardDescribes(node: NodeRecord, p: Packet, now: int)
    ensures var after := Heard(node, p, now);
            && after.num == node.num && after.firstSeen == node.firstSeen
            && after.lastHeard == Some(now) && after.last == p.last
            && (node.nodeId !in {None, Some("")} || p.user.None? ==> after.nodeId == node.nodeId)
            && (node.nodeId in {None, Some("")} && p.user.Some? ==>
                  after.nodeId == if p.user.value.id in {None, Some("")} then p.senderId else p.user.value.id)
  {}

  /** Seeding from a row fills what is missing and keeps what is known; only an id or a name of the row's own wins. */
  lemma SeedFillsGaps(node: NodeRecord, row: NodeRecord)
    ensures var after := SeedNode(node, row);
            && after.num == node.num
            && TellsOr(after.firstSeen, node.firstSeen, row.firstSeen)
            && TellsOr(after.lastHeard, node.lastHeard, row.lastHeard)
            && TellsOr(after.last.snr, node.last.snr, row.last.snr)
            && TellsOr(after.last.rssi, node.last.rssi, row.last.rssi)
            && TellsOr(after.last.hopsUsed, node.last.hopsUsed, row.last.hopsUsed)
            && TellsOr(after.last.hopStart, node.last.hopStart, row.last.hopStart)
            && TellsOr(after.last.viaMqtt, node.last.viaMqtt, row.last.viaMqtt)
            && (if row.nodeId in {None, Some("")} then after.nodeId == node.nodeId else after.nodeId == row.nodeId)
            && RowNameWins(after.names.longName, row.names.longName, node.names.longName)
            && RowNameWins(after.names.shortName, row.names.shortName, node.names.shortName)
            && RowNameWins(after.names.role, row.names.role, node.names.role)
            && RowNameWins(after.names.hwModel, row.names.hwModel, node.names.hwModel)
  {}

  predicate RowNameWins(after: Option<string>, rows: Option<string>, own: Option<string>) {
    if rows in {None, Some("")} then after == own else after == rows
  }

  /** Whatever the restarts read back, no persisted counter ever goes down and no row disappears. */
  lemma {:induction false} NeverDecreases(steps: seq<Step>, i: nat, j: nat)
    requires i <= j <= |steps|
    ensures forall n <- Run(steps[..i]).table ::
              n in Run(steps[..j]).table
              && Run(steps[..i]).table[n].counters.AtMost(Run(steps[..j]).table[n].counters)
    decreases j
  {
    if i < j {
      assert steps[..j][..j - 1] == steps[..j - 1];
      NeverDecreases(steps, i, j - 1);
      TableGrows(Run(steps[..j - 1]), steps[j - 1]);
    }
  }

  lemma TableGrows(s: System, step: Step)
    ensures forall n <- s.table ::
              n in Next(s, step).table && s.table[n].counters.AtMost(Next(s, step).table[n].counters)
  {
  }

  // ---------------------------------------------------------------------------------------
  // A restart that read nothing
  // ---------------------------------------------------------------------------------------

  /** A run goes on from any state. */
  function RunFrom(s: System, steps: seq<Step>): System
    decreases |steps|
  {
    if steps == [] then s else RunFrom(Next(s, steps[0]), steps[1..])
  }

  ghost predicate DisciplinedFrom(s: System, steps: seq<Step>)
    decreases |steps|
  {
    steps == [] || (Reads(s, steps[0]) && DisciplinedFrom(Next(s, steps[0]), steps[1..]))
  }

  lemma {:induction false} KeptFrom(s: System, steps: seq<Step>, exact: bool)
    requires Kept(s, exact) && DisciplinedFrom(s, steps)
    ensures Kept(RunFrom(s, steps), exact)
    decreases |steps|
  {
    if steps != [] {
      NextKeepsInv(s, steps[0], exact);
      KeptFrom(Next(s, steps[0]), steps[1..], exact);
    }
  }

  function Unread(s: System): System {
    Next(s, Restart(false, []))
  }

  /** Every row's counters are those of the last committed snapshot, after whatever follows. */
  ghost predicate StaysFaithful(s: System) {
    forall more | DisciplinedFrom(s, more) :: Faithful(RunFrom(s, more))
  }

  /** Both sums hold in memory and table, after whatever follows. */
  ghost predicate StaysSound(s: System) {
    forall more | DisciplinedFrom(s, more) :: AllSound(RunFrom(s, more).table) && AllSound(RunFrom(s, more).mem)
  }

  /** What memory offers for a node it knows nothing of, written over the node's row. */
  function Forgotten(n: int, at: int): seq<Step> {
    [Telemetry(n, at, true), CommitNext]
  }

  lemma ForgottenRow(s: System, n: int, at: int)
    requires Keyed(s.table) && n in s.table
    ensures var more := Forgotten(n, at);
            && DisciplinedFrom(Unread(s), more)
            && n in RunFrom(Unread(s), more).table
            && RunFrom(Unread(s), more).table[n].counters == s.table[n].counters
            && RunFrom(Unread(s), more).lastCommitted == s.lastCommitted[n := NO_PACKETS]
  {
    var s0 := Unread(s);
    var more := Forgotten(n, at);
    var s1 := Next(s0, more[0]);
    assert s1.pending == [Fresh(n, None, Some(at))];
    assert more[1..] == [CommitNext] && more[1..][1..] == [];
    assert RunFrom(s0, more) == RunFrom(s1, [CommitNext]) == RunFrom(Next(s1, CommitNext), []);
  }

  /**
   After a restart that read nothing, every row keeps the counters of its last committed snapshot, whatever
   follows, exactly when no row had counted anything yet.
   */
  lemma UnreadFaithfulIff(s: System)
    requires Inv(s)
    ensures StaysFaithful(Unread(s)) <==> forall n <- s.table :: s.table[n].counters == NO_PACKETS
  {
    if forall n <- s.table :: s.table[n].counters == NO_PACKETS {
      assert Kept(Unread(s), true);
      forall more | DisciplinedFrom(Unread(s), more) ensures Faithful(RunFrom(Unread(s), more)) {
        KeptFrom(Unread(s), more, true);
      }
    } else {
      var n :| n in s.table && s.table[n].counters != NO_PACKETS;
      ForgottenRow(s, n, 0);
      assert !Faithful(RunFrom(Unread(s), Forgotten(n, 0)));
    }
  }

  /** A packet of one transport and one kind from a node; `taken` is whether the queue had room for its snapshot. */
  function Arrives(n: int, mqtt: bool, portnum: int, taken: bool): Step {
    Ingest(Packet(Some(n), None, Some(portnum), NOTHING_HEARD.(viaMqtt := Some(mqtt)), None), 0, taken)
  }

  function Sent(n: int, mqtt: bool, portnum: int): Step {
    Arrives(n, mqtt, portnum, false)
  }

  lemma SentOnce(s: System, n: int, mqtt: bool, portnum: int, m: nat)
    requires Keyed(s.mem) && MemoryOf(s, n) == Tally(m, mqtt, portnum)
    ensures var next := Next(s, Sent(n, mqtt, portnum));
            && MemoryOf(next, n) == Tally(m + 1, mqtt, portnum)
            && next.pending == s.pending && next.table == s.table && next.lastCommitted == s.lastCommitted
            && Keyed(next.mem)
  {
    var p := Sent(n, mqtt, portnum).packet;
    var node := Known(s.mem, n, p.senderId, Some(0));
    assert node.counters == MemoryOf(s, n);
    assert Heard(node, p, 0).counters == Counted(node.counters, p);
  }

  function Times(step: Step, k: nat): seq<Step> {
    if k == 0 then [] else [step] + Times(step, k - 1)
  }

  /** k packets of one transport and one kind. */
  function Tally(k: nat, mqtt: bool, portnum: int): Counters {
    Counters(k, if portnum == PORTNUM_TEXT then k else 0, if mqtt then 0 else k, if mqtt then k else 0,
             if portnum == PORTNUM_POSITION then k else 0, if portnum == PORTNUM_TELEMETRY then k else 0)
  }

  lemma {:induction false} SentTimes(s: System, n: int, mqtt: bool, portnum: int, k: nat, m: nat, more: seq<Step>)
    requires Keyed(s.mem) && MemoryOf(s, n) == Tally(m, mqtt, portnum) && s.pending == []
    ensures var (step, last) := (Sent(n, mqtt, portnum), RunFrom(s, Times(Sent(n, mqtt, portnum), k)));
            && MemoryOf(last, n) == Tally(m + k, mqtt, portnum) && Keyed(last.mem)
            && last.pending == [] && last.table == s.table && last.lastCommitted == s.lastCommitted
            && RunFrom(s, Times(step, k) + more) == RunFrom(last, more)
            && (DisciplinedFrom(s, Times(step, k) + more) <==> DisciplinedFrom(last, more))
    decreases k
  {
    var step := Sent(n, mqtt, portnum);
    if k == 0 {
      assert [] + more == more;
    } else {
      var next := Next(s, step);
      var rest := Times(step, k - 1);
      assert Times(step, k)[1..] == rest;
      assert (Times(step, k) + more)[1..] == rest + more && (Times(step, k) + more)[0] == step;
      SentOnce(s, n, mqtt, portnum, m);
      SentTimes(next, n, mqtt, portnum, k - 1, m + 1, more);
    }
  }

  /** As many packets of one transport and kind as the node's row counts, and their snapshot written back. */
  function Overcount(s: System, n: int, mqtt: bool, portnum: int): seq<Step>
    requires n in s.table
  {
    Times(Sent(n, mqtt, portnum), s.table[n].counters.packets) + Forgotten(n, 0)
  }

  lemma OvercountedRow(s: System, n: int, mqtt: bool, portnum: int)
    requires Keyed(s.table) && n in s.table
    ensures var (more, c) := (Overcount(s, n, mqtt, portnum), s.table[n].counters);
            && DisciplinedFrom(Unread(s), more) && n in RunFrom(Unread(s), more).table
            && RunFrom(Unread(s), more).table[n].counters == Tally(c.packets, mqtt, portnum).Max(c)
  {
    var s0 := Unread(s);
    var k := s.table[n].counters.packets;
    var more := Forgotten(n, 0);
    SentTimes(s0, n, mqtt, portnum, k, 0, more);
    var last := RunFrom(s0, Times(Sent(n, mqtt, portnum), k));
    var s1 := Next(last, more[0]);
    assert s1.pending == [Known(last.mem, n, None, Some(0))];
    assert s1.pending[0].counters == MemoryOf(last, n);
    assert more[1..] == [CommitNext] && more[1..][1..] == [];
    assert RunFrom(last, more) == RunFrom(s1, [CommitNext]) == RunFrom(Next(s1, CommitNext), []);
  }

  /**
   After a restart that read nothing, both sums hold whatever follows exactly when no row had counted a
   transport or a kind yet.
   */
  lemma UnreadSoundIff(s: System)
    requires Inv(s)
    ensures StaysSound(Unread(s)) <==> forall n <- s.table :: OnlyPackets(s.table[n].counters)
  {
    if forall n <- s.table :: OnlyPackets(s.table[n].counters) {
      assert Kept(Unread(s), false);
      forall more | DisciplinedFrom(Unread(s), more)
        ensures AllSound(RunFrom(Unread(s), more).table) && AllSound(RunFrom(Unread(s), more).mem)
      {
        KeptFrom(Unread(s), more, false);
      }
    } else {
      var n :| n in s.table && !OnlyPackets(s.table[n].counters);
      UnreadOvercounts(s, n);
    }
  }

  lemma UnreadOvercounts(s: System, n: int)
    requires Inv(s) && n in s.table && !OnlyPackets(s.table[n].counters)
    ensures !StaysSound(Unread(s))
  {
    var c := s.table[n].counters;
    var mqtt := c.rf > 0;
    var portnum := if c.texts > 0 then PORTNUM_POSITION else PORTNUM_TEXT;
    OvercountedRow(s, n, mqtt, portnum);
    var row := RunFrom(Unread(s), Overcount(s, n, mqtt, portnum)).table[n].counters;
    assert !row.Sound();
    assert !AllSound(RunFrom(Unread(s), Overcount(s, n, mqtt, portnum)).table);
  }

  /** A run that reaches the failure: one packet over MQTT, a restart that reads nothing, one packet over RF. */
  function MiscountingRun(n: int): seq<Step> {
    [Arrives(n, true, PORTNUM_TEXT, true), CommitNext, Restart(false, []),
     Arrives(n, false, PORTNUM_TEXT, true), CommitNext]
  }

  lemma RunStep(steps: seq<Step>, k: nat)
    requires k < |steps|
    ensures Run(steps[..k + 1]) == Next(Run(steps[..k]), steps[k])
  {
    assert steps[..k + 1][..k] == steps[..k];
  }

  lemma MiscountedRow(n: int)
    ensures var table := Run(MiscountingRun(n)).table;
            n in table && table[n].counters == Counters(1, 1, 1, 1, 0, 0) && !table[n].counters.Sound()
  {
    var e := MiscountingRun(n);
    RunStep(e, 0);
    RunStep(e, 1);
    RunStep(e, 2);
    RunStep(e, 3);
    RunStep(e, 4);
    assert e[..0] == [] && e[..5] == e;
    var s1 := Run(e[..1]);
    assert s1.pending[0].counters == Counters(1, 1, 0, 1, 0, 0) && s1.pending[0].num == n;
    var s3 := Run(e[..3]);
    assert s3.table[n].counters == Counters(1, 1, 0, 1, 0, 0);
    var s4 := Run(e[..4]);
    assert |s4.pending| == 1 && s4.pending[0].counters == Counters(1, 1, 1, 0, 0, 0) && s4.pending[0].num == n;
  }
}
