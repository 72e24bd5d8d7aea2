/** The monitor database as a value, the statement each queued item runs on it, and pruning. */
module MonitorDatabase {
  import opened Prelude
  import opened NodeTable

  /** A row of packets, positions or telemetry: its timestamp and everything else. */
  datatype Row = Row(observedAt: int, content: int)

  datatype MessageRow = MessageRow(localId: string, packetId: Option<int>, status: string, content: int)

  /** What the write queue carries besides the shutdown sentinel. */
  datatype Item =
    | Packet(row: Row) | Position(row: Row) | Telemetry(row: Row)
    | Session(id: string, content: int)
    | Node(record: NodeRecord)
    | Message(message: MessageRow)
    | MessageStatus(localId: string, packetId: Option<int>, status: string)
    | Setting(key: string, value: string)
    | Prune(retainDays: int) | Backup(request: nat) | Vacuum
  {
    /** Prunes, backups and vacuums run outside the batch's transaction. */
    predicate IsData() { !Prune? && !Backup? && !Vacuum? }
  }

  datatype Database = Database(
    packets: seq<Row>, positions: seq<Row>, telemetry: seq<Row>, sessions: map<string, int>,
    nodes: map<int, NodeRecord>, messages: seq<MessageRow>, settings: map<string, string>)

  /** The statement behind one queued item. */
  function WriteOne(db: Database, item: Item): Database {
    match item
    case Packet(row) => db.(packets := db.packets + [row])
    case Position(row) => db.(positions := db.positions + [row])
    case Telemetry(row) => db.(telemetry := db.telemetry + [row])
    case Session(id, content) => db.(sessions := db.sessions[id := content])
    case Node(record) => db.(nodes := Write(db.nodes, record))
    case Message(m) =>
      if exists k | 0 <= k < |db.messages| :: db.messages[k].localId == m.localId then db
      else db.(messages := db.messages + [m])
    case MessageStatus(localId, packetId, status) =>
      db.(messages := seq(|db.messages|, k requires 0 <= k < |db.messages| =>
        if db.messages[k].localId != localId then db.messages[k]
        else db.messages[k].(status := status, packetId := Coalesce(packetId, db.messages[k].packetId))))
    case Setting(key, value) => db.(settings := db.settings[key := value])
    case _ => db
  }

  function WriteAll(db: Database, items: seq<Item>): Database {
    if items == [] then db else WriteOne(WriteAll(db, items[..|items| - 1]), items[|items| - 1])
  }

  function KeepFrom(rows: seq<Row>, cutoff: int): seq<Row> {
    if rows == [] then []
    else KeepFrom(rows[..|rows| - 1], cutoff)
         + if rows[|rows| - 1].observedAt < cutoff then [] else [rows[|rows| - 1]]
  }

  function PruneBefore(db: Database, cutoff: int): Database {
    db.(packets := KeepFrom(db.packets, cutoff), positions := KeepFrom(db.positions, cutoff),
        telemetry := KeepFrom(db.telemetry, cutoff))
  }

  /** What the writer did to the committed database, in the order it did it. */
  datatype Effect = Wrote(item: Item) | Pruned(cutoff: int)

  function Replay(db: Database, effects: seq<Effect>): Database {
    if effects == [] then db
    else
      var before := Replay(db, effects[..|effects| - 1]);
      match effects[|effects| - 1]
      case Wrote(item) => WriteOne(before, item)
      case Pruned(cutoff) => PruneBefore(before, cutoff)
  }

  function Writes(effects: seq<Effect>): seq<Item> {
    if effects == [] then []
    else Writes(effects[..|effects| - 1])
         + if effects[|effects| - 1].Wrote? then [effects[|effects| - 1].item] else []
  }

  predicate NoPrunes(effects: seq<Effect>) {
    forall e <- effects :: e.Wrote?
  }

  lemma {:induction false} ReplayAppend(db: Database, a: seq<Effect>, b: seq<Effect>)
    ensures Replay(db, a + b) == Replay(Replay(db, a), b)
    ensures Writes(a + b) == Writes(a) + Writes(b)
    decreases |b|
  {
    if b == [] {
      assert a + b == a && Writes(a) + [] == Writes(a);
    } else {
      var n := |b| - 1;
      assert (a + b)[..|a| + n] == a + b[..n];
      ReplayAppend(db, a, b[..n]);
      var more := if b[n].Wrote? then [b[n].item] else [];
      assert Writes(a) + Writes(b[..n]) + more == Writes(a) + (Writes(b[..n]) + more);
    }
  }

  lemma {:induction false} WriteAllAppend(db: Database, a: seq<Item>, b: seq<Item>)
    ensures WriteAll(db, a + b) == WriteAll(WriteAll(db, a), b)
    decreases |b|
  {
    if b == [] {
      assert a + b == a;
    } else {
      assert (a + b)[..|a + b| - 1] == a + b[..|b| - 1];
      WriteAllAppend(db, a, b[..|b| - 1]);
    }
  }

  function AllWrote(items: seq<Item>): (effects: seq<Effect>)
    ensures |effects| == |items| && forall k | 0 <= k < |items| :: effects[k] == Wrote(items[k])
  {
    seq(|items|, k requires 0 <= k < |items| => Wrote(items[k]))
  }

  lemma {:induction false} ReplayAllWrote(db: Database, items: seq<Item>)
    ensures Replay(db, AllWrote(items)) == WriteAll(db, items)
    ensures Writes(AllWrote(items)) == items
  {
    if items != [] {
      var n := |items| - 1;
      ReplayAllWrote(db, items[..n]);
      assert AllWrote(items)[..n] == AllWrote(items[..n]);
      assert AllWrote(items)[n] == Wrote(items[n]);
      SplitLast(items);
    }
  }

  /** Without prunes the database is the plain fold of what was written. */
  lemma {:induction false} ReplayWithoutPrunes(db: Database, effects: seq<Effect>)
    requires NoPrunes(effects)
    ensures Replay(db, effects) == WriteAll(db, Writes(effects))
  {
    if effects != [] {
      var front, e := effects[..|effects| - 1], effects[|effects| - 1];
      assert e in effects;
      ReplayWithoutPrunes(db, front);
      var w := Writes(front);
      assert (w + [e.item])[..|w|] == w;
    }
  }

  /** Nodes, messages, sessions and settings: the tables pruning never touches. */
  predicate SameProtected(a: Database, b: Database) {
    a.sessions == b.sessions && a.nodes == b.nodes && a.messages == b.messages && a.settings == b.settings
  }

  /** The history tables of `a` hold no row that `b` does not, with multiplicity. */
  predicate HistoryWithin(a: Database, b: Database) {
    && multiset(a.packets) <= multiset(b.packets)
    && multiset(a.positions) <= multiset(b.positions)
    && multiset(a.telemetry) <= multiset(b.telemetry)
  }

  lemma {:induction false} KeepFromWithin(rows: seq<Row>, cutoff: int)
    ensures multiset(KeepFrom(rows, cutoff)) <= multiset(rows)
    ensures forall r :: r in KeepFrom(rows, cutoff) <==> r in rows && r.observedAt >= cutoff
    ensures Trimmed(KeepFrom(rows, cutoff), rows, cutoff)
  {
    if rows != [] {
      assert rows == rows[..|rows| - 1] + [rows[|rows| - 1]];
      KeepFromWithin(rows[..|rows| - 1], cutoff);
    }
  }

  /** Every row from the cutoff on is kept as often as it was there, and no other. */
  ghost predicate Trimmed(kept: seq<Row>, rows: seq<Row>, cutoff: int) {
    forall r :: multiset(kept)[r] == if r.observedAt >= cutoff then multiset(rows)[r] else 0
  }

  /** A prune trims each of the three history tables, and no other table. */
  lemma PruneTrimsHistory(db: Database, cutoff: int)
    ensures var after := PruneBefore(db, cutoff);
            && Trimmed(after.packets, db.packets, cutoff) && Trimmed(after.positions, db.positions, cutoff)
            && Trimmed(after.telemetry, db.telemetry, cutoff) && SameProtected(after, db)
  {
    KeepFromWithin(db.packets, cutoff);
    KeepFromWithin(db.positions, cutoff);
    KeepFromWithin(db.telemetry, cutoff);
  }

  lemma AppendWithin(a: seq<Row>, b: seq<Row>, row: Row)
    requires multiset(a) <= multiset(b)
    ensures multiset(a + [row]) <= multiset(b + [row])
  {
  }

  lemma WriteOneMonotone(a: Database, b: Database, item: Item)
    requires SameProtected(a, b) && HistoryWithin(a, b)
    ensures SameProtected(WriteOne(a, item), WriteOne(b, item))
    ensures HistoryWithin(WriteOne(a, item), WriteOne(b, item))
  {
    match item
    case Packet(row) => AppendWithin(a.packets, b.packets, row);
    case Position(row) => AppendWithin(a.positions, b.positions, row);
    case Telemetry(row) => AppendWithin(a.telemetry, b.telemetry, row);
    case MessageStatus(_, _, _) => assert WriteOne(a, item).messages == WriteOne(b, item).messages;
    case _ =>
  }

  /** With prunes, wherever they fell: protected tables as if none ran, history only loses rows. */
  lemma {:induction false} PrunesOnlyTrimHistory(db: Database, effects: seq<Effect>)
    ensures SameProtected(Replay(db, effects), WriteAll(db, Writes(effects)))
    ensures HistoryWithin(Replay(db, effects), WriteAll(db, Writes(effects)))
  {
    if effects != [] {
      var front, e := effects[..|effects| - 1], effects[|effects| - 1];
      PrunesOnlyTrimHistory(db, front);
      var before, w := Replay(db, front), Writes(front);
      match e
      case Wrote(item) =>
        assert (w + [item])[..|w|] == w;
        WriteOneMonotone(before, WriteAll(db, w), item);
      case Pruned(cutoff) =>
        assert w + [] == w;
        KeepFromWithin(before.packets, cutoff);
        KeepFromWithin(before.positions, cutoff);
        KeepFromWithin(before.telemetry, cutoff);
    }
  }

  // ---------------------------------------------------------------------------------------
  // The database file and its write-ahead log
  // ---------------------------------------------------------------------------------------

  type Transaction = e: seq<Effect> | e != [] witness [Pruned(0)]

  /** What the main file holds, and the transactions that are so far only in the log beside it, oldest first. */
  datatype Disk = Disk(main: Database, wal: seq<Transaction>) {
    /** What a connection reads: the main file and the log over it. */
    function Content(): Database { Replay(main, Joined(wal)) }

    /** COMMIT appends to the log; a transaction that changed nothing leaves none. */
    function Committed(effects: seq<Effect>): Disk {
      if effects == [] then this else this.(wal := wal + [effects])
    }

    /** A checkpoint writes back the oldest n transactions, all of them when there are no more. */
    function Checkpointed(n: nat): Disk {
      var k := if n < |wal| then n else |wal|;
      Disk(Replay(main, Joined(wal[..k])), wal[k..])
    }
  }

  /** How many effects are in the log alone. */
  function Unwritten(disk: Disk): nat {
    |Joined(disk.wal)|
  }

  /** The main file as found, after the log as found and everything done since, but for the last `lacks` effects. */
  function Held(found: Disk, effects: seq<Effect>, lacks: nat): Database
    requires lacks <= |Joined(found.wal)| + |effects|
  {
    var all := Joined(found.wal) + effects;
    Replay(found.main, all[..|all| - lacks])
  }

  lemma HeldAll(found: Disk, effects: seq<Effect>)
    ensures Held(found, effects, 0) == Replay(found.Content(), effects)
  {
    var all := Joined(found.wal) + effects;
    WholePrefix(all);
    ReplayAppend(found.main, Joined(found.wal), effects);
  }

  /** Everything done to a file but the rest is in it. */
  ghost predicate Line(base: Database, all: seq<Effect>, main: Database, rest: seq<Effect>) {
    exists done :: all == done + rest && main == Replay(base, done)
  }

  /** The main file is everything done to the database but what is still in the log. */
  ghost predicate Logged(found: Disk, disk: Disk, effects: seq<Effect>) {
    Line(found.main, Joined(found.wal) + effects, disk.main, Joined(disk.wal))
  }

  lemma LoggedIsHeld(found: Disk, disk: Disk, effects: seq<Effect>)
    requires Logged(found, disk, effects)
    ensures Unwritten(disk) <= |Joined(found.wal)| + |effects| && disk.main == Held(found, effects, Unwritten(disk))
  {
    var all := Joined(found.wal) + effects;
    var done :| all == done + Joined(disk.wal) && disk.main == Replay(found.main, done);
    assert all[..|all| - Unwritten(disk)] == done;
  }

  lemma FoundIsLogged(found: Disk)
    ensures Logged(found, found, [])
  {
    assert Joined(found.wal) + [] == [] + Joined(found.wal);
    assert found.main == Replay(found.main, []);
  }

  /** More that is done goes to the rest. */
  lemma RestGrows(base: Database, all: seq<Effect>, main: Database, rest: seq<Effect>, more: seq<Effect>)
    requires Line(base, all, main, rest)
    ensures Line(base, all + more, main, rest + more)
  {
    var done :| all == done + rest && main == Replay(base, done);
    Associative(done, rest, more);
  }

  lemma LoggedCommitted(found: Disk, disk: Disk, effects: seq<Effect>, more: seq<Effect>)
    requires Logged(found, disk, effects)
    ensures Logged(found, disk.Committed(more), effects + more)
  {
    if more == [] {
      assert effects + more == effects;
    } else {
      RestGrows(found.main, Joined(found.wal) + effects, disk.main, Joined(disk.wal), more);
      Associative(Joined(found.wal), effects, more);
      JoinedSnoc(disk.wal, more);
    }
  }

  lemma JoinedSnoc(wal: seq<Transaction>, more: Transaction)
    ensures Joined(wal + [more]) == Joined(wal) + more
  {
    assert (wal + [more])[..|wal|] == wal;
  }

  lemma {:induction false} NothingJoined(wal: seq<Transaction>)
    ensures Joined(wal) == [] <==> wal == []
  {
    if wal != [] { assert wal[|wal| - 1] != []; }
  }

  /** A checkpoint moves the line between file and log; the log is empty after it exactly when it reached the end. */
  lemma LoggedCheckpointed(found: Disk, disk: Disk, effects: seq<Effect>, moved: nat)
    requires Logged(found, disk, effects)
    ensures Logged(found, disk.Checkpointed(moved), effects)
    ensures Unwritten(disk.Checkpointed(moved)) == 0 <==> |disk.wal| <= moved
  {
    var k := if moved < |disk.wal| then moved else |disk.wal|;
    LogSplits(disk.wal, k);
    FrontWritten(found.main, Joined(found.wal) + effects, disk.main, Joined(disk.wal[..k]), Joined(disk.wal[k..]));
  }

  /** Writing back the front of the rest moves the line. */
  lemma FrontWritten(base: Database, all: seq<Effect>, main: Database, front: seq<Effect>, rest: seq<Effect>)
    requires Line(base, all, main, front + rest)
    ensures Line(base, all, Replay(main, front), rest)
  {
    var done :| all == done + (front + rest) && main == Replay(base, done);
    Associative(done, front, rest);
    ReplayAppend(base, done, front);
  }

  lemma LogSplits(wal: seq<Transaction>, k: nat)
    requires k <= |wal|
    ensures Joined(wal) == Joined(wal[..k]) + Joined(wal[k..])
    ensures Joined(wal[k..]) == [] <==> k == |wal|
  {
    assert wal == wal[..k] + wal[k..];
    JoinedConcat(wal[..k], wal[k..]);
    NothingJoined(wal[k..]);
  }
}
