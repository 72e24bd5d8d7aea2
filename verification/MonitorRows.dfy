/** What the queued writes leave in each table, row by row, whatever the batches and prunes. */
module MonitorRows {
  import opened Prelude
  import opened NodeTable
  import opened MonitorDatabase
  import opened MonitorStore
  import opened MonitorTheorems

  // ---------------------------------------------------------------------------------------
  // The last item that concerns something
  // ---------------------------------------------------------------------------------------

  /** Where the last item of a kind stands, if there is one. */
  function LastIndex(items: seq<Item>, concerns: Item -> bool): (r: Option<nat>)
    ensures r.None? ==> forall i | 0 <= i < |items| :: !concerns(items[i])
    ensures r.Some? ==> r.value < |items| && concerns(items[r.value])
    ensures r.Some? ==> forall i | r.value < i < |items| :: !concerns(items[i])
  {
    if items == [] then None
    else if concerns(items[|items| - 1]) then Some(|items| - 1)
    else LastIndex(items[..|items| - 1], concerns)
  }

  function Updates(localId: string): Item -> bool {
    (i: Item) => i.MessageStatus? && i.localId == localId
  }

  /** An update that knows the packet id. */
  function Identifies(localId: string): Item -> bool {
    (i: Item) => i.MessageStatus? && i.localId == localId && i.packetId.Some?
  }

  function SetsKey(key: string): Item -> bool {
    (i: Item) => i.Setting? && i.key == key
  }

  function SetsSession(id: string): Item -> bool {
    (i: Item) => i.Session? && i.id == id
  }

  // ---------------------------------------------------------------------------------------
  // Messages
  // ---------------------------------------------------------------------------------------

  /**
   The row is the message as inserted, with the status of the last update that names it and the packet id of the
   last such update that carries one.
   */
  predicate Follows(row: MessageRow, own: MessageRow, later: seq<Item>) {
    && row.localId == own.localId && row.content == own.content
    && (var j := LastIndex(later, Updates(own.localId));
        row.status == if j.None? then own.status else later[j.value].status)
    && (var j := LastIndex(later, Identifies(own.localId));
        row.packetId == if j.None? then own.packetId else later[j.value].packetId)
  }

  /** A stored message keeps its place, its text, and follows the updates that name it. */
  lemma {:induction false} MessageFollowsUpdates(db: Database, items: seq<Item>, k: nat)
    requires k < |db.messages|
    ensures var rows := WriteAll(db, items).messages;
            |db.messages| <= |rows| && Follows(rows[k], db.messages[k], items)
  {
    if items != [] {
      var (front, e) := (items[..|items| - 1], items[|items| - 1]);
      MessageFollowsUpdates(db, front, k);
      WriteOnMessage(WriteAll(db, front), e, k);
      FollowsOn(WriteAll(db, front).messages[k], WriteAll(db, items).messages[k], db.messages[k], items);
    }
  }

  /** What one write does to a stored message: nothing, unless it is an update that names it. */
  lemma WriteOnMessage(db: Database, item: Item, k: nat)
    requires k < |db.messages|
    ensures |db.messages| <= |WriteOne(db, item).messages|
    ensures OneLater(db.messages[k], WriteOne(db, item).messages[k], item)
  {
  }

  predicate OneLater(row: MessageRow, later: MessageRow, item: Item) {
    && later.localId == row.localId && later.content == row.content
    && (if Updates(row.localId)(item) then
          later.status == item.status && later.packetId == if item.packetId.Some? then item.packetId else row.packetId
        else later == row)
  }

  lemma LastIndexOn(items: seq<Item>, concerns: Item -> bool)
    requires items != [] && !concerns(items[|items| - 1])
    ensures var (j, front) := (LastIndex(items, concerns), items[..|items| - 1]);
            j == LastIndex(front, concerns) && (j.Some? ==> items[j.value] == front[j.value])
  {
  }

  lemma FollowsOn(row: MessageRow, later: MessageRow, own: MessageRow, items: seq<Item>)
    requires items != [] && Follows(row, own, items[..|items| - 1]) && OneLater(row, later, items[|items| - 1])
    ensures Follows(later, own, items)
  {
    var e := items[|items| - 1];
    if !Updates(own.localId)(e) { LastIndexOn(items, Updates(own.localId)); }
    if !Identifies(own.localId)(e) { LastIndexOn(items, Identifies(own.localId)); }
  }

  predicate Stores(rows: seq<MessageRow>, localId: string) {
    exists k | 0 <= k < |rows| :: rows[k].localId == localId
  }

  predicate Inserts(items: seq<Item>, localId: string) {
    exists i | 0 <= i < |items| :: items[i].Message? && items[i].message.localId == localId
  }

  /** `local_id` is UNIQUE. */
  ghost predicate UniqueIds(rows: seq<MessageRow>) {
    forall i, j | 0 <= i < j < |rows| :: rows[i].localId != rows[j].localId
  }

  lemma WriteKeepsIds(db: Database, item: Item, localId: string)
    ensures var rows := WriteOne(db, item).messages;
            Stores(rows, localId)
            <==> Stores(db.messages, localId) || (item.Message? && item.message.localId == localId)
    ensures UniqueIds(db.messages) ==> UniqueIds(WriteOne(db, item).messages)
  {
    var rows := WriteOne(db, item).messages;
    assert |db.messages| <= |rows|;
    assert forall k | 0 <= k < |db.messages| :: rows[k].localId == db.messages[k].localId;
    if Stores(db.messages, localId) {
      var k :| 0 <= k < |db.messages| && db.messages[k].localId == localId;
      assert rows[k].localId == localId;
    } else if item.Message? && item.message.localId == localId {
      assert rows[|db.messages|] == item.message;
    }
  }

  /** Which messages there are: those stored before and those inserted, no local id twice. */
  lemma {:induction false} StoredIds(db: Database, items: seq<Item>, localId: string)
    ensures Stores(WriteAll(db, items).messages, localId) <==> Stores(db.messages, localId) || Inserts(items, localId)
    ensures UniqueIds(db.messages) ==> UniqueIds(WriteAll(db, items).messages)
  {
    if items != [] {
      var n := |items| - 1;
      StoredIds(db, items[..n], localId);
      WriteKeepsIds(WriteAll(db, items[..n]), items[n], localId);
      if Inserts(items[..n], localId) {
        var i :| 0 <= i < n && items[..n][i].Message? && items[..n][i].message.localId == localId;
        assert items[i].Message? && items[i].message.localId == localId;
      }
    }
  }

  /** Item j is the first to insert its message, which was not there before. */
  ghost predicate FirstInsert(db: Database, items: seq<Item>, j: nat) {
    && j < |items| && items[j].Message?
    && !Stores(db.messages, items[j].message.localId) && !Inserts(items[..j], items[j].message.localId)
  }

  /** A message inserted by item j follows the updates behind it; those before it found nothing to update. */
  lemma InsertedFollowsUpdates(db: Database, items: seq<Item>, j: nat) returns (k: nat)
    requires FirstInsert(db, items, j)
    ensures var rows := WriteAll(db, items).messages;
            k < |rows| && Follows(rows[k], items[j].message, items[j + 1..])
  {
    var (front, rest) := (items[..j + 1], items[j + 1..]);
    assert items == front + rest;
    assert front[..j] == items[..j] && front[j] == items[j];
    WriteAllAppend(db, front, rest);
    StoredIds(db, items[..j], items[j].message.localId);
    k := |WriteAll(db, items[..j]).messages|;
    assert WriteAll(db, front).messages == WriteAll(db, items[..j]).messages + [items[j].message];
    MessageFollowsUpdates(WriteAll(db, front), rest, k);
  }

  // ---------------------------------------------------------------------------------------
  // Settings, sessions, nodes, history
  // ---------------------------------------------------------------------------------------

  /** A setting has the value last written under its key, else the one it had. */
  lemma {:induction false} SettingIsLastWritten(db: Database, items: seq<Item>, key: string)
    ensures var (after, j) := (WriteAll(db, items).settings, LastIndex(items, SetsKey(key)));
            if j.Some? then key in after && after[key] == items[j.value].value
            else (key in after <==> key in db.settings) && (key in after ==> after[key] == db.settings[key])
  {
    if items != [] { SettingIsLastWritten(db, items[..|items| - 1], key); }
  }

  /** The same for a session. */
  lemma {:induction false} SessionIsLastWritten(db: Database, items: seq<Item>, id: string)
    ensures var (after, j) := (WriteAll(db, items).sessions, LastIndex(items, SetsSession(id)));
            if j.Some? then id in after && after[id] == items[j.value].content
            else (id in after <==> id in db.sessions) && (id in after ==> after[id] == db.sessions[id])
  {
    if items != [] { SessionIsLastWritten(db, items[..|items| - 1], id); }
  }

  /** The snapshots of one node, in order. */
  function Snapshots(items: seq<Item>, num: int): seq<NodeRecord> {
    if items == [] then []
    else
      var (front, e) := (items[..|items| - 1], items[|items| - 1]);
      Snapshots(front, num) + if e.Node? && e.record.num == num then [e.record] else []
  }

  /** The row is what these snapshots of the node leave; without any there is none. */
  ghost predicate IsRowOf(nodes: map<int, NodeRecord>, num: int, own: seq<NodeRecord>) {
    (num in nodes <==> own != []) && (num in nodes ==> nodes[num] == NodeTable.Row(own))
  }

  ghost predicate OwnKeys(nodes: map<int, NodeRecord>) {
    forall n <- nodes :: nodes[n].num == n
  }

  function OwnRow(nodes: map<int, NodeRecord>, num: int): seq<NodeRecord> {
    if num in nodes then [nodes[num]] else []
  }

  /** A node's row is the one its own snapshots leave, behind the row it had. */
  lemma {:induction false} NodeIsRowOfSnapshots(db: Database, items: seq<Item>, num: int)
    requires OwnKeys(db.nodes)
    ensures IsRowOf(WriteAll(db, items).nodes, num, OwnRow(db.nodes, num) + Snapshots(items, num))
    ensures OwnKeys(WriteAll(db, items).nodes)
  {
    if items == [] {
      assert OwnRow(db.nodes, num) + [] == OwnRow(db.nodes, num);
    } else {
      var (front, e) := (items[..|items| - 1], items[|items| - 1]);
      NodeIsRowOfSnapshots(db, front, num);
      RowOn(WriteAll(db, front), e, num, OwnRow(db.nodes, num) + Snapshots(front, num));
      var more := if e.Node? && e.record.num == num then [e.record] else [];
      Associative(OwnRow(db.nodes, num), Snapshots(front, num), more);
    }
  }

  lemma RowOn(db: Database, item: Item, num: int, own: seq<NodeRecord>)
    requires OwnKeys(db.nodes) && IsRowOf(db.nodes, num, own)
    ensures OwnKeys(WriteOne(db, item).nodes)
    ensures IsRowOf(WriteOne(db, item).nodes, num,
                    own + if item.Node? && item.record.num == num then [item.record] else [])
  {
    if item.Node? && item.record.num == num {
      assert (own + [item.record])[..|own|] == own;
    } else {
      assert own + [] == own;
    }
  }

  /** The rows of one history table among the items. */
  function RowsFor(items: seq<Item>, pick: Item -> Option<Row>): seq<Row> {
    if items == [] then []
    else
      var row := pick(items[|items| - 1]);
      RowsFor(items[..|items| - 1], pick) + if row.Some? then [row.value] else []
  }

  function PacketRow(i: Item): Option<Row> { if i.Packet? then Some(i.row) else None }

  function PositionRow(i: Item): Option<Row> { if i.Position? then Some(i.row) else None }

  function TelemetryRow(i: Item): Option<Row> { if i.Telemetry? then Some(i.row) else None }

  /** History tables grow by their own rows, in order, and by nothing else. */
  lemma {:induction false} HistoryIsAppended(db: Database, items: seq<Item>)
    ensures var after := WriteAll(db, items);
            && after.packets == db.packets + RowsFor(items, PacketRow)
            && after.positions == db.positions + RowsFor(items, PositionRow)
            && after.telemetry == db.telemetry + RowsFor(items, TelemetryRow)
  {
    if items != [] {
      HistoryIsAppended(db, items[..|items| - 1]);
      RowsForOn(items, PacketRow, db.packets);
      RowsForOn(items, PositionRow, db.positions);
      RowsForOn(items, TelemetryRow, db.telemetry);
    }
  }

  lemma RowsForOn(items: seq<Item>, pick: Item -> Option<Row>, first: seq<Row>)
    requires items != []
    ensures var (n, row) := (|items| - 1, pick(items[|items| - 1]));
            first + RowsFor(items, pick)
            == (first + RowsFor(items[..n], pick)) + (if row.Some? then [row.value] else [])
  {
    var row := pick(items[|items| - 1]);
    Associative(first, RowsFor(items[..|items| - 1], pick), if row.Some? then [row.value] else []);
  }

  // ---------------------------------------------------------------------------------------
  // After a run
  // ---------------------------------------------------------------------------------------

  /** What a run has committed, in order. */
  ghost function CommittedBy(found: Disk, events: seq<Event>): seq<Item> {
    var h := Run(found, events).1;
    if |h.fates| <= |h.accepted| then CommittedItems(h.accepted[..|h.fates|], h.fates) else []
  }

  lemma RunIsFold(found: Disk, events: seq<Event>)
    ensures var (db, fold) := (Run(found, events).0.db, WriteAll(found.Content(), CommittedBy(found, events)));
            SameProtected(db, fold) && HistoryWithin(db, fold)
  {
    PrunesTouchHistoryOnly(found, events);
  }

  /** After any run a message stored at the opening follows every committed update that names it. */
  lemma StoredMessageAfterRun(found: Disk, events: seq<Event>, k: nat)
    requires k < |found.Content().messages|
    ensures var rows := Run(found, events).0.db.messages;
            k < |rows| && Follows(rows[k], found.Content().messages[k], CommittedBy(found, events))
  {
    RunIsFold(found, events);
    MessageFollowsUpdates(found.Content(), CommittedBy(found, events), k);
  }

  /** And one inserted by a committed item every update committed behind it. */
  lemma InsertedMessageAfterRun(found: Disk, events: seq<Event>, j: nat) returns (k: nat)
    requires FirstInsert(found.Content(), CommittedBy(found, events), j)
    ensures var (rows, items) := (Run(found, events).0.db.messages, CommittedBy(found, events));
            k < |rows| && Follows(rows[k], items[j].message, items[j + 1..])
  {
    RunIsFold(found, events);
    k := InsertedFollowsUpdates(found.Content(), CommittedBy(found, events), j);
  }
}
