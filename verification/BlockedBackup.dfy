/** A run of the write pipeline in which a backup succeeds and lacks what was committed before it. */
module BlockedBackup {
  import opened Prelude
  import opened MonitorDatabase
  import opened MonitorStore

  /** Everything goes well but the checkpoint: another connection's reader lets it write nothing back. */
  const BLOCKED := FlushPlan(
    true, (k: nat) => (n: nat) => Done, true, (k: nat) => 0, (k: nat) => true, (k: nat) => true, (k: nat) => 0)

  /** One packet and one backup request are queued, taken and flushed. */
  function BlockedRun(row: Row, request: nat): seq<Event> {
    [Offer(Packet(row)), Offer(Backup(request)), Turn(BLOCKED), Turn(BLOCKED), Turn(BLOCKED)]
  }

  lemma RunSnoc(found: Disk, events: seq<Event>, e: Event)
    ensures var r := Run(found, events);
            Run(found, events + [e]) == (Next(r.0, e), Record(r.0, r.1, e))
  {
    assert (events + [e])[..|events|] == events;
  }

  /** Items that ask for no maintenance leave the log and the copies alone. */
  lemma {:induction false} QuietItems(items: seq<Item>, plan: FlushPlan, disk: Disk)
    requires forall i <- items :: i.IsData()
    ensures PruneEffects(items, plan) == [] && NewCopies(items, plan, disk) == []
    ensures DiskAfter(items, plan, disk) == disk
  {
    if items != [] {
      var n := |items| - 1;
      assert items[n] in items && forall i <- items[..n] :: i in items;
      QuietItems(items[..n], plan, disk);
    }
  }

  /** Data items, then one backup whose checkpoint writes nothing back. */
  lemma BlockedMaintenance(items: seq<Item>, request: nat, disk: Disk)
    requires forall i <- items :: i.IsData()
    ensures var batch := items + [Backup(request)];
            PruneEffects(batch, BLOCKED) == [] && NewCopies(batch, BLOCKED, disk) == [Copy(request, disk.main)]
  {
    var batch := items + [Backup(request)];
    assert batch[..|items|] == items;
    QuietItems(items, BLOCKED, disk);
    assert disk.wal[..0] == [];
    assert disk.Checkpointed(0).main == disk.main;
  }

  lemma BlockedFates(row: Row, request: nat)
    ensures var batch := [Packet(row), Backup(request)];
            && FatesOf(batch, BLOCKED) == [Committed, Maintained]
            && CommittedItems(batch, FatesOf(batch, BLOCKED)) == [Packet(row)]
  {
    var batch := [Packet(row), Backup(request)];
    var fates := FatesOf(batch, BLOCKED);
    assert Survives(BLOCKED.attempts(0)) by { assert BLOCKED.attempts(0)(1).Done?; }
    assert batch[..1] == [Packet(row)] && fates[..1] == [Committed];
    assert CommittedItems([Packet(row)][..0], [Committed][..0]) == [];
    assert CommittedItems([Packet(row)], [Committed]) == [Packet(row)];
  }

  /** The flush of that batch: the packet is committed, and the copy is taken without it. */
  lemma BlockedFlush(s: State, h: History, row: Row, request: nat)
    requires s.batch == [Packet(row), Backup(request)] && s.disk == Disk(s.db, []) && s.queue == []
    ensures var s', h' := Flushed(s, BLOCKED), Recorded(h, s.batch, BLOCKED, s.disk);
            && s'.copies == s.copies + [Copy(request, s.db)]
            && s'.db == s.db.(packets := s.db.packets + [row])
            && h'.fates == h.fates + [Committed, Maintained] && h'.accepted == h.accepted
  {
    BlockedFates(row, request);
    var written := [Packet(row)];
    assert written[..0] == [];
    assert WriteAll(s.db, written) == WriteOne(s.db, Packet(row));
    assert s.batch == [Packet(row)] + [Backup(request)];
    BlockedMaintenance([Packet(row)], request, s.disk.Committed(AllWrote(written)));
  }

  /** The state and history once these items are queued. */
  function Queued(existing: Database, items: seq<Item>, data: nat): (State, History) {
    (State(seq(|items|, k requires 0 <= k < |items| => Some(items[k])), [], false, true, 0, 0, existing,
           Disk(existing, []), []),
     History(Disk(existing, []), items, [], [], data, 0, 0, 0, []))
  }

  lemma NothingQueued(existing: Database)
    ensures Run(Disk(existing, []), []) == Queued(existing, [], 0)
  {
    var none: seq<Transaction> := [];
    assert Joined(none) == [] && Disk(existing, none).Content() == existing;
    assert Queued(existing, [], 0).0.queue == [];
  }

  lemma OneMoreQueued(existing: Database, events: seq<Event>, items: seq<Item>, data: nat, item: Item)
    requires Run(Disk(existing, []), events) == Queued(existing, items, data) && |items| < CAPACITY
    ensures Run(Disk(existing, []), events + [Offer(item)])
         == Queued(existing, items + [item], data + if item.IsData() then 1 else 0)
  {
    RunSnoc(Disk(existing, []), events, Offer(item));
    assert Queued(existing, items, data).0.queue + [Some(item)] == Queued(existing, items + [item], data).0.queue;
  }

  lemma BlockedOffers(existing: Database, row: Row, request: nat)
    ensures Run(Disk(existing, []), [Offer(Packet(row)), Offer(Backup(request))])
         == Queued(existing, [Packet(row), Backup(request)], 1)
  {
    var (packet, backup) := (Packet(row), Backup(request));
    assert [] + [Offer(packet)] == [Offer(packet)] && [] + [packet] == [packet];
    NothingQueued(existing);
    OneMoreQueued(existing, [], [], 0, packet);
    OneMoreQueued(existing, [Offer(packet)], [packet], 1, backup);
    assert [Offer(packet)] + [Offer(backup)] == [Offer(packet), Offer(backup)];
    assert [packet] + [backup] == [packet, backup];
  }

  /**
   A run in which a backup succeeds without its checkpoint: the packet queued before the request is committed
   and is not in the copy.
   */
  lemma BlockedCheckpointLosesPacket(existing: Database, row: Row, request: nat)
    ensures var (s, h) := Run(Disk(existing, []), BlockedRun(row, request));
            && h.accepted == [Packet(row), Backup(request)] && h.fates == [Committed, Maintained]
            && s.db.packets == existing.packets + [row]
            && s.copies == [Copy(request, existing)]
  {
    var (packet, backup) := (Packet(row), Backup(request));
    var (s2, h2) := Queued(existing, [packet, backup], 1);
    assert s2.queue == [Some(packet), Some(backup)];
    var s4 := s2.(queue := [], batch := [packet, backup]);
    var e := BlockedRun(row, request);
    BlockedOffers(existing, row, request);
    assert e[..2] == [Offer(packet), Offer(backup)];
    assert e[..2] + [e[2]] == e[..3] && e[..3] + [e[3]] == e[..4] && e[..4] + [e[4]] == e;
    RunSnoc(Disk(existing, []), e[..2], Turn(BLOCKED));
    RunSnoc(Disk(existing, []), e[..3], Turn(BLOCKED));
    RunSnoc(Disk(existing, []), e[..4], Turn(BLOCKED));
    BlockedTurns(s2, h2, packet, backup);
    assert Run(Disk(existing, []), e[..4]) == (s4, h2);
    LastTurnFlushes(s4, h2, row, request);
  }

  lemma LastTurnFlushes(s: State, h: History, row: Row, request: nat)
    requires s.running && !s.stop && s.queue == [] && s.copies == [] && h.fates == []
    requires s.batch == [Packet(row), Backup(request)] && s.disk == Disk(s.db, [])
    ensures var s', h' := Next(s, Turn(BLOCKED)), Record(s, h, Turn(BLOCKED));
            && s'.copies == [Copy(request, s.db)] && s'.db.packets == s.db.packets + [row]
            && h'.fates == [Committed, Maintained] && h'.accepted == h.accepted
  {
    BlockedFlush(s, h, row, request);
    assert FlushedBatch(s) == s.batch;
    assert Next(s, Turn(BLOCKED)) == Flushed(s, BLOCKED);
  }

  /** Two turns take the two items; a batch that small is not flushed yet. */
  lemma BlockedTurns(s: State, h: History, packet: Item, backup: Item)
    requires s.running && s.queue == [Some(packet), Some(backup)] && s.batch == []
    ensures var s1 := s.(queue := [Some(backup)], batch := [packet]);
            var s2 := s.(queue := [], batch := [packet, backup]);
            && Next(s, Turn(BLOCKED)) == s1 && Record(s, h, Turn(BLOCKED)) == h
            && Next(s1, Turn(BLOCKED)) == s2 && Record(s1, h, Turn(BLOCKED)) == h
  {
    assert s.queue[1..] == [Some(backup)] && s.batch + [packet] == [packet];
    assert [Some(backup)][1..] == [] && [packet] + [backup] == [packet, backup];
  }
}
