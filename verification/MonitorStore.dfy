/**
 The write pipeline: a bounded queue, a writer thread that cuts it into batches, one transaction
 a batch, one savepoint an item. What the world decides -- lock errors, a failing COMMIT, when the
 writer runs -- arrives as parameters.
 */
module MonitorStore {
  import opened Prelude
  import opened MonitorDatabase

  const MAX_WRITE_RETRIES := 3

  const BATCH_LIMIT := 100

  // ---------------------------------------------------------------------------------------
  // One item
  // ---------------------------------------------------------------------------------------

  /** How one attempt at an item ends: which of its three statements raised, and whether briefly. */
  datatype Attempt =
    | Done
    | SavepointFails(transient: bool) | WriteFails(transient: bool) | ReleaseFails(transient: bool)
  {
    predicate Retryable() { !Done? && transient }
  }

  /** Some attempt within the allowed retries is done, and every one before it may be retried. */
  ghost predicate Survives(attempts: nat -> Attempt) {
    exists k | 1 <= k <= 4 ::
      attempts(k).Done? && forall j | 1 <= j < k :: attempts(j).Retryable()
  }

  /** Retries stop at an attempt that is not done and is permanent or one too many. */
  lemma GivesUp(attempts: nat -> Attempt, last: nat)
    requires 1 <= last <= MAX_WRITE_RETRIES + 1 && !attempts(last).Done?
    requires attempts(last).Retryable() ==> last > MAX_WRITE_RETRIES
    requires forall j | 1 <= j < last :: attempts(j).Retryable()
    ensures !Survives(attempts)
  {
  }

  /**
   The world's answers to one flush. Items of the batch are told apart by their position. `moved` is how many
   transactions of the log a backup's checkpoint writes back before other connections' readers stop it.
   */
  datatype FlushPlan = FlushPlan(
    begins: bool, attempts: nat -> nat -> Attempt, commits: bool,
    moved: nat -> nat, backupWorks: nat -> bool, pruneWorks: nat -> bool, cutoff: nat -> int)

  /** What became of an item taken from the queue. */
  datatype Fate = Committed | FailedWrite | Vanished | Maintained

  ghost function FateOf(item: Item, plan: FlushPlan, k: nat): Fate {
    if !item.IsData() then Maintained
    else if !plan.begins then Vanished
    else if plan.commits && Survives(plan.attempts(k)) then Committed
    else FailedWrite
  }

  // ---------------------------------------------------------------------------------------
  // Bookkeeping over items and fates
  // ---------------------------------------------------------------------------------------

  function CommittedItems(items: seq<Item>, fates: seq<Fate>): seq<Item>
    requires |items| == |fates|
  {
    if items == [] then []
    else
      var n := |items| - 1;
      CommittedItems(items[..n], fates[..n]) + if fates[n] == Committed then [items[n]] else []
  }

  function Count(fates: seq<Fate>, fate: Fate): nat {
    if fates == [] then 0
    else Count(fates[..|fates| - 1], fate) + if fates[|fates| - 1] == fate then 1 else 0
  }

  function DataCount(items: seq<Item>): nat {
    if items == [] then 0
    else DataCount(items[..|items| - 1]) + if items[|items| - 1].IsData() then 1 else 0
  }

  /** The items in a queue, its sentinels left out. */
  function Items(queue: seq<Option<Item>>): seq<Item> {
    if queue == [] then []
    else Items(queue[..|queue| - 1]) + if queue[|queue| - 1].Some? then [queue[|queue| - 1].value] else []
  }

  lemma {:induction false} CountZeroIffAbsent(fates: seq<Fate>, fate: Fate)
    ensures Count(fates, fate) == 0 <==> fate !in fates
  {
    if fates != [] {
      var n := |fates| - 1;
      CountZeroIffAbsent(fates[..n], fate);
      assert fates == fates[..n] + [fates[n]];
    }
  }

  /** A failed COMMIT: everything that had reported success is lost after all. */
  function Undone(fates: seq<Fate>): (r: seq<Fate>)
    ensures |r| == |fates|
    ensures forall k | 0 <= k < |r| :: r[k] == if fates[k] == Committed then FailedWrite else fates[k]
  {
    seq(|fates|, k requires 0 <= k < |fates| => if fates[k] == Committed then FailedWrite else fates[k])
  }

  lemma {:induction false} UndoneCounts(items: seq<Item>, fates: seq<Fate>)
    requires |items| == |fates|
    ensures Count(Undone(fates), FailedWrite) == Count(fates, FailedWrite) + |CommittedItems(items, fates)|
    ensures CommittedItems(items, Undone(fates)) == []
  {
    if items != [] {
      var n := |items| - 1;
      UndoneCounts(items[..n], fates[..n]);
      assert Undone(fates)[..n] == Undone(fates[..n]);
    }
  }

  lemma {:induction false} NothingCommitted(items: seq<Item>, fates: seq<Fate>)
    requires |items| == |fates| && Committed !in fates
    ensures CommittedItems(items, fates) == []
  {
    if items != [] {
      NothingCommitted(items[..|items| - 1], fates[..|items| - 1]);
    }
  }

  // ---------------------------------------------------------------------------------------
  // The store
  // ---------------------------------------------------------------------------------------

  /** A finished backup file: which request asked for it and what it holds. */
  datatype Copy = Copy(request: nat, content: Database)

  /**
   Where a backup was taken: its request's place in the queue, how far the writer had got, how many of the
   effects committed by then the copy lacks, how many transactions were waiting in the log, and how many of
   them its checkpoint was let write back.
   */
  datatype Mark = Mark(at: nat, upTo: nat, steps: nat, lacks: nat, waiting: nat, moved: nat)

  // ---------------------------------------------------------------------------------------
  // The state of a store, its history, and what ties the two together
  // ---------------------------------------------------------------------------------------

  const CAPACITY: nat := 10_000

  /** `queue` holds None for the shutdown sentinel; `db` is the database as committed, `disk` where it is kept. */
  datatype State = State(
    queue: seq<Option<Item>>, batch: seq<Item>, stop: bool, running: bool,
    dropped: nat, failed: nat, db: Database, disk: Disk, copies: seq<Copy>)

  /**
   `found`: the file and log as opened; `accepted`: every item the queue took, in order; `fates`: what became
   of the first of them;
   `effects`: what the writer committed, in order; `offered`, `droppedData`: data items offered and
   turned away; `badBegins`: flushes with data whose BEGIN failed; `stopMark`: how many items had
   been accepted when the stop was first asked for; `marks`: one per copy.
   */
  datatype History = History(
    found: Disk, accepted: seq<Item>, fates: seq<Fate>, effects: seq<Effect>,
    offered: nat, droppedData: nat, badBegins: nat, stopMark: nat, marks: seq<Mark>)
  {
    /** The database as it was opened. */
    function Opened(): Database { found.Content() }

    function Took(item: Item): History {
      this.(accepted := accepted + [item], offered := offered + if item.IsData() then 1 else 0)
    }

    function TurnedAway(item: Item): History {
      var n := if item.IsData() then 1 else 0;
      this.(offered := offered + n, droppedData := droppedData + n)
    }
  }

  // ---------------------------------------------------------------------------------------
  // A flush
  // ---------------------------------------------------------------------------------------

  ghost function FatesOf(items: seq<Item>, plan: FlushPlan): (fates: seq<Fate>)
    ensures |fates| == |items|
    ensures forall k | 0 <= k < |items| :: fates[k] == FateOf(items[k], plan, k)
  {
    seq(|items|, k requires 0 <= k < |items| => FateOf(items[k], plan, k))
  }

  predicate HasData(items: seq<Item>) {
    exists i <- items :: i.IsData()
  }

  /** The prunes of a batch, run after everything else in it. */
  function PruneEffects(items: seq<Item>, plan: FlushPlan): seq<Effect> {
    if items == [] then []
    else
      var n := |items| - 1;
      PruneEffects(items[..n], plan)
      + if items[n].Prune? && plan.pruneWorks(n) then [Pruned(plan.cutoff(n))] else []
  }

  /** Each backup of a batch first checkpoints the log. */
  function DiskAfter(items: seq<Item>, plan: FlushPlan, disk: Disk): Disk {
    if items == [] then disk
    else
      var n := |items| - 1;
      var before := DiskAfter(items[..n], plan, disk);
      if items[n].Backup? then before.Checkpointed(plan.moved(n)) else before
  }

  /** And then copies the main file, whatever the checkpoint said. */
  function NewCopies(items: seq<Item>, plan: FlushPlan, disk: Disk): seq<Copy> {
    if items == [] then []
    else
      var n := |items| - 1;
      NewCopies(items[..n], plan, disk)
      + if items[n].Backup? && plan.backupWorks(n)
        then [Copy(items[n].request, DiskAfter(items, plan, disk).main)]
        else []
  }

  /** Each prune is a transaction of its own. */
  function DiskPruned(effects: seq<Effect>, disk: Disk): Disk {
    if effects == [] then disk
    else DiskPruned(effects[..|effects| - 1], disk).Committed([effects[|effects| - 1]])
  }

  /** An item's fate as it looks before the COMMIT. */
  ghost function Provisional(item: Item, plan: FlushPlan, k: nat): Fate {
    if !item.IsData() then Maintained else if Survives(plan.attempts(k)) then Committed else FailedWrite
  }

  ghost function ProvisionalFates(items: seq<Item>, plan: FlushPlan): (fates: seq<Fate>)
    ensures |fates| == |items|
    ensures forall k | 0 <= k < |items| :: fates[k] == Provisional(items[k], plan, k)
  {
    seq(|items|, k requires 0 <= k < |items| => Provisional(items[k], plan, k))
  }

  lemma ProvisionalStep(items: seq<Item>, plan: FlushPlan, k: nat)
    requires k < |items|
    ensures var fates, fate := ProvisionalFates(items, plan), Provisional(items[k], plan, k);
            && CommittedItems(items[..k + 1], fates[..k + 1]) ==
               CommittedItems(items[..k], fates[..k]) + (if fate == Committed then [items[k]] else [])
            && Count(fates[..k + 1], FailedWrite) ==
               Count(fates[..k], FailedWrite) + if fate == FailedWrite then 1 else 0
  {
    var fates := ProvisionalFates(items, plan);
    assert items[..k + 1][..k] == items[..k] && fates[..k + 1][..k] == fates[..k];
  }

  lemma NothingBegun(items: seq<Item>, plan: FlushPlan)
    requires !HasData(items) || !plan.begins
    ensures CommittedItems(items, FatesOf(items, plan)) == []
    ensures Count(FatesOf(items, plan), FailedWrite) == 0
  {
    var fates := FatesOf(items, plan);
    forall k | 0 <= k < |fates| ensures fates[k] != Committed && fates[k] != FailedWrite {
      assert items[k] in items;
    }
    NothingCommitted(items, fates);
    CountZeroIffAbsent(fates, FailedWrite);
  }

  /** COMMIT makes the provisional fates final; its failure undoes the successes among them. */
  lemma FinalFates(items: seq<Item>, plan: FlushPlan)
    requires plan.begins
    ensures plan.commits ==> FatesOf(items, plan) == ProvisionalFates(items, plan)
    ensures !plan.commits ==>
              && CommittedItems(items, FatesOf(items, plan)) == []
              && Count(FatesOf(items, plan), FailedWrite) ==
                 Count(ProvisionalFates(items, plan), FailedWrite)
                 + |CommittedItems(items, ProvisionalFates(items, plan))|
  {
    var fates := ProvisionalFates(items, plan);
    if !plan.commits {
      UndoneCounts(items, fates);
      assert Undone(fates) == FatesOf(items, plan);
    }
  }

  lemma WriteAllSnoc(db: Database, items: seq<Item>, item: Item)
    ensures WriteAll(db, items + [item]) == WriteOne(WriteAll(db, items), item)
  {
    assert (items + [item])[..|items|] == items;
  }

  /** The history once the batch's transaction is over. */
  ghost function Settled(h: History, batch: seq<Item>, plan: FlushPlan): History {
    var fates := FatesOf(batch, plan);
    h.(fates := h.fates + fates, effects := h.effects + AllWrote(CommittedItems(batch, fates)),
       badBegins := h.badBegins + if HasData(batch) && !plan.begins then 1 else 0)
  }

  function NewMarks(items: seq<Item>, plan: FlushPlan, base: nat, upTo: nat, steps: nat, disk: Disk): seq<Mark> {
    if items == [] then []
    else
      var n := |items| - 1;
      NewMarks(items[..n], plan, base, upTo, steps, disk)
      + if items[n].Backup? && plan.backupWorks(n)
        then [Mark(base + n, upTo, steps, Unwritten(DiskAfter(items, plan, disk)),
                   |DiskAfter(items[..n], plan, disk).wal|, plan.moved(n))]
        else []
  }

  /** What a flush makes of the state, and what the history says of it afterwards. */
  ghost function Flushed(s: State, plan: FlushPlan): State {
    var fates := FatesOf(s.batch, plan);
    var written := CommittedItems(s.batch, fates);
    var committed := WriteAll(s.db, written);
    var disk := s.disk.Committed(AllWrote(written));
    s.(batch := [], failed := s.failed + Count(fates, FailedWrite),
       copies := s.copies + NewCopies(s.batch, plan, disk),
       db := Replay(committed, PruneEffects(s.batch, plan)),
       disk := DiskPruned(PruneEffects(s.batch, plan), DiskAfter(s.batch, plan, disk)))
  }

  ghost function Recorded(h: History, batch: seq<Item>, plan: FlushPlan, disk: Disk): History {
    var h' := Settled(h, batch, plan);
    var committed := disk.Committed(AllWrote(CommittedItems(batch, FatesOf(batch, plan))));
    h'.(marks := h'.marks + NewMarks(batch, plan, |h.fates|, |h'.fates|, |h'.effects|, committed),
        effects := h'.effects + PruneEffects(batch, plan))
  }

  lemma PruneEffectsStep(db: Database, items: seq<Item>, plan: FlushPlan, k: nat)
    requires k < |items|
    ensures Replay(db, PruneEffects(items[..k + 1], plan)) ==
            var before := Replay(db, PruneEffects(items[..k], plan));
            if items[k].Prune? && plan.pruneWorks(k) then PruneBefore(before, plan.cutoff(k)) else before
  {
    assert items[..k + 1][..k] == items[..k];
    var e := PruneEffects(items[..k], plan);
    assert (e + [Pruned(plan.cutoff(k))])[..|e|] == e;
    assert e + [] == e;
  }

  lemma PruneDiskStep(disk: Disk, items: seq<Item>, plan: FlushPlan, k: nat)
    requires k < |items|
    ensures DiskPruned(PruneEffects(items[..k + 1], plan), disk) ==
            var before := DiskPruned(PruneEffects(items[..k], plan), disk);
            if items[k].Prune? && plan.pruneWorks(k) then before.Committed([Pruned(plan.cutoff(k))]) else before
  {
    assert items[..k + 1][..k] == items[..k];
    var e := PruneEffects(items[..k], plan);
    assert (e + [Pruned(plan.cutoff(k))])[..|e|] == e;
    assert e + [] == e;
  }

  lemma NothingToFlush(s: State, plan: FlushPlan)
    requires s.batch == []
    ensures Flushed(s, plan) == s
  {
    assert FatesOf(s.batch, plan) == [];
    assert s.copies + [] == s.copies;
  }

  ghost function AfterTake(s: State, plan: FlushPlan): State
    requires s.queue != [] && s.queue[0].Some?
  {
    var taken := s.(queue := s.queue[1..], batch := s.batch + [s.queue[0].value]);
    if |taken.batch| >= BATCH_LIMIT then Flushed(taken, plan) else taken
  }

  /** One turn of the writer loop: an empty queue, the sentinel, or an item. */
  ghost function AfterTurn(s: State, plan: FlushPlan): State {
    if s.stop && s.queue == [] then Flushed(s, plan).(running := false)
    else if s.queue == [] then Flushed(s, plan)
    else if s.queue[0].None? then Flushed(s.(queue := s.queue[1..]), plan).(running := false)
    else AfterTake(s, plan)
  }

  /** The batch a turn flushes: empty when it flushes nothing. */
  function FlushedBatch(s: State): seq<Item> {
    if s.queue == [] || s.queue[0].None? then s.batch
    else if |s.batch| + 1 >= BATCH_LIMIT then s.batch + [s.queue[0].value]
    else []
  }

  ghost function RecordTurn(s: State, h: History, plan: FlushPlan): History {
    if FlushedBatch(s) == [] then h else Recorded(h, FlushedBatch(s), plan, s.disk)
  }

  // ---------------------------------------------------------------------------------------
  // Whole runs
  // ---------------------------------------------------------------------------------------

  /**
   What can happen next: any thread offers an item or shuts down, the writer takes a turn, or SQLite writes
   back some transactions of the log by itself.
   */
  datatype Event = Offer(item: Item) | Stop | Sentinel | Turn(plan: FlushPlan) | Checkpoint(moved: nat)

  function Offered(s: State, item: Item): State {
    if |s.queue| < CAPACITY then s.(queue := s.queue + [Some(item)]) else s.(dropped := s.dropped + 1)
  }

  /** The sentinel is put after the stop was asked for, and waits for room. */
  predicate SentinelFits(s: State) { s.stop && |s.queue| < CAPACITY }

  ghost function Next(s: State, e: Event): State {
    match e
    case Offer(item) => Offered(s, item)
    case Stop => s.(stop := true)
    case Sentinel => if SentinelFits(s) then s.(queue := s.queue + [None]) else s
    case Turn(plan) => if s.running then AfterTurn(s, plan) else s
    case Checkpoint(moved) => s.(disk := s.disk.Checkpointed(moved))
  }

  ghost function Record(s: State, h: History, e: Event): History {
    match e
    case Offer(item) => if |s.queue| < CAPACITY then h.Took(item) else h.TurnedAway(item)
    case Stop => if s.stop then h else h.(stopMark := |h.accepted|)
    case Sentinel => h
    case Turn(plan) => if s.running then RecordTurn(s, h, plan) else h
    case Checkpoint(_) => h
  }

  /** A store opened on a file, with whatever log lies beside it, and everything that happened to it since. */
  ghost function Run(found: Disk, events: seq<Event>): (State, History) {
    if events == [] then
      (State([], [], false, true, 0, 0, found.Content(), found, []), History(found, [], [], [], 0, 0, 0, 0, []))
    else
      var r := Run(found, events[..|events| - 1]);
      (Next(r.0, events[|events| - 1]), Record(r.0, r.1, events[|events| - 1]))
  }

  class MonitorStore {
    var queue: seq<Option<Item>>
    var batch: seq<Item>
    var stop: bool
    var running: bool
    var dropped: nat
    var failed: nat
    var db: Database
    var disk: Disk
    var copies: seq<Copy>

    ghost function View(): State
      reads this
    {
      State(queue, batch, stop, running, dropped, failed, db, disk, copies)
    }

    constructor (found: Disk)
      ensures View() == Run(found, []).0
    {
      queue, batch, stop, running, dropped, failed, copies := [], [], false, true, 0, 0, [];
      db, disk := found.Content(), found;
    }

    /** Any thread: queue one write, or count it as dropped when the queue is full. */
    method Enqueue(item: Item) returns (taken: bool)
      modifies this`queue, this`dropped
      ensures taken <==> |old(queue)| < 10_000
      ensures View() == Next(old(View()), Offer(item))
    {
      taken := |queue| < CAPACITY;
      if taken {
        queue := queue + [Some(item)];
      } else {
        dropped := dropped + 1;
      }
    }

    /** shutdown(), first half: tell the writer to stop. */
    method SetStop()
      modifies this`stop
      ensures View() == Next(old(View()), Stop)
    {
      stop := true;
    }

    /** shutdown(), second half: the sentinel, put once the queue has room. */
    method PutSentinel()
      requires SentinelFits(View())
      modifies this`queue
      ensures View() == Next(old(View()), Sentinel)
    {
      queue := queue + [None];
    }

    method RecordFailedItem()
      modifies this`failed
      ensures failed == old(failed) + 1
    {
      failed := failed + 1;
    }

    /** One item in its own savepoint, retried while the error is transient. */
    method WriteItemWithRetry(work: Database, item: Item, attempts: nat -> Attempt)
      returns (ok: bool, after: Database)
      modifies this`failed
      ensures ok <==> Survives(attempts)
      ensures after == if ok then WriteOne(work, item) else work
      ensures failed == old(failed) + if ok then 0 else 1
    {
      after := work;
      var attempt := 0;
      while true
        invariant 0 <= attempt <= MAX_WRITE_RETRIES
        invariant after == work && failed == old(failed)
        invariant forall j | 1 <= j <= attempt :: attempts(j).Retryable()
        decreases MAX_WRITE_RETRIES - attempt
      {
        attempt := attempt + 1;
        var outcome := attempts(attempt);
        var saved := after;
        if !outcome.SavepointFails? && !outcome.WriteFails? {
          after := WriteOne(after, item);
        }
        if outcome.Done? {
          return true, after;
        }
        after := saved;
        if outcome.transient && attempt <= MAX_WRITE_RETRIES {
          continue;
        }
        RecordFailedItem();
        GivesUp(attempts, attempt);
        return false, after;
      }
    }

    /** Every data item of the batch, inside an open transaction. */
    method WriteBatch(plan: FlushPlan) returns (work: Database, completed: seq<Item>, ghost fates: seq<Fate>)
      modifies this`failed
      ensures fates == ProvisionalFates(batch, plan)
      ensures completed == CommittedItems(batch, fates) && work == WriteAll(db, completed)
      ensures failed == old(failed) + Count(fates, FailedWrite)
    {
      work, completed, fates := db, [], [];
      for k := 0 to |batch|
        invariant fates == ProvisionalFates(batch, plan)[..k]
        invariant completed == CommittedItems(batch[..k], fates)
        invariant work == WriteAll(db, completed)
        invariant failed == old(failed) + Count(fates, FailedWrite)
      {
        ProvisionalStep(batch, plan, k);
        if batch[k].IsData() {
          var ok;
          ok, work := WriteItemWithRetry(work, batch[k], plan.attempts(k));
          if ok {
            WriteAllSnoc(db, completed, batch[k]);
            completed := completed + [batch[k]];
          }
        }
        fates := ProvisionalFates(batch, plan)[..k + 1];
      }
      assert batch[..|batch|] == batch;
    }

    /** The batch's transaction: BEGIN, every data item, COMMIT -- or none of it. */
    method FlushData(plan: FlushPlan)
      modifies this`db, this`disk, this`failed
      ensures db == WriteAll(old(db), CommittedItems(batch, FatesOf(batch, plan)))
      ensures disk == old(disk).Committed(AllWrote(CommittedItems(batch, FatesOf(batch, plan))))
      ensures failed == old(failed) + Count(FatesOf(batch, plan), FailedWrite)
    {
      if !HasData(batch) || !plan.begins {
        NothingBegun(batch, plan);
        return;
      }
      var work, completed;
      ghost var fates;
      work, completed, fates := WriteBatch(plan);
      FinalFates(batch, plan);
      if plan.commits {
        db := work;
        disk := disk.Committed(AllWrote(completed));
      } else {
        ghost var before := failed;
        for k := 0 to |completed|
          invariant failed == before + k && db == old(db) && disk == old(disk)
        {
          RecordFailedItem();
        }
      }
    }

    /** The backups of a batch: checkpoint the log, then copy the main file. */
    method TakeBackups(items: seq<Item>, plan: FlushPlan)
      modifies this`copies, this`disk
      ensures disk == DiskAfter(items, plan, old(disk))
      ensures copies == old(copies) + NewCopies(items, plan, old(disk))
    {
      for k := 0 to |items|
        invariant disk == DiskAfter(items[..k], plan, old(disk))
        invariant copies == old(copies) + NewCopies(items[..k], plan, old(disk))
      {
        assert items[..k + 1][..k] == items[..k];
        if items[k].Backup? {
          disk := disk.Checkpointed(plan.moved(k));
          if plan.backupWorks(k) {
            copies := copies + [Copy(items[k].request, disk.main)];
          }
        }
      }
      assert items[..|items|] == items;
    }

    /** The prunes of a batch, each in its own transaction. */
    method RunPrunes(items: seq<Item>, plan: FlushPlan)
      modifies this`db, this`disk
      ensures db == Replay(old(db), PruneEffects(items, plan))
      ensures disk == DiskPruned(PruneEffects(items, plan), old(disk))
    {
      for k := 0 to |items|
        invariant db == Replay(old(db), PruneEffects(items[..k], plan))
        invariant disk == DiskPruned(PruneEffects(items[..k], plan), old(disk))
      {
        PruneEffectsStep(old(db), items, plan, k);
        PruneDiskStep(old(disk), items, plan, k);
        if items[k].Prune? && plan.pruneWorks(k) {
          db := PruneBefore(db, plan.cutoff(k));
          disk := disk.Committed([Pruned(plan.cutoff(k))]);
        }
      }
      assert items[..|items|] == items;
    }

    /** _flush: the data in one transaction, then the backups, then the prunes. Clears the batch. */
    method Flush(plan: FlushPlan)
      modifies this`batch, this`db, this`disk, this`failed, this`copies
      ensures View() == Flushed(old(View()), plan)
    {
      ghost var before := View();
      FlushData(plan);
      assert View() == before.(db := db, disk := disk, failed := failed);
      TakeBackups(batch, plan);
      assert View() == before.(db := db, disk := disk, failed := failed, copies := copies);
      RunPrunes(batch, plan);
      batch := [];
    }

    /** Behind the loop: flush what is left. */
    method Leave(plan: FlushPlan)
      modifies this`batch, this`db, this`disk, this`failed, this`copies, this`running
      ensures View() == Flushed(old(View()), plan).(running := false)
    {
      if batch != [] {
        Flush(plan);
      } else {
        NothingToFlush(View(), plan);
      }
      running := false;
    }

    /** An item is taken from the queue; a full batch is flushed. */
    method TakeItem(plan: FlushPlan)
      requires queue != [] && queue[0].Some?
      modifies this`queue, this`batch, this`db, this`disk, this`failed, this`copies
      ensures View() == AfterTake(old(View()), plan)
    {
      batch := batch + [queue[0].value];
      queue := queue[1..];
      if |batch| >= BATCH_LIMIT {
        Flush(plan);
      }
    }

    /** One turn of the writer's loop; the last turn leaves it. */
    method WriterTurn(plan: FlushPlan)
      requires running
      modifies this`queue, this`batch, this`db, this`disk, this`failed, this`copies, this`running
      ensures View() == Next(old(View()), Turn(plan))
    {
      if stop && queue == [] {
        Leave(plan);
      } else if queue == [] {
        if batch != [] {
          Flush(plan);
        } else {
          NothingToFlush(View(), plan);
        }
      } else if queue[0].None? {
        queue := queue[1..];
        Leave(plan);
      } else {
        TakeItem(plan);
      }
    }
  }
}
