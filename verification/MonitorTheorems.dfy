/** What every run of the write pipeline keeps, and what that means for its users. */
module MonitorTheorems {
  import opened Prelude
  import opened MonitorDatabase
  import opened MonitorStore

  // ---------------------------------------------------------------------------------------
  // Bookkeeping over items and fates
  // ---------------------------------------------------------------------------------------

  lemma {:induction false} CommittedItemsAppend(a: seq<Item>, fa: seq<Fate>, b: seq<Item>, fb: seq<Fate>)
    requires |a| == |fa| && |b| == |fb|
    ensures CommittedItems(a + b, fa + fb) == CommittedItems(a, fa) + CommittedItems(b, fb)
    decreases |b|
  {
    if b == [] {
      assert a + b == a && fa + fb == fa;
    } else {
      var n := |b| - 1;
      assert (a + b)[..|a| + n] == a + b[..n] && (fa + fb)[..|a| + n] == fa + fb[..n];
      CommittedItemsAppend(a, fa, b[..n], fb[..n]);
    }
  }

  lemma {:induction false} CountAppend(a: seq<Fate>, b: seq<Fate>, fate: Fate)
    ensures Count(a + b, fate) == Count(a, fate) + Count(b, fate)
    decreases |b|
  {
    if b == [] {
      assert a + b == a;
    } else {
      assert (a + b)[..|a + b| - 1] == a + b[..|b| - 1];
      CountAppend(a, b[..|b| - 1], fate);
    }
  }

  lemma {:induction false} DataCountAppend(a: seq<Item>, b: seq<Item>)
    ensures DataCount(a + b) == DataCount(a) + DataCount(b)
    decreases |b|
  {
    if b == [] {
      assert a + b == a;
    } else {
      assert (a + b)[..|a + b| - 1] == a + b[..|b| - 1];
      DataCountAppend(a, b[..|b| - 1]);
    }
  }

  lemma {:induction false} ItemsAppend(a: seq<Option<Item>>, b: seq<Option<Item>>)
    ensures Items(a + b) == Items(a) + Items(b)
    decreases |b|
  {
    if b == [] {
      assert a + b == a;
    } else {
      assert (a + b)[..|a + b| - 1] == a + b[..|b| - 1];
      ItemsAppend(a, b[..|b| - 1]);
    }
  }

  /** Fates agree with items on what is data. */
  ghost predicate Matches(items: seq<Item>, fates: seq<Fate>) {
    |items| == |fates| && forall k | 0 <= k < |items| :: items[k].IsData() <==> fates[k] != Maintained
  }

  lemma {:induction false} DataHasOneFate(items: seq<Item>, fates: seq<Fate>)
    requires Matches(items, fates)
    ensures DataCount(items) ==
            Count(fates, Committed) + Count(fates, FailedWrite) + Count(fates, Vanished)
  {
    if items != [] {
      DataHasOneFate(items[..|items| - 1], fates[..|items| - 1]);
    }
  }

  // ---------------------------------------------------------------------------------------
  // What ties a state to its history
  // ---------------------------------------------------------------------------------------

  /** Fates are kept for the oldest items, and the failure counter counts one of them. */
  ghost predicate Accounts(accepted: seq<Item>, fates: seq<Fate>, failed: nat, badBegins: nat) {
    && |fates| <= |accepted|
    && Matches(accepted[..|fates|], fates)
    && failed == Count(fates, FailedWrite)
    && (badBegins == 0 <==> Vanished !in fates)
  }

  /** The database is what the committed items, and any prunes, made of the file as it was opened. */
  ghost predicate Stored(initial: Database, db: Database,
                         accepted: seq<Item>, fates: seq<Fate>, effects: seq<Effect>)
  {
    && |fates| <= |accepted|
    && db == Replay(initial, effects)
    && Writes(effects) == CommittedItems(accepted[..|fates|], fates)
    && (NoPrunes(effects) || HasPrune(accepted[..|fates|]))
  }

  lemma SentinelsBehindDrop(queue: seq<Option<Item>>, before: nat, stop: bool, stopMark: nat)
    requires SentinelsBehind(queue, before, stop, stopMark) && queue != [] && queue[0].None?
    ensures SentinelsBehind(queue[1..], before, stop, stopMark)
    ensures Items(queue) == Items(queue[1..])
  {
    ItemsAppend([queue[0]], queue[1..]);
    assert queue == [queue[0]] + queue[1..];
    forall p | 0 <= p < |queue[1..]| && queue[1..][p].None?
      ensures stop && stopMark <= before + |Items(queue[1..][..p])|
    {
      assert queue[p + 1].None?;
      assert queue[..p + 1] == [queue[0]] + queue[1..][..p];
      ItemsAppend([queue[0]], queue[1..][..p]);
    }
  }

  /** Every copy is the database as it stood when all items up to its mark had met their fate, but for what it lacks. */
  ghost predicate Explained(copies: seq<Copy>, marks: seq<Mark>, found: Disk,
                            accepted: seq<Item>, fates: seq<Fate>, effects: seq<Effect>)
  {
    && |copies| == |marks| && |fates| <= |accepted|
    && forall c | 0 <= c < |copies| :: CopyExplained(copies[c], marks[c], found, accepted, fates, effects)
  }

  ghost predicate CopyExplained(copy: Copy, mark: Mark, found: Disk,
                                accepted: seq<Item>, fates: seq<Fate>, effects: seq<Effect>)
    requires |fates| <= |accepted|
  {
    && mark.at < mark.upTo <= |fates| && mark.steps <= |effects| && mark.lacks <= |Joined(found.wal)| + mark.steps
    && accepted[mark.at] == Backup(copy.request)
    && copy.content == Held(found, effects[..mark.steps], mark.lacks)
    && (mark.lacks == 0 <==> mark.waiting <= mark.moved)
    && Writes(effects[..mark.steps]) == CommittedItems(accepted[..mark.upTo], fates[..mark.upTo])
  }

  ghost predicate HasPrune(items: seq<Item>) {
    exists i <- items :: i.Prune?
  }

  /** Later history leaves earlier copies explained. */
  lemma StillExplained(copies: seq<Copy>, marks: seq<Mark>, found: Disk,
                       accepted: seq<Item>, fates: seq<Fate>, effects: seq<Effect>,
                       accepted': seq<Item>, fates': seq<Fate>, effects': seq<Effect>)
    requires Explained(copies, marks, found, accepted, fates, effects)
    requires accepted <= accepted' && fates <= fates' && effects <= effects' && |fates'| <= |accepted'|
    ensures Explained(copies, marks, found, accepted', fates', effects')
  {
    forall c | 0 <= c < |copies|
      ensures CopyExplained(copies[c], marks[c], found, accepted', fates', effects')
    {
      assert CopyExplained(copies[c], marks[c], found, accepted, fates, effects);
      assert effects'[..marks[c].steps] == effects[..marks[c].steps];
      assert accepted'[..marks[c].upTo] == accepted[..marks[c].upTo];
      assert fates'[..marks[c].upTo] == fates[..marks[c].upTo];
    }
  }

  /** Before each sentinel, `before` items and those in the queue ahead of it reach the stop mark. */
  ghost predicate SentinelsBehind(queue: seq<Option<Item>>, before: nat, stop: bool, stopMark: nat) {
    forall p | 0 <= p < |queue| && queue[p].None? :: stop && stopMark <= before + |Items(queue[..p])|
  }

  lemma SentinelsBehindAppend(queue: seq<Option<Item>>, x: Option<Item>, before: nat, stop: bool, stopMark: nat)
    requires SentinelsBehind(queue, before, stop, stopMark)
    requires x.None? ==> stop && stopMark <= before + |Items(queue)|
    ensures SentinelsBehind(queue + [x], before, stop, stopMark)
  {
    forall p | 0 <= p < |queue + [x]| && (queue + [x])[p].None?
      ensures stop && stopMark <= before + |Items((queue + [x])[..p])|
    {
      assert (queue + [x])[..p] == queue[..p];
      if p == |queue| { assert queue[..p] == queue; }
    }
  }

  lemma SentinelsBehindPop(queue: seq<Option<Item>>, before: nat, stop: bool, stopMark: nat)
    requires SentinelsBehind(queue, before, stop, stopMark) && queue != [] && queue[0].Some?
    ensures SentinelsBehind(queue[1..], before + 1, stop, stopMark)
    ensures Items(queue) == [queue[0].value] + Items(queue[1..])
  {
    ItemsAppend([queue[0]], queue[1..]);
    assert queue == [queue[0]] + queue[1..];
    forall p | 0 <= p < |queue[1..]| && queue[1..][p].None?
      ensures stop && stopMark <= before + 1 + |Items(queue[1..][..p])|
    {
      assert queue[p + 1].None?;
      assert queue[..p + 1] == [queue[0]] + queue[1..][..p];
      ItemsAppend([queue[0]], queue[1..][..p]);
    }
  }

  lemma HistoryExtended(initial: Database, db: Database, accepted: seq<Item>, item: Item,
                        fates: seq<Fate>, effects: seq<Effect>)
    requires Stored(initial, db, accepted, fates, effects)
    ensures Stored(initial, db, accepted + [item], fates, effects)
  {
    assert (accepted + [item])[..|fates|] == accepted[..|fates|];
  }

  lemma AccountsExtended(accepted: seq<Item>, item: Item, fates: seq<Fate>, failed: nat, badBegins: nat)
    requires Accounts(accepted, fates, failed, badBegins)
    ensures Accounts(accepted + [item], fates, failed, badBegins)
    ensures DataCount(accepted + [item]) == DataCount(accepted) + if item.IsData() then 1 else 0
  {
    assert (accepted + [item])[..|fates|] == accepted[..|fates|];
    assert (accepted + [item])[..|accepted|] == accepted;
  }

  lemma QueueExtended(accepted: seq<Item>, settled: nat, batch: seq<Item>, queue: seq<Option<Item>>, item: Item)
    requires settled <= |accepted| && accepted[settled..] == batch + Items(queue)
    ensures (accepted + [item])[settled..] == batch + Items(queue + [Some(item)])
  {
    assert (queue + [Some(item)])[..|queue|] == queue;
    assert (accepted + [item])[settled..] == accepted[settled..] + [item];
  }

  /** Some items wait in the queue or the batch; everything before them has met its fate. */
  ghost predicate InOrder(s: State, h: History) {
    && |h.fates| <= |h.accepted|
    && h.accepted[|h.fates|..] == s.batch + Items(s.queue)
    && |s.queue| <= CAPACITY
    && |s.batch| <= BATCH_LIMIT
  }

  ghost predicate Stopping(s: State, h: History) {
    && (s.stop ==> h.stopMark <= |h.accepted|)
    && SentinelsBehind(s.queue, |h.fates| + |s.batch|, s.stop, h.stopMark)
    && (!s.running ==> s.stop && s.batch == [] && h.stopMark <= |h.fates|)
  }

  // ---------------------------------------------------------------------------------------
  // The invariant
  // ---------------------------------------------------------------------------------------

  ghost predicate Inv(s: State, h: History) {
    && InOrder(s, h)
    && Accounts(h.accepted, h.fates, s.failed, h.badBegins)
    && Stored(h.Opened(), s.db, h.accepted, h.fates, h.effects)
    && Logged(h.found, s.disk, h.effects)
    && Explained(s.copies, h.marks, h.found, h.accepted, h.fates, h.effects)
    && h.offered == h.droppedData + DataCount(h.accepted)
    && h.droppedData <= s.dropped
    && Stopping(s, h)
  }

  lemma EnqueueKeepsInv(s: State, h: History, item: Item)
    requires Inv(s, h) && |s.queue| < CAPACITY
    ensures Inv(s.(queue := s.queue + [Some(item)]), h.Took(item))
  {
    HistoryExtended(h.Opened(), s.db, h.accepted, item, h.fates, h.effects);
    AccountsExtended(h.accepted, item, h.fates, s.failed, h.badBegins);
    StillExplained(s.copies, h.marks, h.found, h.accepted, h.fates, h.effects,
                   h.accepted + [item], h.fates, h.effects);
    EnqueueInOrder(s, h, item);
  }

  lemma EnqueueInOrder(s: State, h: History, item: Item)
    requires InOrder(s, h) && Stopping(s, h) && |s.queue| < CAPACITY
    ensures InOrder(s.(queue := s.queue + [Some(item)]), h.Took(item))
    ensures Stopping(s.(queue := s.queue + [Some(item)]), h.Took(item))
  {
    QueueExtended(h.accepted, |h.fates|, s.batch, s.queue, item);
    SentinelsBehindAppend(s.queue, Some(item), |h.fates| + |s.batch|, s.stop, h.stopMark);
  }

  lemma DropKeepsInv(s: State, h: History, item: Item)
    requires Inv(s, h)
    ensures Inv(s.(dropped := s.dropped + 1), h.TurnedAway(item))
  {
  }

  // ---------------------------------------------------------------------------------------
  // A flush
  // ---------------------------------------------------------------------------------------

  lemma FatesMatch(batch: seq<Item>, plan: FlushPlan)
    ensures Matches(batch, FatesOf(batch, plan))
    ensures Vanished in FatesOf(batch, plan) <==> HasData(batch) && !plan.begins
  {
    var fates := FatesOf(batch, plan);
    if HasData(batch) && !plan.begins {
      var k :| 0 <= k < |batch| && batch[k].IsData();
      assert fates[k] == Vanished;
    }
  }

  /** The batch leaves the waiting line for the settled one. */
  lemma SettleSplit(h: History, batch: seq<Item>, rest: seq<Item>)
    requires |h.fates| <= |h.accepted| && h.accepted[|h.fates|..] == batch + rest
    ensures |h.fates| + |batch| <= |h.accepted|
    ensures h.accepted[..|h.fates| + |batch|] == h.accepted[..|h.fates|] + batch
    ensures h.accepted[|h.fates| + |batch|..] == rest
  {
    var n := |h.fates|;
    assert |h.accepted[n..]| == |h.accepted| - n;
    assert h.accepted == h.accepted[..n] + batch + rest;
  }

  lemma SettleAccounts(h: History, batch: seq<Item>, rest: seq<Item>, plan: FlushPlan, failed: nat)
    requires Accounts(h.accepted, h.fates, failed, h.badBegins)
    requires h.accepted[|h.fates|..] == batch + rest
    ensures var h' := Settled(h, batch, plan);
            Accounts(h'.accepted, h'.fates, failed + Count(FatesOf(batch, plan), FailedWrite), h'.badBegins)
  {
    var fates := FatesOf(batch, plan);
    SettleSplit(h, batch, rest);
    FatesMatch(batch, plan);
    CountAppend(h.fates, fates, FailedWrite);
    var taken := h.accepted[..|h.fates| + |batch|];
    forall k | 0 <= k < |taken| ensures taken[k].IsData() <==> (h.fates + fates)[k] != Maintained {
      if k < |h.fates| {
        assert taken[k] == h.accepted[..|h.fates|][k];
      } else {
        assert taken[k] == batch[k - |h.fates|];
      }
    }
  }

  lemma SettleStored(h: History, batch: seq<Item>, rest: seq<Item>, plan: FlushPlan, db: Database)
    requires Stored(h.Opened(), db, h.accepted, h.fates, h.effects)
    requires h.accepted[|h.fates|..] == batch + rest
    ensures var h' := Settled(h, batch, plan);
            Stored(h.Opened(), WriteAll(db, CommittedItems(batch, FatesOf(batch, plan))),
                   h'.accepted, h'.fates, h'.effects)
  {
    var fates := FatesOf(batch, plan);
    SettleSplit(h, batch, rest);
    assert h.accepted[..|h.fates|][..|h.fates|] == h.accepted[..|h.fates|];
    StoredAppend(h.Opened(), db, h.accepted[..|h.fates|], h.fates, h.effects, batch, fates);
    var all := h.accepted[..|h.fates|] + batch;
    assert all[..|h.fates + fates|] == all == h.accepted[..|h.fates + fates|];
  }

  lemma StoredAppend(initial: Database, db: Database, items: seq<Item>, fates: seq<Fate>, effects: seq<Effect>,
                     more: seq<Item>, moreFates: seq<Fate>)
    requires |items| == |fates| && |more| == |moreFates|
    requires Stored(initial, db, items, fates, effects)
    ensures Stored(initial, WriteAll(db, CommittedItems(more, moreFates)), items + more, fates + moreFates,
                   effects + AllWrote(CommittedItems(more, moreFates)))
  {
    var written := CommittedItems(more, moreFates);
    assert items[..|fates|] == items && (items + more)[..|fates + moreFates|] == items + more;
    CommittedItemsAppend(items, fates, more, moreFates);
    ReplayAppend(initial, effects, AllWrote(written));
    ReplayAllWrote(db, written);
    if HasPrune(items) {
      var i :| i in items && i.Prune?;
      assert i in items + more;
    }
  }

  lemma {:induction false} DiskAfterLogged(h: History, items: seq<Item>, plan: FlushPlan, disk: Disk)
    requires Logged(h.found, disk, h.effects)
    ensures Logged(h.found, DiskAfter(items, plan, disk), h.effects)
  {
    if items != [] {
      var n := |items| - 1;
      DiskAfterLogged(h, items[..n], plan, disk);
      LoggedCheckpointed(h.found, DiskAfter(items[..n], plan, disk), h.effects, plan.moved(n));
    }
  }

  lemma {:induction false} DiskPrunedLogged(found: Disk, effects: seq<Effect>, more: seq<Effect>, disk: Disk)
    requires Logged(found, disk, effects)
    ensures Logged(found, DiskPruned(more, disk), effects + more)
  {
    if more == [] {
      assert effects + more == effects;
    } else {
      var n := |more| - 1;
      DiskPrunedLogged(found, effects, more[..n], disk);
      LoggedCommitted(found, DiskPruned(more[..n], disk), effects + more[..n], [more[n]]);
      assert effects + more[..n] + [more[n]] == effects + more;
    }
  }

  lemma ExplainedAppend(a: seq<Copy>, ma: seq<Mark>, b: seq<Copy>, mb: seq<Mark>, found: Disk,
                        accepted: seq<Item>, fates: seq<Fate>, effects: seq<Effect>)
    requires Explained(a, ma, found, accepted, fates, effects)
    requires Explained(b, mb, found, accepted, fates, effects)
    ensures Explained(a + b, ma + mb, found, accepted, fates, effects)
  {
    forall c | 0 <= c < |a + b| ensures CopyExplained((a + b)[c], (ma + mb)[c], found, accepted, fates, effects) {
      if c < |a| {
        assert CopyExplained(a[c], ma[c], found, accepted, fates, effects);
      } else {
        assert CopyExplained(b[c - |a|], mb[c - |a|], found, accepted, fates, effects);
      }
    }
  }

  /** One more backup of a batch. */
  lemma NextCopyExplained(h: History, items: seq<Item>, plan: FlushPlan, base: nat, disk: Disk)
    requires |h.fates| <= |h.accepted| && Writes(h.effects) == CommittedItems(h.accepted[..|h.fates|], h.fates)
    requires Logged(h.found, disk, h.effects)
    requires items != [] && base + |items| <= |h.fates| && items[|items| - 1] == h.accepted[base + |items| - 1]
    requires items[|items| - 1].Backup? && plan.backupWorks(|items| - 1)
    requires var n := |items| - 1;
             Explained(NewCopies(items[..n], plan, disk),
                       NewMarks(items[..n], plan, base, |h.fates|, |h.effects|, disk),
                       h.found, h.accepted, h.fates, h.effects)
    ensures Explained(NewCopies(items, plan, disk), NewMarks(items, plan, base, |h.fates|, |h.effects|, disk),
                      h.found, h.accepted, h.fates, h.effects)
  {
    var n := |items| - 1;
    var before := DiskAfter(items[..n], plan, disk);
    DiskAfterLogged(h, items[..n], plan, disk);
    CopyExplainedNow(h, base + n, before, plan.moved(n));
    ExplainedSnoc(NewCopies(items[..n], plan, disk), NewMarks(items[..n], plan, base, |h.fates|, |h.effects|, disk),
                  CopyNow(h, base + n, before, plan.moved(n)), MarkNow(h, base + n, before, plan.moved(n)),
                  h.found, h.accepted, h.fates, h.effects);
  }

  /** New copies hold what has been written back by then, with every item settled so far accounted for. */
  lemma {:induction false} CopiesExplained(h: History, items: seq<Item>, plan: FlushPlan, base: nat, disk: Disk)
    requires |h.fates| <= |h.accepted| && Writes(h.effects) == CommittedItems(h.accepted[..|h.fates|], h.fates)
    requires Logged(h.found, disk, h.effects)
    requires base + |items| <= |h.fates| && items == h.accepted[base..base + |items|]
    ensures Explained(NewCopies(items, plan, disk), NewMarks(items, plan, base, |h.fates|, |h.effects|, disk),
                      h.found, h.accepted, h.fates, h.effects)
  {
    if items != [] {
      var n := |items| - 1;
      assert items[..n] == h.accepted[base..base + n] && items[n] == h.accepted[base + n];
      CopiesExplained(h, items[..n], plan, base, disk);
      if items[n].Backup? && plan.backupWorks(n) { NextCopyExplained(h, items, plan, base, disk); }
    }
  }

  lemma ExplainedSnoc(a: seq<Copy>, ma: seq<Mark>, copy: Copy, mark: Mark, found: Disk,
                      accepted: seq<Item>, fates: seq<Fate>, effects: seq<Effect>)
    requires Explained(a, ma, found, accepted, fates, effects)
    requires CopyExplained(copy, mark, found, accepted, fates, effects)
    ensures Explained(a + [copy], ma + [mark], found, accepted, fates, effects)
  {
    ExplainedAppend(a, ma, [copy], [mark], found, accepted, fates, effects);
  }

  function CopyNow(h: History, at: nat, before: Disk, moved: nat): Copy
    requires at < |h.accepted| && h.accepted[at].Backup?
  {
    Copy(h.accepted[at].request, before.Checkpointed(moved).main)
  }

  function MarkNow(h: History, at: nat, before: Disk, moved: nat): Mark {
    Mark(at, |h.fates|, |h.effects|, Unwritten(before.Checkpointed(moved)), |before.wal|, moved)
  }

  lemma CopyExplainedNow(h: History, at: nat, before: Disk, moved: nat)
    requires |h.fates| <= |h.accepted| && Writes(h.effects) == CommittedItems(h.accepted[..|h.fates|], h.fates)
    requires Logged(h.found, before, h.effects)
    requires at < |h.fates| && h.accepted[at].Backup?
    ensures CopyExplained(CopyNow(h, at, before, moved), MarkNow(h, at, before, moved),
                          h.found, h.accepted, h.fates, h.effects)
  {
    LoggedCheckpointed(h.found, before, h.effects, moved);
    LoggedIsHeld(h.found, before.Checkpointed(moved), h.effects);
    WholePrefix(h.effects);
    WholePrefix(h.fates);
  }

  lemma {:induction false} PruneEffectsOnlyPrune(items: seq<Item>, plan: FlushPlan)
    ensures Writes(PruneEffects(items, plan)) == []
    ensures PruneEffects(items, plan) == [] || HasPrune(items)
  {
    if items != [] {
      var n := |items| - 1;
      PruneEffectsOnlyPrune(items[..n], plan);
      var e := PruneEffects(items[..n], plan);
      if items[n].Prune? && plan.pruneWorks(n) {
        assert (e + [Pruned(plan.cutoff(n))])[..|e|] == e;
        assert items[n] in items;
      } else {
        assert e + [] == e;
        if HasPrune(items[..n]) {
          var i :| i in items[..n] && i.Prune?;
          assert i in items;
        }
      }
    }
  }

  lemma PrunesStored(h: History, db: Database, items: seq<Item>, plan: FlushPlan, base: nat)
    requires Stored(h.Opened(), db, h.accepted, h.fates, h.effects)
    requires base + |items| <= |h.fates| && items == h.accepted[base..base + |items|]
    ensures Stored(h.Opened(), Replay(db, PruneEffects(items, plan)), h.accepted, h.fates,
                   h.effects + PruneEffects(items, plan))
  {
    var e := PruneEffects(items, plan);
    PruneEffectsOnlyPrune(items, plan);
    ReplayAppend(h.Opened(), h.effects, e);
    assert Writes(h.effects) + [] == Writes(h.effects);
    if HasPrune(items) {
      var i :| 0 <= i < |items| && items[i].Prune?;
      assert h.accepted[..|h.fates|][base + i] == items[i];
    }
    if e == [] {
      assert h.effects + e == h.effects;
    }
  }

  /** A whole flush keeps the invariant. */
  lemma FlushKeepsInv(s: State, h: History, plan: FlushPlan)
    requires Inv(s, h)
    ensures Inv(Flushed(s, plan), Recorded(h, s.batch, plan, s.disk))
  {
    FlushInOrder(s, h, plan);
    SettleAccounts(h, s.batch, Items(s.queue), plan, s.failed);
    FlushStored(s, h, plan);
    FlushExplained(s, h, plan);
    FlushLogged(s, h, plan);
  }

  lemma FlushLogged(s: State, h: History, plan: FlushPlan)
    requires Logged(h.found, s.disk, h.effects)
    ensures var s', h' := Flushed(s, plan), Recorded(h, s.batch, plan, s.disk);
            Logged(h'.found, s'.disk, h'.effects)
  {
    var written := AllWrote(CommittedItems(s.batch, FatesOf(s.batch, plan)));
    var h1 := Settled(h, s.batch, plan);
    LoggedCommitted(h.found, s.disk, h.effects, written);
    DiskAfterLogged(h1, s.batch, plan, s.disk.Committed(written));
    DiskPrunedLogged(h.found, h1.effects, PruneEffects(s.batch, plan),
                     DiskAfter(s.batch, plan, s.disk.Committed(written)));
  }

  lemma FlushInOrder(s: State, h: History, plan: FlushPlan)
    requires InOrder(s, h) && Stopping(s, h)
    ensures var s', h' := Flushed(s, plan), Recorded(h, s.batch, plan, s.disk);
            InOrder(s', h') && Stopping(s', h')
  {
    SettleSplit(h, s.batch, Items(s.queue));
  }

  lemma FlushStored(s: State, h: History, plan: FlushPlan)
    requires Stored(h.Opened(), s.db, h.accepted, h.fates, h.effects)
    requires h.accepted[|h.fates|..] == s.batch + Items(s.queue)
    ensures var s', h' := Flushed(s, plan), Recorded(h, s.batch, plan, s.disk);
            Stored(h'.Opened(), s'.db, h'.accepted, h'.fates, h'.effects)
  {
    var h1 := Settled(h, s.batch, plan);
    SettleSplit(h, s.batch, Items(s.queue));
    SettleStored(h, s.batch, Items(s.queue), plan, s.db);
    assert h1.accepted[|h.fates|..|h.fates| + |s.batch|] == s.batch;
    PrunesStored(h1, WriteAll(s.db, CommittedItems(s.batch, FatesOf(s.batch, plan))), s.batch, plan, |h.fates|);
  }

  /** The history once the backups are taken and before the prunes run. */
  ghost function BackedUp(h: History, batch: seq<Item>, plan: FlushPlan, disk: Disk): History {
    Recorded(h, batch, plan, disk).(effects := Settled(h, batch, plan).effects)
  }

  ghost function NewWork(s: State, plan: FlushPlan): Disk {
    s.disk.Committed(AllWrote(CommittedItems(s.batch, FatesOf(s.batch, plan))))
  }

  lemma SettledFacts(s: State, h: History, plan: FlushPlan)
    requires Stored(h.Opened(), s.db, h.accepted, h.fates, h.effects)
    requires h.accepted[|h.fates|..] == s.batch + Items(s.queue)
    ensures var h1 := Settled(h, s.batch, plan);
            && |h.fates| + |s.batch| == |h1.fates| <= |h1.accepted|
            && s.batch == h1.accepted[|h.fates|..|h.fates| + |s.batch|]
            && Writes(h1.effects) == CommittedItems(h1.accepted[..|h1.fates|], h1.fates)
  {
    SettleSplit(h, s.batch, Items(s.queue));
    SettleStored(h, s.batch, Items(s.queue), plan, s.db);
    assert h.accepted[|h.fates|..|h.fates| + |s.batch|] == s.batch;
  }

  lemma NewBackupsExplained(s: State, h: History, plan: FlushPlan)
    requires Stored(h.Opened(), s.db, h.accepted, h.fates, h.effects) && Logged(h.found, s.disk, h.effects)
    requires h.accepted[|h.fates|..] == s.batch + Items(s.queue)
    ensures var h1 := Settled(h, s.batch, plan);
            Explained(NewCopies(s.batch, plan, NewWork(s, plan)),
                      NewMarks(s.batch, plan, |h.fates|, |h1.fates|, |h1.effects|, NewWork(s, plan)),
                      h1.found, h1.accepted, h1.fates, h1.effects)
  {
    var h1 := Settled(h, s.batch, plan);
    SettledFacts(s, h, plan);
    NewWorkLogged(s, h, plan);
    CopiesExplained(h1, s.batch, plan, |h.fates|, NewWork(s, plan));
  }

  lemma NewWorkLogged(s: State, h: History, plan: FlushPlan)
    requires Logged(h.found, s.disk, h.effects)
    ensures Logged(h.found, NewWork(s, plan), Settled(h, s.batch, plan).effects)
  {
    LoggedCommitted(h.found, s.disk, h.effects, AllWrote(CommittedItems(s.batch, FatesOf(s.batch, plan))));
  }

  lemma BackupsExplained(s: State, h: History, plan: FlushPlan)
    requires Explained(s.copies, h.marks, h.found, h.accepted, h.fates, h.effects)
    requires Stored(h.Opened(), s.db, h.accepted, h.fates, h.effects) && Logged(h.found, s.disk, h.effects)
    requires h.accepted[|h.fates|..] == s.batch + Items(s.queue)
    ensures var s', h' := Flushed(s, plan), BackedUp(h, s.batch, plan, s.disk);
            Explained(s'.copies, h'.marks, h'.found, h'.accepted, h'.fates, h'.effects)
  {
    var h1 := Settled(h, s.batch, plan);
    SettleSplit(h, s.batch, Items(s.queue));
    StillExplained(s.copies, h.marks, h.found, h.accepted, h.fates, h.effects,
                   h1.accepted, h1.fates, h1.effects);
    NewBackupsExplained(s, h, plan);
    ExplainedAppend(s.copies, h.marks, NewCopies(s.batch, plan, NewWork(s, plan)),
                    NewMarks(s.batch, plan, |h.fates|, |h1.fates|, |h1.effects|, NewWork(s, plan)),
                    h.found, h1.accepted, h1.fates, h1.effects);
  }

  lemma FlushExplained(s: State, h: History, plan: FlushPlan)
    requires Explained(s.copies, h.marks, h.found, h.accepted, h.fates, h.effects)
    requires Stored(h.Opened(), s.db, h.accepted, h.fates, h.effects) && Logged(h.found, s.disk, h.effects)
    requires h.accepted[|h.fates|..] == s.batch + Items(s.queue)
    ensures var s', h' := Flushed(s, plan), Recorded(h, s.batch, plan, s.disk);
            Explained(s'.copies, h'.marks, h'.found, h'.accepted, h'.fates, h'.effects)
  {
    var h1, h2 := BackedUp(h, s.batch, plan, s.disk), Recorded(h, s.batch, plan, s.disk);
    BackupsExplained(s, h, plan);
    StillExplained(Flushed(s, plan).copies, h2.marks, h.found, h1.accepted, h1.fates, h1.effects,
                   h2.accepted, h2.fates, h2.effects);
  }

  // ---------------------------------------------------------------------------------------
  // A turn of the writer
  // ---------------------------------------------------------------------------------------

  lemma RecordedNothing(h: History, plan: FlushPlan, disk: Disk)
    ensures Recorded(h, [], plan, disk) == h
  {
    assert FatesOf([], plan) == [] && AllWrote([]) == [];
    assert h.fates + [] == h.fates && h.effects + [] == h.effects && h.marks + [] == h.marks;
  }

  /** A turn of the writer keeps the invariant, and leaves room in the batch. */
  lemma IdleTurnKeepsInv(s: State, h: History, plan: FlushPlan)
    requires Inv(s, h) && s.running && s.queue == []
    ensures Inv(AfterTurn(s, plan), RecordTurn(s, h, plan)) && |AfterTurn(s, plan).batch| < BATCH_LIMIT
  {
    FlushKeepsInv(s, h, plan);
    RecordedNothing(h, plan, s.disk);
    if s.stop { LeavingKeepsInv(s, h, plan); }
  }

  lemma SentinelTurnKeepsInv(s: State, h: History, plan: FlushPlan)
    requires Inv(s, h) && s.running && s.queue != [] && s.queue[0].None?
    ensures Inv(AfterTurn(s, plan), RecordTurn(s, h, plan)) && |AfterTurn(s, plan).batch| < BATCH_LIMIT
  {
    var dropped := s.(queue := s.queue[1..]);
    DropSentinelKeepsInv(s, h);
    FlushKeepsInv(dropped, h, plan);
    RecordedNothing(h, plan, s.disk);
    LeavingKeepsInv(dropped, h, plan);
  }

  ghost function Taken(s: State): State
    requires s.queue != [] && s.queue[0].Some?
  {
    s.(queue := s.queue[1..], batch := s.batch + [s.queue[0].value])
  }

  lemma FullTurn(s: State, h: History, plan: FlushPlan)
    requires s.queue != [] && s.queue[0].Some? && |s.batch| + 1 >= BATCH_LIMIT
    ensures AfterTurn(s, plan) == Flushed(Taken(s), plan)
    ensures RecordTurn(s, h, plan) == Recorded(h, Taken(s).batch, plan, s.disk)
  {}

  lemma TakingTurnKeepsInv(s: State, h: History, plan: FlushPlan)
    requires Inv(s, h) && s.running && |s.batch| < BATCH_LIMIT && s.queue != [] && s.queue[0].Some?
    ensures Inv(AfterTurn(s, plan), RecordTurn(s, h, plan)) && |AfterTurn(s, plan).batch| < BATCH_LIMIT
  {
    TakeKeepsInv(s, h);
    if |s.batch| + 1 >= BATCH_LIMIT {
      FlushKeepsInv(Taken(s), h, plan);
      FullTurn(s, h, plan);
    }
  }

  lemma TurnKeepsInv(s: State, h: History, plan: FlushPlan)
    requires Inv(s, h) && s.running && |s.batch| < BATCH_LIMIT
    ensures Inv(AfterTurn(s, plan), RecordTurn(s, h, plan)) && |AfterTurn(s, plan).batch| < BATCH_LIMIT
  {
    if s.queue == [] {
      IdleTurnKeepsInv(s, h, plan);
    } else if s.queue[0].None? {
      SentinelTurnKeepsInv(s, h, plan);
    } else {
      TakingTurnKeepsInv(s, h, plan);
    }
  }

  lemma LeavingKeepsInv(s: State, h: History, plan: FlushPlan)
    requires Inv(Flushed(s, plan), Recorded(h, s.batch, plan, s.disk))
    requires s.stop && h.stopMark <= |h.fates| + |s.batch|
    ensures Inv(Flushed(s, plan).(running := false), Recorded(h, s.batch, plan, s.disk))
  {
  }

  /** The writer takes an item. */
  lemma TakeKeepsInv(s: State, h: History)
    requires Inv(s, h) && s.running && s.queue != [] && s.queue[0].Some? && |s.batch| < BATCH_LIMIT
    ensures Inv(Taken(s), h)
  {
    SentinelsBehindPop(s.queue, |h.fates| + |s.batch|, s.stop, h.stopMark);
    assert s.batch + [s.queue[0].value] + Items(s.queue[1..]) == s.batch + Items(s.queue);
  }

  /** The writer takes the sentinel: everything the stop had to wait for is behind it or in hand. */
  lemma DropSentinelKeepsInv(s: State, h: History)
    requires Inv(s, h) && s.queue != [] && s.queue[0].None?
    ensures Inv(s.(queue := s.queue[1..]), h)
    ensures s.stop && h.stopMark <= |h.fates| + |s.batch|
  {
    SentinelsBehindDrop(s.queue, |h.fates| + |s.batch|, s.stop, h.stopMark);
    assert s.queue[..0] == [];
  }

  lemma SentinelKeepsInv(s: State, h: History)
    requires Inv(s, h) && s.stop && |s.queue| < CAPACITY
    ensures Inv(s.(queue := s.queue + [None]), h)
  {
    ItemsAppend(s.queue, [None]);
    assert Items([None]) == [];
    assert Items(s.queue) + [] == Items(s.queue);
    assert |h.accepted[|h.fates|..]| == |h.accepted| - |h.fates|;
    SentinelsBehindAppend(s.queue, None, |h.fates| + |s.batch|, s.stop, h.stopMark);
  }

  // ---------------------------------------------------------------------------------------
  // Whole runs
  // ---------------------------------------------------------------------------------------

  lemma NextKeepsInv(s: State, h: History, e: Event)
    requires Inv(s, h) && |s.batch| < BATCH_LIMIT
    ensures Inv(Next(s, e), Record(s, h, e)) && |Next(s, e).batch| < BATCH_LIMIT
  {
    match e
    case Offer(item) => if |s.queue| < CAPACITY { EnqueueKeepsInv(s, h, item); } else { DropKeepsInv(s, h, item); }
    case Stop => StopKeepsInv(s, h);
    case Sentinel => if SentinelFits(s) { SentinelKeepsInv(s, h); }
    case Turn(plan) => if s.running { TurnKeepsInv(s, h, plan); }
    case Checkpoint(moved) => LoggedCheckpointed(h.found, s.disk, h.effects, moved);
  }

  lemma StopKeepsInv(s: State, h: History)
    requires Inv(s, h)
    ensures Inv(s.(stop := true), if s.stop then h else h.(stopMark := |h.accepted|))
  {
  }

  /** The writer flushes when it has taken its hundredth item, and not before. */
  lemma TakesHundred(s: State, plan: FlushPlan)
    requires s.running && s.queue != [] && s.queue[0].Some?
    ensures AfterTurn(s, plan) == if |s.batch| < 99 then Taken(s) else Flushed(Taken(s), plan)
    ensures Taken(s).queue == s.queue[1..] && Taken(s).batch == s.batch + [s.queue[0].value]
  {}

  /** The invariant holds after every run. */
  lemma {:induction false} RunKeepsInv(found: Disk, events: seq<Event>)
    ensures var r := Run(found, events); Inv(r.0, r.1) && |r.0.batch| < 100 && |r.0.queue| <= 10_000
  {
    if events == [] {
      FoundIsLogged(found);
    } else {
      RunKeepsInv(found, events[..|events| - 1]);
      var r := Run(found, events[..|events| - 1]);
      NextKeepsInv(r.0, r.1, events[|events| - 1]);
    }
  }

  /**
   Every data item offered is counted exactly once: turned away, committed, failed, still in the
   queue or in the writer's hands -- or vanished, which takes a BEGIN that failed on a batch with data.
   */
  lemma EveryItemAccounted(found: Disk, events: seq<Event>)
    ensures var (s, h) := Run(found, events);
            && h.offered == h.droppedData + Count(h.fates, Committed) + s.failed + Count(h.fates, Vanished)
                            + DataCount(s.batch) + DataCount(Items(s.queue))
            && (Count(h.fates, Vanished) == 0 <==> h.badBegins == 0)
            && h.droppedData <= s.dropped
  {
    RunKeepsInv(found, events);
    var (s, h) := Run(found, events);
    OfferedCounted(s, h);
  }

  lemma OfferedCounted(s: State, h: History)
    requires InOrder(s, h) && Accounts(h.accepted, h.fates, s.failed, h.badBegins)
    requires h.offered == h.droppedData + DataCount(h.accepted)
    ensures h.offered == h.droppedData + Count(h.fates, Committed) + s.failed + Count(h.fates, Vanished)
                         + DataCount(s.batch) + DataCount(Items(s.queue))
    ensures Count(h.fates, Vanished) == 0 <==> h.badBegins == 0
  {
    DataCountAppend(h.accepted[..|h.fates|], h.accepted[|h.fates|..]);
    assert h.accepted == h.accepted[..|h.fates|] + h.accepted[|h.fates|..];
    DataCountAppend(s.batch, Items(s.queue));
    DataHasOneFate(h.accepted[..|h.fates|], h.fates);
    CountZeroIffAbsent(h.fates, Vanished);
  }

  /**
   Batching is invisible: without prunes the database is the fold, in queue order, of exactly the
   items that were committed; items that failed leave no trace.
   */
  lemma BatchingInvisible(found: Disk, events: seq<Event>)
    ensures var (s, h) := Run(found, events);
            && |h.fates| <= |h.accepted|
            && (!HasPrune(h.accepted[..|h.fates|]) ==>
                  s.db == WriteAll(found.Content(), CommittedItems(h.accepted[..|h.fates|], h.fates)))
  {
    RunKeepsInv(found, events);
    RunKeepsFound(found, events);
    var (s, h) := Run(found, events);
    if !HasPrune(h.accepted[..|h.fates|]) {
      ReplayWithoutPrunes(found.Content(), h.effects);
    }
  }

  lemma {:induction false} RunKeepsFound(found: Disk, events: seq<Event>)
    ensures Run(found, events).1.found == found
  {
    if events != [] { RunKeepsFound(found, events[..|events| - 1]); }
  }

  /**
   With prunes, wherever the batches were cut: nodes, messages, sessions and settings are still that
   fold, and the history tables hold no row beyond it.
   */
  lemma PrunesTouchHistoryOnly(found: Disk, events: seq<Event>)
    ensures var (s, h) := Run(found, events);
            && |h.fates| <= |h.accepted|
            && var fold := WriteAll(found.Content(), CommittedItems(h.accepted[..|h.fates|], h.fates));
               SameProtected(s.db, fold) && HistoryWithin(s.db, fold)
  {
    RunKeepsInv(found, events);
    RunKeepsFound(found, events);
    PrunesOnlyTrimHistory(found.Content(), Run(found, events).1.effects);
  }

  /**
   What a backup holds: everything committed by then -- which includes every committed item queued before
   its request -- but the transactions still in the log. It lacks none exactly when its checkpoint was let
   write back as many as were waiting.
   */
  lemma BackupCompleteIff(found: Disk, events: seq<Event>, c: nat)
    requires c < |Run(found, events).0.copies|
    ensures var (s, h) := Run(found, events);
            && c < |h.marks|
            && var mark := h.marks[c];
               && mark.at < mark.upTo <= |h.fates| <= |h.accepted| && mark.steps <= |h.effects|
               && mark.lacks <= |Joined(found.wal)| + mark.steps
               && h.accepted[mark.at] == Backup(s.copies[c].request)
               && s.copies[c].content == Held(found, h.effects[..mark.steps], mark.lacks)
               && Writes(h.effects[..mark.steps]) == CommittedItems(h.accepted[..mark.upTo], h.fates[..mark.upTo])
               && (mark.lacks == 0 <==> mark.waiting <= mark.moved)
  {
    RunKeepsInv(found, events);
    RunKeepsFound(found, events);
    var (s, h) := Run(found, events);
    assert CopyExplained(s.copies[c], h.marks[c], h.found, h.accepted, h.fates, h.effects);
  }

  /** A backup whose checkpoint went through holds every committed item queued before its request. */
  lemma BackupIsComplete(found: Disk, events: seq<Event>, c: nat)
    requires c < |Run(found, events).0.copies| && c < |Run(found, events).1.marks|
    requires var mark := Run(found, events).1.marks[c]; mark.waiting <= mark.moved
    ensures var (s, h) := Run(found, events);
            var mark := h.marks[c];
            && mark.at < mark.upTo <= |h.fates| <= |h.accepted|
            && h.accepted[mark.at] == Backup(s.copies[c].request)
            && var fold := WriteAll(found.Content(), CommittedItems(h.accepted[..mark.upTo], h.fates[..mark.upTo]));
               && SameProtected(s.copies[c].content, fold) && HistoryWithin(s.copies[c].content, fold)
               && (!HasPrune(h.accepted[..|h.fates|]) ==> s.copies[c].content == fold)
  {
    BackupCompleteIff(found, events, c);
    HeldAll(found, Run(found, events).1.effects[..Run(found, events).1.marks[c].steps]);
    RunKeepsInv(found, events);
    RunKeepsFound(found, events);
    var (s, h) := Run(found, events);
    var effects := h.effects[..h.marks[c].steps];
    PrunesOnlyTrimHistory(found.Content(), effects);
    if !HasPrune(h.accepted[..|h.fates|]) {
      ReplayWithoutPrunes(found.Content(), effects);
    }
  }

  /** Once the writer has left its loop, everything accepted before the stop has met its fate. */
  lemma ShutdownDrains(found: Disk, events: seq<Event>)
    ensures var (s, h) := Run(found, events);
            !s.running ==> s.batch == [] && h.stopMark <= |h.fates| <= |h.accepted|
  {
    RunKeepsInv(found, events);
  }

  lemma CheckpointKeepsContent(disk: Disk, moved: nat)
    ensures disk.Checkpointed(moved).Content() == disk.Content()
    ensures moved >= |disk.wal| ==> disk.Checkpointed(moved).main == disk.Content()
  {
    var k := if moved < |disk.wal| then moved else |disk.wal|;
    LogSplits(disk.wal, k);
    ReplayAppend(disk.main, Joined(disk.wal[..k]), Joined(disk.wal[k..]));
    if k == |disk.wal| { WholePrefix(disk.wal); }
  }

  lemma CommitKeepsContent(disk: Disk, items: seq<Item>)
    ensures disk.Committed(AllWrote(items)).Content() == WriteAll(disk.Content(), items)
    ensures |disk.Committed(AllWrote(items)).wal| <= |disk.wal| + 1
  {
    ReplayAllWrote(disk.Content(), items);
    if items != [] {
      JoinedSnoc(disk.wal, AllWrote(items));
      ReplayAppend(disk.main, Joined(disk.wal), AllWrote(items));
    }
  }

  lemma {:induction false} BackupsKeepContent(items: seq<Item>, plan: FlushPlan, disk: Disk)
    ensures var after := DiskAfter(items, plan, disk);
            after.Content() == disk.Content() && |after.wal| <= |disk.wal|
  {
    if items != [] {
      var n := |items| - 1;
      BackupsKeepContent(items[..n], plan, disk);
      CheckpointKeepsContent(DiskAfter(items[..n], plan, disk), plan.moved(n));
    }
  }

  lemma {:induction false} CopyIsTaken(items: seq<Item>, plan: FlushPlan, disk: Disk, k: nat)
    requires k < |items| && items[k].Backup? && plan.backupWorks(k)
    ensures Copy(items[k].request, DiskAfter(items[..k + 1], plan, disk).main) in NewCopies(items, plan, disk)
  {
    var n := |items| - 1;
    if k == n {
      WholePrefix(items);
    } else {
      CopyIsTaken(items[..n], plan, disk, k);
      assert items[..n][..k + 1] == items[..k + 1];
    }
  }

  /** A backup is taken between a batch's data and its prunes: a full checkpoint lets it hold the one, not the other. */
  lemma BackupBetween(s: State, plan: FlushPlan, k: nat)
    requires s.disk.Content() == s.db && k < |s.batch| && s.batch[k].Backup? && plan.backupWorks(k)
    requires plan.moved(k) > |s.disk.wal|
    ensures Copy(s.batch[k].request, WriteAll(s.db, CommittedItems(s.batch, FatesOf(s.batch, plan))))
            in Flushed(s, plan).copies
  {
    CommitKeepsContent(s.disk, CommittedItems(s.batch, FatesOf(s.batch, plan)));
    CopyIsTaken(s.batch, plan, NewWork(s, plan), k);
    FullCheckpoint(s.batch, plan, NewWork(s, plan), k);
    assert Flushed(s, plan).copies == s.copies + NewCopies(s.batch, plan, NewWork(s, plan));
  }

  lemma FullCheckpoint(items: seq<Item>, plan: FlushPlan, disk: Disk, k: nat)
    requires k < |items| && items[k].Backup? && plan.moved(k) >= |disk.wal|
    ensures DiskAfter(items[..k + 1], plan, disk).main == disk.Content()
  {
    assert items[..k + 1][..k] == items[..k];
    BackupsKeepContent(items[..k], plan, disk);
    CheckpointKeepsContent(DiskAfter(items[..k], plan, disk), plan.moved(k));
  }

  /** In every run what is kept on disk, log included, is the committed database. */
  lemma DiskHoldsDatabase(found: Disk, events: seq<Event>)
    ensures Run(found, events).0.disk.Content() == Run(found, events).0.db
  {
    RunKeepsInv(found, events);
    RunKeepsFound(found, events);
    var (s, h) := Run(found, events);
    LoggedIsContent(found, s.disk, h.effects);
  }

  lemma LoggedIsContent(found: Disk, disk: Disk, effects: seq<Effect>)
    requires Logged(found, disk, effects)
    ensures disk.Content() == Replay(found.Content(), effects)
  {
    var all := Joined(found.wal) + effects;
    var done :| all == done + Joined(disk.wal) && disk.main == Replay(found.main, done);
    ReplayAppend(found.main, done, Joined(disk.wal));
    ReplayAppend(found.main, Joined(found.wal), effects);
  }

  /** A BEGIN that fails loses the whole batch, and no counter says so. */
  lemma BadBeginLosesBatch(s: State, plan: FlushPlan)
    requires !plan.begins
    ensures Flushed(s, plan).failed == s.failed && Flushed(s, plan).dropped == s.dropped
    ensures Count(FatesOf(s.batch, plan), Vanished) == DataCount(s.batch)
    ensures CommittedItems(s.batch, FatesOf(s.batch, plan)) == []
  {
    NothingBegun(s.batch, plan);
    FatesMatch(s.batch, plan);
    DataHasOneFate(s.batch, FatesOf(s.batch, plan));
    CountZeroIffAbsent(FatesOf(s.batch, plan), Committed);
  }

  /** Whatever happens next, from any state on. */
  ghost function After(s: State, events: seq<Event>): State
    decreases |events|
  {
    if events == [] then s else After(Next(s, events[0]), events[1..])
  }

  function TurnsIn(events: seq<Event>): nat {
    if events == [] then 0 else (if events[0].Turn? then 1 else 0) + TurnsIn(events[1..])
  }

  /** How many items are taken before the first sentinel in the queue, or all of them. */
  function Waiting(queue: seq<Option<Item>>): nat {
    if queue == [] || queue[0].None? then 0 else 1 + Waiting(queue[1..])
  }

  /** How many items are offered before a sentinel stands in the queue. */
  ghost function OffersAhead(s: State, events: seq<Event>): nat
    decreases |events|
  {
    if events == [] || None in s.queue then 0
    else (if events[0].Offer? then 1 else 0) + OffersAhead(Next(s, events[0]), events[1..])
  }

  lemma {:induction false} WaitingAppend(queue: seq<Option<Item>>, x: Option<Item>)
    ensures Waiting(queue + [x]) == Waiting(queue) + if None !in queue && x.Some? then 1 else 0
    ensures None in queue + [x] <==> None in queue || x.None?
  {
    if queue != [] {
      DropOfConcat(queue, [x], 1);
      WaitingAppend(queue[1..], x);
      assert queue == [queue[0]] + queue[1..];
    }
  }

  /** One step towards the end, unless an item is offered ahead of the sentinel. */
  lemma StepTowardsEnd(s: State, e: Event)
    requires s.stop && Next(s, e).running
    ensures Next(s, e).stop && s.running
    ensures Waiting(Next(s, e).queue) + (if e.Turn? then 1 else 0)
            <= Waiting(s.queue) + if e.Offer? && None !in s.queue then 1 else 0
    ensures None in s.queue ==> None in Next(s, e).queue
  {
    if e.Turn? {
      assert s.queue == [s.queue[0]] + s.queue[1..];
    } else {
      WaitingAppend(s.queue, if e.Offer? then Some(e.item) else None);
    }
  }

  lemma {:induction false} NothingAhead(s: State, events: seq<Event>)
    requires None in s.queue
    ensures OffersAhead(s, events) == 0
  {}

  /**
   After a stop the writer leaves its loop within one turn more than the items ahead of the sentinel: those waiting
   at the stop, and those still offered before the sentinel is put. What is offered behind it changes nothing.
   */
  lemma {:induction false} WriterLeaves(s: State, events: seq<Event>)
    requires s.stop && TurnsIn(events) > Waiting(s.queue) + OffersAhead(s, events)
    ensures !After(s, events).running
    decreases |events|
  {
    var s' := Next(s, events[0]);
    if !s'.running {
      StaysOut(s', events[1..]);
    } else {
      StepTowardsEnd(s, events[0]);
      if None in s.queue { NothingAhead(s', events[1..]); }
      WriterLeaves(s', events[1..]);
    }
  }

  lemma {:induction false} StaysOut(s: State, events: seq<Event>)
    requires !s.running
    ensures !After(s, events).running
    decreases |events|
  {
    if events != [] { StaysOut(Next(s, events[0]), events[1..]); }
  }

  /** Without a sentinel one offer a turn keeps it going: the stop alone does not end the loop. */
  function Busy(item: Item, plan: FlushPlan, n: nat): seq<Event> {
    if n == 0 then [] else [Offer(item), Turn(plan)] + Busy(item, plan, n - 1)
  }

  lemma {:induction false} StopAloneIsNotEnough(s: State, item: Item, plan: FlushPlan, n: nat)
    requires s.stop && s.running && None !in s.queue && |s.queue| < CAPACITY
    ensures After(s, Busy(item, plan, n)).running && TurnsIn(Busy(item, plan, n)) == n
    decreases n
  {
    if n > 0 {
      var events := Busy(item, plan, n);
      var s1 := Next(s, Offer(item));
      var s2 := Next(s1, Turn(plan));
      assert events[1..][0] == Turn(plan) && events[1..][1..] == Busy(item, plan, n - 1);
      assert s1.queue[0].Some? && s2.queue == s1.queue[1..];
      StopAloneIsNotEnough(s2, item, plan, n - 1);
    }
  }
}
