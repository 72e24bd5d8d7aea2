/** Deduplication: an insertion-ordered cache of packet keys with a fixed lifetime and a size bound. */
module PacketDedup {
  import opened Prelude

  const DEDUP_TTL_S: real := 120.0
  const CACHE_LIMIT := 5000
  const EVICTED := 2500

  datatype Entry = Entry(key: string, expiry: real)

  predicate HasKey(cache: seq<Entry>, key: string) {
    exists k | 0 <= k < |cache| :: cache[k].key == key
  }

  /** Keys are distinct and expiries ascend: what an insertion-ordered cache under a monotonic clock is. */
  ghost predicate Ordered(cache: seq<Entry>) {
    && (forall i, j | 0 <= i < j < |cache| :: cache[i].key != cache[j].key)
    && (forall i, j | 0 <= i < j < |cache| :: cache[i].expiry <= cache[j].expiry)
  }

  ghost predicate Bounded(cache: seq<Entry>, now: real) {
    Ordered(cache) && |cache| <= 5000 && forall e <- cache :: e.expiry <= now + 120.0
  }

  /** The entries a full scan would keep. */
  function Unexpired(cache: seq<Entry>, now: real): seq<Entry> {
    if cache == [] then []
    else (if cache[0].expiry > now then [cache[0]] else []) + Unexpired(cache[1..], now)
  }

  lemma {:induction false} UnexpiredAll(cache: seq<Entry>, now: real)
    requires forall k | 0 <= k < |cache| :: cache[k].expiry > now
    ensures Unexpired(cache, now) == cache
  {
    if cache != [] { UnexpiredAll(cache[1..], now); }
  }

  /** What one call does: drop the expired, then accept the key unless it is still there. */
  function Accepted(cache: seq<Entry>, key: string, now: real): bool {
    !HasKey(Unexpired(cache, now), key)
  }

  function AfterCall(cache: seq<Entry>, key: string, now: real): seq<Entry> {
    var kept := Unexpired(cache, now);
    if HasKey(kept, key) then kept
    else
      var grown := kept + [Entry(key, now + DEDUP_TTL_S)];
      if |grown| > CACHE_LIMIT then grown[EVICTED..] else grown
  }

  class DedupCache {
    var entries: seq<Entry>

    constructor ()
      ensures entries == []
    {
      entries := [];
    }

    /** Stops at the first unexpired entry; in an ordered cache that removes what a full scan would. */
    method PruneDedup(now: real)
      requires Ordered(entries)
      modifies this
      ensures entries == Unexpired(old(entries), now)
    {
      while entries != []
        invariant Ordered(entries)
        invariant Unexpired(entries, now) == Unexpired(old(entries), now)
        decreases |entries|
      {
        if entries[0].expiry > now {
          UnexpiredAll(entries, now);
          break;
        }
        entries := entries[1..];
      }
    }

    /** The clock has not gone back behind the last call. */
    method IsDuplicate(key: string, now: real) returns (duplicate: bool)
      requires Bounded(entries, now)
      modifies this
      ensures duplicate <==> !Accepted(old(entries), key, now)
      ensures entries == AfterCall(old(entries), key, now)
      ensures Bounded(entries, now)
    {
      CallKeepsBounds(entries, key, now);
      PruneDedup(now);
      if HasKey(entries, key) {
        return true;
      }
      entries := entries + [Entry(key, now + DEDUP_TTL_S)];
      if |entries| > CACHE_LIMIT {
        ghost var grown := entries;
        for k := 0 to EVICTED
          invariant entries == grown[k..]
        {
          entries := entries[1..];
        }
      }
      return false;
    }
  }

  // ---------------------------------------------------------------------------------------
  // Whole runs of calls
  // ---------------------------------------------------------------------------------------

  datatype Call = Call(key: string, now: real)

  /** Call times do not decrease: the clock is monotonic. */
  ghost predicate Monotonic(calls: seq<Call>) {
    forall i, j | 0 <= i < j < |calls| :: calls[i].now <= calls[j].now
  }

  function Cache(calls: seq<Call>): seq<Entry> {
    if calls == [] then []
    else
      var n := |calls| - 1;
      AfterCall(Cache(calls[..n]), calls[n].key, calls[n].now)
  }

  /** Whether call n of the run was let through. */
  predicate IsAccepted(calls: seq<Call>, n: nat)
    requires n < |calls|
  {
    Accepted(Cache(calls[..n]), calls[n].key, calls[n].now)
  }

  /** How many of calls i .. j - 1 were let through. */
  function AcceptedBetween(calls: seq<Call>, i: nat, j: nat): nat
    requires i <= j <= |calls|
    decreases j
  {
    if i == j then 0 else AcceptedBetween(calls, i, j - 1) + if IsAccepted(calls, j - 1) then 1 else 0
  }

  /** In an ordered cache the expired entries are a prefix. */
  lemma {:induction false} UnexpiredIsSuffix(cache: seq<Entry>, now: real) returns (p: nat)
    requires Ordered(cache)
    ensures p <= |cache| && Unexpired(cache, now) == cache[p..]
    ensures forall k | 0 <= k < |cache| :: cache[k].expiry > now <==> p <= k
  {
    if cache == [] || cache[0].expiry > now {
      p := 0;
      UnexpiredAll(cache, now);
    } else {
      var q := UnexpiredIsSuffix(cache[1..], now);
      p := q + 1;
      forall k | 0 <= k < |cache| ensures cache[k].expiry > now <==> p <= k {
        if k > 0 { assert cache[k] == cache[1..][k - 1]; }
      }
    }
  }

  /** Every state the cache reaches: ordered, within its bound, nothing expiring past the horizon. */
  lemma {:induction false} CacheBounded(calls: seq<Call>)
    requires Monotonic(calls)
    ensures if calls == [] then Cache(calls) == [] else Bounded(Cache(calls), calls[|calls| - 1].now)
  {
    if calls != [] {
      var n := |calls| - 1;
      CacheBounded(calls[..n]);
      CallKeepsBounds(Cache(calls[..n]), calls[n].key, calls[n].now);
    }
  }

  lemma OrderedSuffix(cache: seq<Entry>, k: nat)
    requires Ordered(cache) && k <= |cache|
    ensures Ordered(cache[k..]) && forall e <- cache[k..] :: e in cache
  {
  }

  lemma OrderedSnoc(cache: seq<Entry>, e: Entry)
    requires Ordered(cache) && !HasKey(cache, e.key) && forall x <- cache :: x.expiry <= e.expiry
    ensures Ordered(cache + [e])
  {
  }

  lemma CallKeepsBounds(cache: seq<Entry>, key: string, now: real)
    requires Bounded(cache, now)
    ensures Bounded(AfterCall(cache, key, now), now)
  {
    var p := UnexpiredIsSuffix(cache, now);
    OrderedSuffix(cache, p);
    if !HasKey(cache[p..], key) {
      var e := Entry(key, now + DEDUP_TTL_S);
      OrderedSnoc(cache[p..], e);
      if |cache[p..] + [e]| > CACHE_LIMIT {
        OrderedSuffix(cache[p..] + [e], EVICTED);
      }
    }
  }

  /** An insertion into a full cache throws the oldest entries out. */
  predicate Overflows(cache: seq<Entry>, key: string, now: real) {
    Accepted(cache, key, now) && |Unexpired(cache, now)| == 5000
  }

  lemma AfterCallIs(cache: seq<Entry>, key: string, now: real, cut: nat)
    requires cut <= |cache| <= CACHE_LIMIT && Unexpired(cache, now) == cache[cut..]
    ensures AfterCall(cache, key, now) ==
            if !Accepted(cache, key, now) then cache[cut..]
            else
              var grown := cache[cut..] + [Entry(key, now + DEDUP_TTL_S)];
              if Overflows(cache, key, now) then grown[EVICTED..] else grown
  {
  }

  /** One call keeps an unexpired entry unless it throws it out, and moves it back by what it accepts. */
  lemma EntrySurvivesCall(cache: seq<Entry>, key: string, now: real, q: nat) returns (p: nat)
    requires Ordered(cache) && |cache| <= CACHE_LIMIT && q < |cache| && cache[q].expiry > now
    requires Overflows(cache, key, now) ==> |cache| - q <= EVICTED
    ensures p < |AfterCall(cache, key, now)| && AfterCall(cache, key, now)[p] == cache[q]
    ensures |AfterCall(cache, key, now)| - p == |cache| - q + if Accepted(cache, key, now) then 1 else 0
  {
    var cut := UnexpiredIsSuffix(cache, now);
    AfterCallIs(cache, key, now, cut);
    p := if Overflows(cache, key, now) then q - cut - EVICTED else q - cut;
  }

  lemma EntryStored(cache: seq<Entry>, key: string, now: real) returns (p: nat)
    requires Accepted(cache, key, now)
    ensures p == |AfterCall(cache, key, now)| - 1
    ensures AfterCall(cache, key, now)[p] == Entry(key, now + DEDUP_TTL_S)
  {
    p := |AfterCall(cache, key, now)| - 1;
  }

  lemma CacheStep(calls: seq<Call>, n: nat)
    requires n < |calls|
    ensures Cache(calls[..n + 1]) == AfterCall(Cache(calls[..n]), calls[n].key, calls[n].now)
  {
    assert calls[..n + 1][..n] == calls[..n];
  }

  /** An entry after a call was there before it and was not thrown out, or is the one the call accepted. */
  lemma EntryBeforeCall(cache: seq<Entry>, key: string, now: real, p: nat) returns (q: nat)
    requires Ordered(cache) && |cache| <= CACHE_LIMIT && p < |AfterCall(cache, key, now)|
    ensures var after := AfterCall(cache, key, now);
            if q < |cache| then
              && after[p] == cache[q]
              && |after| - p == |cache| - q + (if Accepted(cache, key, now) then 1 else 0)
              && (Overflows(cache, key, now) ==> |cache| - q <= EVICTED)
            else
              Accepted(cache, key, now) && after[p] == Entry(key, now + DEDUP_TTL_S) && |after| - p == 1
  {
    var cut := UnexpiredIsSuffix(cache, now);
    AfterCallIs(cache, key, now, cut);
    q := if Overflows(cache, key, now) then p + cut + EVICTED else p + cut;
  }

  lemma CacheStaysBounded(calls: seq<Call>, m: nat)
    requires Monotonic(calls) && m < |calls|
    ensures Bounded(Cache(calls[..m]), calls[m].now)
  {
    CacheBounded(calls[..m]);
  }

  /** After m calls, call i's entry stands at p, behind it exactly what was accepted since. */
  ghost predicate Retained(calls: seq<Call>, i: nat, m: nat, p: nat)
    requires i < m <= |calls|
  {
    var cache := Cache(calls[..m]);
    && p < |cache| && cache[p] == Entry(calls[i].key, calls[i].now + DEDUP_TTL_S)
    && |cache| - p == 1 + AcceptedBetween(calls, i + 1, m)
  }

  /** Call m throws out the entry of call i: it overflows the cache, with more than 2,500 newer keys, its own too. */
  ghost predicate EvictsAt(calls: seq<Call>, i: nat, m: nat)
    requires i < m < |calls|
  {
    Overflows(Cache(calls[..m]), calls[m].key, calls[m].now) && AcceptedBetween(calls, i + 1, m + 1) > 2500
  }

  /** Some call between the two threw out the first one's entry. */
  ghost predicate Evicted(calls: seq<Call>, i: nat, j: nat)
    requires i < j <= |calls|
  {
    exists m | i < m < j :: EvictsAt(calls, i, m)
  }

  lemma RetainedStep(calls: seq<Call>, i: nat, m: nat, q: nat) returns (p: nat)
    requires Monotonic(calls) && i < m < |calls| && Retained(calls, i, m, q)
    requires calls[m].now < calls[i].now + 120.0 && !EvictsAt(calls, i, m)
    ensures Retained(calls, i, m + 1, p)
  {
    CacheStep(calls, m);
    CacheStaysBounded(calls, m);
    p := EntrySurvivesCall(Cache(calls[..m]), calls[m].key, calls[m].now, q);
  }

  lemma RetainedStart(calls: seq<Call>, i: nat) returns (p: nat)
    requires i < |calls| && IsAccepted(calls, i)
    ensures Retained(calls, i, i + 1, p)
  {
    CacheStep(calls, i);
    p := EntryStored(Cache(calls[..i]), calls[i].key, calls[i].now);
  }

  /** While call i's key is unexpired and has not been thrown out, its entry is kept. */
  lemma {:induction false} EntryRetained(calls: seq<Call>, i: nat, m: nat) returns (p: nat)
    requires Monotonic(calls) && i < m <= |calls| && IsAccepted(calls, i)
    requires calls[m - 1].now < calls[i].now + 120.0 && !Evicted(calls, i, m)
    ensures Retained(calls, i, m, p)
    decreases m
  {
    var n := m - 1;
    if n == i {
      p := RetainedStart(calls, i);
    } else {
      assert calls[n - 1].now <= calls[n].now;
      var q := EntryRetained(calls, i, n);
      p := RetainedStep(calls, i, n, q);
    }
  }

  lemma NotEvictedYet(calls: seq<Call>, i: nat, n: nat)
    requires i < n < |calls| && !Evicted(calls, i, n) && !EvictsAt(calls, i, n)
    ensures !Evicted(calls, i, n + 1)
  {
  }

  /** The entry at p after call n was at q before it. */
  lemma RetainedBefore(calls: seq<Call>, i: nat, n: nat, p: nat, q: nat)
    requires Monotonic(calls) && i < n < |calls| && Retained(calls, i, n, q)
    requires var (cache, after) := (Cache(calls[..n]), Cache(calls[..n + 1]));
             && p < |after| && after[p] == cache[q]
             && |after| - p == |cache| - q + (if IsAccepted(calls, n) then 1 else 0)
             && (Overflows(cache, calls[n].key, calls[n].now) ==> |cache| - q <= EVICTED)
    ensures Retained(calls, i, n + 1, p) && !EvictsAt(calls, i, n)
  {
  }

  /** Every entry was put there by an accepted call for its key, 120 s before it expires, and never thrown out since. */
  lemma {:induction false} EntryOrigin(calls: seq<Call>, m: nat, p: nat) returns (i: nat)
    requires Monotonic(calls) && m <= |calls| && p < |Cache(calls[..m])|
    ensures i < m && IsAccepted(calls, i) && Retained(calls, i, m, p) && !Evicted(calls, i, m)
    decreases m
  {
    var n := m - 1;
    CacheStep(calls, n);
    CacheStaysBounded(calls, n);
    var q := EntryBeforeCall(Cache(calls[..n]), calls[n].key, calls[n].now, p);
    if q < |Cache(calls[..n])| {
      i := EntryOrigin(calls, n, q);
      RetainedBefore(calls, i, n, p, q);
      NotEvictedYet(calls, i, n);
    } else {
      i := n;
    }
  }

  /** A key still in the cache was accepted less than 120 s ago and not thrown out since. */
  lemma LiveKeyOrigin(calls: seq<Call>, j: nat) returns (i: nat)
    requires Monotonic(calls) && j < |calls| && !IsAccepted(calls, j)
    ensures i < j && calls[i].key == calls[j].key && IsAccepted(calls, i)
    ensures calls[j].now < calls[i].now + 120.0 && !Evicted(calls, i, j)
  {
    var cache := Cache(calls[..j]);
    CacheStaysBounded(calls, j);
    var cut := UnexpiredIsSuffix(cache, calls[j].now);
    var k :| 0 <= k < |cache[cut..]| && cache[cut..][k].key == calls[j].key;
    i := EntryOrigin(calls, j, cut + k);
  }

  /** A key accepted less than 120 s ago and not thrown out since is not accepted again. */
  lemma RetainedRejects(calls: seq<Call>, i: nat, j: nat)
    requires Monotonic(calls) && i < j < |calls| && IsAccepted(calls, i) && calls[j].key == calls[i].key
    requires calls[j].now < calls[i].now + 120.0 && !Evicted(calls, i, j)
    ensures !IsAccepted(calls, j)
  {
    assert calls[j - 1].now <= calls[j].now;
    var p := EntryRetained(calls, i, j);
    CacheStaysBounded(calls, j);
    var cut := UnexpiredIsSuffix(Cache(calls[..j]), calls[j].now);
    assert Unexpired(Cache(calls[..j]), calls[j].now)[p - cut].key == calls[j].key;
  }

  /** A key is accepted exactly when every earlier acceptance of it has expired or been thrown out. */
  lemma AcceptedIff(calls: seq<Call>, j: nat)
    requires Monotonic(calls) && j < |calls|
    ensures IsAccepted(calls, j) <==>
      forall i | 0 <= i < j && calls[i].key == calls[j].key && IsAccepted(calls, i) ::
        calls[i].now + 120.0 <= calls[j].now || Evicted(calls, i, j)
  {
    if !IsAccepted(calls, j) {
      var i := LiveKeyOrigin(calls, j);
    } else {
      forall i | 0 <= i < j && calls[i].key == calls[j].key && IsAccepted(calls, i)
        ensures calls[i].now + 120.0 <= calls[j].now || Evicted(calls, i, j)
      {
        if calls[j].now < calls[i].now + DEDUP_TTL_S && !Evicted(calls, i, j) {
          RetainedRejects(calls, i, j);
          assert false;
        }
      }
    }
  }

  lemma AcceptedBetweenGrows(calls: seq<Call>, i: nat, m: nat, j: nat)
    requires i <= m <= j <= |calls|
    ensures AcceptedBetween(calls, i, m) <= AcceptedBetween(calls, i, j)
    decreases j
  {
    if m < j { AcceptedBetweenGrows(calls, i, m, j - 1); }
  }

  lemma NotEvictedWhileFew(calls: seq<Call>, i: nat, j: nat)
    requires i < j < |calls| && AcceptedBetween(calls, i + 1, j) <= 2500
    ensures !Evicted(calls, i, j)
  {
    forall m | i < m < j ensures !EvictsAt(calls, i, m) {
      AcceptedBetweenGrows(calls, i + 1, m + 1, j);
    }
  }

  /**
   A key accepted at time t is rejected at every later time before t + 120 s, as long as at most
   2,500 newer keys were accepted in between.
   */
  lemma DuplicateRejected(calls: seq<Call>, i: nat, j: nat)
    requires Monotonic(calls) && i < j < |calls| && IsAccepted(calls, i)
    requires calls[j].key == calls[i].key && calls[j].now < calls[i].now + 120.0
    requires AcceptedBetween(calls, i + 1, j) <= 2500
    ensures !IsAccepted(calls, j)
  {
    NotEvictedWhileFew(calls, i, j);
    RetainedRejects(calls, i, j);
  }

  /** A key seen again once it has expired is let through. */
  lemma ExpiredAccepted(calls: seq<Call>, j: nat)
    requires Monotonic(calls) && j < |calls|
    requires forall i | 0 <= i < j && calls[i].key == calls[j].key && IsAccepted(calls, i) ::
               calls[i].now + 120.0 <= calls[j].now
    ensures IsAccepted(calls, j)
  {
    if !IsAccepted(calls, j) {
      var i := LiveKeyOrigin(calls, j);
      assert false;
    }
  }

  /** The bound of 2,500 is exact: an insertion that overflows keeps an entry iff no more are newer. */
  lemma EvictionExact(cache: seq<Entry>, key: string, now: real, p: nat)
    requires Ordered(cache) && p < |cache| == 5000 && cache[0].expiry > now && !HasKey(cache, key)
    ensures HasKey(AfterCall(cache, key, now), cache[p].key) <==> |cache| - p <= 2500
  {
    UnexpiredAll(cache, now);
    var after := AfterCall(cache, key, now);
    assert after == (cache + [Entry(key, now + DEDUP_TTL_S)])[EVICTED..];
    if |cache| - p <= EVICTED {
      assert after[p - EVICTED] == cache[p];
    } else {
      forall k | 0 <= k < |after| ensures after[k].key != cache[p].key {
        if k < |after| - 1 { assert after[k] == cache[k + EVICTED]; }
      }
    }
  }
}
