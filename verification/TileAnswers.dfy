/** Which candidate a tile comes from, whatever the server was asked before. */
module TileAnswers {
  import opened Prelude
  import Ppm
  import Png
  import opened LruCache
  import opened TileServer

  // ---------------------------------------------------------------------------------------
  // One walk over the candidates
  // ---------------------------------------------------------------------------------------

  /** The names the first p candidates used, the latest use last. */
  function Order(c: seq<Pack>, p: nat): seq<string>
    requires p <= |c|
  {
    if p == 0 then [] else Dropped(Order(c, p - 1), c[p - 1].stem) + [c[p - 1].stem]
  }

  /** Candidate p is met with the mark that an earlier one of its name has just left. */
  predicate Masked(c: seq<Pack>, capacity: nat, p: nat)
    requires p < |c|
  {
    c[p].stem in Last(Order(c, p), capacity)
  }

  /** The first candidate from i on that is neither passed over nor masked; none when there is no such. */
  function Answering(tools: Tools, c: seq<Pack>, view: View, capacity: nat, i: nat): (k: nat)
    requires i <= |c|
    ensures i <= k <= |c|
    ensures k < |c| ==> !Passes(tools, c, view, k) && !Masked(c, capacity, k)
    ensures forall j | i <= j < k :: Passes(tools, c, view, j) || Masked(c, capacity, j)
    decreases |c| - i
  {
    if i < |c| && (Passes(tools, c, view, i) || Masked(c, capacity, i))
    then Answering(tools, c, view, capacity, i + 1)
    else i
  }

  function Answer(tools: Tools, c: seq<Pack>, view: View, capacity: nat): Result<seq<Byte>, RenderError> {
    var k := Answering(tools, c, view, capacity, 0);
    if k == |c| then Err(NoPackRendered) else Shown(tools, c[k], view)
  }

  lemma {:induction false} OrderMembers(c: seq<Pack>, p: nat)
    requires p <= |c|
    ensures Distinct(Order(c, p)) && |Order(c, p)| <= p
    ensures forall stem :: stem in Order(c, p) <==> exists i | 0 <= i < p :: c[i].stem == stem
  {
    if p > 0 {
      OrderMembers(c, p - 1);
      DroppedMembers(Order(c, p - 1), c[p - 1].stem);
      UsedIsDistinct(Order(c, p - 1), c[p - 1].stem);
      DroppedKeepsDistinct(Order(c, p - 1), c[p - 1].stem);
    }
  }

  /** The names strictly between two candidates, the first one's own left out. */
  function Between(c: seq<Pack>, i: nat, p: nat): set<string>
    requires i < p <= |c|
  {
    set k | i < k < p && c[k].stem != c[i].stem :: c[k].stem
  }

  /** Behind the last use of a name stand exactly the names used since. */
  lemma {:induction false} UsedSince(c: seq<Pack>, i: nat, p: nat) returns (older: seq<string>, since: seq<string>)
    requires i < p <= |c| && forall k | i < k < p :: c[k].stem != c[i].stem
    ensures Order(c, p) == older + [c[i].stem] + since && Distinct(since) && c[i].stem !in since
    ensures forall stem :: stem in since <==> stem in Between(c, i, p)
    decreases p
  {
    if i == p - 1 {
      older, since := Dropped(Order(c, i), c[i].stem), [];
      assert older + [c[i].stem] + since == older + [c[i].stem] == Order(c, p);
      assert Between(c, i, p) == {};
    } else {
      var older', since' := UsedSince(c, i, p - 1);
      older, since := UsedOn(Order(c, p - 1), older', c[i].stem, since', c[p - 1].stem);
      BetweenStep(c, i, p);
    }
  }

  /** One more name is used. */
  lemma UsedOn(order: seq<string>, older: seq<string>, x: string, since: seq<string>, stem: string)
    returns (older': seq<string>, since': seq<string>)
    requires order == older + [x] + since && Distinct(since) && x !in since && stem != x
    ensures Dropped(order, stem) + [stem] == older' + [x] + since' && Distinct(since') && x !in since'
    ensures forall y :: y in since' <==> y in since || y == stem
  {
    older', since' := Dropped(older, stem), Dropped(since, stem) + [stem];
    DroppedMembers(since, stem);
    UsedIsDistinct(since, stem);
    DroppedAround(older, x, since, stem);
  }

  lemma BetweenStep(c: seq<Pack>, i: nat, p: nat)
    requires i < p - 1 && p <= |c| && c[p - 1].stem != c[i].stem
    ensures Between(c, i, p) == Between(c, i, p - 1) + {c[p - 1].stem}
  {}

  lemma DroppedAround(older: seq<string>, x: string, since: seq<string>, stem: string)
    requires x != stem
    ensures Dropped(older + [x] + since, stem) + [stem]
         == Dropped(older, stem) + [x] + (Dropped(since, stem) + [stem])
  {
    DroppedConcat(older + [x], since, stem);
    DroppedConcat(older, [x], stem);
    assert Dropped([x], stem) == [x] by { assert [x][1..] == []; }
    Associative(Dropped(older, stem) + [x], Dropped(since, stem), [stem]);
  }

  lemma {:induction false} DistinctSize(s: seq<string>, names: set<string>)
    requires Distinct(s) && forall x :: x in s <==> x in names
    ensures |s| == |names|
  {
    if s == [] {
      assert names == {};
    } else {
      var n := |s| - 1;
      LastIsApart(s);
      assert forall x :: x in s[..n] <==> x in names - {s[n]};
      DistinctSize(s[..n], names - {s[n]});
    }
  }

  lemma LastIsApart(s: seq<string>)
    requires s != [] && Distinct(s)
    ensures var n := |s| - 1; forall x :: x in s[..n] <==> x in s && x != s[n]
    ensures Distinct(s[..|s| - 1])
  {
    SplitLast(s);
  }

  /** Masked: some earlier candidate has the same name, and fewer than `capacity` other names came between. */
  lemma MaskedIff(c: seq<Pack>, capacity: nat, p: nat)
    requires p < |c| && capacity > 0
    ensures Masked(c, capacity, p) <==>
            exists i :: 0 <= i < p && c[i].stem == c[p].stem && |Between(c, i, p)| < capacity
  {
    var stem := c[p].stem;
    OrderMembers(c, p);
    if exists i | 0 <= i < p :: c[i].stem == stem {
      var i := LastOfName(c, stem, p);
      var older, since := UsedSince(c, i, p);
      DistinctSize(since, Between(c, i, p));
      EndOf(older, stem, since, Order(c, p), capacity);
      forall j | 0 <= j < p && c[j].stem == stem ensures |Between(c, i, p)| <= |Between(c, j, p)| {
        assert j <= i;
        FewerBetween(c, j, i, p);
      }
    } else {
      assert stem !in Order(c, p);
      assert forall x <- Last(Order(c, p), capacity) :: x in Order(c, p);
    }
  }

  lemma FewerBetween(c: seq<Pack>, j: nat, i: nat, p: nat)
    requires j <= i < p <= |c| && c[i].stem == c[j].stem
    ensures |Between(c, i, p)| <= |Between(c, j, p)|
  {
    Subset(Between(c, i, p), Between(c, j, p));
  }

  lemma {:induction false} Subset(a: set<string>, b: set<string>)
    requires a <= b
    ensures |a| <= |b|
  {
    if a != {} {
      var x :| x in a;
      Subset(a - {x}, b - {x});
    }
  }

  lemma LastOfName(c: seq<Pack>, stem: string, p: nat) returns (i: nat)
    requires p <= |c| && exists k | 0 <= k < p :: c[k].stem == stem
    ensures i < p && c[i].stem == stem && forall k | i < k < p :: c[k].stem != stem
  {
    i := p - 1;
    while c[i].stem != stem
      invariant i < p && forall k | i < k < p :: c[k].stem != stem
      decreases i
    {
      i := i - 1;
    }
  }

  lemma EndOf(older: seq<string>, x: string, since: seq<string>, all: seq<string>, n: nat)
    requires all == older + [x] + since && Distinct(all)
    ensures x in Last(all, n) <==> |since| < n
  {
    assert all[|older|] == x;
  }

  // ---------------------------------------------------------------------------------------
  // A walk through the cache
  // ---------------------------------------------------------------------------------------

  function Keyed(stems: seq<string>, view: View): (keys: seq<Key>)
    ensures |keys| == |stems| && forall i | 0 <= i < |keys| :: keys[i] == Key(stems[i], view)
  {
    seq(|stems|, i requires 0 <= i < |stems| => Key(stems[i], view))
  }

  lemma {:induction false} KeyedDropped(stems: seq<string>, stem: string, view: View)
    ensures Keyed(Dropped(stems, stem), view) == Dropped(Keyed(stems, view), Key(stem, view))
  {
    if stems != [] {
      KeyedDropped(stems[1..], stem, view);
      assert Keyed(stems, view)[1..] == Keyed(stems[1..], view);
    }
  }

  /** After p candidates the cache ends in the keys of their names, as many as fit. */
  ghost predicate Walked(c: seq<Pack>, view: View, capacity: nat, p: nat, cache: Cache)
    requires p <= |c|
  {
    var used := Last(Order(c, p), capacity);
    Last(Keys(cache), |used|) == Keyed(used, view)
  }

  lemma LastOfGrown<T>(older: seq<T>, s: seq<T>, n: nat)
    ensures Last(Last(older + s, n), |Last(s, n)|) == Last(s, n)
  {}

  lemma KeyedLast(stems: seq<string>, view: View, n: nat)
    ensures Keyed(Last(stems, n), view) == Last(Keyed(stems, view), n)
  {}

  lemma MarkStep(c: seq<Pack>, view: View, capacity: nat, p: nat, cache: Cache)
    requires p < |c| && capacity > 0 && Walked(c, view, capacity, p, cache)
    ensures Walked(c, view, capacity, p + 1, Stored(cache, capacity, Key(c[p].stem, view), NoData))
  {
    var (stem, key) := (c[p].stem, Key(c[p].stem, view));
    var used := Last(Order(c, p), capacity);
    var next := Dropped(used, stem) + [stem];
    OrderMembers(c, p);
    UseOfLast(Order(c, p), capacity, stem);
    StoredKeys(cache, capacity, key, NoData);
    var older := Keys(cache)[..|cache| - |used|];
    assert Keys(cache) == older + Keyed(used, view);
    DroppedOlder(older, Keyed(used, view), key);
    KeyedDropped(used, stem, view);
    assert Keyed(next, view) == Dropped(Keyed(used, view), key) + [key];
    LastOfGrown(Dropped(older, key), Keyed(next, view), capacity);
    KeyedLast(next, view, capacity);
  }

  /** The entry says of its tile what a walk over its candidates finds. */
  ghost predicate Earned(tools: Tools, c: seq<Pack>, capacity: nat, e: Entry<Key, Cached>) {
    var k := Answering(tools, c, e.key.view, capacity, 0);
    match e.value
    case NoData => exists i | 0 <= i < k :: c[i].stem == e.key.stem
    case Image(png) => k < |c| && c[k].stem == e.key.stem && Shown(tools, c[k], e.key.view) == Ok(png)
  }

  /** Which candidates each tile has. */
  type Resolver = Tile -> seq<Pack>

  function ResolverOf(edges: Edges, packs: seq<Pack>): Resolver {
    (t: Tile) => PacksFor(edges, packs, t)
  }

  ghost predicate AllEarned(tools: Tools, candidates: Resolver, capacity: nat, cache: Cache) {
    && |cache| <= capacity
    && forall e <- cache :: Earned(tools, candidates(e.key.view.tile), capacity, e)
  }

  lemma {:induction false} WithoutShorter(cache: Cache, key: Key)
    requires key in Keys(cache)
    ensures |Without(cache, key)| < |cache|
  {
    if cache[0].key != key {
      assert key in Keys(cache[1..]) by {
        var i :| 0 <= i < |cache| && Keys(cache)[i] == key;
        assert Keys(cache[1..])[i - 1] == key;
      }
      WithoutShorter(cache[1..], key);
    }
  }

  /** A hit keeps what the cache holds: it is the same as storing the value found once more. */
  lemma TouchedIsStored(cache: Cache, capacity: nat, key: Key)
    requires Lookup(cache, key).Some? && |cache| <= capacity
    ensures Touched(cache, key) == Stored(cache, capacity, key, Lookup(cache, key).value)
  {
    LookupFinds(cache, key);
    WithoutShorter(cache, key);
  }

  lemma StoredKeepsEarned(
    tools: Tools, candidates: Resolver, capacity: nat, cache: Cache, key: Key, value: Cached)
    requires AllEarned(tools, candidates, capacity, cache)
    requires Earned(tools, candidates(key.view.tile), capacity, Entry(key, value))
    ensures AllEarned(tools, candidates, capacity, Stored(cache, capacity, key, value))
  {
    WithoutMembers(cache, key);
  }

  lemma FoundIsEarned(tools: Tools, candidates: Resolver, capacity: nat, cache: Cache, key: Key)
    requires AllEarned(tools, candidates, capacity, cache) && Lookup(cache, key).Some?
    ensures Earned(tools, candidates(key.view.tile), capacity, Entry(key, Lookup(cache, key).value))
  {
    LookupFinds(cache, key);
  }

  /** A masked candidate is found in the cache. */
  lemma MaskedIsFound(c: seq<Pack>, view: View, capacity: nat, p: nat, cache: Cache)
    requires p < |c| && Walked(c, view, capacity, p, cache) && Masked(c, capacity, p)
    ensures Lookup(cache, Key(c[p].stem, view)).Some?
  {
    var used := Last(Order(c, p), capacity);
    var i :| 0 <= i < |used| && used[i] == c[p].stem;
    assert Last(Keys(cache), |used|)[i] == Key(c[p].stem, view);
    LookupFinds(cache, Key(c[p].stem, view));
  }

  /** One that is not masked is not taken for empty: an older mark of its name has been evicted by now. */
  lemma UnmaskedHasNoMark(c: seq<Pack>, view: View, capacity: nat, k: nat, cache: Cache)
    requires k < |c| && Walked(c, view, capacity, k, cache) && |cache| <= capacity
    requires !Masked(c, capacity, k) && c[k].stem in Order(c, k)
    ensures Lookup(cache, Key(c[k].stem, view)).None?
  {
    var used := Last(Order(c, k), capacity);
    assert |used| == capacity;
    assert Keys(cache) == Keyed(used, view);
    LookupFinds(cache, Key(c[k].stem, view));
  }

  lemma MarkIsUsed(tools: Tools, c: seq<Pack>, view: View, capacity: nat)
    requires var k := Answering(tools, c, view, capacity, 0);
             k < |c| && Earned(tools, c, capacity, Entry(Key(c[k].stem, view), NoData))
    ensures var k := Answering(tools, c, view, capacity, 0);
            c[k].stem in Order(c, k)
  {
    OrderMembers(c, Answering(tools, c, view, capacity, 0));
  }

  /** The answer was given, and the cache has stayed good. */
  ghost predicate Answers(tools: Tools, candidates: Resolver, view: View, capacity: nat, served: Served) {
    && served.result == Answer(tools, candidates(view.tile), view, capacity)
    && AllEarned(tools, candidates, capacity, served.cache)
  }

  /** An image in the cache is the answer. */
  lemma ImageAnswers(tools: Tools, candidates: Resolver, view: View, i: nat, cache: Cache, capacity: nat)
    requires AllEarned(tools, candidates, capacity, cache)
    requires var c := candidates(view.tile);
             && i < |c| && var found := Lookup(cache, Key(c[i].stem, view));
             found.Some? && found.value.Image?
    ensures Answers(tools, candidates, view, capacity,
                    Serve(tools, candidates(view.tile), view, i, cache, capacity))
  {
    var c := candidates(view.tile);
    var key := Key(c[i].stem, view);
    FoundIsEarned(tools, candidates, capacity, cache, key);
    TouchedIsStored(cache, capacity, key);
    StoredKeepsEarned(tools, candidates, capacity, cache, key, Lookup(cache, key).value);
  }

  /** From wherever a walk has got to, it ends in the answer. */
  lemma {:induction false} WalkAnswers(
    tools: Tools, candidates: Resolver, view: View, i: nat, cache: Cache, capacity: nat)
    requires capacity > 0 && AllEarned(tools, candidates, capacity, cache)
    requires var c := candidates(view.tile);
             i <= Answering(tools, c, view, capacity, 0) && Walked(c, view, capacity, i, cache)
    ensures Answers(tools, candidates, view, capacity,
                    Serve(tools, candidates(view.tile), view, i, cache, capacity))
    decreases |candidates(view.tile)| - i
  {
    var c := candidates(view.tile);
    var k := Answering(tools, c, view, capacity, 0);
    if i == |c| {
      assert Serve(tools, c, view, i, cache, capacity) == Served(Err(NoPackRendered), cache);
    } else if Lookup(cache, Key(c[i].stem, view)).Some? && Lookup(cache, Key(c[i].stem, view)).value.Image? {
      ImageAnswers(tools, candidates, view, i, cache, capacity);
    } else if i < k {
      var marked := CandidateIsPassed(tools, candidates, view, i, cache, capacity);
      WalkAnswers(tools, candidates, view, i + 1, marked, capacity);
    } else {
      AnswerIsDrawn(tools, candidates, view, cache, capacity);
    }
  }

  /** One that is passed over, drawn blank or found marked, leaves its mark. */
  lemma CandidateIsPassed(
    tools: Tools, candidates: Resolver, view: View, i: nat, cache: Cache, capacity: nat)
    returns (marked: Cache)
    requires capacity > 0 && AllEarned(tools, candidates, capacity, cache)
    requires var c := candidates(view.tile);
             && i < Answering(tools, c, view, capacity, 0) && Walked(c, view, capacity, i, cache)
             && var found := Lookup(cache, Key(c[i].stem, view));
                found.None? || found.value.NoData?
    ensures var c := candidates(view.tile);
            && Serve(tools, c, view, i, cache, capacity) == Serve(tools, c, view, i + 1, marked, capacity)
            && AllEarned(tools, candidates, capacity, marked) && Walked(c, view, capacity, i + 1, marked)
  {
    var c := candidates(view.tile);
    var key := Key(c[i].stem, view);
    if Lookup(cache, key).Some? {
      TouchedIsStored(cache, capacity, key);
    } else if Masked(c, capacity, i) {
      MaskedIsFound(c, view, capacity, i, cache);
    }
    marked := Stored(cache, capacity, key, NoData);
    StoredKeepsEarned(tools, candidates, capacity, cache, key, NoData);
    MarkStep(c, view, capacity, i, cache);
  }

  /** The candidate that answers is drawn, and its image kept. */
  lemma AnswerIsDrawn(tools: Tools, candidates: Resolver, view: View, cache: Cache, capacity: nat)
    requires AllEarned(tools, candidates, capacity, cache)
    requires var c := candidates(view.tile);
             var k := Answering(tools, c, view, capacity, 0);
             && k < |c| && Walked(c, view, capacity, k, cache)
             && Lookup(cache, Key(c[k].stem, view)) in {None, Some(NoData)}
    ensures var c := candidates(view.tile);
            Answers(tools, candidates, view, capacity,
                    Serve(tools, c, view, Answering(tools, c, view, capacity, 0), cache, capacity))
  {
    var c := candidates(view.tile);
    var k := Answering(tools, c, view, capacity, 0);
    var key := Key(c[k].stem, view);
    if Lookup(cache, key).Some? {
      FoundIsEarned(tools, candidates, capacity, cache, key);
      MarkIsUsed(tools, c, view, capacity);
      UnmaskedHasNoMark(c, view, capacity, k, cache);
    } else if Shown(tools, c[k], view).Ok? {
      var image := Image(Shown(tools, c[k], view).value);
      StoredKeepsEarned(tools, candidates, capacity, cache, key, image);
    }
  }

  // ---------------------------------------------------------------------------------------
  // No history shows
  // ---------------------------------------------------------------------------------------

  /** What the server answers a request for a tile with this cache. */
  function Response(s: Setup, state: ServerState, tile: Tile): Result<seq<Byte>, RenderError> {
    Rendered(s.tools, s.edges, s.packs, View(tile, s.size, state.style), state.cache, s.capacity).result
  }

  lemma RenderedAnswers(s: Setup, state: ServerState, tile: Tile)
    requires AllEarned(s.tools, ResolverOf(s.edges, s.packs), s.capacity, state.cache)
    ensures var c := PacksFor(s.edges, s.packs, tile);
            var view := View(tile, s.size, state.style);
            && Response(s, state, tile)
               == (if c == [] then Err(NoPackCovers) else Answer(s.tools, c, view, s.capacity))
            && AllEarned(s.tools, ResolverOf(s.edges, s.packs), s.capacity,
                         Rendered(s.tools, s.edges, s.packs, view, state.cache, s.capacity).cache)
  {
    var c := PacksFor(s.edges, s.packs, tile);
    if c != [] {
      assert Order(c, 0) == [];
      WalkAnswers(s.tools, ResolverOf(s.edges, s.packs), View(tile, s.size, state.style), 0, state.cache, s.capacity);
    }
  }

  lemma {:induction false} StaysEarned(s: Setup, requests: seq<Request>)
    ensures var state := AfterRequests(s, requests);
            && state.style == StyleAfter(s, requests)
            && AllEarned(s.tools, ResolverOf(s.edges, s.packs), s.capacity, state.cache)
  {
    if requests != [] {
      var n := |requests| - 1;
      StaysEarned(s, requests[..n]);
      if requests[n].Render? { RenderedAnswers(s, AfterRequests(s, requests[..n]), requests[n].tile); }
    }
  }

  /**
   * Whatever was asked before, a server answers as one that has just been started in the style last set: with any
   * packs, any names, any renderer and any capacity.
   */
  lemma HistoryNeverShows(s: Setup, requests: seq<Request>, tile: Requested)
    ensures var state := AfterRequests(s, requests);
            && state.style == StyleAfter(s, requests)
            && Response(s, state, tile) == Response(s, ServerState(state.style, []), tile)
  {
    var state := AfterRequests(s, requests);
    StaysEarned(s, requests);
    RenderedAnswers(s, state, tile);
    RenderedAnswers(s, ServerState(state.style, []), tile);
  }

  /** The answer is what one candidate's renderer drew, or the error that says why there is none. */
  lemma AnswerAfter(s: Setup, requests: seq<Request>, tile: Requested)
    ensures var state := AfterRequests(s, requests);
            var c := PacksFor(s.edges, s.packs, tile);
            Response(s, state, tile)
            == if c == [] then Err(NoPackCovers) else Answer(s.tools, c, View(tile, s.size, state.style), s.capacity)
  {
    StaysEarned(s, requests);
    RenderedAnswers(s, AfterRequests(s, requests), tile);
  }

  // ---------------------------------------------------------------------------------------
  // The cache shows in nothing but speed
  // ---------------------------------------------------------------------------------------

  /**
   * No cache key means two different things for one tile: candidates under one name have one archive,
   * and the last candidate, whose render is kept even when empty, shares its name with no other.
   */
  ghost predicate KeysTellApart(candidates: seq<Pack>) {
    forall i, j | 0 <= i < j < |candidates| && candidates[i].stem == candidates[j].stem ::
      candidates[i].archive == candidates[j].archive && j < |candidates| - 1
  }

  ghost predicate AllKeysTellApart(edges: Edges, packs: seq<Pack>) {
    forall t: Requested :: KeysTellApart(PacksFor(edges, packs, t))
  }

  lemma DistinctStemsTellApart(edges: Edges, packs: seq<Pack>)
    requires DistinctStems(packs)
    ensures AllKeysTellApart(edges, packs)
  {
    forall t: Requested ensures KeysTellApart(PacksFor(edges, packs, t)) {
      CandidatesDistinct(edges, packs, t);
    }
  }

  lemma MaskedHasNamesake(c: seq<Pack>, capacity: nat, p: nat) returns (i: nat)
    requires p < |c| && Masked(c, capacity, p)
    ensures i < p && c[i].stem == c[p].stem
  {
    OrderMembers(c, p);
    assert c[p].stem in Order(c, p);
    i :| 0 <= i < p && c[i].stem == c[p].stem;
  }

  lemma NamesakesPass(tools: Tools, c: seq<Pack>, view: View, i: nat, k: nat)
    requires i < k < |c| && KeysTellApart(c) && c[i].stem == c[k].stem
    ensures Passes(tools, c, view, i) <==> Passes(tools, c, view, k)
  {}

  /** When keys tell candidates apart, none is masked that the rule would have shown. */
  lemma AnswerIsRule(tools: Tools, c: seq<Pack>, view: View, capacity: nat)
    requires c != [] && KeysTellApart(c)
    ensures Answer(tools, c, view, capacity) == Rule(tools, c, view, 0)
  {
    var k := RuleShowsFirst(tools, c, view, 0);
    if Masked(c, capacity, k) {
      var i := MaskedHasNamesake(c, capacity, k);
      NamesakesPass(tools, c, view, i, k);
    }
    AnsweringIs(tools, c, view, capacity, k);
  }

  lemma AnsweringIs(tools: Tools, c: seq<Pack>, view: View, capacity: nat, k: nat)
    requires k < |c| && !Passes(tools, c, view, k) && !Masked(c, capacity, k)
    requires forall j | 0 <= j < k :: Passes(tools, c, view, j) || Masked(c, capacity, j)
    ensures Answering(tools, c, view, capacity, 0) == k
  {}

  /**
   * Whatever was asked before, with whatever cache size, a tile is the one the rule without a cache
   * gives in the current style; running out of candidates never happens.
   */
  lemma CacheIsTransparent(s: Setup, requests: seq<Request>, tile: Requested)
    requires AllKeysTellApart(s.edges, s.packs)
    ensures var state := AfterRequests(s, requests);
            var view := View(tile, s.size, state.style);
            && state.style == StyleAfter(s, requests)
            && Response(s, state, tile) == FreshRender(s.tools, s.edges, s.packs, view)
            && Response(s, state, tile) != Err(NoPackRendered)
  {
    var state := AfterRequests(s, requests);
    var view := View(tile, s.size, state.style);
    var c := PacksFor(s.edges, s.packs, tile);
    StaysEarned(s, requests);
    AnswerAfter(s, requests, tile);
    if c != [] {
      assert KeysTellApart(c);
      AnswerIsRule(s.tools, c, view, s.capacity);
      RuleNeverRunsOut(s.tools, c, view);
    }
  }

  /** Every tile served by the host tools is a PNG that reads back as the image one candidate's renderer drew. */
  lemma ServedTileIsAnImage(
    s: Setup, requests: seq<Request>, tile: Requested, crc: Png.Crc, zip: Png.Codec,
    unzip: seq<Byte> -> Option<seq<Byte>>) returns (pack: Option<Pack>)
    requires Png.Inverse(zip, unzip)
    ensures var host := s.(tools := HostTools(s.tools.render, crc, zip));
            var state := AfterRequests(host, requests);
            var r := Response(host, state, tile);
            r.Ok? ==>
              && pack.Some? && pack.value in PacksFor(s.edges, s.packs, tile)
              && DrewWhat(s.tools, pack.value, View(tile, s.size, state.style), r.value, crc, unzip)
  {
    var host := s.(tools := HostTools(s.tools.render, crc, zip));
    var state := AfterRequests(host, requests);
    var view := View(tile, s.size, state.style);
    var c := PacksFor(s.edges, s.packs, tile);
    pack := None;
    AnswerAfter(host, requests, tile);
    var k := Answering(host.tools, c, view, s.capacity, 0);
    if k < |c| {
      pack := Some(c[k]);
      if Shown(host.tools, c[k], view).Ok? { ShownIsAnImage(host.tools, c[k], view, crc, zip, unzip); }
    }
  }

  /** The PNG reads back as the image in the pack's render. */
  predicate DrewWhat(
    tools: Tools, pack: Pack, view: View, png: seq<Byte>, crc: Png.Crc, unzip: seq<Byte> -> Option<seq<Byte>>)
  {
    var ppm := tools.render(pack.archive, view);
    ppm.Ok? && Ppm.Parse(ppm.value).Ok? && Png.ReadPng(png, crc, unzip) == Some(Ppm.Parse(ppm.value).value)
  }

  lemma ShownIsAnImage(
    tools: Tools, pack: Pack, view: View, crc: Png.Crc, zip: Png.Codec, unzip: seq<Byte> -> Option<seq<Byte>>)
    requires tools == HostTools(tools.render, crc, zip) && Png.Inverse(zip, unzip) && Shown(tools, pack, view).Ok?
    ensures DrewWhat(tools, pack, view, Shown(tools, pack, view).value, crc, unzip)
  {
    var ppm := tools.render(pack.archive, view).value;
    assert tools.toPng(ppm) == Png.PpmToPng(ppm, crc, zip);
    Png.PngRoundTrip(ppm, crc, zip, unzip);
  }

  // ---------------------------------------------------------------------------------------
  // What the request handler answers
  // ---------------------------------------------------------------------------------------

  datatype Status = Delivered(png: seq<Byte>) | NotFound | Failed(error: RenderError)

  /** do_GET, for the three numbers of a tile's path. */
  function Get(s: Setup, state: ServerState, z: int, x: int, y: int): Status {
    if z < 0 || z > MAX_ZOOM || !(0 <= x < Pow2(z)) || !(0 <= y < Pow2(z)) then NotFound
    else
      var r := Response(s, state, Tile(z, x, y));
      if r.Ok? then Delivered(r.value) else if r.error == NoPackCovers then NotFound else Failed(r.error)
  }

  /**
   After any requests the answer is "not found" exactly for numbers that name no tile of zoom 0 to 31 and for tiles
   no pack has a place of; any other tile is delivered as the rule gives it, or fails as the rule does.
   */
  lemma NotFoundIff(s: Setup, requests: seq<Request>, z: int, x: int, y: int)
    requires NorthFirst(s.edges) && DistinctStems(s.packs) && forall p <- s.packs :: Upright(p)
    ensures var state := AfterRequests(s, requests);
            var status := Get(s, state, z, x, y);
            var named := 0 <= z <= 31 && 0 <= x < Pow2(z) && 0 <= y < Pow2(z);
            && (status == NotFound <==> (named ==> forall p <- s.packs :: !Meets(s.edges, p, Tile(z, x, y))))
            && (status != NotFound ==>
                  var rule := FreshRender(s.tools, s.edges, s.packs, View(Tile(z, x, y), s.size, state.style));
                  status == if rule.Ok? then Delivered(rule.value) else Failed(rule.error))
  {
    if 0 <= z <= 31 && 0 <= x < Pow2(z) && 0 <= y < Pow2(z) { TileStatus(s, requests, Tile(z, x, y)); }
  }

  lemma TileStatus(s: Setup, requests: seq<Request>, tile: Requested)
    requires NorthFirst(s.edges) && DistinctStems(s.packs) && forall p <- s.packs :: Upright(p)
    ensures var state := AfterRequests(s, requests);
            var rule := FreshRender(s.tools, s.edges, s.packs, View(tile, s.size, state.style));
            && Response(s, state, tile) == rule
            && (rule == Err(NoPackCovers) <==> forall p <- s.packs :: !Meets(s.edges, p, tile))
  {
    var c := PacksFor(s.edges, s.packs, tile);
    DistinctStemsTellApart(s.edges, s.packs);
    CacheIsTransparent(s, requests, tile);
    CandidatesMeet(s.edges, s.packs, tile);
    if c != [] {
      assert c[0] in c;
      RuleFindsPack(s.tools, c, View(tile, s.size, AfterRequests(s, requests).style));
    }
  }

  lemma RuleFindsPack(tools: Tools, c: seq<Pack>, view: View)
    requires c != []
    ensures Rule(tools, c, view, 0) != Err(NoPackCovers)
  {
    var k := RuleShowsFirst(tools, c, view, 0);
  }
}
