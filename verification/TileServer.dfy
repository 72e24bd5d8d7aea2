/** Resolving a tile to packs and rendering it through the cache. */
module TileServer {
  import opened Prelude
  import Png
  import opened LruCache

  // ---------------------------------------------------------------------------------------
  // Packs
  // ---------------------------------------------------------------------------------------

  datatype Box = Box(west: real, south: real, east: real, north: real)

  /** A manifest and the archive beside it, both by path; the stem is the file name they share. */
  datatype Pack = Pack(
    stem: string, archive: string, manifest: string, minZoom: int, maxZoom: int, bounds: Option<Box>)

  datatype Tile = Tile(z: nat, x: nat, y: nat)

  const MAX_ZOOM := 31

  /** The tiles the request handler lets through. */
  predicate Requestable(t: Tile) {
    t.z <= MAX_ZOOM && t.x < Pow2(t.z) && t.y < Pow2(t.z)
  }

  type Requested = t: Tile | Requestable(t) witness Tile(0, 0, 0)

  /** Latitude of the upper edge of row y at zoom z. */
  type Edges = (nat, nat) -> real

  /** tile_bounds_deg. */
  function BoxOf(edges: Edges, t: Tile): Box {
    var n := Pow2(t.z) as real;
    Box(t.x as real / n * 360.0 - 180.0, edges(t.z, t.y + 1), (t.x + 1) as real / n * 360.0 - 180.0, edges(t.z, t.y))
  }

  /** The tiles of a zoom level meet edge to edge and span the whole circle of longitude. */
  lemma TilesMeet(edges: Edges, z: nat, x: nat, y: nat)
    ensures BoxOf(edges, Tile(z, x, y)).east == BoxOf(edges, Tile(z, x + 1, y)).west
    ensures BoxOf(edges, Tile(z, x, y)).south == BoxOf(edges, Tile(z, x, y + 1)).north
    ensures BoxOf(edges, Tile(z, 0, y)).west == -180.0
    ensures BoxOf(edges, Tile(z, Pow2(z) - 1, y)).east == 180.0
    ensures BoxOf(edges, Tile(z, x, 0)).north == edges(z, 0)
    ensures BoxOf(edges, Tile(z, x, Pow2(z) - 1)).south == edges(z, Pow2(z))
  {
    var n := Pow2(z) as real;
    assert 0.0 / n == 0.0 && n / n == 1.0;
    assert (Pow2(z) - 1 + 1) as real == n;
  }

  /** All tiles of a zoom level are equally wide, and the next level halves them. */
  lemma TileWidth(edges: Edges, t: Tile)
    ensures var box := BoxOf(edges, t); box.east > box.west && (box.east - box.west) * Pow2(t.z) as real == 360.0
  {
    var (n, x) := (Pow2(t.z) as real, t.x as real);
    assert (x + 1.0) / n - x / n == 1.0 / n;
    assert (x + 1.0) / n * 360.0 - x / n * 360.0 == 1.0 / n * 360.0;
  }

  /** Latitudes fall as row numbers grow. */
  ghost predicate NorthFirst(edges: Edges) {
    forall z: nat, a: nat, b: nat | a <= b :: edges(z, b) <= edges(z, a)
  }

  predicate Covers(edges: Edges, p: Pack, t: Tile) {
    && p.minZoom <= t.z <= p.maxZoom
    && (p.bounds.None?
        || var (tile, b) := (BoxOf(edges, t), p.bounds.value);
           !(tile.east < b.west || tile.west > b.east || tile.north < b.south || tile.south > b.north))
  }

  predicate Contains(edges: Edges, p: Pack, t: Tile) {
    && p.minZoom <= t.z <= p.maxZoom && p.bounds.Some?
    && var (tile, b) := (BoxOf(edges, t), p.bounds.value);
       tile.west >= b.west && tile.east <= b.east && tile.south >= b.south && tile.north <= b.north
  }

  /** A place on the map. */
  datatype Place = Place(longitude: real, latitude: real)

  predicate Within(p: Place, b: Box) {
    b.west <= p.longitude <= b.east && b.south <= p.latitude <= b.north
  }

  /** The bounds of a pack, if it has any, are the right way round. */
  predicate Upright(p: Pack) {
    p.bounds.Some? ==> p.bounds.value.west <= p.bounds.value.east && p.bounds.value.south <= p.bounds.value.north
  }

  /** The pack has the tile's zoom, and the tile and its bounds have a place in common. */
  ghost predicate Meets(edges: Edges, p: Pack, t: Tile) {
    && p.minZoom <= t.z <= p.maxZoom
    && (p.bounds.Some? ==> exists q :: Within(q, p.bounds.value) && Within(q, BoxOf(edges, t)))
  }

  /** The pack has the tile's zoom, and its bounds hold every place of the tile. */
  ghost predicate Holds(edges: Edges, p: Pack, t: Tile) {
    && p.minZoom <= t.z <= p.maxZoom
    && p.bounds.Some? && forall q | Within(q, BoxOf(edges, t)) :: Within(q, p.bounds.value)
  }

  lemma TileUpright(edges: Edges, t: Tile)
    requires NorthFirst(edges)
    ensures BoxOf(edges, t).west <= BoxOf(edges, t).east && BoxOf(edges, t).south <= BoxOf(edges, t).north
  {
    TileWidth(edges, t);
    assert edges(t.z, t.y + 1) <= edges(t.z, t.y);
  }

  function Later(a: real, b: real): real { if a < b then b else a }

  /** Covering is having a place in common. */
  lemma CoversIff(edges: Edges, p: Pack, t: Tile)
    requires NorthFirst(edges) && Upright(p)
    ensures Covers(edges, p, t) <==> Meets(edges, p, t)
  {
    TileUpright(edges, t);
    if Covers(edges, p, t) && p.bounds.Some? {
      var (tile, b) := (BoxOf(edges, t), p.bounds.value);
      var q := Place(Later(tile.west, b.west), Later(tile.south, b.south));
      assert Within(q, b) && Within(q, tile);
    }
  }

  /** Containing is holding every place, whichever way round the bounds are. */
  lemma ContainsIff(edges: Edges, p: Pack, t: Tile)
    requires NorthFirst(edges)
    ensures Contains(edges, p, t) <==> Holds(edges, p, t)
  {
    TileUpright(edges, t);
    if Holds(edges, p, t) {
      var tile := BoxOf(edges, t);
      var (low, high) := (Place(tile.west, tile.south), Place(tile.east, tile.north));
      assert Within(low, tile) && Within(high, tile);
      assert Within(low, p.bounds.value) && Within(high, p.bounds.value);
    }
  }

  function Containing(edges: Edges, packs: seq<Pack>, t: Tile): (r: seq<Pack>)
    ensures forall p :: p in r <==> p in packs && Contains(edges, p, t)
  {
    if packs == [] then []
    else (if Contains(edges, packs[0], t) then [packs[0]] else []) + Containing(edges, packs[1..], t)
  }

  /** The packs that cover the tile and are not already listed. */
  function Overlapping(edges: Edges, packs: seq<Pack>, listed: seq<Pack>, t: Tile): (r: seq<Pack>)
    ensures forall p :: p in r <==> p in packs && p !in listed && Covers(edges, p, t)
  {
    if packs == [] then []
    else
      (if packs[0] !in listed && Covers(edges, packs[0], t) then [packs[0]] else [])
      + Overlapping(edges, packs[1..], listed, t)
  }

  /** TileServer.packs_for. */
  function PacksFor(edges: Edges, packs: seq<Pack>, t: Tile): seq<Pack> {
    var containing := Containing(edges, packs, t);
    containing + Overlapping(edges, packs, containing, t)
  }

  /** TileServer.pack_for. */
  method PackFor(edges: Edges, packs: seq<Pack>, t: Tile) returns (r: Option<Pack>)
    ensures r == First(PacksFor(edges, packs, t))
    ensures r.None? ==> forall p <- packs :: !Contains(edges, p, t) && !Covers(edges, p, t)
    ensures r.Some? ==> exists i | 0 <= i < |packs| :: packs[i] == r.value && Chosen(edges, packs, t, i)
  {
    for i := 0 to |packs|
      invariant forall j | 0 <= j < i :: !Contains(edges, packs[j], t)
    {
      if Contains(edges, packs[i], t) {
        FirstContaining(edges, packs, t, i);
        return Some(packs[i]);
      }
    }
    NoneContain(edges, packs, t);
    for i := 0 to |packs|
      invariant forall j | 0 <= j < i :: !Covers(edges, packs[j], t)
    {
      if Covers(edges, packs[i], t) {
        FirstOverlapping(edges, packs, t, i);
        return Some(packs[i]);
      }
    }
    NoneCover(edges, packs, t);
    return None;
  }

  /** The first pack to contain the tile or, when none does, the first to cover it. */
  predicate Chosen(edges: Edges, packs: seq<Pack>, t: Tile, i: nat)
    requires i < |packs|
  {
    || (Contains(edges, packs[i], t) && forall j | 0 <= j < i :: !Contains(edges, packs[j], t))
    || (&& Covers(edges, packs[i], t) && (forall j | 0 <= j < i :: !Covers(edges, packs[j], t))
        && forall p <- packs :: !Contains(edges, p, t))
  }

  function First(packs: seq<Pack>): Option<Pack> {
    if packs == [] then None else Some(packs[0])
  }

  lemma {:induction false} FirstContaining(edges: Edges, packs: seq<Pack>, t: Tile, i: nat)
    requires i < |packs| && Contains(edges, packs[i], t)
    requires forall j | 0 <= j < i :: !Contains(edges, packs[j], t)
    ensures First(Containing(edges, packs, t)) == Some(packs[i])
  {
    if i > 0 { FirstContaining(edges, packs[1..], t, i - 1); }
  }

  lemma {:induction false} NoneContain(edges: Edges, packs: seq<Pack>, t: Tile)
    requires forall j | 0 <= j < |packs| :: !Contains(edges, packs[j], t)
    ensures Containing(edges, packs, t) == []
  {
    if packs != [] { NoneContain(edges, packs[1..], t); }
  }

  lemma {:induction false} NoneCover(edges: Edges, packs: seq<Pack>, t: Tile)
    requires forall j | 0 <= j < |packs| :: !Covers(edges, packs[j], t)
    ensures Overlapping(edges, packs, [], t) == []
  {
    if packs != [] { NoneCover(edges, packs[1..], t); }
  }

  lemma {:induction false} FirstOverlapping(edges: Edges, packs: seq<Pack>, t: Tile, i: nat)
    requires i < |packs| && Covers(edges, packs[i], t)
    requires forall j | 0 <= j < i :: !Covers(edges, packs[j], t)
    ensures First(Overlapping(edges, packs, [], t)) == Some(packs[i])
  {
    if i > 0 { FirstOverlapping(edges, packs[1..], t, i - 1); }
  }

  /** A pack that contains a tile covers it, so the first pass never picks what the second would not. */
  lemma ContainsImpliesCovers(edges: Edges, p: Pack, t: Tile)
    requires NorthFirst(edges) && Contains(edges, p, t)
    ensures Covers(edges, p, t)
  {
    var n := Pow2(t.z) as real;
    assert t.x as real / n <= (t.x + 1) as real / n;
    assert edges(t.z, t.y + 1) <= edges(t.z, t.y);
  }

  /** Packs are told apart by the names their cache keys carry. */
  ghost predicate DistinctStems(packs: seq<Pack>) {
    forall i, j | 0 <= i < j < |packs| :: packs[i].stem != packs[j].stem
  }

  lemma {:induction false} ContainingDistinct(edges: Edges, packs: seq<Pack>, t: Tile)
    requires DistinctStems(packs)
    ensures DistinctStems(Containing(edges, packs, t))
  {
    if packs != [] {
      ContainingDistinct(edges, packs[1..], t);
      var rest := Containing(edges, packs[1..], t);
      forall k | 0 <= k < |rest| ensures rest[k].stem != packs[0].stem {
        assert rest[k] in packs[1..];
      }
    }
  }

  lemma {:induction false} OverlappingDistinct(edges: Edges, packs: seq<Pack>, listed: seq<Pack>, t: Tile)
    requires DistinctStems(packs)
    ensures DistinctStems(Overlapping(edges, packs, listed, t))
  {
    if packs != [] {
      OverlappingDistinct(edges, packs[1..], listed, t);
      var rest := Overlapping(edges, packs[1..], listed, t);
      forall k | 0 <= k < |rest| ensures rest[k].stem != packs[0].stem {
        assert rest[k] in packs[1..];
      }
    }
  }

  lemma CandidatesDistinct(edges: Edges, packs: seq<Pack>, t: Tile)
    requires DistinctStems(packs)
    ensures DistinctStems(PacksFor(edges, packs, t))
  {
    var containing := Containing(edges, packs, t);
    var overlapping := Overlapping(edges, packs, containing, t);
    ContainingDistinct(edges, packs, t);
    OverlappingDistinct(edges, packs, containing, t);
    forall i, j | 0 <= i < |containing| && 0 <= j < |overlapping|
      ensures containing[i].stem != overlapping[j].stem
    {
      assert containing[i] in containing && overlapping[j] in overlapping;
      var a :| 0 <= a < |packs| && packs[a] == containing[i];
      var b :| 0 <= b < |packs| && packs[b] == overlapping[j];
    }
  }

  /**
   The candidates of a tile are exactly the packs that have a place of it, once each, and those that hold all of it
   come first.
   */
  lemma CandidatesMeet(edges: Edges, packs: seq<Pack>, t: Tile)
    requires NorthFirst(edges) && DistinctStems(packs) && forall p <- packs :: Upright(p)
    ensures var c := PacksFor(edges, packs, t);
            && DistinctStems(c)
            && (forall p :: p in c <==> p in packs && Meets(edges, p, t))
            && forall i, j | 0 <= i < j < |c| && Holds(edges, c[j], t) :: Holds(edges, c[i], t)
  {
    var c := PacksFor(edges, packs, t);
    CandidatesComplete(edges, packs, t);
    forall p ensures p in c <==> p in packs && Meets(edges, p, t) {
      if p in packs { CoversIff(edges, p, t); }
    }
    forall p <- c ensures Contains(edges, p, t) <==> Holds(edges, p, t) {
      ContainsIff(edges, p, t);
    }
  }

  /** Every pack that covers the tile is a candidate, once, and those that contain it come first. */
  lemma CandidatesComplete(edges: Edges, packs: seq<Pack>, t: Tile)
    requires NorthFirst(edges) && DistinctStems(packs)
    ensures var c := PacksFor(edges, packs, t);
            && DistinctStems(c)
            && (forall p :: p in c <==> p in packs && Covers(edges, p, t))
            && forall i, j | 0 <= i < j < |c| && Contains(edges, c[j], t) :: Contains(edges, c[i], t)
  {
    var containing := Containing(edges, packs, t);
    var overlapping := Overlapping(edges, packs, containing, t);
    var c := PacksFor(edges, packs, t);
    CandidatesDistinct(edges, packs, t);
    forall p ensures p in c <==> p in packs && Covers(edges, p, t) {
      if Contains(edges, p, t) { ContainsImpliesCovers(edges, p, t); }
    }
    forall k | 0 <= k < |c| ensures Contains(edges, c[k], t) <==> k < |containing| {
      assert c[k] in if k < |containing| then containing else overlapping;
    }
  }

  ghost predicate Precedes(packs: seq<Pack>, p: Pack, q: Pack) {
    exists a, b :: 0 <= a < b < |packs| && packs[a] == p && packs[b] == q
  }

  lemma PrecedesOn(packs: seq<Pack>, p: Pack, q: Pack)
    requires packs != [] && (Precedes(packs[1..], p, q) || (p == packs[0] && q in packs[1..]))
    ensures Precedes(packs, p, q)
  {
    if Precedes(packs[1..], p, q) {
      var a, b :| 0 <= a < b < |packs[1..]| && packs[1..][a] == p && packs[1..][b] == q;
      assert packs[a + 1] == p && packs[b + 1] == q;
    } else {
      var b :| 0 <= b < |packs[1..]| && packs[1..][b] == q;
      assert packs[b + 1] == q;
    }
  }

  /** The packs' own order, which is that of their priority, is kept. */
  ghost predicate KeepsOrder(c: seq<Pack>, packs: seq<Pack>) {
    forall i, j | 0 <= i < j < |c| :: Precedes(packs, c[i], c[j])
  }

  lemma KeepsOrderOn(head: seq<Pack>, rest: seq<Pack>, packs: seq<Pack>)
    requires packs != [] && KeepsOrder(rest, packs[1..]) && head in {[], [packs[0]]}
    requires forall p <- rest :: p in packs[1..]
    ensures KeepsOrder(head + rest, packs)
  {
    var c := head + rest;
    forall i, j | 0 <= i < j < |c| ensures Precedes(packs, c[i], c[j]) {
      assert c[j] == rest[j - |head|] && c[j] in rest;
      if i >= |head| { assert c[i] == rest[i - |head|] && Precedes(packs[1..], c[i], c[j]); }
      PrecedesOn(packs, c[i], c[j]);
    }
  }

  lemma {:induction false} ContainingInOrder(edges: Edges, packs: seq<Pack>, t: Tile)
    ensures KeepsOrder(Containing(edges, packs, t), packs)
  {
    if packs != [] {
      ContainingInOrder(edges, packs[1..], t);
      KeepsOrderOn(if Contains(edges, packs[0], t) then [packs[0]] else [], Containing(edges, packs[1..], t), packs);
    }
  }

  lemma {:induction false} OverlappingInOrder(edges: Edges, packs: seq<Pack>, listed: seq<Pack>, t: Tile)
    ensures KeepsOrder(Overlapping(edges, packs, listed, t), packs)
  {
    if packs != [] {
      OverlappingInOrder(edges, packs[1..], listed, t);
      KeepsOrderOn(if packs[0] !in listed && Covers(edges, packs[0], t) then [packs[0]] else [],
                   Overlapping(edges, packs[1..], listed, t), packs);
    }
  }

  /** Among the candidates that contain the tile, and among those that do not, the packs' order is kept. */
  lemma CandidatesInOrder(edges: Edges, packs: seq<Pack>, t: Tile)
    ensures var c := PacksFor(edges, packs, t);
            forall i, j | 0 <= i < j < |c| && (Contains(edges, c[i], t) <==> Contains(edges, c[j], t)) ::
              Precedes(packs, c[i], c[j])
  {
    var containing := Containing(edges, packs, t);
    var overlapping := Overlapping(edges, packs, containing, t);
    var c := PacksFor(edges, packs, t);
    ContainingInOrder(edges, packs, t);
    OverlappingInOrder(edges, packs, containing, t);
    forall k | 0 <= k < |c| ensures Contains(edges, c[k], t) <==> k < |containing| {
      assert c[k] in if k < |containing| then containing else overlapping;
    }
    forall i, j | 0 <= i < j < |c| && (Contains(edges, c[i], t) <==> Contains(edges, c[j], t))
      ensures Precedes(packs, c[i], c[j])
    {
      if j < |containing| {
        assert c[i] == containing[i] && c[j] == containing[j];
      } else {
        assert c[i] == overlapping[i - |containing|] && c[j] == overlapping[j - |containing|];
      }
    }
  }

  // ---------------------------------------------------------------------------------------
  // Rendering
  // ---------------------------------------------------------------------------------------

  datatype RenderError = NoPackCovers | ToolFailed(detail: string) | NotConverted(error: Png.PngError) | NoPackRendered

  /** What is asked of a pack: the tile and how to draw it. */
  datatype View = View(tile: Tile, size: nat, style: Option<string>)

  /** The command-line renderer: a function of an archive's path and a view. */
  type Renderer = (string, View) -> Result<seq<Byte>, string>

  /** What the renderer writes is checked for emptiness and converted. */
  datatype Tools = Tools(
    render: Renderer,
    isEmpty: seq<Byte> -> bool,
    toPng: seq<Byte> -> Result<seq<Byte>, Png.PngError>)

  /** What the server uses: the two conversions of module Png. */
  function HostTools(render: Renderer, crc: Png.Crc, zip: Png.Codec): Tools {
    Tools(render, Png.IsEmptyRender, ppm => Png.PpmToPng(ppm, crc, zip))
  }

  datatype Key = Key(stem: string, view: View)

  datatype Cached = NoData | Image(png: seq<Byte>)

  type Cache = seq<Entry<Key, Cached>>

  datatype Served = Served(result: Result<seq<Byte>, RenderError>, cache: Cache)

  function ToPng(tools: Tools, ppm: seq<Byte>): Result<seq<Byte>, RenderError> {
    var png := tools.toPng(ppm);
    if png.Ok? then Ok(png.value) else Err(NotConverted(png.error))
  }

  /** Candidate i draws nothing and others follow. */
  predicate Passes(tools: Tools, packs: seq<Pack>, view: View, i: nat)
    requires i < |packs|
  {
    var ppm := tools.render(packs[i].archive, view);
    i < |packs| - 1 && ppm.Ok? && tools.isEmpty(ppm.value)
  }

  function Shown(tools: Tools, pack: Pack, view: View): Result<seq<Byte>, RenderError> {
    var ppm := tools.render(pack.archive, view);
    if ppm.Err? then Err(ToolFailed(ppm.error)) else ToPng(tools, ppm.value)
  }

  /** The rule without a cache: the first candidate that draws something, else the last one. */
  function Rule(tools: Tools, packs: seq<Pack>, view: View, i: nat): Result<seq<Byte>, RenderError>
    requires i < |packs|
    decreases |packs| - i
  {
    if Passes(tools, packs, view, i) then Rule(tools, packs, view, i + 1) else Shown(tools, packs[i], view)
  }

  function FreshRender(tools: Tools, edges: Edges, packs: seq<Pack>, view: View): Result<seq<Byte>, RenderError> {
    var candidates := PacksFor(edges, packs, view.tile);
    if candidates == [] then Err(NoPackCovers) else Rule(tools, candidates, view, 0)
  }

  /** TileServer.render, from the i-th candidate on. */
  function Serve(tools: Tools, packs: seq<Pack>, view: View, i: nat, cache: Cache, capacity: nat): Served
    decreases |packs| - i
  {
    if i >= |packs| then Served(Err(NoPackRendered), cache)
    else
      var key := Key(packs[i].stem, view);
      var cached := Lookup(cache, key);
      if cached == Some(NoData) then Serve(tools, packs, view, i + 1, Touched(cache, key), capacity)
      else if cached.Some? then Served(Ok(cached.value.png), Touched(cache, key))
      else
        var ppm := tools.render(packs[i].archive, view);
        if ppm.Err? then Served(Err(ToolFailed(ppm.error)), cache)
        else if i == |packs| - 1 || !tools.isEmpty(ppm.value) then
          var png := ToPng(tools, ppm.value);
          Served(png, if png.Ok? then Stored(cache, capacity, key, Image(png.value)) else cache)
        else Serve(tools, packs, view, i + 1, Stored(cache, capacity, key, NoData), capacity)
  }

  function Rendered(tools: Tools, edges: Edges, packs: seq<Pack>, view: View, cache: Cache, capacity: nat): Served {
    var candidates := PacksFor(edges, packs, view.tile);
    if candidates == [] then Served(Err(NoPackCovers), cache) else Serve(tools, candidates, view, 0, cache, capacity)
  }

  /** The constructor refuses an empty pack list. */
  class Server {
    const tools: Tools
    const edges: Edges
    const packs: seq<Pack>
    const size: nat
    const cache: TileCache<Key, Cached>
    var style: Option<string>

    constructor (tools: Tools, edges: Edges, packs: seq<Pack>, style: Option<string>, size: nat, capacity: int)
      requires packs != []
      ensures this.tools == tools && this.edges == edges && this.packs == packs && this.size == size
      ensures this.style == style && fresh(cache) && cache.entries == []
      ensures cache.capacity == if capacity < 1 then 1 else capacity
    {
      this.tools, this.edges, this.packs, this.size, this.style := tools, edges, packs, size, style;
      this.cache := new TileCache(capacity);
    }

    method SetStyle(style: Option<string>)
      modifies this, cache
      ensures this.style == style
      ensures cache.entries == if style == old(this.style) then old(cache.entries) else []
    {
      if style != this.style {
        this.style := style;
        cache.Clear();
      }
    }

    method Render(tile: Tile) returns (r: Result<seq<Byte>, RenderError>)
      modifies cache
      ensures Served(r, cache.entries)
           == Rendered(tools, edges, packs, View(tile, size, style), old(cache.entries), cache.capacity)
    {
      var view := View(tile, size, style);
      var candidates := PacksFor(edges, packs, tile);
      if candidates == [] {
        return Err(NoPackCovers);
      }
      for index := 0 to |candidates|
        invariant Serve(tools, candidates, view, 0, old(cache.entries), cache.capacity)
               == Serve(tools, candidates, view, index, cache.entries, cache.capacity)
      {
        var pack := candidates[index];
        var key := Key(pack.stem, view);
        var cached := cache.Get(key);
        if cached.Some? {
          if cached.value.NoData? {
            continue;
          }
          return Ok(cached.value.png);
        }
        var ppm := tools.render(pack.archive, view);
        if ppm.Err? {
          return Err(ToolFailed(ppm.error));
        }
        if index == |candidates| - 1 || !tools.isEmpty(ppm.value) {
          var png := ToPng(tools, ppm.value);
          if png.Ok? {
            cache.Put(key, Image(png.value));
          }
          return png;
        }
        cache.Put(key, NoData);
      }
      return Err(NoPackRendered);
    }
  }

  // ---------------------------------------------------------------------------------------
  // The rule, and whole histories of requests
  // ---------------------------------------------------------------------------------------

  /** The rule shows exactly the first candidate that is not passed over, failures included. */
  lemma {:induction false} RuleShowsFirst(tools: Tools, packs: seq<Pack>, view: View, i: nat) returns (k: nat)
    requires i < |packs|
    ensures i <= k < |packs| && !Passes(tools, packs, view, k)
    ensures forall j | i <= j < k :: Passes(tools, packs, view, j)
    ensures Rule(tools, packs, view, i) == Shown(tools, packs[k], view)
    decreases |packs| - i
  {
    k := i;
    if Passes(tools, packs, view, i) { k := RuleShowsFirst(tools, packs, view, i + 1); }
  }

  lemma RuleNeverRunsOut(tools: Tools, packs: seq<Pack>, view: View)
    requires packs != []
    ensures Rule(tools, packs, view, 0) != Err(NoPackRendered)
  {
    var k := RuleShowsFirst(tools, packs, view, 0);
  }

  datatype Request = Render(tile: Requested) | SetStyle(style: Option<string>)

  datatype ServerState = ServerState(style: Option<string>, cache: Cache)

  /** What the cache makes of any capacity it is given. */
  type Capacity = n: nat | n >= 1 witness 1

  datatype Setup = Setup(
    tools: Tools, edges: Edges, packs: seq<Pack>, size: nat, capacity: Capacity, style: Option<string>)

  function AfterRequest(s: Setup, state: ServerState, request: Request): ServerState {
    match request
    case Render(tile) =>
      var view := View(tile, s.size, state.style);
      state.(cache := Rendered(s.tools, s.edges, s.packs, view, state.cache, s.capacity).cache)
    case SetStyle(style) => if style == state.style then state else ServerState(style, [])
  }

  function AfterRequests(s: Setup, requests: seq<Request>): ServerState {
    if requests == [] then ServerState(s.style, [])
    else AfterRequest(s, AfterRequests(s, requests[..|requests| - 1]), requests[|requests| - 1])
  }

  /** The style last asked for. */
  function StyleAfter(s: Setup, requests: seq<Request>): Option<string> {
    if requests == [] then s.style
    else if requests[|requests| - 1].SetStyle? then requests[|requests| - 1].style
    else StyleAfter(s, requests[..|requests| - 1])
  }

  // ---------------------------------------------------------------------------------------
  // What requests do to the cache
  // ---------------------------------------------------------------------------------------

  type CacheOp = Op<Key, Cached>

  /** The gets and puts of one render, from the i-th candidate on. */
  function ServeOps(tools: Tools, packs: seq<Pack>, view: View, i: nat, cache: Cache, capacity: nat): seq<CacheOp>
    decreases |packs| - i
  {
    if i >= |packs| then []
    else
      var key := Key(packs[i].stem, view);
      var cached := Lookup(cache, key);
      if cached == Some(NoData) then [Get(key)] + ServeOps(tools, packs, view, i + 1, Touched(cache, key), capacity)
      else if cached.Some? then [Get(key)]
      else if Passes(tools, packs, view, i) then
        [Get(key), Put(key, NoData)]
        + ServeOps(tools, packs, view, i + 1, Stored(cache, capacity, key, NoData), capacity)
      else
        var shown := Shown(tools, packs[i], view);
        if shown.Ok? then [Get(key), Put(key, Image(shown.value))] else [Get(key)]
  }

  function RequestOps(s: Setup, state: ServerState, request: Request): seq<CacheOp> {
    match request
    case SetStyle(style) => if style == state.style then [] else [Clear]
    case Render(tile) =>
      ServeOps(s.tools, PacksFor(s.edges, s.packs, tile), View(tile, s.size, state.style), 0, state.cache, s.capacity)
  }

  /** Every cache operation a list of requests comes to, in order. */
  function OpsOf(s: Setup, requests: seq<Request>): seq<CacheOp> {
    if requests == [] then []
    else
      var n := |requests| - 1;
      OpsOf(s, requests[..n]) + RequestOps(s, AfterRequests(s, requests[..n]), requests[n])
  }

  lemma AfterOpsSnoc(capacity: nat, ops: seq<CacheOp>, op: CacheOp)
    ensures AfterOps(capacity, ops + [op]) == AfterOp(AfterOps(capacity, ops), capacity, op)
  {
    assert (ops + [op])[..|ops|] == ops;
  }

  /** A get that finds nothing, then a put. */
  lemma AfterMiss(capacity: nat, ops: seq<CacheOp>, key: Key, value: Cached)
    requires Lookup(AfterOps(capacity, ops), key).None?
    ensures AfterOps(capacity, ops + [Get(key)]) == AfterOps(capacity, ops)
    ensures AfterOps(capacity, ops + [Get(key), Put(key, value)])
         == Stored(AfterOps(capacity, ops), capacity, key, value)
  {
    AfterOpsSnoc(capacity, ops, Get(key));
    AfterOpsSnoc(capacity, ops + [Get(key)], Put(key, value));
    assert ops + [Get(key), Put(key, value)] == ops + [Get(key)] + [Put(key, value)];
  }

  lemma {:induction false} ServeFollowsOps(
    tools: Tools, packs: seq<Pack>, view: View, i: nat, capacity: nat, ops: seq<CacheOp>)
    ensures var cache := AfterOps(capacity, ops);
            Serve(tools, packs, view, i, cache, capacity).cache
            == AfterOps(capacity, ops + ServeOps(tools, packs, view, i, cache, capacity))
    decreases |packs| - i
  {
    var cache := AfterOps(capacity, ops);
    if i >= |packs| {
      assert ops + [] == ops;
    } else {
      var key := Key(packs[i].stem, view);
      AfterOpsSnoc(capacity, ops, Get(key));
      if Lookup(cache, key) == Some(NoData) {
        PassFollowsOps(tools, packs, view, i, capacity, ops, [Get(key)]);
      } else if Lookup(cache, key).None? && Passes(tools, packs, view, i) {
        AfterMiss(capacity, ops, key, NoData);
        PassFollowsOps(tools, packs, view, i, capacity, ops, [Get(key), Put(key, NoData)]);
      } else if Lookup(cache, key).None? && Shown(tools, packs[i], view).Ok? {
        AfterMiss(capacity, ops, key, Image(Shown(tools, packs[i], view).value));
      }
    }
  }

  /** One candidate passed over, and the rest. */
  lemma PassFollowsOps(
    tools: Tools, packs: seq<Pack>, view: View, i: nat, capacity: nat, ops: seq<CacheOp>, step: seq<CacheOp>)
    requires i < |packs|
    ensures var cache := AfterOps(capacity, ops + step);
            Serve(tools, packs, view, i + 1, cache, capacity).cache
            == AfterOps(capacity, ops + (step + ServeOps(tools, packs, view, i + 1, cache, capacity)))
    decreases |packs| - i, 0
  {
    ServeFollowsOps(tools, packs, view, i + 1, capacity, ops + step);
    Associative(ops, step, ServeOps(tools, packs, view, i + 1, AfterOps(capacity, ops + step), capacity));
  }

  /** A server's cache is what its requests' gets, puts and clears leave: the most recently used of their keys. */
  lemma {:induction false} ServerUsesCache(s: Setup, requests: seq<Request>)
    ensures AfterRequests(s, requests).cache == AfterOps(s.capacity, OpsOf(s, requests))
    ensures Keys(AfterRequests(s, requests).cache) == Last(Recency(s.capacity, OpsOf(s, requests)), s.capacity)
    ensures |AfterRequests(s, requests).cache| <= s.capacity
  {
    HoldsMostRecent(s.capacity, OpsOf(s, requests));
    if requests != [] {
      var n := |requests| - 1;
      ServerUsesCache(s, requests[..n]);
      RequestFollowsOps(s, AfterRequests(s, requests[..n]), OpsOf(s, requests[..n]), requests[n]);
    }
  }

  lemma RequestFollowsOps(s: Setup, state: ServerState, ops: seq<CacheOp>, request: Request)
    requires state.cache == AfterOps(s.capacity, ops)
    ensures AfterRequest(s, state, request).cache == AfterOps(s.capacity, ops + RequestOps(s, state, request))
  {
    match request
    case SetStyle(style) =>
      if style == state.style {
        assert ops + [] == ops;
      } else {
        AfterOpsSnoc(s.capacity, ops, Clear);
      }
    case Render(tile) =>
      var view := View(tile, s.size, state.style);
      ServeFollowsOps(s.tools, PacksFor(s.edges, s.packs, tile), view, 0, s.capacity, ops);
  }
}
