/** Which pack lists the tile cache serves faithfully: the exact condition, for any names and any capacity. */
module SharedStems {
  import opened Prelude
  import Ppm
  import Png
  import opened TileServer
  import opened TileAnswers

  // ---------------------------------------------------------------------------------------
  // Two renders
  // ---------------------------------------------------------------------------------------

  /** "P6 2 1 255" and one row of two pixels. */
  function TwoPixels(pixels: seq<Byte>): seq<Byte>
    requires |pixels| == 6
  {
    Ppm.Written(HEADER, pixels)
  }

  const HEADER := Ppm.Layout([0x20], [0x32], [0x20], [0x31], [0x20], [0x32, 0x35, 0x35], 0x0A, [])

  const BLANK: seq<Byte> := TwoPixels([0, 0, 0, 0, 0, 0])
  const INK: seq<Byte> := TwoPixels([0, 0, 0, 255, 255, 255])

  lemma TwoPixelsParsed(pixels: seq<Byte>)
    requires |pixels| == 6
    ensures Ppm.Parse(TwoPixels(pixels)) == Ok(Ppm.Image(2, 1, pixels))
  {
    HeaderSpells();
    Ppm.PixelBytesIs(2, 1);
    Ppm.LayoutIsParsed(HEADER, Ppm.Image(2, 1, pixels));
  }

  lemma HeaderSpells()
    ensures Ppm.Legal(HEADER)
    ensures Ppm.Decimal(HEADER.d1) == 2 && Ppm.Decimal(HEADER.d2) == 1 && Ppm.Decimal(HEADER.d3) == 255
  {
    var d := HEADER.d3;
    assert d[..2] == [0x32, 0x35] && d[..2][..1] == [0x32] && d[..1][..0] == [];
    assert Ppm.Decimal([0x32]) == 2 && Ppm.Decimal([0x32, 0x35]) == 25;
    assert HEADER.g1[1..] == [];
  }

  /** Two pixels are an empty render exactly when they are equal. */
  lemma TwoPixelsEmptyIff(pixels: seq<Byte>)
    requires |pixels| == 6
    ensures Png.IsEmptyRender(TwoPixels(pixels)) <==> pixels[..3] == pixels[3..]
  {
    TwoPixelsParsed(pixels);
    Png.EmptyIffOneColour(TwoPixels(pixels));
    OneColourOfTwo(Ppm.Image(2, 1, pixels));
  }

  lemma OneColourOfTwo(image: Ppm.Image)
    requires |image.pixels| == 6
    ensures Png.OneColour(image) <==> image.pixels[..3] == image.pixels[3..]
  {
    assert Png.Pixel(image, 0) == image.pixels[..3] && Png.Pixel(image, 1) == image.pixels[3..];
    if image.pixels[..3] == image.pixels[3..] {
      forall p, q | 0 <= p < |image.pixels| / 3 && 0 <= q < |image.pixels| / 3
        ensures Png.Pixel(image, p) == Png.Pixel(image, q)
      {
        assert (p == 0 || p == 1) && (q == 0 || q == 1);
      }
    }
  }

  lemma OnlyInkDraws()
    ensures Png.IsEmptyRender(BLANK) && !Png.IsEmptyRender(INK)
  {
    var blank: seq<Byte> := [0, 0, 0, 0, 0, 0];
    var ink: seq<Byte> := [0, 0, 0, 255, 255, 255];
    TwoPixelsEmptyIff(blank);
    TwoPixelsEmptyIff(ink);
    assert blank[..3] == blank[3..] && ink[..3][0] != ink[3..][0];
  }

  /** A few bytes compress into fewer than 2^32. */
  ghost predicate Compact(zip: Png.Codec) {
    forall raw | |raw| <= 7 :: |zip(raw)| < Png.U32_LIMIT
  }

  lemma InkConverts(crc: Png.Crc, zip: Png.Codec)
    requires Compact(zip)
    ensures Png.PpmToPng(INK, crc, zip).Ok?
  {
    var pixels: seq<Byte> := [0, 0, 0, 255, 255, 255];
    TwoPixelsParsed(pixels);
    Ppm.PixelBytesIs(2, 1);
    var raw := Png.Scanlines(pixels, 2, 1);
    assert Png.Scanlines(pixels, 2, 0) == [] && |raw| == 7;
  }

  lemma PngsDiffer(crc: Png.Crc, zip: Png.Codec, unzip: seq<Byte> -> Option<seq<Byte>>)
    requires Png.Inverse(zip, unzip) && Compact(zip)
    ensures Png.PpmToPng(INK, crc, zip) != Png.PpmToPng(BLANK, crc, zip)
  {
    InkConverts(crc, zip);
    TwoPixelsParsed([0, 0, 0, 0, 0, 0]);
    TwoPixelsParsed([0, 0, 0, 255, 255, 255]);
    Png.PngRoundTrip(INK, crc, zip, unzip);
    if Png.PpmToPng(BLANK, crc, zip).Ok? { Png.PngRoundTrip(BLANK, crc, zip, unzip); }
  }

  // ---------------------------------------------------------------------------------------
  // The condition
  // ---------------------------------------------------------------------------------------

  /** One of the first m candidates has this archive. */
  predicate Occurs(c: seq<Pack>, m: nat, archive: string)
    requires m <= |c|
  {
    exists i | 0 <= i < m :: c[i].archive == archive
  }

  /** Once candidate m is missed, the next one looked at that need not be blank has the same archive. */
  predicate Recovers(c: seq<Pack>, capacity: nat, m: nat)
    requires m < |c|
  {
    exists p | m < p < |c| ::
      && !Masked(c, capacity, p) && c[p].archive == c[m].archive
      && forall q | m < q < p :: Masked(c, capacity, q) || Occurs(c, m, c[q].archive)
  }

  /** A masked candidate does no harm: its archive was tried before, or is tried again in time. */
  predicate Harmless(c: seq<Pack>, capacity: nat, m: nat)
    requires m < |c|
  {
    m < |c| - 1 && (Occurs(c, m, c[m].archive) || Recovers(c, capacity, m))
  }

  predicate TellsApart(c: seq<Pack>, capacity: nat) {
    forall m | 0 <= m < |c| && Masked(c, capacity, m) :: Harmless(c, capacity, m)
  }

  // ---------------------------------------------------------------------------------------
  // It is enough
  // ---------------------------------------------------------------------------------------

  /** A candidate the rule shows is its archive's first, unless it is the last of all. */
  lemma ShownIsNew(tools: Tools, c: seq<Pack>, view: View, k: nat)
    requires k < |c| - 1 && !Passes(tools, c, view, k) && forall j | 0 <= j < k :: Passes(tools, c, view, j)
    ensures !Occurs(c, k, c[k].archive)
  {
    if Occurs(c, k, c[k].archive) {
      var i :| 0 <= i < k && c[i].archive == c[k].archive;
      SameArchivePasses(tools, c, view, i, k);
    }
  }

  lemma SameArchivePasses(tools: Tools, c: seq<Pack>, view: View, i: nat, q: nat)
    requires i < |c| && q < |c| - 1 && c[i].archive == c[q].archive && Passes(tools, c, view, i)
    ensures Passes(tools, c, view, q)
  {}

  /** A missed candidate that recovers is answered for by its own archive. */
  lemma RecoveredAnswer(tools: Tools, c: seq<Pack>, view: View, capacity: nat, k: nat)
    requires k < |c| - 1 && !Passes(tools, c, view, k) && forall j | 0 <= j < k :: Passes(tools, c, view, j)
    requires Masked(c, capacity, k) && Recovers(c, capacity, k)
    ensures Answer(tools, c, view, capacity) == Shown(tools, c[k], view)
  {
    var p :| k < p < |c| && !Masked(c, capacity, p) && c[p].archive == c[k].archive
             && forall q | k < q < p :: Masked(c, capacity, q) || Occurs(c, k, c[q].archive);
    forall q | k < q < p ensures Passes(tools, c, view, q) || Masked(c, capacity, q) {
      if !Masked(c, capacity, q) {
        var i :| 0 <= i < k && c[i].archive == c[q].archive;
        SameArchivePasses(tools, c, view, i, q);
      }
    }
    if Passes(tools, c, view, p) { SameArchivePasses(tools, c, view, p, k); }
    AnsweringIs(tools, c, view, capacity, p);
  }

  lemma TellsApartIsEnough(tools: Tools, c: seq<Pack>, view: View, capacity: nat)
    requires c != [] && TellsApart(c, capacity)
    ensures Answer(tools, c, view, capacity) == Rule(tools, c, view, 0)
  {
    var k := RuleShowsFirst(tools, c, view, 0);
    if Masked(c, capacity, k) {
      assert Harmless(c, capacity, k);
      ShownIsNew(tools, c, view, k);
      RecoveredAnswer(tools, c, view, capacity, k);
    } else {
      AnsweringIs(tools, c, view, capacity, k);
    }
  }

  // ---------------------------------------------------------------------------------------
  // It is necessary
  // ---------------------------------------------------------------------------------------

  const BLANKS: Renderer := (archive, view) => Ok(BLANK)

  /** The last candidate masked: when nothing draws, nothing at all is served. */
  lemma LastNameClash(c: seq<Pack>, view: View, capacity: nat, crc: Png.Crc, zip: Png.Codec)
    requires c != [] && Masked(c, capacity, |c| - 1)
    ensures var tools := HostTools(BLANKS, crc, zip);
            && Answer(tools, c, view, capacity) == Err(NoPackRendered)
            && Rule(tools, c, view, 0) != Err(NoPackRendered)
  {
    var tools := HostTools(BLANKS, crc, zip);
    OnlyInkDraws();
    RuleNeverRunsOut(tools, c, view);
    NothingAnswers(tools, c, view, capacity);
  }

  /** When every candidate is blank only the last can answer, and it is masked. */
  lemma NothingAnswers(tools: Tools, c: seq<Pack>, view: View, capacity: nat)
    requires c != [] && Masked(c, capacity, |c| - 1) && tools.render == BLANKS && tools.isEmpty(BLANK)
    ensures Answer(tools, c, view, capacity) == Err(NoPackRendered)
  {
    assert forall j | 0 <= j < |c| - 1 :: Passes(tools, c, view, j);
  }

  /** Blank before candidate m, ink for its archive, a failing tool for every other one. */
  ghost function InkAt(c: seq<Pack>, m: nat): Renderer
    requires m < |c|
  {
    (archive, view) =>
      if Occurs(c, m, archive) then Ok(BLANK) else if archive == c[m].archive then Ok(INK) else Err("failed")
  }

  /** A masked candidate that draws, when all before it are blank, is missed and not recovered. */
  lemma MaskedIsMissed(
    c: seq<Pack>, view: View, capacity: nat, m: nat, crc: Png.Crc, zip: Png.Codec,
    unzip: seq<Byte> -> Option<seq<Byte>>)
    requires m < |c| - 1 && Masked(c, capacity, m) && !Harmless(c, capacity, m)
    requires Png.Inverse(zip, unzip) && Compact(zip)
    ensures var tools := HostTools(InkAt(c, m), crc, zip);
            Answer(tools, c, view, capacity) != Rule(tools, c, view, 0)
  {
    var tools := HostTools(InkAt(c, m), crc, zip);
    OnlyInkDraws();
    InkConverts(crc, zip);
    PngsDiffer(crc, zip, unzip);
    forall j | 0 <= j < m ensures Passes(tools, c, view, j) {
      assert Occurs(c, m, c[j].archive);
    }
    RuleIs(tools, c, view, m);
    assert Rule(tools, c, view, 0) == ToPng(tools, INK);
    var k := Answering(tools, c, view, capacity, 0);
    if k < |c| {
      OtherIsShown(tools, c, view, capacity, m, k);
    }
  }

  lemma RuleIs(tools: Tools, c: seq<Pack>, view: View, m: nat)
    requires m < |c| && !Passes(tools, c, view, m) && forall j | 0 <= j < m :: Passes(tools, c, view, j)
    ensures Rule(tools, c, view, 0) == Shown(tools, c[m], view)
  {
    var k := RuleShowsFirst(tools, c, view, 0);
  }

  /** What answers in its place is another archive, or a blank one kept because it is the last. */
  lemma OtherIsShown(tools: Tools, c: seq<Pack>, view: View, capacity: nat, m: nat, k: nat)
    requires m < |c| - 1 && Masked(c, capacity, m) && !Harmless(c, capacity, m)
    requires tools.render == InkAt(c, m) && tools.isEmpty(BLANK) && !tools.isEmpty(INK)
    requires k < |c| && k == Answering(tools, c, view, capacity, 0)
    requires forall j | 0 <= j < m :: Passes(tools, c, view, j)
    ensures Shown(tools, c[k], view) in {ToPng(tools, BLANK), Err(ToolFailed("failed"))}
  {
    assert k > m;
    forall q | m < q < k ensures Masked(c, capacity, q) || Occurs(c, m, c[q].archive) {
      assert Passes(tools, c, view, q) || Masked(c, capacity, q);
    }
    assert c[k].archive != c[m].archive;
  }

  /** The same server with another renderer. */
  function With(s: Setup, render: Renderer, crc: Png.Crc, zip: Png.Codec): (r: Setup)
    ensures r.packs == s.packs && r.edges == s.edges && r.tools == HostTools(render, crc, zip)
  {
    s.(tools := HostTools(render, crc, zip))
  }

  /** No history of requests shows a difference. */
  ghost predicate Transparent(s: Setup) {
    forall requests: seq<Request>, tile: Requested :: ServesFresh(s, requests, tile)
  }

  ghost predicate ServesFresh(s: Setup, requests: seq<Request>, tile: Requested) {
    var state := AfterRequests(s, requests);
    Response(s, state, tile) == FreshRender(s.tools, s.edges, s.packs, View(tile, s.size, state.style))
  }

  ghost predicate AllTellApart(s: Setup) {
    forall t: Requested :: TellsApart(PacksFor(s.edges, s.packs, t), s.capacity)
  }

  lemma TellApartIsTransparent(s: Setup)
    requires AllTellApart(s)
    ensures Transparent(s)
  {
    forall requests: seq<Request>, tile: Requested ensures ServesFresh(s, requests, tile) {
      AnswerAfter(s, requests, tile);
      var c := PacksFor(s.edges, s.packs, tile);
      assert TellsApart(c, s.capacity);
      if c != [] {
        TellsApartIsEnough(s.tools, c, View(tile, s.size, AfterRequests(s, requests).style), s.capacity);
      }
    }
  }

  /** A tile the rule would give another answer for is one a fresh server gets wrong. */
  lemma WrongAnswerIsSeen(s: Setup, t: Requested)
    requires var (c, view) := (PacksFor(s.edges, s.packs, t), View(t, s.size, s.style));
             c != [] && Answer(s.tools, c, view, s.capacity) != Rule(s.tools, c, view, 0)
    ensures !Transparent(s)
  {
    AnswerAfter(s, [], t);
    assert !ServesFresh(s, [], t);
  }

  lemma ClashIsSeen(
    s: Setup, t: Requested, m: nat, crc: Png.Crc, zip: Png.Codec, unzip: seq<Byte> -> Option<seq<Byte>>)
    returns (render: Renderer)
    requires Png.Inverse(zip, unzip) && Compact(zip)
    requires var c := PacksFor(s.edges, s.packs, t);
             m < |c| && Masked(c, s.capacity, m) && !Harmless(c, s.capacity, m)
    ensures !Transparent(With(s, render, crc, zip))
  {
    var c := PacksFor(s.edges, s.packs, t);
    if m == |c| - 1 {
      render := BLANKS;
      LastNameClash(c, View(t, s.size, s.style), s.capacity, crc, zip);
    } else {
      render := InkAt(c, m);
      MaskedIsMissed(c, View(t, s.size, s.style), s.capacity, m, crc, zip, unzip);
    }
    WrongAnswerIsSeen(With(s, render, crc, zip), t);
  }

  /**
   With the program's own emptiness test and PNG writer: the cache is invisible, for every renderer and every
   history, exactly when every masked candidate of a tile is harmless. Nothing is assumed of names or capacity.
   */
  lemma TransparentIff(s: Setup, crc: Png.Crc, zip: Png.Codec, unzip: seq<Byte> -> Option<seq<Byte>>)
    requires Png.Inverse(zip, unzip) && Compact(zip)
    ensures (forall render :: Transparent(With(s, render, crc, zip))) <==> AllTellApart(s)
  {
    if AllTellApart(s) {
      forall render ensures Transparent(With(s, render, crc, zip)) {
        TellApartIsTransparent(With(s, render, crc, zip));
      }
    } else {
      var t: Requested :| !TellsApart(PacksFor(s.edges, s.packs, t), s.capacity);
      var c := PacksFor(s.edges, s.packs, t);
      var m :| 0 <= m < |c| && Masked(c, s.capacity, m) && !Harmless(c, s.capacity, m);
      var render := ClashIsSeen(s, t, m, crc, zip, unzip);
    }
  }

  // ---------------------------------------------------------------------------------------
  // With room for all candidates
  // ---------------------------------------------------------------------------------------

  /** The archive's path ends in the stem: packs of one archive have one name. */
  ghost predicate NamedByArchive(packs: seq<Pack>) {
    forall p, q | p in packs && q in packs && p.archive == q.archive :: p.stem == q.stem
  }

  /** With room, a candidate is masked by any earlier one of its name. */
  lemma MaskedWithRoom(c: seq<Pack>, capacity: nat, p: nat)
    requires p < |c| <= capacity
    ensures Masked(c, capacity, p) <==> exists i :: 0 <= i < p && c[i].stem == c[p].stem
  {
    OrderMembers(c, p);
    assert Last(Order(c, p), capacity) == Order(c, p);
  }

  lemma FirstOfArchive(c: seq<Pack>, i: nat) returns (k: nat)
    requires i < |c|
    ensures k <= i && c[k].archive == c[i].archive && !Occurs(c, k, c[i].archive)
  {
    k := 0;
    while c[k].archive != c[i].archive
      invariant k <= i && !Occurs(c, k, c[i].archive)
      decreases i - k
    {
      k := k + 1;
    }
  }

  /** Two archives under one name: the one whose first candidate comes later is missed for good. */
  lemma OneNameOneArchive(c: seq<Pack>, capacity: nat, a: nat, b: nat)
    requires a < b < |c| <= capacity && c[a].stem == c[b].stem && NamedByArchive(c)
    requires !Occurs(c, b, c[b].archive)
    ensures Masked(c, capacity, b) && !Harmless(c, capacity, b)
  {
    MaskedWithRoom(c, capacity, b);
    if Recovers(c, capacity, b) {
      var p :| b < p < |c| && !Masked(c, capacity, p) && c[p].archive == c[b].archive;
      assert c[p] in c && c[b] in c;
      MaskedWithRoom(c, capacity, p);
    }
  }

  /** With room for the candidates of a tile, the condition is that keys tell them apart. */
  lemma TellsApartWithRoom(c: seq<Pack>, capacity: nat)
    requires |c| <= capacity && NamedByArchive(c)
    ensures TellsApart(c, capacity) <==> KeysTellApart(c)
  {
    if KeysTellApart(c) {
      forall m | 0 <= m < |c| && Masked(c, capacity, m) ensures Harmless(c, capacity, m) {
        var i := MaskedHasNamesake(c, capacity, m);
        assert c[i].archive == c[m].archive;
      }
    }
    if TellsApart(c, capacity) {
      forall i, j | 0 <= i < j < |c| && c[i].stem == c[j].stem
        ensures c[i].archive == c[j].archive && j < |c| - 1
      {
        MaskedWithRoom(c, capacity, j);
        assert Harmless(c, capacity, j);
        if c[i].archive != c[j].archive { TwoArchivesClash(c, capacity, i, j); }
      }
    }
  }

  lemma TwoArchivesClash(c: seq<Pack>, capacity: nat, i: nat, j: nat)
    requires i < |c| <= capacity && j < |c| && NamedByArchive(c)
    requires c[i].stem == c[j].stem && c[i].archive != c[j].archive
    ensures !TellsApart(c, capacity)
  {
    var a := FirstOfArchive(c, i);
    var b := FirstOfArchive(c, j);
    assert c[a] in c && c[b] in c && c[i] in c && c[j] in c;
    if a < b { OneNameOneArchive(c, capacity, a, b); } else { OneNameOneArchive(c, capacity, b, a); }
  }

  lemma {:induction false} CandidatesFit(edges: Edges, packs: seq<Pack>, listed: seq<Pack>, t: Tile)
    requires forall p <- packs :: Contains(edges, p, t) ==> p in listed
    ensures |Containing(edges, packs, t)| + |Overlapping(edges, packs, listed, t)| <= |packs|
  {
    if packs != [] { CandidatesFit(edges, packs[1..], listed, t); }
  }

  /** With room for every pack: candidates under one name have one archive, and the last one's name is its own. */
  lemma TransparentIffKeysTellApart(s: Setup, crc: Png.Crc, zip: Png.Codec, unzip: seq<Byte> -> Option<seq<Byte>>)
    requires s.capacity >= |s.packs| && NamedByArchive(s.packs) && Png.Inverse(zip, unzip) && Compact(zip)
    ensures (forall render :: Transparent(With(s, render, crc, zip)))
       <==> AllKeysTellApart(s.edges, s.packs)
  {
    TransparentIff(s, crc, zip, unzip);
    forall t: Requested
      ensures TellsApart(PacksFor(s.edges, s.packs, t), s.capacity) <==> KeysTellApart(PacksFor(s.edges, s.packs, t))
    {
      CandidatesFit(s.edges, s.packs, Containing(s.edges, s.packs, t), t);
      TellsApartWithRoom(PacksFor(s.edges, s.packs, t), s.capacity);
    }
  }

  /** For a server whose capacity is not known the condition is the same. */
  lemma TransparentAtAnyCapacityIff(s: Setup, crc: Png.Crc, zip: Png.Codec, unzip: seq<Byte> -> Option<seq<Byte>>)
    requires NamedByArchive(s.packs) && Png.Inverse(zip, unzip) && Compact(zip)
    ensures (forall render, capacity: Capacity ::
               Transparent(With(s.(capacity := capacity), render, crc, zip)))
       <==> AllKeysTellApart(s.edges, s.packs)
  {
    if AllKeysTellApart(s.edges, s.packs) {
      forall render, capacity: Capacity
        ensures Transparent(With(s.(capacity := capacity), render, crc, zip))
      {
        KeysTellApartIsEnough(With(s.(capacity := capacity), render, crc, zip));
      }
    } else {
      var roomy := s.(capacity := |s.packs| + 1);
      TransparentIffKeysTellApart(roomy, crc, zip, unzip);
      var render :| !Transparent(With(roomy, render, crc, zip));
    }
  }

  lemma KeysTellApartIsEnough(s: Setup)
    requires AllKeysTellApart(s.edges, s.packs)
    ensures Transparent(s)
  {
    forall requests: seq<Request>, tile: Requested ensures ServesFresh(s, requests, tile) {
      CacheIsTransparent(s, requests, tile);
    }
  }
}
