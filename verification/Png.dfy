/** Empty renders, and the PNG a tile becomes: an independent reader gets the image back. */
module Png {
  import opened Prelude
  import opened Ppm

  // ---------------------------------------------------------------------------------------
  // Empty renders
  // ---------------------------------------------------------------------------------------

  function Repeated(unit: seq<Byte>, times: nat): (r: seq<Byte>)
    ensures |r| == |unit| * times
  {
    if times == 0 then []
    else
      assert |unit| * times == |unit| + |unit| * (times - 1);
      unit + Repeated(unit, times - 1)
  }

  /** is_empty_render. */
  function IsEmptyRender(ppm: seq<Byte>): bool {
    var parsed := Parse(ppm);
    if parsed.Err? then false
    else
      var data := parsed.value.pixels;
      var count := parsed.value.width * parsed.value.height;
      if count == 0 || |data| < 3 then false
      else data[..if count * 3 <= |data| then count * 3 else |data|] == Repeated(data[..3], count)
  }

  /** Pixel p of an image, in row order. */
  function Pixel(image: Image, p: nat): seq<Byte>
    requires 3 * p + 3 <= |image.pixels|
  {
    image.pixels[3 * p..3 * p + 3]
  }

  predicate OneColour(image: Image) {
    forall p, q | 0 <= p < |image.pixels| / 3 && 0 <= q < |image.pixels| / 3 ::
      Pixel(image, p) == Pixel(image, q)
  }

  lemma {:induction false} RepeatedAt(unit: seq<Byte>, times: nat, p: nat)
    requires |unit| == 3 && p < times
    ensures Repeated(unit, times)[3 * p..3 * p + 3] == unit
  {
    if p > 0 {
      RepeatedAt(unit, times - 1, p - 1);
      assert Repeated(unit, times)[3..] == Repeated(unit, times - 1);
      assert Repeated(unit, times)[3 * p..3 * p + 3] == Repeated(unit, times - 1)[3 * (p - 1)..3 * (p - 1) + 3];
    }
  }

  lemma {:induction false} RepeatedIf(unit: seq<Byte>, times: nat, data: seq<Byte>)
    requires |unit| == 3 && |data| == 3 * times
    requires forall p | 0 <= p < times :: data[3 * p..3 * p + 3] == unit
    ensures data == Repeated(unit, times)
  {
    if times > 0 {
      forall p | 0 <= p < times - 1 ensures data[3..][3 * p..3 * p + 3] == unit {
        assert data[3..][3 * p..3 * p + 3] == data[3 * (p + 1)..3 * (p + 1) + 3];
      }
      RepeatedIf(unit, times - 1, data[3..]);
      assert data[3 * 0..3 * 0 + 3] == unit;
      assert data == data[..3] + data[3..];
    }
  }

  /** A render is empty exactly when it is a readable image all of whose pixels are the same. */
  lemma EmptyIffOneColour(ppm: seq<Byte>)
    ensures IsEmptyRender(ppm) <==> Parse(ppm).Ok? && OneColour(Parse(ppm).value)
  {
    if Parse(ppm).Ok? {
      var image := Parse(ppm).value;
      var count := image.width * image.height;
      var unit := image.pixels[..3];
      ParsedSize(ppm);
      assert image.pixels[..count * 3] == image.pixels;
      if IsEmptyRender(ppm) {
        forall p, q | 0 <= p < |image.pixels| / 3 && 0 <= q < |image.pixels| / 3
          ensures Pixel(image, p) == Pixel(image, q)
        {
          RepeatedAt(unit, count, p);
          RepeatedAt(unit, count, q);
        }
      } else if OneColour(image) {
        assert unit == Pixel(image, 0);
        forall p | 0 <= p < count ensures image.pixels[3 * p..3 * p + 3] == unit {
          assert Pixel(image, p) == Pixel(image, 0);
        }
        RepeatedIf(unit, count, image.pixels);
        assert false;
      }
    }
  }

  lemma ParsedSize(ppm: seq<Byte>)
    requires Parse(ppm).Ok?
    ensures var image := Parse(ppm).value;
            && image.width > 0 && image.height > 0
            && |image.pixels| == PixelBytes(image.width, image.height) == 3 * (image.width * image.height)
            && image.width * image.height > 0
  {
    var image := Parse(ppm).value;
    PixelBytesIs(image.width, image.height);
    Positive(image.width, image.height);
  }

  lemma Positive(a: nat, b: nat)
    requires a > 0 && b > 0
    ensures a * b > 0
  {}

  // ---------------------------------------------------------------------------------------
  // PNG files
  // ---------------------------------------------------------------------------------------

  const U32_LIMIT := 0x1_0000_0000

  /** struct.pack(">I", n). */
  function PackU32(n: nat): seq<Byte>
    requires n < U32_LIMIT
  {
    [n / 256 / 256 / 256, n / 256 / 256 % 256, n / 256 % 256, n % 256]
  }

  function UnpackU32(bytes: seq<Byte>): (n: nat)
    requires |bytes| == 4
    ensures n < U32_LIMIT
  {
    ((bytes[0] as int * 256 + bytes[1]) * 256 + bytes[2]) * 256 + bytes[3]
  }

  lemma PackRoundTrip(n: nat)
    requires n < U32_LIMIT
    ensures UnpackU32(PackU32(n)) == n
  {}

  type Crc = seq<Byte> -> nat
  type Codec = seq<Byte> -> seq<Byte>

  datatype Chunk = Chunk(tag: seq<Byte>, payload: seq<Byte>)

  const IHDR: seq<Byte> := [73, 72, 68, 82]
  const IDAT: seq<Byte> := [73, 68, 65, 84]
  const IEND: seq<Byte> := [73, 69, 78, 68]
  const SIGNATURE: seq<Byte> := [0x89, 80, 78, 71, 13, 10, 26, 10]

  predicate Fits(c: Chunk) {
    |c.tag| == 4 && |c.payload| < U32_LIMIT
  }

  /** _png_chunk. */
  function WriteChunk(c: Chunk, crc: Crc): seq<Byte>
    requires Fits(c)
  {
    PackU32(|c.payload|) + c.tag + c.payload + PackU32(crc(c.tag + c.payload) % U32_LIMIT)
  }

  function WriteChunks(chunks: seq<Chunk>, crc: Crc): seq<Byte>
    requires forall c <- chunks :: Fits(c)
  {
    if chunks == [] then [] else WriteChunk(chunks[0], crc) + WriteChunks(chunks[1..], crc)
  }

  /** The chunk at the front of the data, and the bytes behind it; its length and checksum must agree. */
  function FirstChunk(data: seq<Byte>, crc: Crc): (r: Option<(Chunk, seq<Byte>)>)
    ensures r.Some? ==> |r.value.1| < |data|
  {
    if |data| < 12 then None
    else
      var end := 8 + UnpackU32(data[..4]);
      if |data| < end + 4 then None
      else
        var c := Chunk(data[4..8], data[8..end]);
        if UnpackU32(data[end..end + 4]) == crc(c.tag + c.payload) % U32_LIMIT then Some((c, data[end + 4..])) else None
  }

  /** A PNG reader's first half: nothing but sound chunks up to the end of the file. */
  function ReadChunks(data: seq<Byte>, crc: Crc): Option<seq<Chunk>> {
    if data == [] then Some([])
    else
      var first := FirstChunk(data, crc);
      if first.None? then None
      else
        var rest := ReadChunks(first.value.1, crc);
        if rest.Some? then Some([first.value.0] + rest.value) else None
  }

  lemma FirstChunkRoundTrip(c: Chunk, crc: Crc, tail: seq<Byte>)
    requires Fits(c)
    ensures FirstChunk(WriteChunk(c, crc) + tail, crc) == Some((c, tail))
  {
    var data := WriteChunk(c, crc) + tail;
    var sum := crc(c.tag + c.payload) % U32_LIMIT;
    var end := 8 + |c.payload|;
    PackRoundTrip(|c.payload|);
    PackRoundTrip(sum);
    assert data[..4] == PackU32(|c.payload|);
    assert data[4..8] == c.tag;
    assert data[8..end] == c.payload;
    assert data[end..end + 4] == PackU32(sum);
    assert data[end + 4..] == tail;
  }

  lemma {:induction false} ChunksRoundTrip(chunks: seq<Chunk>, crc: Crc)
    requires forall c <- chunks :: Fits(c)
    ensures ReadChunks(WriteChunks(chunks, crc), crc) == Some(chunks)
  {
    if chunks != [] {
      var tail := WriteChunks(chunks[1..], crc);
      ChunksRoundTrip(chunks[1..], crc);
      FirstChunkRoundTrip(chunks[0], crc, tail);
      assert [chunks[0]] + chunks[1..] == chunks;
    }
  }

  // ---------------------------------------------------------------------------------------
  // Scanlines
  // ---------------------------------------------------------------------------------------

  /** The first `rows` rows, each behind a filter byte of 0. */
  function Scanlines(pixels: seq<Byte>, width: nat, rows: nat): (raw: seq<Byte>)
    requires PixelBytes(width, rows) <= |pixels|
    decreases rows
  {
    if rows == 0 then []
    else
      var at := PixelBytes(width, rows - 1);
      Scanlines(pixels, width, rows - 1) + ([0] + pixels[at..at + 3 * width])
  }

  /** A reader's second half: every row must be there and be unfiltered, and nothing else. */
  function Unfiltered(raw: seq<Byte>, width: nat, rows: nat): Option<seq<Byte>>
    decreases rows
  {
    if rows == 0 then if raw == [] then Some([]) else None
    else
      var k := |raw| - 1 - 3 * width;
      if k < 0 || raw[k] != 0 then None
      else
        var before := Unfiltered(raw[..k], width, rows - 1);
        if before.Some? then Some(before.value + raw[k + 1..]) else None
  }

  lemma Splits(a: seq<Byte>, b: seq<Byte>)
    ensures (a + b)[..|a|] == a && (a + b)[|a|..] == b
  {}

  lemma {:induction false} ScanlinesRoundTrip(pixels: seq<Byte>, width: nat, rows: nat)
    requires PixelBytes(width, rows) <= |pixels|
    ensures Unfiltered(Scanlines(pixels, width, rows), width, rows) == Some(pixels[..PixelBytes(width, rows)])
    decreases rows
  {
    if rows > 0 {
      ScanlinesRoundTrip(pixels, width, rows - 1);
      var at := PixelBytes(width, rows - 1);
      var above := Scanlines(pixels, width, rows - 1);
      var raw := Scanlines(pixels, width, rows);
      var row := pixels[at..at + 3 * width];
      Splits(above, [0] + row);
      assert ([0] + row)[1..] == row;
      assert raw[|above| + 1..] == raw[|above|..][1..];
      assert pixels[..at] + row == pixels[..at + 3 * width];
    }
  }

  // ---------------------------------------------------------------------------------------
  // The whole file
  // ---------------------------------------------------------------------------------------

  datatype PngError = BadPpm(error: PpmError) | TooLarge

  const RGB8: seq<Byte> := [8, 2, 0, 0, 0]

  function TileChunks(image: Image, zip: Codec): seq<Chunk>
    requires image.width < U32_LIMIT && image.height < U32_LIMIT
    requires |image.pixels| == PixelBytes(image.width, image.height)
  {
    [Chunk(IHDR, PackU32(image.width) + PackU32(image.height) + RGB8),
     Chunk(IDAT, zip(Scanlines(image.pixels, image.width, image.height))),
     Chunk(IEND, [])]
  }

  /** _ppm_to_png; a dimension or a payload too large for 32 bits makes struct.pack raise. */
  function PpmToPng(ppm: seq<Byte>, crc: Crc, zip: Codec): Result<seq<Byte>, PngError> {
    var parsed := Parse(ppm);
    if parsed.Err? then Err(BadPpm(parsed.error))
    else
      var image := parsed.value;
      if image.width >= U32_LIMIT || image.height >= U32_LIMIT then Err(TooLarge)
      else
        var chunks := TileChunks(image, zip);
        if |chunks[1].payload| >= U32_LIMIT then Err(TooLarge)
        else Ok(SIGNATURE + WriteChunks(chunks, crc))
  }

  /** The payloads of the IDAT chunks among the chunks between the first and the last, in order. */
  function Data(chunks: seq<Chunk>): seq<Byte> {
    if chunks == [] then []
    else (if chunks[0].tag == IDAT then chunks[0].payload else []) + Data(chunks[1..])
  }

  /** A reader of 8-bit RGB files: IHDR first, IEND last, the IDAT payloads between them unpacked and unfiltered. */
  function FromChunks(chunks: seq<Chunk>, unzip: seq<Byte> -> Option<seq<Byte>>): Option<Image> {
    if |chunks| < 2 then None
    else
      var (first, last) := (chunks[0], chunks[|chunks| - 1]);
      if first.tag != IHDR || |first.payload| != 13 || first.payload[8..] != RGB8 || last != Chunk(IEND, []) then None
      else
        var (width, height) := (UnpackU32(first.payload[..4]), UnpackU32(first.payload[4..8]));
        var raw := unzip(Data(chunks[1..|chunks| - 1]));
        var pixels := if raw.Some? then Unfiltered(raw.value, width, height) else None;
        if pixels.None? then None else Some(Image(width, height, pixels.value))
  }

  function ReadPng(png: seq<Byte>, crc: Crc, unzip: seq<Byte> -> Option<seq<Byte>>): Option<Image> {
    if !(SIGNATURE <= png) then None
    else
      var chunks := ReadChunks(png[8..], crc);
      if chunks.None? then None else FromChunks(chunks.value, unzip)
  }

  ghost predicate Inverse(zip: Codec, unzip: seq<Byte> -> Option<seq<Byte>>) {
    forall raw :: unzip(zip(raw)) == Some(raw)
  }

  lemma TileHeader(image: Image)
    requires image.width < U32_LIMIT && image.height < U32_LIMIT
    ensures var payload := PackU32(image.width) + PackU32(image.height) + RGB8;
            && |payload| == 13 && payload[8..] == RGB8
            && UnpackU32(payload[..4]) == image.width && UnpackU32(payload[4..8]) == image.height
  {
    var payload := PackU32(image.width) + PackU32(image.height) + RGB8;
    PackRoundTrip(image.width);
    PackRoundTrip(image.height);
    assert payload[..4] == PackU32(image.width);
    assert payload[4..8] == PackU32(image.height);
  }

  lemma FromTileChunks(image: Image, zip: Codec, unzip: seq<Byte> -> Option<seq<Byte>>)
    requires Inverse(zip, unzip) && image.width < U32_LIMIT && image.height < U32_LIMIT
    requires |image.pixels| == PixelBytes(image.width, image.height)
    ensures FromChunks(TileChunks(image, zip), unzip) == Some(image)
  {
    var chunks := TileChunks(image, zip);
    TileHeader(image);
    var raw := Scanlines(image.pixels, image.width, image.height);
    assert chunks[1..2] == [chunks[1]];
    assert Data(chunks[1..2]) == zip(raw) + Data([]);
    assert Data(chunks[1..2]) == zip(raw);
    assert unzip(zip(raw)) == Some(raw);
    ScanlinesRoundTrip(image.pixels, image.width, image.height);
    assert image.pixels[..|image.pixels|] == image.pixels;
  }

  /** A converted tile reads back as exactly the image the renderer wrote. */
  lemma PngRoundTrip(ppm: seq<Byte>, crc: Crc, zip: Codec, unzip: seq<Byte> -> Option<seq<Byte>>)
    requires Inverse(zip, unzip) && PpmToPng(ppm, crc, zip).Ok?
    ensures Parse(ppm).Ok? && ReadPng(PpmToPng(ppm, crc, zip).value, crc, unzip) == Some(Parse(ppm).value)
  {
    var image := Parse(ppm).value;
    ParsedSize(ppm);
    var chunks := TileChunks(image, zip);
    var body := WriteChunks(chunks, crc);
    assert (SIGNATURE + body)[8..] == body;
    ChunksRoundTrip(chunks, crc);
    FromTileChunks(image, zip, unzip);
  }

  // ---------------------------------------------------------------------------------------
  // The bytes themselves
  // ---------------------------------------------------------------------------------------

  /** Network byte order. */
  function BigEndian(b: seq<Byte>): int
    requires |b| == 4
  {
    0x1000000 * (b[0] as int) + 0x10000 * (b[1] as int) + 0x100 * (b[2] as int) + b[3] as int
  }

  lemma PackIsBigEndian(n: nat)
    requires n < U32_LIMIT
    ensures BigEndian(PackU32(n)) == n
  {}

  /** A chunk: length, tag, payload, checksum of tag and payload. */
  lemma ChunkBytes(c: Chunk, crc: Crc)
    requires Fits(c)
    ensures var (b, n) := (WriteChunk(c, crc), |c.payload|);
            && |b| == n + 12 && BigEndian(b[..4]) == n && b[4..8] == c.tag && b[8..8 + n] == c.payload
            && BigEndian(b[8 + n..]) == crc(c.tag + c.payload) % 0x1_0000_0000
  {
    var (b, n) := (WriteChunk(c, crc), |c.payload|);
    PackIsBigEndian(n);
    PackIsBigEndian(crc(c.tag + c.payload) % U32_LIMIT);
    assert b[..4] == PackU32(n);
    assert b[8 + n..] == PackU32(crc(c.tag + c.payload) % U32_LIMIT);
  }

  /** A filter byte of 0, then the row. */
  predicate LineAt(raw: seq<Byte>, at: nat, row: seq<Byte>) {
    at + 1 + |row| <= |raw| && raw[at] == 0 && raw[at + 1..at + 1 + |row|] == row
  }

  lemma LineStays(a: seq<Byte>, b: seq<Byte>, at: nat, row: seq<Byte>)
    requires LineAt(a, at, row)
    ensures LineAt(a + b, at, row)
  {
    assert (a + b)[at + 1..at + 1 + |row|] == a[at + 1..at + 1 + |row|];
  }

  lemma LineAdded(a: seq<Byte>, row: seq<Byte>)
    ensures LineAt(a + ([0] + row), |a|, row)
  {}

  lemma {:induction false} PixelBytesGrow(width: nat, r: nat, rows: nat)
    requires r < rows
    ensures PixelBytes(width, r) + 3 * width <= PixelBytes(width, rows)
    decreases rows
  {
    if r < rows - 1 { PixelBytesGrow(width, r, rows - 1); }
  }

  /** Row r of the scanlines stands behind the r rows before it and their filter bytes. */
  lemma {:induction false} ScanlineBytes(pixels: seq<Byte>, width: nat, rows: nat, r: nat)
    requires PixelBytes(width, rows) <= |pixels| && r < rows
    ensures PixelBytes(width, r) + 3 * width <= |pixels|
    ensures LineAt(Scanlines(pixels, width, rows), r + PixelBytes(width, r), PixelRow(pixels, width, r))
    decreases rows
  {
    PixelBytesGrow(width, rows - 1, rows);
    PixelBytesGrow(width, r, rows);
    var above := Scanlines(pixels, width, rows - 1);
    var line := PixelRow(pixels, width, rows - 1);
    assert Scanlines(pixels, width, rows) == above + ([0] + line);
    if r < rows - 1 {
      ScanlineBytes(pixels, width, rows - 1, r);
      LineStays(above, [0] + line, r + PixelBytes(width, r), PixelRow(pixels, width, r));
    } else {
      ScanlinesSize(pixels, width, rows - 1);
      LineAdded(above, line);
    }
  }

  function PixelRow(pixels: seq<Byte>, width: nat, r: nat): seq<Byte>
    requires PixelBytes(width, r) + 3 * width <= |pixels|
  {
    pixels[PixelBytes(width, r)..PixelBytes(width, r) + 3 * width]
  }

  lemma {:induction false} ScanlinesSize(pixels: seq<Byte>, width: nat, rows: nat)
    requires PixelBytes(width, rows) <= |pixels|
    ensures |Scanlines(pixels, width, rows)| == PixelBytes(width, rows) + rows
    decreases rows
  {
    if rows > 0 { ScanlinesSize(pixels, width, rows - 1); }
  }

  predicate Laid(png: seq<Byte>, image: Image, data: seq<Byte>) {
    && |png| == 57 + |data|
    && png[..16] == [0x89, 0x50, 0x4E, 0x47, 0x0D, 0x0A, 0x1A, 0x0A, 0, 0, 0, 13, 0x49, 0x48, 0x44, 0x52]
    && BigEndian(png[16..20]) == image.width && BigEndian(png[20..24]) == image.height
    && png[24..29] == [8, 2, 0, 0, 0]
    && png[37..41] == [0x49, 0x44, 0x41, 0x54] && png[41..41 + |data|] == data
    && png[45 + |data|..53 + |data|] == [0, 0, 0, 0, 0x49, 0x45, 0x4E, 0x44]
  }

  /** What a decoder elsewhere relies on: signature, IHDR with size and 8-bit RGB, one IDAT, IEND. */
  lemma PngBytes(ppm: seq<Byte>, crc: Crc, zip: Codec)
    requires PpmToPng(ppm, crc, zip).Ok?
    ensures Parse(ppm).Ok?
    ensures var (png, image) := (PpmToPng(ppm, crc, zip).value, Parse(ppm).value);
            && |image.pixels| == PixelBytes(image.width, image.height)
            && Laid(png, image, zip(Scanlines(image.pixels, image.width, image.height)))
  {
    ParsedSize(ppm);
    ImageBytes(Parse(ppm).value, crc, zip);
  }

  lemma ImageBytes(image: Image, crc: Crc, zip: Codec)
    requires image.width < U32_LIMIT && image.height < U32_LIMIT
    requires |image.pixels| == PixelBytes(image.width, image.height)
    requires |zip(Scanlines(image.pixels, image.width, image.height))| < U32_LIMIT
    ensures Laid(SIGNATURE + WriteChunks(TileChunks(image, zip), crc), image,
                 zip(Scanlines(image.pixels, image.width, image.height)))
  {
    var chunks := TileChunks(image, zip);
    var (a, b, c) := (WriteChunk(chunks[0], crc), WriteChunk(chunks[1], crc), WriteChunk(chunks[2], crc));
    ThreeChunks(chunks, crc);
    HeaderChunk(image, zip, crc);
    ChunkBytes(chunks[1], crc);
    LastChunk(crc);
    TileBytes(a, b, c, |chunks[1].payload|);
  }

  lemma LastChunk(crc: Crc)
    ensures var c := WriteChunk(Chunk(IEND, []), crc); |c| == 12 && c[..8] == [0, 0, 0, 0, 0x49, 0x45, 0x4E, 0x44]
  {
    assert PackU32(0) == [0, 0, 0, 0];
  }

  lemma ThreeChunks(chunks: seq<Chunk>, crc: Crc)
    requires |chunks| == 3 && forall c <- chunks :: Fits(c)
    ensures WriteChunks(chunks, crc)
         == WriteChunk(chunks[0], crc) + WriteChunk(chunks[1], crc) + WriteChunk(chunks[2], crc)
  {
    assert chunks[1..][1..] == [chunks[2]] && chunks[1..][0] == chunks[1];
    assert WriteChunks([chunks[2]], crc) == WriteChunk(chunks[2], crc) + WriteChunks([], crc);
  }

  lemma HeaderChunk(image: Image, zip: Codec, crc: Crc)
    requires image.width < U32_LIMIT && image.height < U32_LIMIT
    requires |image.pixels| == PixelBytes(image.width, image.height)
    ensures var a := WriteChunk(TileChunks(image, zip)[0], crc);
            && |a| == 25 && a[..8] == [0, 0, 0, 13, 0x49, 0x48, 0x44, 0x52] && a[16..21] == [8, 2, 0, 0, 0]
            && BigEndian(a[8..12]) == image.width && BigEndian(a[12..16]) == image.height
  {
    var a := WriteChunk(TileChunks(image, zip)[0], crc);
    PackIsBigEndian(image.width);
    PackIsBigEndian(image.height);
    assert PackU32(13) == [0, 0, 0, 13];
    assert a[8..12] == PackU32(image.width);
    assert a[12..16] == PackU32(image.height);
  }

  /** Where the pieces of the three chunks stand in the file. */
  lemma TileBytes(a: seq<Byte>, b: seq<Byte>, c: seq<Byte>, n: nat)
    requires |a| == 25 && |b| == n + 12 && |c| == 12
    ensures var png := SIGNATURE + (a + b + c);
            && |png| == 57 + n && png[..8] == SIGNATURE && png[..16] == SIGNATURE + a[..8]
            && png[16..20] == a[8..12] && png[20..24] == a[12..16] && png[24..29] == a[16..21]
            && png[37..41] == b[4..8] && png[41..41 + n] == b[8..8 + n] && png[45 + n..53 + n] == c[..8]
  {}
}
