/** The P6 PPM parser: a cursor over bytes, and the headers it accepts. */
module Ppm {
  import opened Prelude

  datatype Image = Image(width: nat, height: nat, pixels: seq<Byte>)

  datatype PpmError = NotP6 | MalformedHeader | UnsupportedMaxval(maxval: nat) | Truncated

  const MAGIC: seq<Byte> := [0x50, 0x36]
  const HASH: Byte := 0x23
  const NEWLINE: Byte := 0x0A

  predicate SpaceByte(b: Byte) { 9 <= b <= 13 || b == 32 }

  predicate DigitByte(b: Byte) { 48 <= b <= 57 }

  predicate AllDigits(s: seq<Byte>) {
    forall k | 0 <= k < |s| :: DigitByte(s[k])
  }

  /** Decimal value of a run of digits. */
  function Decimal(digits: seq<Byte>): nat
    requires AllDigits(digits)
  {
    if digits == [] then 0 else 10 * Decimal(digits[..|digits| - 1]) + (digits[|digits| - 1] as int - 48)
  }

  // ---------------------------------------------------------------------------------------
  // What the cursor does
  // ---------------------------------------------------------------------------------------

  function CommentEnd(data: seq<Byte>, pos: nat): (end: nat)
    requires pos <= |data|
    ensures pos <= end <= |data|
    ensures pos < |data| && data[pos] != NEWLINE ==> pos < end
    decreases |data| - pos
  {
    if pos < |data| && data[pos] != NEWLINE then CommentEnd(data, pos + 1) else pos
  }

  /** Past whitespace and comments. */
  function GapEnd(data: seq<Byte>, pos: nat): (end: nat)
    requires pos <= |data|
    ensures pos <= end <= |data|
    ensures end < |data| ==> !SpaceByte(data[end]) && data[end] != HASH
    decreases |data| - pos
  {
    if pos < |data| && SpaceByte(data[pos]) then GapEnd(data, pos + 1)
    else if pos < |data| && data[pos] == HASH then GapEnd(data, CommentEnd(data, pos))
    else pos
  }

  function DigitsEnd(data: seq<Byte>, pos: nat): (end: nat)
    requires pos <= |data|
    ensures pos <= end <= |data|
    ensures AllDigits(data[pos..end])
    ensures end < |data| ==> !DigitByte(data[end])
    decreases |data| - pos
  {
    if pos < |data| && DigitByte(data[pos]) then
      var end := DigitsEnd(data, pos + 1);
      assert data[pos..end] == [data[pos]] + data[pos + 1..end];
      end
    else pos
  }

  /** The next number and where it ends, if there is one behind the gap. */
  function NextNumber(data: seq<Byte>, pos: nat): (r: Option<(nat, nat)>)
    requires pos <= |data|
    ensures r.Some? ==> pos < r.value.1 <= |data|
  {
    var start := GapEnd(data, pos);
    var end := DigitsEnd(data, start);
    if start == end then None else Some((Decimal(data[start..end]), end))
  }

  datatype Header = Header(width: nat, height: nat, maxval: nat, end: nat)

  /** The header once the numbers still missing have been read from pos on. */
  function ReadOn(data: seq<Byte>, pos: nat, values: seq<nat>): (r: Option<Header>)
    requires pos <= |data| && |values| <= 3
    ensures r.Some? ==> pos <= r.value.end <= |data|
    decreases 3 - |values|
  {
    if |values| == 3 then Some(Header(values[0], values[1], values[2], pos))
    else
      var next := NextNumber(data, pos);
      if next.None? then None else ReadOn(data, next.value.1, values + [next.value.0])
  }

  /** Three bytes for each pixel, a row at a time. */
  function PixelBytes(width: nat, height: nat): nat {
    if height == 0 then 0 else PixelBytes(width, height - 1) + 3 * width
  }

  lemma {:induction false} PixelBytesIs(width: nat, height: nat)
    ensures PixelBytes(width, height) == width * height * 3
  {
    if height > 0 {
      PixelBytesIs(width, height - 1);
      assert width * height == width * (height - 1) + width;
    }
  }

  function Parse(data: seq<Byte>): Result<Image, PpmError> {
    if !(MAGIC <= data) then Err(NotP6)
    else
      var header := ReadOn(data, 2, []);
      if header.None? then Err(MalformedHeader) else Pixels(data, header.value)
  }

  /** The pixels start one byte behind the header; anything after them is ignored. */
  function Pixels(data: seq<Byte>, h: Header): Result<Image, PpmError>
    requires h.end <= |data|
  {
    var expected := PixelBytes(h.width, h.height);
    if h.maxval != 255 then Err(UnsupportedMaxval(h.maxval))
    else if h.width == 0 || h.height == 0 || |data| < h.end + 1 + expected then Err(Truncated)
    else Ok(Image(h.width, h.height, data[h.end + 1..h.end + 1 + expected]))
  }

  /** The cursor past whitespace and comments. */
  method SkipGap(data: seq<Byte>, from: nat) returns (pos: nat)
    requires from <= |data|
    ensures pos == GapEnd(data, from)
  {
    pos := from;
    while true
      invariant from <= pos <= |data| && GapEnd(data, pos) == GapEnd(data, from)
      decreases |data| - pos
    {
      while pos < |data| && SpaceByte(data[pos])
        invariant from <= pos <= |data| && GapEnd(data, pos) == GapEnd(data, from)
      {
        pos := pos + 1;
      }
      if !(pos < |data| && data[pos] == HASH) {
        return pos;
      }
      ghost var hash := pos;
      while pos < |data| && data[pos] != NEWLINE
        invariant hash <= pos <= |data| && CommentEnd(data, pos) == CommentEnd(data, hash)
      {
        pos := pos + 1;
      }
    }
  }

  /** The header loop of _parse_ppm_p6: three numbers after the magic. */
  method ReadHeader(data: seq<Byte>) returns (r: Option<Header>)
    requires MAGIC <= data
    ensures r == ReadOn(data, 2, [])
  {
    var pos, values := 2, [];
    while |values| < 3
      invariant 2 <= pos <= |data| && |values| <= 3
      invariant ReadOn(data, 2, []) == ReadOn(data, pos, values)
    {
      var start := SkipGap(data, pos);
      var end := start;
      while end < |data| && DigitByte(data[end])
        invariant start <= end <= |data| && DigitsEnd(data, end) == DigitsEnd(data, start)
      {
        end := end + 1;
      }
      if start == end {
        return None;
      }
      pos, values := end, values + [Decimal(data[start..end])];
    }
    return Some(Header(values[0], values[1], values[2], pos));
  }

  /** _parse_ppm_p6. */
  method ParsePpmP6(data: seq<Byte>) returns (r: Result<Image, PpmError>)
    ensures r == Parse(data)
  {
    if !(MAGIC <= data) {
      return Err(NotP6);
    }
    var header := ReadHeader(data);
    if header.None? {
      return Err(MalformedHeader);
    }
    r := TakePixels(data, header.value);
  }

  method TakePixels(data: seq<Byte>, h: Header) returns (r: Result<Image, PpmError>)
    requires h.end <= |data|
    ensures r == Pixels(data, h)
  {
    var pos := h.end + 1;
    if h.maxval != 255 {
      return Err(UnsupportedMaxval(h.maxval));
    }
    var expected := PixelBytes(h.width, h.height);
    var body := if pos <= |data| then data[pos..] else [];
    var pixels := if expected <= |body| then body[..expected] else body;
    if h.width <= 0 || h.height <= 0 || |pixels| != expected {
      return Err(Truncated);
    }
    assert pixels == data[pos..pos + expected];
    return Ok(Image(h.width, h.height, pixels));
  }

  // ---------------------------------------------------------------------------------------
  // Which byte strings that accepts
  // ---------------------------------------------------------------------------------------

  /** Whitespace and comments in any order; a comment runs from '#' to the end of its line. */
  predicate IsGap(g: seq<Byte>)
    decreases |g|
  {
    g == []
    || (SpaceByte(g[0]) && IsGap(g[1..]))
    || (g[0] == HASH && CommentEnd(g, 0) < |g| && IsGap(g[CommentEnd(g, 0)..]))
  }

  predicate IsNumber(d: seq<Byte>) {
    d != [] && AllDigits(d)
  }

  /** The positions where a file's three gaps and three numbers end. */
  datatype Cuts = Cuts(s1: nat, e1: nat, s2: nat, e2: nat, s3: nat, e3: nat)

  /** A gap, then a number that nothing continues. */
  predicate NumberAt(data: seq<Byte>, pos: nat, start: nat, end: nat) {
    && pos <= start < end <= |data| && IsGap(data[pos..start]) && IsNumber(data[start..end])
    && (end < |data| ==> !DigitByte(data[end]))
  }

  predicate HeaderAt(data: seq<Byte>, c: Cuts) {
    && 2 <= |data| && NumberAt(data, 2, c.s1, c.e1)
    && NumberAt(data, c.e1, c.s2, c.e2) && NumberAt(data, c.e2, c.s3, c.e3)
  }

  lemma {:induction false} CommentEndCut(data: seq<Byte>, from: nat, pos: nat, to: nat)
    requires from <= pos <= to <= |data|
    requires CommentEnd(data, pos) < to || CommentEnd(data[from..to], pos - from) < to - from
    ensures CommentEnd(data[from..to], pos - from) == CommentEnd(data, pos) - from
    decreases |data| - pos
  {
    if pos < to && data[pos] != NEWLINE { CommentEndCut(data, from, pos + 1, to); }
  }

  lemma {:induction false} GapEndAt(data: seq<Byte>, pos: nat, end: nat)
    requires pos <= end <= |data| && IsGap(data[pos..end])
    requires end < |data| ==> !SpaceByte(data[end]) && data[end] != HASH
    ensures GapEnd(data, pos) == end
    decreases end - pos
  {
    var g := data[pos..end];
    if g != [] {
      var k := if SpaceByte(g[0]) then 1 else CommentEnd(g, 0);
      if !SpaceByte(g[0]) { CommentEndCut(data, pos, pos, end); }
      assert g[k..] == data[pos + k..end];
      GapEndAt(data, pos + k, end);
    }
  }

  /** What the cursor skips is a gap, unless it ran into the end of the data. */
  lemma {:induction false} SkippedIsGap(data: seq<Byte>, pos: nat)
    requires pos <= |data| && GapEnd(data, pos) < |data|
    ensures IsGap(data[pos..GapEnd(data, pos)])
    decreases |data| - pos
  {
    var end := GapEnd(data, pos);
    if pos < end {
      var next := if SpaceByte(data[pos]) then pos + 1 else CommentEnd(data, pos);
      SkippedIsGap(data, next);
      var g := data[pos..end];
      assert g[next - pos..] == data[next..end];
      if !SpaceByte(data[pos]) {
        CommentEndStops(data, pos);
        CommentEndCut(data, pos, pos, end);
      }
    }
  }

  /** A comment that ends before the data does ends at its newline, which the gap also skips. */
  lemma {:induction false} CommentEndStops(data: seq<Byte>, pos: nat)
    requires pos <= |data|
    ensures CommentEnd(data, pos) < |data| ==> data[CommentEnd(data, pos)] == NEWLINE
    ensures CommentEnd(data, pos) < |data| ==> CommentEnd(data, pos) < GapEnd(data, CommentEnd(data, pos))
    decreases |data| - pos
  {
    if pos < |data| && data[pos] != NEWLINE { CommentEndStops(data, pos + 1); }
  }

  lemma {:induction false} DigitsEndAt(data: seq<Byte>, pos: nat, end: nat)
    requires pos <= end <= |data| && AllDigits(data[pos..end]) && (end < |data| ==> !DigitByte(data[end]))
    ensures DigitsEnd(data, pos) == end
    decreases end - pos
  {
    if pos < end {
      assert data[pos] == data[pos..end][0];
      assert data[pos + 1..end] == data[pos..end][1..];
      DigitsEndAt(data, pos + 1, end);
    }
  }

  /** The cursor finds a number exactly where a gap and a number stand. */
  lemma NextNumberExactly(data: seq<Byte>, pos: nat, value: nat, end: nat)
    requires pos <= |data|
    ensures NextNumber(data, pos) == Some((value, end))
       <==> exists start: nat :: NumberAt(data, pos, start, end) && Decimal(data[start..end]) == value
  {
    if NextNumber(data, pos) == Some((value, end)) {
      var start := GapEnd(data, pos);
      SkippedIsGap(data, pos);
      assert NumberAt(data, pos, start, end);
    } else if exists start: nat :: NumberAt(data, pos, start, end) && Decimal(data[start..end]) == value {
      var start: nat :| NumberAt(data, pos, start, end) && Decimal(data[start..end]) == value;
      NumberAtRead(data, pos, start, end);
      assert false;
    }
  }

  lemma NumberAtRead(data: seq<Byte>, pos: nat, start: nat, end: nat)
    requires NumberAt(data, pos, start, end)
    ensures NextNumber(data, pos) == Some((Decimal(data[start..end]), end))
  {
    assert data[start] == data[start..end][0];
    GapEndAt(data, pos, start);
    DigitsEndAt(data, start, end);
  }

  /** The three numbers of a header, one at a time. */
  lemma ReadOnIs(data: seq<Byte>, none: seq<nat>)
    requires 2 <= |data| && none == []
    ensures var a := NextNumber(data, 2);
            var b := if a.None? then None else NextNumber(data, a.value.1);
            var c := if b.None? then None else NextNumber(data, b.value.1);
            ReadOn(data, 2, none)
            == if c.None? then None else Some(Header(a.value.0, b.value.0, c.value.0, c.value.1))
  {
    var a := NextNumber(data, 2);
    if a.Some? {
      var (v1, e1) := a.value;
      assert ReadOn(data, 2, none) == ReadOn(data, e1, none + [v1]);
      var b := NextNumber(data, e1);
      if b.Some? {
        var (v2, e2) := b.value;
        assert ReadOn(data, e1, none + [v1]) == ReadOn(data, e2, none + [v1] + [v2]);
        var c := NextNumber(data, e2);
        if c.Some? {
          var (v3, e3) := c.value;
          assert ReadOn(data, e2, none + [v1] + [v2]) == ReadOn(data, e3, none + [v1] + [v2] + [v3]);
        }
      }
    }
  }

  function HeaderNumbers(data: seq<Byte>, c: Cuts): Header
    requires HeaderAt(data, c)
  {
    Header(Decimal(data[c.s1..c.e1]), Decimal(data[c.s2..c.e2]), Decimal(data[c.s3..c.e3]), c.e3)
  }

  lemma HeaderRead(data: seq<Byte>, c: Cuts)
    requires HeaderAt(data, c)
    ensures ReadOn(data, 2, []) == Some(HeaderNumbers(data, c))
  {
    NumberAtRead(data, 2, c.s1, c.e1);
    NumberAtRead(data, c.e1, c.s2, c.e2);
    NumberAtRead(data, c.e2, c.s3, c.e3);
    ReadOnIs(data, []);
  }

  lemma HeaderFound(data: seq<Byte>) returns (c: Cuts)
    requires 2 <= |data| && ReadOn(data, 2, []).Some?
    ensures HeaderAt(data, c) && ReadOn(data, 2, []) == Some(HeaderNumbers(data, c))
  {
    ReadOnIs(data, []);
    var (v1, e1) := NextNumber(data, 2).value;
    var (v2, e2) := NextNumber(data, e1).value;
    var (v3, e3) := NextNumber(data, e2).value;
    var s1 := NumberFound(data, 2, v1, e1);
    var s2 := NumberFound(data, e1, v2, e2);
    var s3 := NumberFound(data, e2, v3, e3);
    c := Cuts(s1, e1, s2, e2, s3, e3);
  }

  lemma NumberFound(data: seq<Byte>, pos: nat, value: nat, end: nat) returns (start: nat)
    requires pos <= |data| && NextNumber(data, pos) == Some((value, end))
    ensures NumberAt(data, pos, start, end) && Decimal(data[start..end]) == value
  {
    NextNumberExactly(data, pos, value, end);
    start :| NumberAt(data, pos, start, end) && Decimal(data[start..end]) == value;
  }

  /** The numbers spell out a non-empty 8-bit image, and its pixels follow one separator byte. */
  predicate Holds(data: seq<Byte>, c: Cuts, image: Image) {
    MAGIC <= data && HeaderAt(data, c) && Pixels(data, HeaderNumbers(data, c)) == Ok(image)
  }

  /** What that says of the image: its size is what the header spells out, its pixels what follows. */
  lemma PixelsExactly(data: seq<Byte>, h: Header, image: Image)
    requires h.end <= |data|
    ensures Pixels(data, h) == Ok(image) <==>
      && h.width == image.width > 0 && h.height == image.height > 0 && h.maxval == 255
      && var size := PixelBytes(h.width, h.height);
         h.end + 1 + size <= |data| && data[h.end + 1..h.end + 1 + size] == image.pixels
  {
  }

  lemma HoldsIsParsed(data: seq<Byte>, c: Cuts, image: Image)
    requires Holds(data, c, image)
    ensures Parse(data) == Ok(image)
  {
    HeaderRead(data, c);
  }

  lemma ParsedHolds(data: seq<Byte>, image: Image) returns (c: Cuts)
    requires Parse(data) == Ok(image)
    ensures Holds(data, c, image)
  {
    c := HeaderFound(data);
  }

  /** A byte string is read as an image exactly when it is a legal header followed by those pixels. */
  lemma ParseExactly(data: seq<Byte>, image: Image)
    ensures Parse(data) == Ok(image) <==> exists c :: Holds(data, c, image)
  {
    if Parse(data) == Ok(image) {
      var c := ParsedHolds(data, image);
    } else if exists c :: Holds(data, c, image) {
      var c :| Holds(data, c, image);
      HoldsIsParsed(data, c, image);
      assert false;
    }
  }

  // ---------------------------------------------------------------------------------------
  // Writing a file
  // ---------------------------------------------------------------------------------------

  /** The pieces of a file: three gaps, three numbers, one separator, and bytes after the pixels. */
  datatype Layout = Layout(
    g1: seq<Byte>, d1: seq<Byte>, g2: seq<Byte>, d2: seq<Byte>, g3: seq<Byte>, d3: seq<Byte>,
    separator: Byte, rest: seq<Byte>)

  /** Width follows the magic with or without a gap; the other numbers need one in front of them. */
  predicate Legal(l: Layout) {
    && IsGap(l.g1) && IsGap(l.g2) && IsGap(l.g3) && l.g2 != [] && l.g3 != []
    && IsNumber(l.d1) && IsNumber(l.d2) && IsNumber(l.d3)
    && !DigitByte(l.separator)
  }

  function Written(l: Layout, pixels: seq<Byte>): seq<Byte> {
    MAGIC + l.g1 + l.d1 + l.g2 + l.d2 + l.g3 + l.d3 + [l.separator] + pixels + l.rest
  }

  /** Where a piece stands among others. */
  lemma PieceAt(data: seq<Byte>, before: seq<Byte>, piece: seq<Byte>)
    requires before + piece <= data
    ensures before <= data
    ensures data[|before|..|before| + |piece|] == piece
  {
    assert (before + piece)[|before|..] == piece;
  }

  function HeaderCuts(l: Layout): (c: Cuts) {
    var s1 := 2 + |l.g1|;
    var e1 := s1 + |l.d1|;
    var s2 := e1 + |l.g2|;
    var e2 := s2 + |l.d2|;
    var s3 := e2 + |l.g3|;
    Cuts(s1, e1, s2, e2, s3, s3 + |l.d3|)
  }

  /** The pieces stand where the cuts say. */
  lemma WrittenPieces(l: Layout, pixels: seq<Byte>)
    ensures var (data, c) := (Written(l, pixels), HeaderCuts(l));
            && MAGIC <= data && c.e3 + 1 + |pixels| <= |data|
            && data[2..c.s1] == l.g1 && data[c.s1..c.e1] == l.d1
            && data[c.e1..c.s2] == l.g2 && data[c.s2..c.e2] == l.d2
            && data[c.e2..c.s3] == l.g3 && data[c.s3..c.e3] == l.d3
            && data[c.e3..c.e3 + 1] == [l.separator]
            && data[c.e3 + 1..c.e3 + 1 + |pixels|] == pixels
  {
    var data := Written(l, pixels);
    var p1 := MAGIC + l.g1;
    var p2 := p1 + l.d1;
    var p3 := p2 + l.g2;
    var p4 := p3 + l.d2;
    var p5 := p4 + l.g3;
    var p6 := p5 + l.d3;
    var p7 := p6 + [l.separator];
    PieceAt(data, p7, pixels);
    PieceAt(data, p6, [l.separator]);
    PieceAt(data, p5, l.d3);
    PieceAt(data, p4, l.g3);
    PieceAt(data, p3, l.d2);
    PieceAt(data, p2, l.g2);
    PieceAt(data, p1, l.d1);
    PieceAt(data, MAGIC, l.g1);
  }

  lemma GapBegins(g: seq<Byte>)
    requires IsGap(g) && g != []
    ensures !DigitByte(g[0])
  {}

  /** Every legal layout is read back: width, height and pixels, whatever the gaps hold. */
  lemma LayoutIsParsed(l: Layout, image: Image)
    requires Legal(l) && Decimal(l.d3) == 255
    requires Decimal(l.d1) == image.width > 0 && Decimal(l.d2) == image.height > 0
    requires |image.pixels| == PixelBytes(image.width, image.height)
    ensures Parse(Written(l, image.pixels)) == Ok(image)
  {
    var data := Written(l, image.pixels);
    var c := HeaderCuts(l);
    WrittenPieces(l, image.pixels);
    GapBegins(l.g2);
    GapBegins(l.g3);
    assert data[c.e1] == l.g2[0];
    assert data[c.e2] == l.g3[0];
    assert data[c.e3] == [l.separator][0];
    PixelsExactly(data, HeaderNumbers(data, c), image);
    HoldsIsParsed(data, c, image);
  }

  /** What counts as whitespace and as a digit. */
  lemma HeaderBytes(b: Byte)
    ensures SpaceByte(b) <==> b in {0x09, 0x0A, 0x0B, 0x0C, 0x0D, 0x20}
    ensures DigitByte(b) <==> b in {0x30, 0x31, 0x32, 0x33, 0x34, 0x35, 0x36, 0x37, 0x38, 0x39}
  {}

  /** "P6 # a", a line feed, "12", a tab, "1", CR and LF, "255", a line feed. */
  const EXAMPLE: seq<Byte> :=
    [0x50, 0x36, 0x20, 0x23, 0x20, 0x61, 0x0A, 0x31, 0x32, 0x09, 0x31, 0x0D, 0x0A, 0x32, 0x35, 0x35, 0x0A]

  function ExampleLayout(): Layout {
    Layout([0x20, 0x23, 0x20, 0x61, 0x0A], [0x31, 0x32], [0x09], [0x31], [0x0D, 0x0A], [0x32, 0x35, 0x35], 0x0A, [])
  }

  lemma ExampleIsRead(pixels: seq<Byte>)
    requires |pixels| == 36
    ensures Parse(EXAMPLE + pixels) == Ok(Image(12, 1, pixels))
  {
    var l := ExampleLayout();
    ExampleGaps(l.g1, l.g3);
    ExampleNumbers();
    PixelBytesIs(12, 1);
    ExampleWritten(pixels);
    LayoutIsParsed(l, Image(12, 1, pixels));
  }

  lemma ExampleWritten(pixels: seq<Byte>)
    ensures Written(ExampleLayout(), pixels) == EXAMPLE + pixels
  {
    var l := ExampleLayout();
    var header := MAGIC + l.g1 + l.d1 + l.g2 + l.d2 + l.g3 + l.d3 + [l.separator];
    assert header == EXAMPLE;
    assert Written(l, pixels) == header + pixels + [];
  }

  lemma ExampleGaps(gap: seq<Byte>, lines: seq<Byte>)
    requires gap == [0x20, 0x23, 0x20, 0x61, 0x0A] && lines == [0x0D, 0x0A]
    ensures IsGap(gap) && IsGap(lines) && IsGap([0x09])
  {
    var comment := gap[1..];
    assert CommentEnd(comment, 3) == 3 && CommentEnd(comment, 2) == 3 && CommentEnd(comment, 1) == 3;
    assert comment[3..] == [0x0A] && [0x0A][1..] == [] && lines[1..] == [0x0A] && [0x09][1..] == [];
    assert IsGap([0x0A]);
  }

  lemma ExampleNumbers()
    ensures Decimal([0x31, 0x32]) == 12 && Decimal([0x31]) == 1 && Decimal([0x32, 0x35, 0x35]) == 255
  {
    var d: seq<Byte> := [0x32, 0x35, 0x35];
    var e: seq<Byte> := [0x31, 0x32];
    assert d[..2] == [0x32, 0x35] && d[..2][..1] == [0x32] && d[..1][..0] == [];
    assert e[..1] == [0x31] && e[..1][..0] == [];
    assert Decimal([0x31]) == 1 && Decimal([0x32]) == 2 && Decimal([0x32, 0x35]) == 25;
  }
}
