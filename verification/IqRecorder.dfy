/** Recording a stream of IQ bytes up to a size limit, and replaying it in whole samples. */
module IqRecorder {
  import opened Prelude

  const BYTES_PER_SAMPLE := 2

  function Even(n: int): int {
    n - n % BYTES_PER_SAMPLE
  }

  datatype Recording = Recording(file: seq<Byte>, samples: nat, truncated: bool)

  /** What a chunk adds: an odd byte at its end is dropped, and the limit cuts at a whole sample. */
  function Appended(r: Recording, maxBytes: Option<int>, raw: seq<Byte>): Recording {
    var data := raw[..Even(|raw|)];
    if r.truncated || data == [] then r
    else if maxBytes.None? then Recording(r.file + data, r.samples + |data| / BYTES_PER_SAMPLE, false)
    else
      var remaining := maxBytes.value - BYTES_PER_SAMPLE * r.samples;
      if remaining <= 0 then r.(truncated := true)
      else if |data| <= remaining then Recording(r.file + data, r.samples + |data| / BYTES_PER_SAMPLE, false)
      else Recording(r.file + data[..Even(remaining)], r.samples + Even(remaining) / BYTES_PER_SAMPLE, true)
  }

  class Recorder {
    const maxBytes: Option<int>
    var file: seq<Byte>
    var samples: nat
    var truncated: bool
    var closed: bool

    constructor (maxBytes: Option<int>)
      ensures this.maxBytes == maxBytes && View() == Recording([], 0, false) && !closed
    {
      this.maxBytes := maxBytes;
      file, samples, truncated, closed := [], 0, false, false;
    }

    function View(): Recording
      reads this
    {
      Recording(file, samples, truncated)
    }

    function BytesWritten(): nat
      reads this
    {
      samples * BYTES_PER_SAMPLE
    }

    /** Writing to a closed recorder raises. */
    method Write(raw: seq<Byte>) returns (ok: bool)
      modifies this
      ensures ok <==> !old(closed)
      ensures closed == old(closed)
      ensures View() == if ok then Appended(old(View()), maxBytes, raw) else old(View())
    {
      if closed {
        return false;
      }
      ok := true;
      assert Even(|raw|) == |raw| ==> raw[..Even(|raw|)] == raw;
      if raw == [] || truncated {
        return;
      }
      var data := raw;
      if |data| % BYTES_PER_SAMPLE != 0 {
        data := data[..|data| - 1];
      }
      if data == [] {
        return;
      }
      if maxBytes.Some? {
        var remaining := maxBytes.value - BytesWritten();
        if remaining <= 0 {
          truncated := true;
          return;
        }
        if |data| > remaining {
          data := data[..remaining - remaining % BYTES_PER_SAMPLE];
          truncated := true;
          if data == [] {
            assert file + [] == file;
            return;
          }
        }
      }
      file := file + data;
      samples := samples + |data| / BYTES_PER_SAMPLE;
    }

    method Close()
      modifies this
      ensures closed && View() == old(View())
    {
      closed := true;
    }
  }

  // ---------------------------------------------------------------------------------------
  // A whole recording
  // ---------------------------------------------------------------------------------------

  function Recorded(maxBytes: Option<int>, chunks: seq<seq<Byte>>): Recording {
    if chunks == [] then Recording([], 0, false)
    else Appended(Recorded(maxBytes, chunks[..|chunks| - 1]), maxBytes, chunks[|chunks| - 1])
  }

  /** The stream: every chunk without its odd byte. */
  function Stream(chunks: seq<seq<Byte>>): seq<Byte> {
    if chunks == [] then []
    else
      var last := chunks[|chunks| - 1];
      Stream(chunks[..|chunks| - 1]) + last[..Even(|last|)]
  }

  predicate TooLong(stream: seq<Byte>, maxBytes: Option<int>) {
    maxBytes.Some? && stream != [] && |stream| > maxBytes.value
  }

  /** The stream, or as many whole samples of it as fit. */
  function Cut(stream: seq<Byte>, maxBytes: Option<int>): seq<Byte> {
    if !TooLong(stream, maxBytes) then stream
    else if maxBytes.value <= 0 then []
    else stream[..Even(maxBytes.value)]
  }

  ghost predicate IsCut(r: Recording, stream: seq<Byte>, maxBytes: Option<int>) {
    && r.file == Cut(stream, maxBytes)
    && |r.file| == BYTES_PER_SAMPLE * r.samples
    && (r.truncated <==> TooLong(stream, maxBytes))
  }

  /** The limit was reached before. */
  lemma CutStays(stream: seq<Byte>, data: seq<Byte>, maxBytes: Option<int>)
    requires maxBytes.Some? && data != [] && |stream| >= maxBytes.value && |stream| % 2 == 0
    ensures Cut(stream + data, maxBytes) == Cut(stream, maxBytes) && TooLong(stream + data, maxBytes)
  {
    if maxBytes.value > 0 {
      var n := Even(maxBytes.value);
      assert (stream + data)[..n] == stream[..n];
      if |stream| == maxBytes.value { assert stream[..n] == stream; }
    }
  }

  /** The chunk crosses the limit. */
  lemma CutNow(stream: seq<Byte>, data: seq<Byte>, max: int)
    requires |stream| < max < |stream| + |data| && |stream| % 2 == 0
    ensures Cut(stream + data, Some(max)) == stream + data[..Even(max - |stream|)] && TooLong(stream + data, Some(max))
  {
    assert Even(max) == |stream| + Even(max - |stream|);
    CutOfConcat(stream, data, Even(max - |stream|));
  }

  /** The chunk fits. */
  lemma AppendedFits(r: Recording, stream: seq<Byte>, maxBytes: Option<int>, raw: seq<Byte>)
    requires IsCut(r, stream, maxBytes) && raw[..Even(|raw|)] != []
    requires maxBytes.Some? ==> |stream| + Even(|raw|) <= maxBytes.value
    ensures IsCut(Appended(r, maxBytes, raw), stream + raw[..Even(|raw|)], maxBytes)
  {
  }

  /** It crosses the limit. */
  lemma AppendedCrosses(r: Recording, stream: seq<Byte>, max: int, raw: seq<Byte>)
    requires IsCut(r, stream, Some(max)) && |stream| < max < |stream| + Even(|raw|) && |stream| % 2 == 0
    ensures IsCut(Appended(r, Some(max), raw), stream + raw[..Even(|raw|)], Some(max))
  {
    CutNow(stream, raw[..Even(|raw|)], max);
  }

  /** The limit was reached before it. */
  lemma AppendedLate(r: Recording, stream: seq<Byte>, max: int, raw: seq<Byte>)
    requires IsCut(r, stream, Some(max)) && max <= |stream| && |stream| % 2 == 0 && raw[..Even(|raw|)] != []
    ensures IsCut(Appended(r, Some(max), raw), stream + raw[..Even(|raw|)], Some(max))
  {
    CutStays(stream, raw[..Even(|raw|)], Some(max));
  }

  lemma AppendedIsCut(r: Recording, stream: seq<Byte>, maxBytes: Option<int>, raw: seq<Byte>)
    requires IsCut(r, stream, maxBytes) && |stream| % 2 == 0
    ensures IsCut(Appended(r, maxBytes, raw), stream + raw[..Even(|raw|)], maxBytes)
  {
    if raw[..Even(|raw|)] == [] {
      assert stream + [] == stream;
    } else if maxBytes.None? || |stream| + Even(|raw|) <= maxBytes.value {
      AppendedFits(r, stream, maxBytes, raw);
    } else if |stream| < maxBytes.value {
      AppendedCrosses(r, stream, maxBytes.value, raw);
    } else {
      AppendedLate(r, stream, maxBytes.value, raw);
    }
  }

  lemma CutOfConcat(a: seq<Byte>, b: seq<Byte>, n: nat)
    requires n <= |b|
    ensures (a + b)[..|a| + n] == a + b[..n]
  {}

  lemma {:induction false} StreamIsEven(chunks: seq<seq<Byte>>)
    ensures |Stream(chunks)| % 2 == 0
  {
    if chunks != [] {
      var n := |chunks| - 1;
      StreamIsEven(chunks[..n]);
      EvenSum(|Stream(chunks[..n])|, Even(|chunks[n]|));
    }
  }

  lemma EvenSum(a: int, b: int)
    requires a % 2 == 0 && b % 2 == 0
    ensures (a + b) % 2 == 0
  {}

  /** The file is the stream cut to the largest even length within the limit, and truncation is flagged exactly then. */
  lemma {:induction false} FileIsCutStream(maxBytes: Option<int>, chunks: seq<seq<Byte>>)
    ensures IsCut(Recorded(maxBytes, chunks), Stream(chunks), maxBytes)
  {
    if chunks != [] {
      var n := |chunks| - 1;
      FileIsCutStream(maxBytes, chunks[..n]);
      StreamIsEven(chunks[..n]);
      AppendedIsCut(Recorded(maxBytes, chunks[..n]), Stream(chunks[..n]), maxBytes, chunks[n]);
    }
  }

  lemma {:induction false} EvenChunksAreStream(chunks: seq<seq<Byte>>)
    requires forall i | 0 <= i < |chunks| :: |chunks[i]| % 2 == 0
    ensures Stream(chunks) == Joined(chunks) && |Joined(chunks)| % 2 == 0
  {
    if chunks != [] {
      var last := chunks[|chunks| - 1];
      EvenChunksAreStream(chunks[..|chunks| - 1]);
      assert last[..|last|] == last;
    }
  }

  // ---------------------------------------------------------------------------------------
  // Replay
  // ---------------------------------------------------------------------------------------

  /** The chunk size asked for, rounded down to whole samples, at least one. */
  function ChunkBytes(asked: int): (n: nat)
    ensures n >= 2 && n % 2 == 0 && (asked >= 2 ==> asked - 1 <= n <= asked)
  {
    if Even(asked) > BYTES_PER_SAMPLE then Even(asked) else BYTES_PER_SAMPLE
  }

  /** Full chunks of whole samples, the last one possibly shorter. */
  ghost predicate WholeChunks(chunks: seq<seq<Byte>>, size: nat) {
    && (forall i | 0 <= i < |chunks| :: chunks[i] != [] && |chunks[i]| % 2 == 0 && |chunks[i]| <= size)
    && (forall i | 0 <= i < |chunks| - 1 :: |chunks[i]| == size)
  }

  ghost predicate AllFull(chunks: seq<seq<Byte>>, size: nat) {
    forall i | 0 <= i < |chunks| :: |chunks[i]| == size
  }

  lemma WholeSnoc(chunks: seq<seq<Byte>>, chunk: seq<Byte>, size: nat)
    requires WholeChunks(chunks, size) && AllFull(chunks, size)
    requires chunk != [] && |chunk| % 2 == 0 && |chunk| <= size
    ensures WholeChunks(chunks + [chunk], size)
    ensures |chunk| == size ==> AllFull(chunks + [chunk], size)
  {}

  /** One more slice of the file. */
  lemma JoinedSlice(chunks: seq<seq<Byte>>, file: seq<Byte>, pos: nat, next: nat)
    requires pos <= next <= |file| && Joined(chunks) == file[..pos]
    ensures Joined(chunks + [file[pos..next]]) == file[..next]
  {
    assert (chunks + [file[pos..next]])[..|chunks|] == chunks;
    assert file[..pos] + file[pos..next] == file[..next];
  }

  /** The chunks yielded are the file without its odd byte, if it has one. */
  method IterCaptureChunks(file: seq<Byte>, asked: int) returns (chunks: seq<seq<Byte>>)
    ensures Joined(chunks) == file[..Even(|file|)]
    ensures WholeChunks(chunks, ChunkBytes(asked))
  {
    var size := ChunkBytes(asked);
    var pos := 0;
    chunks := [];
    while true
      invariant pos <= |file| && pos % 2 == 0 && Joined(chunks) == file[..pos]
      invariant WholeChunks(chunks, size) && (pos < |file| ==> AllFull(chunks, size))
      decreases |file| - pos
    {
      var next := if pos + size <= |file| then pos + size else |file|;
      var chunk := file[pos..next];
      if chunk == [] {
        return;
      }
      if |chunk| % BYTES_PER_SAMPLE != 0 {
        next := next - 1;
        chunk := chunk[..|chunk| - 1];
        if chunk == [] {
          return;
        }
        assert chunk == file[pos..next];
      }
      JoinedSlice(chunks, file, pos, next);
      WholeSnoc(chunks, chunk, size);
      chunks := chunks + [chunk];
      if next == Even(|file|) && next < |file| {
        return;
      }
      pos := next;
    }
  }

  /** Record, then replay: what came in even chunks within the limit comes back byte for byte, however it is chunked. */
  lemma RecordThenReplay(maxBytes: Option<int>, chunks: seq<seq<Byte>>, replayed: seq<seq<Byte>>)
    requires forall i | 0 <= i < |chunks| :: |chunks[i]| % 2 == 0
    requires var file := Recorded(maxBytes, chunks).file; Joined(replayed) == file[..Even(|file|)]
    ensures Joined(replayed) == Cut(Joined(chunks), maxBytes)
    ensures !Recorded(maxBytes, chunks).truncated ==> Joined(replayed) == Joined(chunks)
  {
    RecordedFile(maxBytes, chunks);
    WholeFile(Recorded(maxBytes, chunks).file);
  }

  lemma RecordedFile(maxBytes: Option<int>, chunks: seq<seq<Byte>>)
    requires forall i | 0 <= i < |chunks| :: |chunks[i]| % 2 == 0
    ensures var r := Recorded(maxBytes, chunks);
            && r.file == Cut(Joined(chunks), maxBytes) && |r.file| % 2 == 0
            && (r.truncated <==> TooLong(Joined(chunks), maxBytes))
  {
    FileIsCutStream(maxBytes, chunks);
    EvenChunksAreStream(chunks);
  }

  lemma WholeFile(file: seq<Byte>)
    requires |file| % 2 == 0
    ensures file[..Even(|file|)] == file
  {}
}
