/** The Range-request decryptor: a rope of fetched buffers, consumed from the front. */
module Stream {
  import opened Bytes
  import opened Results
  import opened Header
  import opened Aead
  import opened Container
  import opened Prefixes
  import ChunkIv

  const FETCH_CHUNK_SIZE := 10 * 1024 * 1024 + 10 * AUTH_TAG_LENGTH
  const MAX_BUFFER_SIZE := 50 * 1024 * 1024
  const CHUNK_SIZE := 1024 * 1024

  /** What the server answers to a Range request. */
  datatype Response = Response(status: nat, body: bytes)

  datatype Failure =
    | NoRangeSupport
    | RangeFailed(status: nat)
    | RangeSizeMismatch(expected: nat, got: nat)
    | UnexpectedEnd
    | NameTooLong
    | BadHeader
    | BadIv
    | BadChunk(index: nat)

  /** The k-th range asked for starts here: fixed windows, the last one cut at the end of the file. */
  function WindowStart(k: nat, totalSize: nat): nat {
    Min(k * FETCH_CHUNK_SIZE, totalSize)
  }

  /** What a server delivers from the k-th window on: the bodies of its answers up to the first one that
      is not a 206 of the size asked for. */
  function Delivered(serve: (nat, nat) -> Response, totalSize: nat, k: nat): bytes
    decreases totalSize - WindowStart(k, totalSize)
  {
    var start, end := WindowStart(k, totalSize), WindowStart(k + 1, totalSize);
    if start == totalSize then []
    else
      var response := serve(start, end - 1);
      if response.status == 206 && |response.body| == end - start
      then response.body + Delivered(serve, totalSize, k + 1) else []
  }

  /** The server answers every range inside the blob with exactly those bytes
      (section 14.1.2 of RFC 9110). */
  ghost predicate Exact(serve: (nat, nat) -> Response, blob: bytes) {
    forall start: nat, end: nat | start <= end < |blob| ::
      serve(start, end) == Response(206, blob[start..end + 1])
  }

  /** An exact server delivers the blob. */
  lemma {:induction false} ExactDelivers(serve: (nat, nat) -> Response, blob: bytes, k: nat)
    requires Exact(serve, blob)
    ensures Delivered(serve, |blob|, k) == blob[WindowStart(k, |blob|)..]
    decreases |blob| - WindowStart(k, |blob|)
  {
    var start, end := WindowStart(k, |blob|), WindowStart(k + 1, |blob|);
    if start < |blob| {
      ExactDelivers(serve, blob, k + 1);
      assert serve(start, end - 1) == Response(206, blob[start..end]);
      assert blob[start..] == blob[start..end] + blob[end..];
    }
  }

  /** The answer to the k-th range is not a 206 of the size asked for. */
  predicate Refuses(serve: (nat, nat) -> Response, totalSize: nat, k: nat)
    requires k * FETCH_CHUNK_SIZE < totalSize
  {
    var start, end := k * FETCH_CHUNK_SIZE, Min((k + 1) * FETCH_CHUNK_SIZE, totalSize);
    serve(start, end - 1).status != 206 || |serve(start, end - 1).body| != end - start
  }

  /** The error such an answer raises. */
  function Refusal(response: Response, expected: nat): Failure {
    if response.status == 200 then NoRangeSupport
    else if response.status != 206 then RangeFailed(response.status)
    else RangeSizeMismatch(expected, |response.body|)
  }

  /** The error of a run that needs more than the bytes delivered, of which there are `end`. */
  function EndOf(serve: (nat, nat) -> Response, totalSize: nat, end: nat): Failure
    requires end <= totalSize
  {
    if end == totalSize then UnexpectedEnd
    else
      var next := Min(end + FETCH_CHUNK_SIZE, totalSize);
      Refusal(serve(end, next - 1), next - end)
  }

  lemma {:induction false} DeliveredFits(serve: (nat, nat) -> Response, totalSize: nat, k: nat)
    ensures WindowStart(k, totalSize) + |Delivered(serve, totalSize, k)| <= totalSize
    decreases totalSize - WindowStart(k, totalSize)
  {
    if WindowStart(k, totalSize) < totalSize {
      DeliveredFits(serve, totalSize, k + 1);
    }
  }

  /** Nothing from the first refused range on is delivered. */
  lemma {:induction false} StopsAtRefusal(serve: (nat, nat) -> Response, totalSize: nat, from: nat, k: nat)
    requires from <= k && k * FETCH_CHUNK_SIZE < totalSize && Refuses(serve, totalSize, k)
    ensures |Delivered(serve, totalSize, from)| <= (k - from) * FETCH_CHUNK_SIZE
    decreases k - from
  {
    if from < k {
      StopsAtRefusal(serve, totalSize, from + 1, k);
    }
  }

  /** Every byte before that is the one the server answered for its window, at its place in the answer. */
  lemma {:induction false} DeliveredByByte(serve: (nat, nat) -> Response, totalSize: nat, from: nat, k: nat, p: nat)
    requires from <= k && k * FETCH_CHUNK_SIZE + p < totalSize && p < FETCH_CHUNK_SIZE
    requires forall j | from <= j <= k :: !Refuses(serve, totalSize, j)
    ensures var end := Min((k + 1) * FETCH_CHUNK_SIZE, totalSize);
      && (k - from) * FETCH_CHUNK_SIZE + p < |Delivered(serve, totalSize, from)|
      && p < |serve(k * FETCH_CHUNK_SIZE, end - 1).body|
      && Delivered(serve, totalSize, from)[(k - from) * FETCH_CHUNK_SIZE + p]
         == serve(k * FETCH_CHUNK_SIZE, end - 1).body[p]
    decreases k - from
  {
    assert !Refuses(serve, totalSize, from);
    if from < k {
      DeliveredByByte(serve, totalSize, from + 1, k, p);
    }
  }

  /** A freshly allocated buffer after its beginning was set. */
  function ZeroPadded(b: bytes, count: nat): (r: bytes)
    requires |b| <= count
    ensures |r| == count && (|b| == count ==> r == b)
  {
    b + seq(count - |b|, _ => 0)
  }

  lemma IsZeroPadded(r: bytes, b: bytes, count: nat)
    requires |b| <= |r| == count && r[..|b|] == b && forall k | |b| <= k < count :: r[k] == 0
    ensures r == ZeroPadded(b, count)
  {
  }

  lemma NextWindow(tape: bytes, pos: nat, start: nat, chunk: bytes, rest: bytes)
    requires pos <= start <= |tape| && tape[start..] == chunk + rest
    ensures var end := start + |chunk|;
            && end <= |tape| && tape[end..] == rest
            && tape[pos..end] == tape[pos..start] + chunk
  {
  }

  lemma SplitAfter(s: bytes, a: nat, c: nat, piece: bytes, rest: bytes)
    requires a <= c <= |s| && s[a..c] == piece + rest
    ensures a + |piece| <= c && s[a..a + |piece|] == piece && s[a + |piece|..c] == rest
  {
    assert s[a..c][..|piece|] == piece && s[a..c][|piece|..] == rest;
    assert s[a..a + |piece|] == s[a..c][..|piece|];
    assert s[a + |piece|..c] == s[a..c][|piece|..];
  }

  lemma JoinSlices(s: bytes, a: nat, b: nat, c: nat)
    requires a <= b <= c <= |s|
    ensures s[a..b] + s[b..c] == s[a..c]
  {
  }

  lemma PartOfMiddle(a: bytes, x: bytes, b: bytes, offset: nat, count: nat)
    requires offset + count <= |x|
    ensures var start := |a| + offset;
            (a + x + b)[..start] + x[offset..offset + count] == (a + x + b)[..start + count]
  {
  }

  /** Where a piece of a buffer lies in the bytes the rope stands for. */
  lemma PieceOfRope(chunks: seq<bytes>, index: nat, offset: nat, count: nat)
    requires index < |chunks| && offset + count <= |chunks[index]|
    ensures var start := |Flatten(chunks[..index])| + offset; var whole := Flatten(chunks);
            && start + count <= |whole|
            && whole[..start] + chunks[index][offset..offset + count] == whole[..start + count]
    ensures |Flatten(chunks[..index + 1])| == |Flatten(chunks[..index])| + |chunks[index]|
  {
    assert chunks == chunks[..index + 1] + chunks[index + 1..];
    FlattenAppend(chunks[..index + 1], chunks[index + 1..]);
    assert chunks[..index + 1] == chunks[..index] + [chunks[index]];
    FlattenSnoc(chunks[..index], chunks[index]);
    PartOfMiddle(Flatten(chunks[..index]), chunks[index], Flatten(chunks[index + 1..]), offset, count);
  }

  /** The state that the helpers of `decryptWithRangeRequests` share. */
  class RangeReader {
    const serve: (nat, nat) -> Response
    const totalSize: nat
    var chunks: seq<bytes>
    var totalBuffered: nat
    var fetchOffset: nat
    ghost const tape: bytes    // everything the server delivers
    ghost var pos: nat         // how many of those bytes were consumed
    ghost var fetches: nat     // how many ranges were accepted
    ghost var peak: nat        // the most bytes ever held
    ghost var limit: nat       // the most bytes the caller means ever to hold

    /** The rope holds the fetched bytes that were not consumed, without an empty piece. */
    ghost predicate Valid()
      reads this
    {
      && pos <= fetchOffset <= |tape| <= totalSize
      && Flatten(chunks) == tape[pos..fetchOffset]
      && totalBuffered == fetchOffset - pos <= peak <= limit
      && (forall k | 0 <= k < |chunks| :: chunks[k] != [])
      && fetchOffset == WindowStart(fetches, totalSize)
      && tape[fetchOffset..] == Delivered(serve, totalSize, fetches)
    }

    constructor (serve: (nat, nat) -> Response, totalSize: nat, ghost limit: nat)
      ensures Valid() && pos == 0 && peak == 0
      ensures this.serve == serve && this.totalSize == totalSize && this.limit == limit
      ensures tape == Delivered(serve, totalSize, 0)
    {
      this.serve := serve;
      this.totalSize := totalSize;
      chunks, totalBuffered, fetchOffset := [], 0, 0;
      this.tape := Delivered(serve, totalSize, 0);
      this.limit := limit;
      pos, fetches, peak := 0, 0, 0;
      DeliveredFits(serve, totalSize, 0);
    }

    /** `fetchRange`, together with the caller's `fetchOffset = end + 1`. The ranges asked for are the
        consecutive windows: they tile what is fetched without gap or overlap. */
    method FetchRange(start: nat, end: nat) returns (error: Option<Failure>)
      requires Valid() && start == WindowStart(fetches, totalSize) < totalSize
      requires end + 1 == WindowStart(fetches + 1, totalSize)
      requires totalBuffered + FETCH_CHUNK_SIZE <= limit
      modifies `chunks, `totalBuffered, `fetchOffset, `fetches, `peak
      ensures Valid()
      ensures error.None? <==> serve(start, end).status == 206 && |serve(start, end).body| == end - start + 1
      ensures error.Some? ==> unchanged(this) && fetchOffset == |tape|
      ensures error.Some? ==> error.value == Refusal(serve(start, end), end - start + 1)
      ensures error.None? ==> fetchOffset == end + 1 && fetches == old(fetches) + 1
      ensures error.None? ==> Flatten(chunks) == old(Flatten(chunks)) + serve(start, end).body
    {
      var response := serve(start, end);
      if response.status != 206 {
        return Some(if response.status == 200 then NoRangeSupport else RangeFailed(response.status));
      }
      var chunk := response.body;
      var expectedSize := end - start + 1;
      if |chunk| != expectedSize {
        return Some(RangeSizeMismatch(expectedSize, |chunk|));
      }
      NextWindow(tape, pos, start, chunk, Delivered(serve, totalSize, fetches + 1));
      FlattenSnoc(chunks, chunk);
      chunks := chunks + [chunk];
      totalBuffered := totalBuffered + |chunk|;
      fetchOffset := end + 1;
      fetches := fetches + 1;
      peak := Max(peak, totalBuffered);
      return None;
    }

    /** `ensureBytes`: it fails exactly when the server does not deliver that many more bytes. */
    method EnsureBytes(needed: nat) returns (error: Option<Failure>)
      requires Valid() && needed - 1 + FETCH_CHUNK_SIZE <= limit
      modifies `chunks, `totalBuffered, `fetchOffset, `fetches, `peak
      ensures Valid()
      ensures error.None? <==> pos + needed <= |tape|
      ensures error.None? ==> needed <= totalBuffered
      ensures error.Some? ==> error.value == EndOf(serve, totalSize, |tape|)
    {
      while totalBuffered < needed && fetchOffset < totalSize
        invariant Valid()
        decreases totalSize - fetchOffset
      {
        var fetchSize := Min(FETCH_CHUNK_SIZE, totalSize - fetchOffset);
        var end := fetchOffset + fetchSize - 1;
        error := FetchRange(fetchOffset, end);
        if error.Some? {
          return;
        }
      }
      if totalBuffered < needed {
        return Some(UnexpectedEnd);
      }
      return None;
    }

    /** One turn of the loop of `consumeBytes`: takes the front buffer, or as much of it as is needed. */
    method TakeFront(needed: nat) returns (piece: bytes)
      requires Valid() && chunks != [] && 0 < needed
      modifies `chunks, `totalBuffered, `pos
      ensures Valid() && 0 < |piece| <= needed
      ensures pos == old(pos) + |piece| && piece == tape[old(pos)..pos]
    {
      var chunk := chunks[0];
      ghost var rest := chunks[1..];
      assert Flatten(chunks) == chunk + Flatten(rest);
      if |chunk| <= needed {
        piece := chunk;
        totalBuffered := totalBuffered - |chunk|;
        chunks := chunks[1..];
      } else {
        piece := chunk[..needed];
        chunks := chunks[0 := chunk[needed..]];
        assert chunks[1..] == rest;
        totalBuffered := totalBuffered - needed;
      }
      assert piece + Flatten(chunks) == old(Flatten(chunks));
      SplitAfter(tape, pos, fetchOffset, piece, Flatten(chunks));
      pos := pos + |piece|;
    }

    /** `consumeBytes`: a result array filled from the front of the rope; what the rope lacks stays zero. */
    method ConsumeBytes(count: nat) returns (result: array<byte>)
      requires Valid()
      modifies `chunks, `totalBuffered, `pos
      ensures fresh(result) && result.Length == count
      ensures Valid()
      ensures pos == old(pos) + Min(count, old(totalBuffered))
      ensures result[..] == ZeroPadded(tape[old(pos)..pos], count)
    {
      result := new byte[count](_ => 0);
      var offset: nat := 0;
      while offset < count && 0 < |chunks|
        invariant Valid()
        invariant result.Length == count && offset <= count && pos == old(pos) + offset
        invariant result[..offset] == tape[old(pos)..pos]
        invariant forall k | offset <= k < count :: result[k] == 0
        decreases count - offset
      {
        label before:
        var piece := TakeFront(count - offset);
        SetBytes(result, piece, offset);
        JoinSlices(tape, old(pos), old@before(pos), pos);
        offset := offset + |piece|;
      }
      IsZeroPadded(result[..], tape[old(pos)..pos], count);
    }

    /** `peekBytes`: the same bytes, leaving the rope as it is. */
    method PeekBytes(count: nat) returns (result: array<byte>)
      requires Valid()
      ensures fresh(result) && result.Length == count
      ensures result[..] == ZeroPadded(Flatten(chunks)[..Min(count, totalBuffered)], count)
    {
      result := new byte[count](_ => 0);
      var offset: nat, chunkIndex: nat, chunkOffset: nat := 0, 0, 0;
      ghost var whole := Flatten(chunks);
      while offset < count && chunkIndex < |chunks|
        invariant result.Length == count && offset <= count && chunkIndex <= |chunks|
        invariant chunkIndex < |chunks| ==> chunkOffset < |chunks[chunkIndex]|
        invariant chunkIndex == |chunks| ==> chunkOffset == 0
        invariant offset == |Flatten(chunks[..chunkIndex])| + chunkOffset <= |whole|
        invariant result[..offset] == whole[..offset]
        invariant forall k | offset <= k < count :: result[k] == 0
        decreases |chunks| - chunkIndex, count - offset
      {
        var chunk := chunks[chunkIndex];
        var available := |chunk| - chunkOffset;
        var needed := count - offset;
        var toCopy := Min(available, needed);
        PieceOfRope(chunks, chunkIndex, chunkOffset, toCopy);
        SetBytes(result, chunk[chunkOffset..chunkOffset + toCopy], offset);
        offset := offset + toCopy;
        if chunkOffset + toCopy >= |chunk| {
          chunkIndex := chunkIndex + 1;
          chunkOffset := 0;
        } else {
          chunkOffset := chunkOffset + toCopy;
        }
      }
      assert chunks[..|chunks|] == chunks;
      assert offset == Min(count, |whole|) == |whole[..offset]|;
      IsZeroPadded(result[..], whole[..offset], count);
    }
  }

  datatype WriterState = Open | Closed | Aborted

  /** The stream the decrypted bytes go to. */
  class Writer {
    var written: bytes
    var state: WriterState

    constructor ()
      ensures written == [] && state == Open
    {
      written, state := [], Open;
    }

    method Write(chunk: bytes)
      modifies this`written
      ensures written == old(written) + chunk
    {
      written := written + chunk;
    }

    method Close()
      modifies this`state
      ensures state == Closed
    {
      state := Closed;
    }

    method Abort()
      modifies this`state
      ensures state == Aborted
    {
      state := Aborted;
    }
  }

  /** The most bytes ever held for a container with this header. */
  function PeakBound(chunkSize: nat): nat {
    Max(FIXED_SIZE + MAX_FILENAME_LENGTH, chunkSize + AUTH_TAG_LENGTH) - 1 + FETCH_CHUNK_SIZE
  }

  lemma DefaultChunksFitTheBuffer(chunkSize: nat)
    requires chunkSize <= CHUNK_SIZE
    ensures PeakBound(chunkSize) < MAX_BUFFER_SIZE
  {
  }

  /** The next encrypted chunk, off the rope. */
  method TakeChunk(reader: RangeReader, encryptedChunkSize: nat) returns (chunk: Result<bytes, Failure>)
    requires reader.Valid() && encryptedChunkSize - 1 + FETCH_CHUNK_SIZE <= reader.limit
    modifies reader`chunks, reader`totalBuffered, reader`fetchOffset, reader`fetches, reader`peak, reader`pos
    ensures reader.Valid()
    ensures chunk.Ok? <==> old(reader.pos) + encryptedChunkSize <= |reader.tape|
    ensures chunk.Err? ==> chunk.error == EndOf(reader.serve, reader.totalSize, |reader.tape|)
    ensures chunk.Ok? ==> reader.pos == old(reader.pos) + encryptedChunkSize
    ensures chunk.Ok? ==> chunk.value == Slice(reader.tape, old(reader.pos), old(reader.pos) + encryptedChunkSize)
  {
    var error := reader.EnsureBytes(encryptedChunkSize);
    if error.Some? {
      return Err(error.value);
    }
    var encryptedChunk := reader.ConsumeBytes(encryptedChunkSize);
    return Ok(encryptedChunk[..]);
  }

  /** The error of a run over those bytes that stops at chunk i: not all of it is delivered, or it does not open. */
  function ChunkError(r: Reading, serve: (nat, nat) -> Response, totalSize: nat, tape: bytes, i: nat): Failure
    requires |tape| <= totalSize
  {
    if |tape| < ChunkEnd(r.header, i) then EndOf(serve, totalSize, |tape|)
    else if |r.header.baseIV| < ChunkIv.IV_LENGTH then BadIv else BadChunk(i)
  }

  /** The error of one that gets no header: the name is too long, or the header is not all delivered. */
  function HeaderError(serve: (nat, nat) -> Response, totalSize: nat, tape: bytes): Failure
    requires |tape| <= totalSize
  {
    if 2 <= |tape| && MAX_FILENAME_LENGTH < NameLength(tape) then NameTooLong else EndOf(serve, totalSize, |tape|)
  }

  function RunError(
      cipher: Cipher, key: bytes, serve: (nat, nat) -> Response, totalSize: nat, tape: bytes, done: nat): Failure
    requires |tape| <= totalSize
  {
    var r := ReadHeader(cipher, key, tape);
    if r.Some? && Complete(tape) then ChunkError(r.value, serve, totalSize, tape, done)
    else HeaderError(serve, totalSize, tape)
  }

  /** The run before chunk i: all chunks before it are written, and it comes next. */
  ghost predicate Streaming(reading: Reading, reader: RangeReader, writer: Writer, i: nat)
    reads reader, writer
  {
    && 0 < reading.header.fileSize && reader.Valid() && PeakBound(reading.header.chunkSize) <= reader.limit
    && Prefix(reading.WholeChunks(reader.tape), i) == Some(writer.written)
    && (reading.Count().Exceeds(i) ==> reader.pos == ChunkStart(reading.header, i))
  }

  /** What was written when the chunks stop: all chunks up to one that is cut off or does not open. */
  ghost predicate StoppedAt(r: Reading, blob: bytes, n: nat, written: bytes) {
    && r.Count().Exceeds(n)
    && Prefix(r.WholeChunks(blob), n) == Some(written)
    && r.WholeChunks(blob)(n).None?
  }

  /** Chunk i is cut off or does not open. */
  ghost predicate Stopped(reading: Reading, reader: RangeReader, writer: Writer, i: nat)
    reads reader, writer
  {
    reader.Valid() && StoppedAt(reading, reader.tape, i, writer.written)
  }

  /** Where the loop stands: before chunk i, or stopped at it. */
  ghost predicate Progress(reading: Reading, reader: RangeReader, writer: Writer, i: nat, stopped: bool)
    reads reader, writer
  {
    (!stopped && Streaming(reading, reader, writer, i)) || (stopped && Stopped(reading, reader, writer, i))
  }

  /** One turn of the chunk loop up to the write: fetch as needed, take chunk i off the rope, open it. */
  method NextChunk(reading: Reading, reader: RangeReader, chunkCount: ChunkCount, i: nat)
      returns (chunk: Result<bytes, Failure>)
    requires 0 < reading.header.fileSize && chunkCount == reading.Count() && chunkCount.Exceeds(i)
    requires reader.Valid() && reader.pos == ChunkStart(reading.header, i)
    requires PeakBound(reading.header.chunkSize) <= reader.limit
    modifies reader`chunks, reader`totalBuffered, reader`fetchOffset, reader`fetches, reader`peak, reader`pos
    ensures reader.Valid()
    ensures chunk.ToOption() == reading.WholeChunks(reader.tape)(i)
    ensures chunk.Err? ==> chunk.error == ChunkError(reading, reader.serve, reader.totalSize, reader.tape, i)
    ensures chunk.Ok? ==>
              && old(reader.pos) < reader.pos
              && (chunkCount.Exceeds(i + 1) ==> reader.pos == ChunkStart(reading.header, i + 1))
  {
    ChunkShape(reading.header, i);
    var plaintextChunkSize := PlaintextChunkSize(reading.header, chunkCount, i);
    var encryptedChunk := TakeChunk(reader, plaintextChunkSize + AUTH_TAG_LENGTH);
    if encryptedChunk.Err? {
      return Err(encryptedChunk.error);
    }
    var decryptedChunk := reading.open(i, encryptedChunk.value);
    if decryptedChunk.None? {
      return Err(if |reading.header.baseIV| < ChunkIv.IV_LENGTH then BadIv else BadChunk(i));
    }
    return Ok(decryptedChunk.value);
  }

  /** One turn of the chunk loop: the next chunk is written, or nothing is. */
  method StreamChunk(reading: Reading, reader: RangeReader, writer: Writer, chunkCount: ChunkCount, i: nat)
      returns (error: Option<Failure>)
    requires Streaming(reading, reader, writer, i) && chunkCount == reading.Count() && chunkCount.Exceeds(i)
    modifies reader`chunks, reader`totalBuffered, reader`fetchOffset, reader`fetches, reader`peak, reader`pos
    modifies writer`written
    ensures Progress(reading, reader, writer, if error.None? then i + 1 else i, error.Some?)
    ensures error.Some? ==> error.value == ChunkError(reading, reader.serve, reader.totalSize, reader.tape, i)
    ensures error.None? ==> old(reader.pos) < reader.pos <= |reader.tape|
  {
    var decryptedChunk := NextChunk(reading, reader, chunkCount, i);
    if decryptedChunk.Err? {
      return Some(decryptedChunk.error);
    }
    writer.Write(decryptedChunk.value);
    return None;
  }

  /** The chunk loop. It ends on every byte string: each turn consumes at least a tag of the finitely
      many bytes left. */
  method StreamBody(reading: Reading, reader: RangeReader, writer: Writer)
      returns (error: Option<Failure>, ghost done: nat)
    requires Streaming(reading, reader, writer, 0)
    modifies reader`chunks, reader`totalBuffered, reader`fetchOffset, reader`fetches, reader`peak, reader`pos
    modifies writer`written
    ensures Progress(reading, reader, writer, done, error.Some?)
    ensures error.Some? ==> error.value == ChunkError(reading, reader.serve, reader.totalSize, reader.tape, done)
    ensures error.None? ==> reading.Count() == Bounded(done)
  {
    var chunkCount := CalculateChunkCount(reading.header.fileSize, reading.header.chunkSize);
    var i: nat := 0;
    error := None;
    while error.None? && chunkCount.Exceeds(i)
      invariant Progress(reading, reader, writer, i, error.Some?)
      invariant error.Some? ==> error.value == ChunkError(reading, reader.serve, reader.totalSize, reader.tape, i)
      invariant chunkCount.Bounded? ==> i <= chunkCount.n
      decreases error.None?, |reader.tape| - reader.pos
    {
      error := StreamChunk(reading, reader, writer, chunkCount, i);
      if error.None? {
        i := i + 1;
      }
    }
    done := i;
  }

  lemma StreamedBodyIs(r: Reading, blob: bytes, done: nat, failed: bool)
    requires 0 < r.header.fileSize
    requires Prefix(r.WholeChunks(blob), done).Some?
    requires if failed then r.Count().Exceeds(done) && r.WholeChunks(blob)(done).None? else r.Count() == Bounded(done)
    ensures StreamedBody(r, blob) == if failed then None else Prefix(r.WholeChunks(blob), done)
  {
    if failed && r.Count().Bounded? && Prefix(r.WholeChunks(blob), r.Count().n).Some? {
      EachOpens(r.WholeChunks(blob), done, r.Count().n);
    }
  }

  // ---- the whole run ----------------------------------------------------------------------------

  /** Reading the header through the rope: peek at the name length, then take the whole header. */
  method ReadHeaderBytes(reader: RangeReader) returns (r: Result<bytes, Failure>)
    requires reader.Valid() && reader.pos == 0
    requires FIXED_SIZE + MAX_FILENAME_LENGTH - 1 + FETCH_CHUNK_SIZE <= reader.limit
    modifies reader`chunks, reader`totalBuffered, reader`fetchOffset, reader`fetches, reader`peak, reader`pos
    ensures reader.Valid()
    ensures r.Ok? <==> Complete(reader.tape) && NameLength(reader.tape) <= MAX_FILENAME_LENGTH
    ensures r.Ok? ==> r.value == HeaderBytes(reader.tape) && reader.pos == |r.value|
    ensures r.Err? ==> r.error == HeaderError(reader.serve, reader.totalSize, reader.tape)
  {
    var error := reader.EnsureBytes(2);
    if error.Some? {
      return Err(error.value);
    }
    var prefix := reader.PeekBytes(2);
    assert prefix[..] == reader.tape[0..reader.fetchOffset][..2] == reader.tape[..2];
    var filenameLength := FromBigEndian(prefix[..]);
    if MAX_FILENAME_LENGTH < filenameLength {
      return Err(NameTooLong);
    }
    var fullHeaderSize := 2 + filenameLength + 4 + 8 + 12;
    error := reader.EnsureBytes(fullHeaderSize);
    if error.Some? {
      return Err(error.value);
    }
    var headerBytes := reader.ConsumeBytes(fullHeaderSize);
    return Ok(headerBytes[..]);
  }

  /** Nothing is missing from a header that was read through the rope. */
  lemma HeaderKnown(cipher: Cipher, key: bytes, blob: bytes)
    requires Complete(blob) && NameLength(blob) <= MAX_FILENAME_LENGTH
    ensures var hb := HeaderBytes(blob);
            && Parse(hb).Some? && |hb| == Parse(hb).value.header.Size()
            && ReadHeader(cipher, key, blob)
               == Some(Reading(Parse(hb).value.header,
                               ChunkOpener(cipher, key, Parse(hb).value.header.baseIV, hb)))
  {
    var hb := HeaderBytes(blob);
    assert hb[..2] == blob[..2];
    ParsedFields(hb);
  }

  /** The run from the parsed header on. */
  method StreamContent(reading: Reading, reader: RangeReader, writer: Writer)
      returns (error: Option<Failure>, ghost done: nat)
    requires reader.Valid() && reader.pos == reading.header.Size() && writer.written == []
    requires PeakBound(reading.header.chunkSize) <= reader.limit
    modifies reader`chunks, reader`totalBuffered, reader`fetchOffset, reader`fetches, reader`peak, reader`pos, writer
    ensures reader.Valid()
    ensures match StreamedBody(reading, reader.tape)
            case Some(data) => error.None? && writer.written == data && writer.state == Closed
            case None => error.Some? && writer.state == Aborted
                         && StoppedAt(reading, reader.tape, done, writer.written)
                         && error.value == ChunkError(reading, reader.serve, reader.totalSize, reader.tape, done)
  {
    if reading.header.fileSize == 0 {
      writer.Close();
      return None, 0;
    }
    error, done := StreamBody(reading, reader, writer);
    StreamedBodyIs(reading, reader.tape, done, error.Some?);
    if error.Some? {
      writer.Abort();
    } else {
      writer.Close();
    }
  }

  /** What a run writes: the content, if everything opens; all chunks before the first that is cut off or does
      not open, if the header is complete; else nothing. */
  ghost predicate Writes(cipher: Cipher, key: bytes, tape: bytes, done: nat, written: bytes) {
    match Streamed(cipher, key, tape)
    case Some(p) => written == p.data
    case None =>
      if ReadHeader(cipher, key, tape).Some? && Complete(tape)
      then StoppedAt(ReadHeader(cipher, key, tape).value, tape, done, written)
      else written == []
  }

  lemma {:induction false} TimesGrows(n: nat, c: nat, d: nat)
    requires c <= d
    ensures Times(n, c) <= Times(n, d)
  {
    if n > 0 {
      TimesGrows(n - 1, c, d);
    }
  }

  lemma EndFits(h: FileHeader, n: nat)
    requires n > 0
    ensures PlainEnd(h, n) <= ChunkEnd(h, n - 1)
  {
    TimesGrows(n - 1, h.chunkSize, h.chunkSize + AUTH_TAG_LENGTH);
  }

  lemma PrefixFits(r: Reading, tape: bytes, n: nat)
    requires r.Framed() && Prefix(r.WholeChunks(tape), n).Some?
    ensures |Prefix(r.WholeChunks(tape), n).value| <= |tape|
  {
    if n > 0 {
      assert |Prefix(r.WholeChunks(tape), n).value| == PlainEnd(r.header, n) by {
        r.WholeIsOpened(tape, n);
        r.ClampedIsShort(tape, n);
      }
      EndFits(r.header, n);
      EachOpens(r.WholeChunks(tape), n - 1, n);
      assert ChunkEnd(r.header, n - 1) <= |tape|;
    }
  }

  /** No more is written than was delivered. */
  lemma WrittenFits(cipher: Cipher, key: bytes, tape: bytes, done: nat, written: bytes)
    requires Framed(cipher) && Writes(cipher, key, tape, done, written)
    ensures |written| <= |tape|
  {
    if ReadHeader(cipher, key, tape).Some? && Complete(tape) {
      var r := ReadHeader(cipher, key, tape).value;
      ReadingIsFramed(cipher, key, tape);
      if Streamed(cipher, key, tape).None? {
        PrefixFits(r, tape, done);
      } else if 0 < r.header.fileSize {
        PrefixFits(r, tape, r.Count().n);
      }
    }
  }

  /** A first answer that is no 206 of its size ends the run at once, with the error that says which it was. */
  predicate FirstAnswerDecides(first: Response, size: nat, r: Result<bytes, Failure>, written: bytes) {
    && (first.status != 206 || |first.body| != size ==> r.Err? && written == [])
    && (first.status == 200 ==> r == Err(NoRangeSupport))
    && (first.status != 200 && first.status != 206 ==> r == Err(RangeFailed(first.status)))
    && (first.status == 206 && |first.body| != size ==> r == Err(RangeSizeMismatch(size, |first.body|)))
  }

  lemma EndsAtOnce(
      cipher: Cipher, key: bytes, serve: (nat, nat) -> Response, totalSize: nat, done: nat,
      r: Result<bytes, Failure>, written: bytes)
    requires Writes(cipher, key, Delivered(serve, totalSize, 0), done, written)
    requires |Delivered(serve, totalSize, 0)| <= totalSize
    requires Streamed(cipher, key, Delivered(serve, totalSize, 0)).None? ==>
               r == Err(RunError(cipher, key, serve, totalSize, Delivered(serve, totalSize, 0), done))
    ensures totalSize == 0 ==> r == Err(UnexpectedEnd) && written == []
    ensures 0 < totalSize ==>
              FirstAnswerDecides(serve(0, Min(10_485_920, totalSize) - 1), Min(10_485_920, totalSize), r, written)
  {
    if 0 < totalSize && Refuses(serve, totalSize, 0) {
      StopsAtRefusal(serve, totalSize, 0, 0);
    }
  }

  /** So the first refused range bounds what is written. */
  lemma RefusalBounds(
      cipher: Cipher, key: bytes, serve: (nat, nat) -> Response, totalSize: nat, done: nat, written: bytes, k: nat)
    requires Framed(cipher) && Writes(cipher, key, Delivered(serve, totalSize, 0), done, written)
    requires k * FETCH_CHUNK_SIZE < totalSize && Refuses(serve, totalSize, k)
    ensures |written| <= k * FETCH_CHUNK_SIZE
  {
    WrittenFits(cipher, key, Delivered(serve, totalSize, 0), done, written);
    StopsAtRefusal(serve, totalSize, 0, k);
  }

  /** No more is written than lies before any range that is refused. */
  ghost predicate BoundedByRefusals(serve: (nat, nat) -> Response, totalSize: nat, written: bytes) {
    forall k: nat | k * 10_485_920 < totalSize && Refuses(serve, totalSize, k) :: |written| <= k * 10_485_920
  }

  lemma RefusalsBound(
      cipher: Cipher, key: bytes, serve: (nat, nat) -> Response, totalSize: nat, done: nat, written: bytes)
    requires Framed(cipher) && Writes(cipher, key, Delivered(serve, totalSize, 0), done, written)
    ensures BoundedByRefusals(serve, totalSize, written)
  {
    forall k: nat | k * 10_485_920 < totalSize && Refuses(serve, totalSize, k)
      ensures |written| <= k * 10_485_920
    {
      RefusalBounds(cipher, key, serve, totalSize, done, written, k);
    }
  }

  /** The run over a rope that nothing was taken from. */
  method DecryptRope(cipher: Cipher, key: bytes, reader: RangeReader, writer: Writer)
      returns (r: Result<bytes, Failure>, ghost done: nat)
    requires reader.Valid() && reader.pos == 0 && reader.limit == PeakBound(0) && writer.written == []
    modifies reader, writer
    ensures match Streamed(cipher, key, reader.tape)
            case Some(p) => r == Ok(p.filename) && writer.state == Closed
            case None => r.Err? && writer.state == Aborted
    ensures Writes(cipher, key, reader.tape, done, writer.written)
    ensures reader.Valid()
    ensures r.Err? ==> r.error == RunError(cipher, key, reader.serve, reader.totalSize, reader.tape, done)
    ensures match ReadHeader(cipher, key, reader.tape)
            case Some(reading) => reader.peak <= PeakBound(reading.header.chunkSize)
            case None => reader.peak <= PeakBound(0)
  {
    var headerBytes := ReadHeaderBytes(reader);
    done := 0;
    if headerBytes.Err? {
      writer.Abort();
      r := Err(headerBytes.error);
    } else {
      HeaderKnown(cipher, key, reader.tape);
      var h := Parse(headerBytes.value).value.header;
      var reading := Reading(h, ChunkOpener(cipher, key, h.baseIV, headerBytes.value));
      reader.limit := PeakBound(h.chunkSize);
      var error;
      error, done := StreamContent(reading, reader, writer);
      r := if error.Some? then Err(error.value) else Ok(h.filename);
    }
  }

  /** `decryptWithRangeRequests`, against any server: it succeeds exactly when what the server delivers is
      a container with a complete header whose chunks all open, with that content written and the stream
      closed. Otherwise the stream is aborted, and what was written is the content of all chunks before
      the first that is cut off or does not open; without a complete header, nothing. A range that is not
      answered by a 206 of its size ends the run: the first one at once, any other before more is written than
      lies before it. */
  method DecryptWithRangeRequests(cipher: Cipher, key: bytes, serve: (nat, nat) -> Response, totalSize: nat,
                                  writer: Writer)
      returns (r: Result<bytes, Failure>, ghost done: nat, ghost peak: nat)
    requires writer.written == []
    modifies writer
    ensures match Streamed(cipher, key, Delivered(serve, totalSize, 0))
            case Some(p) => r == Ok(p.filename) && writer.state == Closed
            case None => r.Err? && writer.state == Aborted
    ensures Writes(cipher, key, Delivered(serve, totalSize, 0), done, writer.written)
    ensures |Delivered(serve, totalSize, 0)| <= totalSize
    ensures r.Err? ==> r.error == RunError(cipher, key, serve, totalSize, Delivered(serve, totalSize, 0), done)
    ensures totalSize == 0 ==> r == Err(UnexpectedEnd) && writer.written == []
    ensures 0 < totalSize ==> FirstAnswerDecides(
                serve(0, Min(10_485_920, totalSize) - 1), Min(10_485_920, totalSize), r, writer.written)
    ensures Framed(cipher) ==> BoundedByRefusals(serve, totalSize, writer.written)
    ensures match ReadHeader(cipher, key, Delivered(serve, totalSize, 0))
            case Some(reading) => peak <= PeakBound(reading.header.chunkSize)
            case None => peak <= PeakBound(0)
  {
    var reader := new RangeReader(serve, totalSize, PeakBound(0));
    r, done := DecryptRope(cipher, key, reader, writer);
    peak := reader.peak;
    EndsAtOnce(cipher, key, serve, totalSize, done, r, writer.written);
    if Framed(cipher) {
      RefusalsBound(cipher, key, serve, totalSize, done, writer.written);
    }
  }

  /** Against an exact server and for a complete header, the Range-request form and `decryptFile` agree. */
  lemma RangeRequestsRefineInMemory(cipher: Cipher, key: bytes, serve: (nat, nat) -> Response, blob: bytes)
    requires Framed(cipher) && Exact(serve, blob)
    ensures var streamed := Streamed(cipher, key, Delivered(serve, |blob|, 0));
            && (Complete(blob) ==> streamed == Decrypted(cipher, key, blob))
            && (streamed.Some? <==> Decrypted(cipher, key, blob).Some? && Complete(blob))
  {
    ExactDelivers(serve, blob, 0);
    assert blob[0..] == blob;
    StreamingRefinesInMemory(cipher, key, blob);
  }

  // ---- header information -------------------------------------------------------------------------

  const INFO_RANGE_END := 2047

  datatype Info = Info(filename: bytes, fileSize: nat)

  /** `getFileInfoFromRange`: one request for the first 2 KB; the name length is not limited here. */
  function FileInfo(serve: (nat, nat) -> Response): Option<Info> {
    var response := serve(0, INFO_RANGE_END);
    var data := response.body;
    if response.status != 206 || |data| < 2 then None
    else if |data| < FIXED_SIZE + NameLength(data) then None
    else
      match Parse(data[..FIXED_SIZE + NameLength(data)])
      case None => None
      case Some(p) => Some(Info(p.header.filename, p.header.fileSize))
  }

  /** Asked of a server that cuts the range at the end of the blob, the information is there exactly when
      the header is complete within 2 KB, and it is what the decryptors read. */
  lemma InfoAgrees(cipher: Cipher, key: bytes, serve: (nat, nat) -> Response, blob: bytes)
    requires serve(0, INFO_RANGE_END) == Response(206, Slice(blob, 0, INFO_RANGE_END + 1))
    ensures FileInfo(serve).Some? <==> Complete(blob) && FIXED_SIZE + NameLength(blob) <= INFO_RANGE_END + 1
    ensures Streamed(cipher, key, blob).Some? ==>
              FileInfo(serve) == Some(Info(Streamed(cipher, key, blob).value.filename,
                                           ReadHeader(cipher, key, blob).value.header.fileSize))
  {
    var data := Slice(blob, 0, INFO_RANGE_END + 1);
    if 2 <= |blob| {
      assert data[..2] == blob[..2];
      var size := FIXED_SIZE + NameLength(blob);
      if size <= |data| {
        assert data[..size] == HeaderBytes(blob);
        assert data[..size][..2] == blob[..2];
        ParsedFields(data[..size]);
      }
    }
  }
}
