/** The in-memory decryptor. */
module Decrypt {
  import opened Bytes
  import opened Results
  import opened Header
  import opened Aead
  import opened Container
  import opened Prefixes
  import ChunkIv

  datatype Failure =
    | BadHeader
    | NameTooLong
    | BadIv
    | BadChunk(index: nat)
    | SizeMismatch(expected: nat, got: nat)

  /** One turn of the chunk loop: the next chunk's slice, clamped to the blob, and what it opens to. */
  method OpenSlice(reading: Reading, blob: bytes, offset: nat, chunkCount: ChunkCount, i: nat)
      returns (next: nat, chunk: Option<bytes>)
    requires reading.Framed() && 0 < reading.header.fileSize
    requires chunkCount == reading.Count() && chunkCount.Exceeds(i) && offset == ChunkStart(reading.header, i)
    ensures chunk == reading.Chunks(blob)(i)
    ensures offset < next && (!chunkCount.IsLast(i) ==> next == ChunkStart(reading.header, i + 1))
    ensures chunk.Some? ==> offset < |blob|
  {
    ChunkShape(reading.header, i);
    var plaintextChunkSize := PlaintextChunkSize(reading.header, chunkCount, i);
    var encryptedChunkSize := plaintextChunkSize + AUTH_TAG_LENGTH;
    next := offset + encryptedChunkSize;
    var encryptedChunk := Slice(blob, offset, next);
    chunk := reading.open(i, encryptedChunk);
    assert chunk == reading.ChunkAt(blob, i);
  }

  /** If a chunk does not open, neither does the body. */
  lemma NoBody(r: Reading, blob: bytes, i: nat)
    requires 0 < r.header.fileSize && r.Count().Exceeds(i) && r.ChunkAt(blob, i).None?
    ensures DecryptedBody(r, blob).None?
  {
    assert r.Chunks(blob)(i).None?;
    if r.Count().Bounded? && Prefix(r.Chunks(blob), r.Count().n).Some? {
      EachOpens(r.Chunks(blob), i, r.Count().n);
    }
  }

  lemma BodyOfPrefix(r: Reading, blob: bytes, n: nat, data: bytes)
    requires 0 < r.header.fileSize && r.Count() == Bounded(n) && Prefix(r.Chunks(blob), n) == Some(data)
    ensures DecryptedBody(r, blob) == if |data| == r.header.fileSize then Some(data) else None
  {
  }

  /** `reduce((sum, p) => sum + p.length, 0)`. */
  method TotalLength(parts: seq<bytes>) returns (total: nat)
    ensures total == |Flatten(parts)|
  {
    total := 0;
    for k := 0 to |parts|
      invariant total == |Flatten(parts[..k])|
    {
      assert parts[..k + 1] == parts[..k] + [parts[k]];
      FlattenSnoc(parts[..k], parts[k]);
      total := total + |parts[k]|;
    }
    assert parts[..|parts|] == parts;
  }

  /** The chunk loop of `decryptFile`. It ends on every byte string, a chunk size of zero and a declared
      size beyond the blob included: past the end a slice is empty and does not open. */
  method DecryptBody(reading: Reading, blob: bytes, headerSize: nat) returns (r: Result<bytes, Failure>)
    requires reading.Framed() && headerSize == reading.header.Size()
    ensures r.ToOption() == DecryptedBody(reading, blob)
    ensures r.Err? ==> !r.error.NameTooLong? && !r.error.BadHeader?
    ensures r.Err? && r.error.BadChunk? ==>
              && Prefix(reading.Chunks(blob), r.error.index).Some?
              && reading.ChunkAt(blob, r.error.index).None?
  {
    var h := reading.header;
    var chunkCount := CalculateChunkCount(h.fileSize, h.chunkSize);
    if h.fileSize == 0 {
      return Ok([]);
    }

    ghost var chunks := reading.Chunks(blob);
    var decryptedParts: seq<bytes> := [];
    var offset := headerSize;
    var i := 0;
    while chunkCount.Exceeds(i)
      invariant chunkCount.Bounded? ==> i <= chunkCount.n
      invariant chunkCount.Exceeds(i) ==> offset == ChunkStart(h, i)
      invariant Prefix(chunks, i) == Some(Flatten(decryptedParts))
      decreases |blob| - offset
    {
      var decryptedChunk;
      offset, decryptedChunk := OpenSlice(reading, blob, offset, chunkCount, i);
      if decryptedChunk.None? {
        NoBody(reading, blob, i);
        return Err(if |h.baseIV| < ChunkIv.IV_LENGTH then BadIv else BadChunk(i));
      }
      FlattenSnoc(decryptedParts, decryptedChunk.value);
      decryptedParts := decryptedParts + [decryptedChunk.value];
      i := i + 1;
    }

    BodyOfPrefix(reading, blob, i, Flatten(decryptedParts));
    var totalDecrypted := TotalLength(decryptedParts);
    if totalDecrypted != h.fileSize {
      return Err(SizeMismatch(h.fileSize, totalDecrypted));
    }
    var result := ConcatBuffers(decryptedParts);
    return Ok(result[..]);
  }

  /** `decryptFile`. */
  method DecryptFile(cipher: Cipher, key: bytes, blob: bytes) returns (r: Result<Plain, Failure>)
    requires Framed(cipher)
    ensures r.ToOption() == Decrypted(cipher, key, blob)
    ensures r == Err(NameTooLong) <==> 2 <= |blob| && MAX_FILENAME_LENGTH < NameLength(blob)
    ensures r == Err(BadHeader)
       <==> |blob| < 2 || (NameLength(blob) <= MAX_FILENAME_LENGTH && |blob| < 14 + NameLength(blob))
    ensures r.Err? && r.error.BadChunk? ==>
              var reading := ReadHeader(cipher, key, blob);
              && reading.Some? && Prefix(reading.value.Chunks(blob), r.error.index).Some?
              && reading.value.ChunkAt(blob, r.error.index).None?
  {
    if |blob| < 2 {
      return Err(BadHeader);
    }
    var filenameLength := NameLength(blob);
    if MAX_FILENAME_LENGTH < filenameLength {
      return Err(NameTooLong);
    }
    var headerBytes := Slice(blob, 0, 2 + filenameLength + 4 + 8 + 12);
    assert headerBytes[..2] == blob[..2];
    var parsed := Parse(headerBytes);
    if parsed.None? {
      return Err(BadHeader);
    }
    ParsedFields(headerBytes);
    var h, headerSize := parsed.value.header, parsed.value.bytesRead;
    var reading := Reading(h, ChunkOpener(cipher, key, h.baseIV, headerBytes));
    ReadingIsFramed(cipher, key, blob);
    var body := DecryptBody(reading, blob, headerSize);
    if body.Err? {
      return Err(body.error);
    }
    return Ok(Plain(h.filename, body.value));
  }
}
