/** The encryptor, and what it guarantees together with the decryptors: lengths, round trips, and that
    nothing but the encrypted file decrypts. */
module Encrypt {
  import opened Bytes
  import opened Results
  import opened Header
  import opened Aead
  import opened Prefixes
  import opened Container
  import ChunkIv

  /** A file as the browser hands it over: the UTF-8 bytes of its name, the length of the name in UTF-16
      units (what `name.length` counts), and its content. */
  datatype File = File(name: bytes, nameUnits: nat, content: bytes)
  {
    /** A UTF-16 unit takes one to three bytes of UTF-8. Sizes are numbers below 2^53. */
    predicate Valid() {
      nameUnits <= |name| <= 3 * nameUnits && |content| < EXACT_LIMIT
    }
  }

  /** Bytes in the first n sealed chunks: their plaintext and a tag each. */
  function SealedEnd(h: FileHeader, n: nat): nat {
    PlainEnd(h, n) + Times(n, AUTH_TAG_LENGTH)
  }

  lemma {:induction false} TimesAdds(i: nat, c: nat, d: nat)
    ensures Times(i, c + d) == Times(i, c) + Times(i, d)
  {
    if i > 0 {
      TimesAdds(i - 1, c, d);
    }
  }

  /** The sealed chunks before and after chunk i end where the layout puts its start and its end. */
  lemma SealedPlace(h: FileHeader, i: nat)
    requires 0 < h.fileSize && CalculateChunkCount(h.fileSize, h.chunkSize).Exceeds(i)
    ensures h.Size() + SealedEnd(h, i) == ChunkStart(h, i)
    ensures h.Size() + SealedEnd(h, i + 1) == ChunkEnd(h, i)
  {
    ChunkShape(h, i);
    TimesAdds(i, h.chunkSize, AUTH_TAG_LENGTH);
    if h.chunkSize == 0 {
      TimesIsProduct(i, 0);
    }
  }

  /** Content on its way into a container: the header, and how chunk i is sealed. */
  datatype Writing = Writer(header: FileHeader, content: bytes, seal: (nat, bytes) -> bytes)
  {
    predicate Valid() {
      |content| == header.fileSize && 0 < header.chunkSize
    }

    function Count(): nat
      requires Valid()
    {
      CalculateChunkCount(header.fileSize, header.chunkSize).n
    }

    /** Sealing adds one tag. */
    ghost predicate Framed() {
      forall i: nat, p :: |seal(i, p)| == |p| + AUTH_TAG_LENGTH
    }

    /** The plaintext of chunk i. */
    function PlainChunk(i: nat): bytes {
      Slice(content, PlainEnd(header, i), PlainEnd(header, i + 1))
    }

    function SealedChunk(i: nat): bytes {
      seal(i, PlainChunk(i))
    }

    function SealedChunks(): Opener {
      (i: nat) => Some(SealedChunk(i))
    }

    lemma {:induction false} SealedChunksOpen(n: nat)
      ensures Prefix(SealedChunks(), n).Some?
    {
      if n > 0 {
        SealedChunksOpen(n - 1);
      }
    }

    /** All sealed chunks, one after the other. */
    function Body(): bytes
      requires Valid()
    {
      SealedChunksOpen(Count());
      Prefix(SealedChunks(), Count()).value
    }

    /** The first n sealed chunks take their plaintext and a tag each. */
    lemma {:induction false} SealedLength(n: nat)
      requires Valid() && Framed()
      ensures Prefix(SealedChunks(), n).Some?
      ensures |Prefix(SealedChunks(), n).value| == SealedEnd(header, n)
    {
      SealedChunksOpen(n);
      if n > 0 {
        SealedLength(n - 1);
        assert |SealedChunk(n - 1)| == PlainSize(header, n - 1) + AUTH_TAG_LENGTH;
      }
    }

    /** Sealed chunk i lies in the body where the layout puts it. */
    lemma ChunkInBody(i: nat)
      requires Valid() && Framed() && i < Count()
      ensures header.Size() <= ChunkStart(header, i) <= ChunkEnd(header, i) <= header.Size() + |Body()|
      ensures Body()[ChunkStart(header, i) - header.Size()..ChunkEnd(header, i) - header.Size()] == SealedChunk(i)
    {
      SealedLength(i);
      SealedLength(i + 1);
      SealedPlace(header, i);
      SealedChunksOpen(Count());
      PieceAt(SealedChunks(), i, Count());
    }
  }

  /** Sealing chunk i: its own IV, and the header bytes as additional data of chunk 0. */
  function ChunkSealer(seal: (bytes, bytes, bytes, bytes) -> bytes, key: bytes, baseIV: bytes, headerBytes: bytes)
    : (nat, bytes) -> bytes
  {
    (i: nat, plaintext: bytes) =>
      match ChunkIv.DeriveChunkIV(baseIV, i)
      case None => []
      case Some(iv) => seal(key, iv, ChunkAad(headerBytes, i), plaintext)
  }

  /** One call of `encryptFile` with its random base IV. */
  datatype Run = Run(cipher: Cipher, key: bytes, file: File, chunkSize: nat, baseIV: bytes)
  {
    predicate Valid() {
      file.Valid() && 0 < chunkSize < ChunkIv.WORD && |baseIV| == ChunkIv.IV_LENGTH
    }

    function Header(): FileHeader {
      FileHeader(file.name, chunkSize, |file.content|, baseIV)
    }

    function Writing(): Writing {
      Writer(Header(), file.content, ChunkSealer(cipher.seal, key, baseIV, Header().Serialize()))
    }

    /** The encrypted blob. */
    function Encrypted(): bytes
      requires Valid()
    {
      Header().Serialize() + Writing().Body()
    }
  }

  datatype Failure = NameTooLong

  /** The slice the loop reads for chunk i. */
  lemma SourceSlice(w: Writing, i: nat)
    requires w.Valid() && i < w.Count() && 0 < |w.content|
    ensures var start := i * w.header.chunkSize; var end := Min(start + w.header.chunkSize, |w.content|);
            0 <= start < end && w.PlainChunk(i) == Slice(w.content, start, end)
  {
    ChunkShape(w.header, i);
    TimesIsProduct(i, w.header.chunkSize);
  }

  /** The chunk loop of `encryptFile`, starting from the header. */
  method SealAll(writing: Writing, headerBytes: bytes) returns (encryptedParts: seq<bytes>)
    requires writing.Valid() && 0 < |writing.content|
    ensures Flatten(encryptedParts) == headerBytes + writing.Body()
  {
    var chunkCount := CalculateChunkCount(|writing.content|, writing.header.chunkSize);
    encryptedParts := [headerBytes];
    assert Flatten(encryptedParts) == headerBytes + Flatten(encryptedParts[1..]);
    var i: nat := 0;
    ghost var sealed := writing.SealedChunks();
    while i < chunkCount.n
      invariant i <= chunkCount.n
      invariant Prefix(sealed, i).Some? && Flatten(encryptedParts) == headerBytes + Prefix(sealed, i).value
    {
      var start := i * writing.header.chunkSize;
      var end := Min(start + writing.header.chunkSize, |writing.content|);
      SourceSlice(writing, i);
      var chunkData := Slice(writing.content, start, end);
      var encryptedChunk := writing.seal(i, chunkData);
      assert sealed(i) == Some(encryptedChunk);
      FlattenSnoc(encryptedParts, encryptedChunk);
      encryptedParts := encryptedParts + [encryptedChunk];
      i := i + 1;
    }
  }

  /** `encryptFile`. */
  method EncryptFile(run: Run) returns (r: Result<bytes, Failure>)
    requires run.Valid()
    ensures r.Ok? <==> run.file.nameUnits <= MAX_FILENAME_LENGTH
    ensures r.Ok? ==> r.value == run.Encrypted()
  {
    var file := run.file;
    if MAX_FILENAME_LENGTH < file.nameUnits {
      return Err(NameTooLong);
    }
    var headerBytes := run.Header().Serialize();
    if |file.content| == 0 {
      assert Prefix(run.Writing().SealedChunks(), 0) == Some([]);
      return Ok(headerBytes);
    }
    var encryptedParts := SealAll(run.Writing(), headerBytes);
    var blob := ConcatBuffers(encryptedParts);
    return Ok(blob[..]);
  }

  // ---- lengths and positions --------------------------------------------------------------------

  lemma HeaderFits(run: Run)
    requires run.Valid() && |run.file.name| < NAME_WORD
    ensures run.Header().Fits() && |run.Header().Serialize()| == run.Header().Size()
  {
  }

  /** Chunk i opens to what was sealed as chunk i. */
  lemma SealsAndOpens(cipher: Cipher, key: bytes, baseIV: bytes, headerBytes: bytes, i: nat, p: bytes)
    requires Lawful(cipher) && |baseIV| == ChunkIv.IV_LENGTH
    ensures var sealed := ChunkSealer(cipher.seal, key, baseIV, headerBytes)(i, p);
            && |sealed| == |p| + AUTH_TAG_LENGTH
            && ChunkOpener(cipher, key, baseIV, headerBytes)(i, sealed) == Some(p)
  {
    var iv, aad := ChunkIv.DeriveChunkIV(baseIV, i).value, ChunkAad(headerBytes, i);
    Aead.SealedLength(cipher, key, iv, aad, p);
    assert ChunkSealer(cipher.seal, key, baseIV, headerBytes)(i, p) == cipher.seal(key, iv, aad, p);
    var sealed := cipher.seal(key, iv, aad, p);
    assert ChunkOpener(cipher, key, baseIV, headerBytes)(i, sealed) == cipher.open(key, iv, aad, sealed);
  }

  lemma SealerIsFramed(run: Run)
    requires run.Valid() && Lawful(run.cipher)
    ensures run.Writing().Framed()
  {
    forall i: nat, p
      ensures |run.Writing().seal(i, p)| == |p| + AUTH_TAG_LENGTH
    {
      SealsAndOpens(run.cipher, run.key, run.baseIV, run.Header().Serialize(), i, p);
    }
  }

  /** The blob is 26 + name + content + 16 bytes for every chunk. */
  lemma EncryptedLength(run: Run)
    requires run.Valid() && Lawful(run.cipher)
    ensures |run.Encrypted()| == 26 + |run.file.name| + |run.file.content| + 16 * run.Writing().Count()
  {
    var w := run.Writing();
    SealerIsFramed(run);
    w.SealedLength(w.Count());
    TimesIsProduct(w.Count(), AUTH_TAG_LENGTH);
    if 0 < |w.content| {
      CountIsCeiling(|w.content|, run.chunkSize);
    }
  }

  // ---- round trip -------------------------------------------------------------------------------

  lemma InMiddle(a: bytes, b: bytes, c: bytes, lo: nat, hi: nat)
    requires |a| <= lo <= hi <= |a| + |b|
    ensures Slice(a + b + c, lo, hi) == b[lo - |a|..hi - |a|]
  {
  }

  /** A body of sealed chunks, behind a header of the right size and before anything, opens again. */
  lemma BodyOpens(w: Writing, r: Reading, headerBytes: bytes, rest: bytes)
    requires w.Valid() && w.Framed() && r.header == w.header && |headerBytes| == w.header.Size()
    requires forall i: nat | i < w.Count() :: r.open(i, w.SealedChunk(i)) == Some(w.PlainChunk(i))
    ensures Prefix(r.Chunks(headerBytes + w.Body() + rest), w.Count()) == Some(w.content)
  {
    var blob, h := headerBytes + w.Body() + rest, w.header;
    var end := (k: nat) => PlainEnd(h, k);
    forall i: nat | i < w.Count()
      ensures OpensSlice(r.Chunks(blob), w.content, end, i)
    {
      w.ChunkInBody(i);
      InMiddle(headerBytes, w.Body(), rest, ChunkStart(h, i), ChunkEnd(h, i));
      assert r.Chunks(blob)(i) == r.ChunkAt(blob, i);
    }
    SlicesAddUp(r.Chunks(blob), w.content, end, w.Count());
    if 0 < |w.content| {
      CountIsCeiling(|w.content|, h.chunkSize);
    }
    assert w.content[..|w.content|] == w.content;
  }

  /** The header phase reads a serialized header back, or rejects its name. */
  lemma HeaderReadBack(cipher: Cipher, key: bytes, h: FileHeader, rest: bytes)
    requires h.Fits()
    ensures Complete(h.Serialize() + rest)
    ensures ReadHeader(cipher, key, h.Serialize() + rest) ==
            if |h.filename| <= MAX_FILENAME_LENGTH
            then Some(Reading(h, ChunkOpener(cipher, key, h.baseIV, h.Serialize()))) else None
  {
    var hb := h.Serialize();
    ParseSerialized(h, rest);
    ParseSerialized(h, []);
    assert hb + [] == hb;
    assert (hb + rest)[..2] == hb[..2];
    assert HeaderBytes(hb + rest) == hb;
  }

  /** A content is decrypted from header and body whenever its chunks open. */
  lemma DecryptsWhatOpens(cipher: Cipher, key: bytes, w: Writing, rest: bytes)
    requires w.Valid() && w.Framed() && w.header.Fits() && Framed(cipher)
    requires var open := ChunkOpener(cipher, key, w.header.baseIV, w.header.Serialize());
             forall i: nat | i < w.Count() :: open(i, w.SealedChunk(i)) == Some(w.PlainChunk(i))
    ensures var blob := w.header.Serialize() + w.Body() + rest;
            && Complete(blob)
            && Decrypted(cipher, key, blob) ==
               if |w.header.filename| <= MAX_FILENAME_LENGTH then Some(Plain(w.header.filename, w.content)) else None
  {
    var h := w.header;
    var blob := h.Serialize() + w.Body() + rest;
    assert blob == h.Serialize() + (w.Body() + rest);
    HeaderReadBack(cipher, key, h, w.Body() + rest);
    ParseSerialized(h, []);
    if |h.filename| <= MAX_FILENAME_LENGTH {
      BodyOpens(w, ReadHeader(cipher, key, blob).value, h.Serialize(), rest);
    }
  }

  /** Round trip: for every content and every chunk size, decrypting an encrypted file, with anything
      after it, gives its name and content back through both decryptors exactly when the UTF-8 form of the
      name has at most 1024 bytes. */
  lemma RoundTrip(run: Run, rest: bytes)
    requires run.Valid() && run.file.nameUnits <= MAX_FILENAME_LENGTH && Lawful(run.cipher)
    ensures var blob := run.Encrypted() + rest;
            var expected := if |run.file.name| <= MAX_FILENAME_LENGTH
                            then Some(Plain(run.file.name, run.file.content)) else None;
            Decrypted(run.cipher, run.key, blob) == expected && Streamed(run.cipher, run.key, blob) == expected
  {
    var w := run.Writing();
    HeaderFits(run);
    SealerIsFramed(run);
    forall i: nat | i < w.Count()
      ensures ChunkOpener(run.cipher, run.key, run.baseIV, w.header.Serialize())(i, w.SealedChunk(i))
           == Some(w.PlainChunk(i))
    {
      SealsAndOpens(run.cipher, run.key, run.baseIV, w.header.Serialize(), i, w.PlainChunk(i));
    }
    DecryptsWhatOpens(run.cipher, run.key, w, rest);
    StreamingRefinesInMemory(run.cipher, run.key, run.Encrypted() + rest);
  }

  /** The two name limits differ: 513 times U+00E9 is accepted for encryption and never decrypted. */
  lemma AcceptedNameThatDoesNotDecrypt(run: Run)
    requires run.file.name == seq(1026, k => if k % 2 == 0 then 0xC3 else 0xA9) && run.file.nameUnits == 513
    requires run.Valid() && Lawful(run.cipher)
    ensures run.file.nameUnits <= MAX_FILENAME_LENGTH
    ensures Decrypted(run.cipher, run.key, run.Encrypted()) == None
  {
    RoundTrip(run, []);
    assert run.Encrypted() + [] == run.Encrypted();
  }
}
