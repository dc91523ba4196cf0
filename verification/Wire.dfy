/** The container byte by byte: what lies where in a blob, and what exactly it decrypts to. */
module Wire {
  import opened Bytes
  import opened Results
  import opened Header
  import opened Aead
  import opened Prefixes
  import opened Container
  import opened Encrypt
  import Stream
  import ChunkIv

  /** The 16-bit number at a position, the first byte weighing most. */
  function U16(b: bytes, at: nat): nat
    requires at + 2 <= |b|
  {
    b[at] as int * 0x100 + b[at + 1] as int
  }

  function U32(b: bytes, at: nat): nat
    requires at + 4 <= |b|
  {
    b[at] as int * 0x100_0000 + b[at + 1] as int * 0x1_0000 + b[at + 2] as int * 0x100 + b[at + 3] as int
  }

  function U64(b: bytes, at: nat): nat
    requires at + 8 <= |b|
  {
    U32(b, at) * 0x1_0000_0000 + U32(b, at + 4)
  }

  /** Where chunk i starts behind a name of n bytes. */
  function Place(n: nat, chunkSize: nat, i: nat): nat {
    26 + n + i * (chunkSize + 16)
  }

  /** Slice i of a content. */
  function Piece(data: bytes, chunkSize: nat, i: nat): bytes {
    if i * chunkSize <= |data| then data[i * chunkSize..Min(i * chunkSize + chunkSize, |data|)] else []
  }

  // ---- the header -------------------------------------------------------------------------------

  lemma NumbersAt(b: bytes, at: nat)
    ensures at + 2 <= |b| ==> FromBigEndian(b[at..at + 2]) == U16(b, at)
    ensures at + 4 <= |b| ==> FromBigEndian(b[at..at + 4]) == U32(b, at)
  {
    if at + 2 <= |b| {
      TwoBytes(0, b[at..at + 2]);
    }
    if at + 4 <= |b| {
      FourBytes(0, b[at..at + 4]);
    }
  }

  lemma LongAt(b: bytes, at: nat)
    requires at + 8 <= |b|
    ensures FromBigEndian(b[at..at + 8]) == U64(b, at)
  {
    EightBytes(0, b[at..at + 8]);
    assert b[at..at + 8][..4] == b[at..at + 4] && b[at..at + 8][4..] == b[at + 4..at + 8];
    NumbersAt(b, at);
    NumbersAt(b, at + 4);
  }

  /** Name length, name, chunk size, file size and IV of a complete header; the size as a double. */
  lemma ParsedByByte(b: bytes)
    requires 2 <= |b| && 26 + U16(b, 0) <= |b|
    ensures var n := U16(b, 0);
      Parse(b) == Some(Parsed(
        FileHeader(b[2..2 + n], U32(b, 2 + n), ToNumber(U64(b, 6 + n)), b[14 + n..26 + n]), 26 + n))
  {
    var n := U16(b, 0);
    NumbersAt(b, 0);
    NumbersAt(b, 2 + n);
    LongAt(b, 6 + n);
  }

  /** How many bytes a header needs: for its numbers to be read, and for its IV to be there whole. */
  lemma HeaderNeeds(b: bytes)
    ensures Parse(b).Some? <==> 2 <= |b| && 14 + U16(b, 0) <= |b|
    ensures Complete(b) <==> 2 <= |b| && 26 + U16(b, 0) <= |b|
  {
    NumbersAt(b, 0);
  }

  lemma SlotsByByte(s: bytes, h: FileHeader)
    requires |h.filename| < 0x1_0000 && h.chunkSize < 0x1_0000_0000 && h.fileSize < 0x1_0000_0000_0000_0000
    requires |h.baseIV| == 12 && InSlots(h, s)
    ensures var n := |h.filename|; U16(s, 0) == n && U32(s, 2 + n) == h.chunkSize && U64(s, 6 + n) == h.fileSize
  {
    var n := |h.filename|;
    Widths();
    BigEndianRoundTrip(n, 2);
    BigEndianRoundTrip(h.chunkSize, 4);
    BigEndianRoundTrip(h.fileSize, 8);
    NumbersAt(s, 0);
    NumbersAt(s, 2 + n);
    LongAt(s, 6 + n);
  }

  /** Every byte of a serialized header. */
  lemma SerializedByByte(h: FileHeader)
    requires |h.filename| < 0x1_0000 && h.chunkSize < 0x1_0000_0000 && h.fileSize < 0x1_0000_0000_0000_0000
    requires |h.baseIV| == 12
    ensures var s, n := h.Serialize(), |h.filename|;
      && |s| == 26 + n && U16(s, 0) == n && s[2..2 + n] == h.filename && U32(s, 2 + n) == h.chunkSize
      && U64(s, 6 + n) == h.fileSize && s[14 + n..] == h.baseIV
  {
    SerializedFields(h, []);
    assert h.Serialize() + [] == h.Serialize();
    SlotsByByte(h.Serialize(), h);
  }

  // ---- what is encrypted ------------------------------------------------------------------------

  /** The indices of the chunks are those whose first byte is in the content. */
  lemma IndicesAre(size: nat, chunkSize: nat, i: nat)
    requires 0 < chunkSize
    ensures i * chunkSize < size <==> CalculateChunkCount(size, chunkSize).Exceeds(i)
  {
    TimesIsProduct(i, chunkSize);
    if 0 < size {
      var n := CalculateChunkCount(size, chunkSize).n;
      CountIsCeiling(size, chunkSize);
      if i < n {
        TimesMonotone(i, n - 1, chunkSize);
      } else {
        TimesMonotone(n, i, chunkSize);
      }
    }
  }

  /** An encrypted empty file is its header; any other starts with it. */
  lemma HeaderOnTheWire(run: Run)
    requires run.Valid()
    ensures 26 + |run.file.name| <= |run.Encrypted()|
    ensures run.Encrypted()[..26 + |run.file.name|] == run.Header().Serialize()
    ensures run.file.content == [] ==> run.Encrypted() == run.Header().Serialize()
  {
    SerializedFields(run.Header(), []);
    assert run.Header().Serialize() + [] == run.Header().Serialize();
    if run.file.content == [] {
      assert run.Writing().Count() == 0;
    }
  }

  lemma SealedInBlob(run: Run, i: nat)
    requires run.Valid() && Lawful(run.cipher) && i < run.Writing().Count()
    ensures var h := run.Header(); h.Size() <= ChunkStart(h, i) <= ChunkEnd(h, i) <= |run.Encrypted()|
    ensures var h := run.Header(); run.Encrypted()[ChunkStart(h, i)..ChunkEnd(h, i)] == run.Writing().SealedChunk(i)
  {
    var w, h := run.Writing(), run.Header();
    SealerIsFramed(run);
    w.ChunkInBody(i);
    HeaderOnTheWire(run);
    assert run.Encrypted()[ChunkStart(h, i)..ChunkEnd(h, i)]
        == w.Body()[ChunkStart(h, i) - h.Size()..ChunkEnd(h, i) - h.Size()];
  }

  /** Start and length of chunk i without the layout's own functions. */
  lemma PlaceIs(h: FileHeader, i: nat)
    requires 0 < h.chunkSize && i * h.chunkSize < h.fileSize
    ensures ChunkStart(h, i) == 26 + |h.filename| + i * (h.chunkSize + 16)
    ensures PlainEnd(h, i) == i * h.chunkSize && PlainEnd(h, i + 1) == Min(i * h.chunkSize + h.chunkSize, h.fileSize)
  {
    LayoutClosedForm(h, i);
    LayoutClosedForm(h, i + 1);
    assert (i + 1) * h.chunkSize == i * h.chunkSize + h.chunkSize;
  }

  lemma SealedIs(run: Run, i: nat)
    requires run.Valid()
    ensures run.Writing().SealedChunk(i)
         == run.cipher.seal(run.key, ChunkIv.DeriveChunkIV(run.baseIV, i).value,
                            if i == 0 then run.Header().Serialize() else [], run.Writing().PlainChunk(i))
  {
    var hb, p, iv := run.Header().Serialize(), run.Writing().PlainChunk(i), ChunkIv.DeriveChunkIV(run.baseIV, i).value;
    var aad := if i == 0 then hb else [];
    assert ChunkAad(hb, i) == aad;
    assert ChunkSealer(run.cipher.seal, run.key, run.baseIV, hb)(i, p) == run.cipher.seal(run.key, iv, aad, p);
  }

  lemma PieceIs(h: FileHeader, data: bytes, i: nat)
    requires |data| == h.fileSize && 0 < h.chunkSize && i * h.chunkSize < |data|
    ensures ChunkStart(h, i) == Place(|h.filename|, h.chunkSize, i)
    ensures ChunkEnd(h, i) == ChunkStart(h, i) + |Piece(data, h.chunkSize, i)| + 16
    ensures PlainEnd(h, i) <= PlainEnd(h, i + 1) <= |data|
    ensures data[PlainEnd(h, i)..PlainEnd(h, i + 1)] == Piece(data, h.chunkSize, i)
  {
    PlaceIs(h, i);
  }

  /**
   * Chunk i of an encrypted file is its slice of the content, sealed under its own IV, with the header as additional
   * data of chunk 0 and none of the others.
   */
  lemma ChunkOnTheWire(run: Run, i: nat)
    requires run.Valid() && Lawful(run.cipher) && i * run.chunkSize < |run.file.content|
    ensures var blob, n, plain := run.Encrypted(), |run.file.name|, Piece(run.file.content, run.chunkSize, i);
      var at := Place(n, run.chunkSize, i);
      && at + |plain| + 16 <= |blob|
      && blob[at..at + |plain| + 16]
         == run.cipher.seal(run.key, ChunkIv.DeriveChunkIV(run.baseIV, i).value,
                            if i == 0 then blob[..26 + n] else [], plain)
  {
    IndicesAre(|run.file.content|, run.chunkSize, i);
    PieceIs(run.Header(), run.file.content, i);
    SealedInBlob(run, i);
    SealedIs(run, i);
    HeaderOnTheWire(run);
  }

  // ---- what is decrypted ------------------------------------------------------------------------

  /** Chunk i is there whole and opens to its slice of the content. */
  ghost predicate Matches(r: Reading, b: bytes, data: bytes, i: nat) {
    && ChunkEnd(r.header, i) <= |b| && PlainEnd(r.header, i + 1) <= |data|
    && r.ChunkAt(b, i) == Some(data[PlainEnd(r.header, i)..PlainEnd(r.header, i + 1)])
  }

  /** Where the content of an opened chunk is found. */
  lemma OpenedMatches(r: Reading, b: bytes, data: bytes, i: nat)
    requires r.Framed() && r.Count().Bounded? && i < r.Count().n
    requires Prefix(r.WholeChunks(b), r.Count().n) == Some(data)
    ensures Matches(r, b, data, i)
  {
    var whole, n := r.WholeChunks(b), r.Count().n;
    PieceAt(whole, i, n);
    r.WholeIsOpened(b, i);
    r.ClampedIsShort(b, i);
    r.WholeIsOpened(b, i + 1);
    r.ClampedIsShort(b, i + 1);
  }

  /** The body is some content exactly if that content has the declared size and every chunk matches it. */
  lemma BodyExactly(r: Reading, b: bytes, data: bytes)
    requires r.Framed() && 0 < r.header.fileSize
    ensures StreamedBody(r, b) == Some(data) <==>
      |data| == r.header.fileSize && 0 < r.header.chunkSize && forall i: nat | i < r.Count().n :: Matches(r, b, data, i)
  {
    if 0 < r.header.chunkSize {
      var whole, n, end := r.WholeChunks(b), r.Count().n, (k: nat) => PlainEnd(r.header, k);
      PlainEndOfAll(r);
      if Prefix(whole, n) == Some(data) {
        r.WholeIsOpened(b, n);
        r.ClampedIsShort(b, n);
        forall i: nat | i < n
          ensures Matches(r, b, data, i)
        {
          OpenedMatches(r, b, data, i);
        }
      }
      if |data| == r.header.fileSize && forall i: nat | i < n :: Matches(r, b, data, i) {
        forall i: nat | i < n
          ensures OpensSlice(whole, data, end, i)
        {
          assert Matches(r, b, data, i);
        }
        SlicesAddUp(whole, data, end, n);
        assert data[..|data|] == data;
      }
    }
  }

  /**
   * The bytes of chunk i, found by the numbers in the header, open under the chunk's own IV to its slice of the
   * content; chunk 0 with the header as additional data, the others without any.
   */
  ghost predicate ChunkOpensTo(cipher: Cipher, key: bytes, b: bytes, data: bytes, i: nat)
    requires 2 <= |b| && 26 + U16(b, 0) <= |b|
  {
    var n := U16(b, 0);
    var plain := Piece(data, U32(b, 2 + n), i);
    var at := Place(n, U32(b, 2 + n), i);
    && at + |plain| + 16 <= |b|
    && cipher.open(key, ChunkIv.DeriveChunkIV(b[14 + n..26 + n], i).value, if i == 0 then b[..26 + n] else [],
                   b[at..at + |plain| + 16]) == Some(plain)
  }

  ghost predicate EveryChunkOpens(cipher: Cipher, key: bytes, b: bytes, data: bytes)
    requires 2 <= |b| && 26 + U16(b, 0) <= |b|
  {
    forall i: nat | i * U32(b, 2 + U16(b, 0)) < |data| :: ChunkOpensTo(cipher, key, b, data, i)
  }

  lemma OpenerIs(cipher: Cipher, key: bytes, iv: bytes, hb: bytes, i: nat, ct: bytes)
    requires |iv| == 12
    ensures ChunkOpener(cipher, key, iv, hb)(i, ct)
         == cipher.open(key, ChunkIv.DeriveChunkIV(iv, i).value, if i == 0 then hb else [], ct)
  {
    var aad := if i == 0 then hb else [];
    assert ChunkAad(hb, i) == aad;
    assert ChunkOpener(cipher, key, iv, hb)(i, ct)
        == cipher.open(key, ChunkIv.DeriveChunkIV(iv, i).value, ChunkAad(hb, i), ct);
  }

  lemma PrefixNumbers(b: bytes, m: nat, at: nat)
    requires at + 4 <= m <= |b|
    ensures U16(b[..m], at) == U16(b, at) && U32(b[..m], at) == U32(b, at)
  {
  }

  /** The header of a blob, cut off behind it. */
  lemma ParsedPrefix(b: bytes)
    requires 2 <= |b| && 26 + U16(b, 0) <= |b|
    ensures var n := U16(b, 0);
      Parse(b[..26 + n]) == Some(Parsed(
        FileHeader(b[2..2 + n], U32(b, 2 + n), ToNumber(U64(b, 6 + n)), b[14 + n..26 + n]), 26 + n))
  {
    var n := U16(b, 0);
    var hb := b[..26 + n];
    PrefixNumbers(b, 26 + n, 0);
    PrefixNumbers(b, 26 + n, 2 + n);
    PrefixNumbers(b, 26 + n, 6 + n);
    PrefixNumbers(b, 26 + n, 10 + n);
    ParsedByByte(hb);
    assert hb[2..2 + n] == b[2..2 + n] && hb[14 + n..26 + n] == b[14 + n..26 + n];
  }

  lemma ReadingIs(cipher: Cipher, key: bytes, b: bytes)
    requires 2 <= |b| && 26 + U16(b, 0) <= |b|
    ensures Complete(b)
    ensures var n := U16(b, 0);
      var iv := b[14 + n..26 + n];
      ReadHeader(cipher, key, b) == if n > 1024 then None else Some(Reading(
        FileHeader(b[2..2 + n], U32(b, 2 + n), ToNumber(U64(b, 6 + n)), iv), ChunkOpener(cipher, key, iv, b[..26 + n])))
  {
    var n := U16(b, 0);
    NumbersAt(b, 0);
    assert HeaderBytes(b) == b[..26 + n];
    ParsedPrefix(b);
  }

  lemma MatchIs(r: Reading, b: bytes, data: bytes, i: nat)
    requires |data| == r.header.fileSize && 0 < r.header.chunkSize && i * r.header.chunkSize < |data|
    ensures var at, plain := Place(|r.header.filename|, r.header.chunkSize, i), Piece(data, r.header.chunkSize, i);
      Matches(r, b, data, i) <==>
      at + |plain| + 16 <= |b| && r.open(i, b[at..at + |plain| + 16]) == Some(plain)
  {
    PieceIs(r.header, data, i);
  }

  lemma MatchesIs(cipher: Cipher, key: bytes, b: bytes, r: Reading, data: bytes, i: nat)
    requires 2 <= |b| && 26 + U16(b, 0) <= |b| && U16(b, 0) <= 1024 && ReadHeader(cipher, key, b) == Some(r)
    requires |data| == r.header.fileSize && 0 < r.header.chunkSize && i * r.header.chunkSize < |data|
    ensures Matches(r, b, data, i) <==> ChunkOpensTo(cipher, key, b, data, i)
  {
    ReadingIs(cipher, key, b);
    assert r.header.chunkSize == U32(b, 2 + U16(b, 0)) && |r.header.filename| == U16(b, 0);
    MatchIs(r, b, data, i);
    var n, plain := U16(b, 0), Piece(data, r.header.chunkSize, i);
    var at := Place(n, r.header.chunkSize, i);
    if at + |plain| + 16 <= |b| {
      OpenerIs(cipher, key, b[14 + n..26 + n], b[..26 + n], i, b[at..at + |plain| + 16]);
    }
  }

  lemma AllMatch(cipher: Cipher, key: bytes, b: bytes, r: Reading, data: bytes)
    requires 2 <= |b| && 26 + U16(b, 0) <= |b| && U16(b, 0) <= 1024 && ReadHeader(cipher, key, b) == Some(r)
    requires |data| == r.header.fileSize && 0 < r.header.chunkSize
    ensures (forall i: nat | i < r.Count().n :: Matches(r, b, data, i))
       <==> EveryChunkOpens(cipher, key, b, data)
  {
    ReadingIs(cipher, key, b);
    forall i: nat
      ensures i < r.Count().n <==> i * r.header.chunkSize < |data|
      ensures i < r.Count().n ==> (Matches(r, b, data, i) <==> ChunkOpensTo(cipher, key, b, data, i))
    {
      IndicesAre(r.header.fileSize, r.header.chunkSize, i);
      if i < r.Count().n {
        MatchesIs(cipher, key, b, r, data, i);
      }
    }
  }

  lemma DecryptedIs(cipher: Cipher, key: bytes, b: bytes, name: bytes, data: bytes)
    requires Framed(cipher) && Complete(b)
    ensures Decrypted(cipher, key, b) == Some(Plain(name, data)) <==>
      var r := ReadHeader(cipher, key, b);
      r.Some? && r.value.header.filename == name && StreamedBody(r.value, b) == Some(data)
  {
    StreamingRefinesInMemory(cipher, key, b);
  }

  lemma NotNegative(i: nat, c: nat)
    ensures 0 <= i * c
  {
  }

  lemma NothingToOpen(cipher: Cipher, key: bytes, b: bytes)
    requires 2 <= |b| && 26 + U16(b, 0) <= |b|
    ensures EveryChunkOpens(cipher, key, b, [])
  {
    forall i: nat
      ensures i * U32(b, 2 + U16(b, 0)) < 0 ==> ChunkOpensTo(cipher, key, b, [], i)
    {
      NotNegative(i, U32(b, 2 + U16(b, 0)));
    }
  }

  lemma ContentExactly(cipher: Cipher, key: bytes, b: bytes, r: Reading, data: bytes)
    requires Framed(cipher) && 2 <= |b| && 26 + U16(b, 0) <= |b| && U16(b, 0) <= 1024
    requires ReadHeader(cipher, key, b) == Some(r)
    ensures StreamedBody(r, b) == Some(data) <==>
      && |data| == r.header.fileSize && (data != [] ==> 0 < r.header.chunkSize) && EveryChunkOpens(cipher, key, b, data)
  {
    ReadingIsFramed(cipher, key, b);
    NothingToOpen(cipher, key, b);
    if 0 < r.header.fileSize {
      BodyExactly(r, b, data);
      if |data| == r.header.fileSize && 0 < r.header.chunkSize {
        AllMatch(cipher, key, b, r, data);
      }
    }
  }

  /**
   * What a blob with a complete header decrypts to, exactly: the name it declares, of at most 1024 bytes, and the
   * content of the declared size each chunk of which opens to its slice.
   */
  lemma DecryptsExactly(cipher: Cipher, key: bytes, b: bytes, name: bytes, data: bytes)
    requires Framed(cipher) && 2 <= |b| && 26 + U16(b, 0) <= |b|
    ensures var n := U16(b, 0);
      Decrypted(cipher, key, b) == Some(Plain(name, data)) <==>
        && n <= 1024 && name == b[2..2 + n] && |data| == ToNumber(U64(b, 6 + n))
        && (data != [] ==> 0 < U32(b, 2 + n)) && EveryChunkOpens(cipher, key, b, data)
  {
    ReadingIs(cipher, key, b);
    DecryptedIs(cipher, key, b, name, data);
    if U16(b, 0) <= 1024 {
      ContentExactly(cipher, key, b, ReadHeader(cipher, key, b).value, data);
    }
  }

  // ---- the information before a download ----------------------------------------------------------

  /** Only from a 206 answer that holds a complete header, and then the name and size written there. */
  lemma InfoByByte(serve: (nat, nat) -> Stream.Response)
    ensures var data := serve(0, 2047).body;
      Stream.FileInfo(serve) ==
      if serve(0, 2047).status == 206 && 2 <= |data| && 26 + U16(data, 0) <= |data|
      then Some(Stream.Info(data[2..2 + U16(data, 0)], ToNumber(U64(data, 6 + U16(data, 0))))) else None
  {
    var data := serve(0, 2047).body;
    if 2 <= |data| {
      NumbersAt(data, 0);
      if 26 + U16(data, 0) <= |data| {
        ParsedPrefix(data);
      }
    }
  }
}
