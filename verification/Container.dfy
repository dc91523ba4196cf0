/** The layout of the container and what opening it means: chunk sizes, chunk offsets, the plaintext
    of the first n chunks. Both decryptors and the encryptor are stated against this module. */
module Container {
  import opened Bytes
  import opened Results
  import opened Header
  import opened Aead
  import opened Prefixes
  import ChunkIv

  const MAX_FILENAME_LENGTH := 1024

  /** `Math.ceil(fileSize / chunkSize)`; dividing a positive size by zero is infinite, 0/0 bounds
      a loop like zero does. */
  datatype ChunkCount = Bounded(n: nat) | Unbounded
  {
    predicate Exceeds(i: nat) {
      Unbounded? || i < n
    }

    predicate IsLast(i: nat) {
      Bounded? && i == n - 1
    }
  }

  function CalculateChunkCount(fileSize: nat, chunkSize: nat): ChunkCount {
    if fileSize == 0 then Bounded(0)
    else if chunkSize == 0 then Unbounded
    else Bounded((fileSize + chunkSize - 1) / chunkSize)
  }

  /** n * c, by repeated addition. */
  function Times(n: nat, c: nat): nat {
    if n == 0 then 0 else Times(n - 1, c) + c
  }

  lemma {:induction false} TimesIsProduct(n: nat, c: nat)
    ensures Times(n, c) == n * c
  {
    if n > 0 {
      TimesIsProduct(n - 1, c);
      assert n * c == (n - 1) * c + c;
    }
  }

  lemma {:induction false} TimesMonotone(i: nat, j: nat, c: nat)
    requires i <= j
    ensures Times(i, c) <= Times(j, c)
    decreases j - i
  {
    if i < j {
      TimesMonotone(i + 1, j, c);
    }
  }

  /** Plaintext bytes in the first n chunks. */
  function PlainEnd(h: FileHeader, n: nat): nat {
    Min(Times(n, h.chunkSize), h.fileSize)
  }

  function PlainSize(h: FileHeader, i: nat): (s: nat)
    ensures s <= h.chunkSize
  {
    PlainEnd(h, i + 1) - PlainEnd(h, i)
  }

  function ChunkStart(h: FileHeader, i: nat): nat {
    h.Size() + Times(i, h.chunkSize + AUTH_TAG_LENGTH)
  }

  function ChunkEnd(h: FileHeader, i: nat): nat {
    ChunkStart(h, i) + PlainSize(h, i) + AUTH_TAG_LENGTH
  }

  /** Chunk i starts at header + i * (chunkSize + 16) and holds the plaintext from i * chunkSize. */
  lemma LayoutClosedForm(h: FileHeader, i: nat)
    ensures ChunkStart(h, i) == h.Size() + i * (h.chunkSize + AUTH_TAG_LENGTH)
    ensures PlainEnd(h, i) == Min(i * h.chunkSize, h.fileSize)
  {
    TimesIsProduct(i, h.chunkSize);
    TimesIsProduct(i, h.chunkSize + AUTH_TAG_LENGTH);
  }

  /** The number of chunks is the least number whose plaintext reaches the file size. */
  lemma CountIsCeiling(fileSize: nat, chunkSize: nat)
    requires 0 < fileSize && 0 < chunkSize
    ensures var n := CalculateChunkCount(fileSize, chunkSize).n;
            0 < n && Times(n - 1, chunkSize) < fileSize <= Times(n, chunkSize)
  {
    var m := fileSize + chunkSize - 1;
    var n := m / chunkSize;
    assert m == n * chunkSize + m % chunkSize;
    assert n > 0;
    TimesIsProduct(n, chunkSize);
    TimesIsProduct(n - 1, chunkSize);
    assert (n - 1) * chunkSize == n * chunkSize - chunkSize;
  }

  /** Where chunk i lies among its neighbours. */
  lemma ChunkShape(h: FileHeader, i: nat)
    requires 0 < h.fileSize && CalculateChunkCount(h.fileSize, h.chunkSize).Exceeds(i)
    ensures var count := CalculateChunkCount(h.fileSize, h.chunkSize);
            && (0 < h.chunkSize ==> 0 < PlainSize(h, i) && PlainEnd(h, i) == Times(i, h.chunkSize) < h.fileSize)
            && (!count.IsLast(i) ==> PlainSize(h, i) == h.chunkSize && ChunkStart(h, i + 1) == ChunkEnd(h, i))
            && (count.IsLast(i) ==> PlainEnd(h, i + 1) == h.fileSize)
  {
    var c := h.chunkSize;
    if 0 < c {
      var n := CalculateChunkCount(h.fileSize, c).n;
      CountIsCeiling(h.fileSize, c);
      TimesMonotone(i, n - 1, c);
      if i < n - 1 {
        TimesMonotone(i + 1, n - 1, c);
      }
    } else {
      TimesIsProduct(i + 1, c);
    }
  }

  /** The size both loops compute: a full chunk, or what remains for the last. */
  method PlaintextChunkSize(h: FileHeader, chunkCount: ChunkCount, i: nat) returns (size: nat)
    requires 0 < h.fileSize && chunkCount == CalculateChunkCount(h.fileSize, h.chunkSize)
    requires chunkCount.Exceeds(i)
    ensures size == PlainSize(h, i)
  {
    ChunkShape(h, i);
    TimesIsProduct(i, h.chunkSize);
    var isLastChunk := chunkCount.IsLast(i);
    var remainingPlaintext := h.fileSize - i * h.chunkSize;
    size := if isLastChunk then remainingPlaintext else h.chunkSize;
  }

  // ---- reading --------------------------------------------------------------------------------

  function ChunkAad(headerBytes: bytes, i: nat): bytes {
    if i == 0 then headerBytes else []
  }

  /** Opening ciphertext as chunk i of a container: its own IV, and the header bytes as additional data
      of chunk 0. An IV too short to derive from raises (None). */
  function ChunkOpener(cipher: Cipher, key: bytes, baseIV: bytes, headerBytes: bytes): (nat, bytes) -> Option<bytes> {
    (i: nat, ciphertext: bytes) =>
      match ChunkIv.DeriveChunkIV(baseIV, i)
      case None => None
      case Some(iv) => cipher.open(key, iv, ChunkAad(headerBytes, i), ciphertext)
  }

  /** A container whose header has been read: the fields, and how its chunks open. */
  datatype Reading = Reading(header: FileHeader, open: (nat, bytes) -> Option<bytes>)
  {
    function Count(): ChunkCount {
      CalculateChunkCount(header.fileSize, header.chunkSize)
    }

    /** What opens was one tag longer. */
    ghost predicate Framed() {
      forall i: nat, ct :: open(i, ct).Some? ==> |ct| == |open(i, ct).value| + AUTH_TAG_LENGTH
    }

    /** Opening chunk i of a blob with a clamped slice. */
    function ChunkAt(blob: bytes, i: nat): Option<bytes> {
      open(i, Slice(blob, ChunkStart(header, i), ChunkEnd(header, i)))
    }

    /** Every chunk of a blob, with clamped slices. */
    function Chunks(blob: bytes): Opener {
      (i: nat) => ChunkAt(blob, i)
    }

    /** Every chunk that lies wholly inside a blob. */
    function WholeChunks(blob: bytes): Opener {
      (i: nat) => if |blob| < ChunkEnd(header, i) then None else ChunkAt(blob, i)
    }

    lemma ClampedChunk(blob: bytes, i: nat)
      requires Framed() && ChunkAt(blob, i).Some?
      ensures |ChunkAt(blob, i).value| <= PlainSize(header, i)
      ensures |ChunkAt(blob, i).value| == PlainSize(header, i) <==> ChunkEnd(header, i) <= |blob|
    {
      var slice := Slice(blob, ChunkStart(header, i), ChunkEnd(header, i));
      assert |ChunkAt(blob, i).value| + AUTH_TAG_LENGTH == |slice|;
    }

    /** A clamped chunk is too short: the opened length is bounded by the declared one, and meets it
        only if no slice was clamped. */
    lemma {:induction false} ClampedIsShort(blob: bytes, n: nat)
      requires Framed() && Prefix(Chunks(blob), n).Some?
      ensures |Prefix(Chunks(blob), n).value| <= PlainEnd(header, n)
      ensures |Prefix(Chunks(blob), n).value| == PlainEnd(header, n) <==> Prefix(WholeChunks(blob), n).Some?
      ensures Prefix(WholeChunks(blob), n).Some? ==> Prefix(WholeChunks(blob), n) == Prefix(Chunks(blob), n)
    {
      forall i: nat | ChunkAt(blob, i).Some?
        ensures PlainEnd(header, i) + |ChunkAt(blob, i).value| <= PlainEnd(header, i + 1)
        ensures PlainEnd(header, i) + |ChunkAt(blob, i).value| == PlainEnd(header, i + 1)
            <==> ChunkEnd(header, i) <= |blob|
      {
        ClampedChunk(blob, i);
      }
      SharesAddUp(Chunks(blob), WholeChunks(blob), (k: nat) => PlainEnd(header, k), n);
    }

    lemma WholeIsOpened(blob: bytes, n: nat)
      requires Prefix(WholeChunks(blob), n).Some?
      ensures Prefix(Chunks(blob), n) == Prefix(WholeChunks(blob), n)
    {
      Agree(WholeChunks(blob), Chunks(blob), n);
    }
  }

  datatype Plain = Plain(filename: bytes, data: bytes)

  function HeaderBytes(blob: bytes): bytes
    requires 2 <= |blob|
  {
    Slice(blob, 0, FIXED_SIZE + NameLength(blob))
  }

  /** The header phase of both decryptors: the name limit, then the fields. */
  function ReadHeader(cipher: Cipher, key: bytes, blob: bytes): Option<Reading> {
    if |blob| < 2 || MAX_FILENAME_LENGTH < NameLength(blob) then None
    else
      match Parse(HeaderBytes(blob))
      case None => None
      case Some(p) => Some(Reading(p.header, ChunkOpener(cipher, key, p.header.baseIV, HeaderBytes(blob))))
  }

  lemma OpenerIsFramed(cipher: Cipher, key: bytes, baseIV: bytes, headerBytes: bytes, i: nat, ct: bytes)
    requires Framed(cipher)
    ensures var plain := ChunkOpener(cipher, key, baseIV, headerBytes)(i, ct);
            && (plain.Some? ==> |ct| == |plain.value| + AUTH_TAG_LENGTH)
            && (|baseIV| < ChunkIv.IV_LENGTH ==> plain.None?)
  {
    var iv := ChunkIv.DeriveChunkIV(baseIV, i);
    var plain := ChunkOpener(cipher, key, baseIV, headerBytes)(i, ct);
    assert plain == if iv.None? then None else cipher.open(key, iv.value, ChunkAad(headerBytes, i), ct);
  }

  lemma ReadingIsFramed(cipher: Cipher, key: bytes, blob: bytes)
    requires Framed(cipher) && ReadHeader(cipher, key, blob).Some?
    ensures ReadHeader(cipher, key, blob).value.Framed()
  {
    var r := ReadHeader(cipher, key, blob).value;
    forall i: nat, ct | r.open(i, ct).Some?
      ensures |ct| == |r.open(i, ct).value| + AUTH_TAG_LENGTH
    {
      OpenerIsFramed(cipher, key, r.header.baseIV, HeaderBytes(blob), i, ct);
    }
  }

  /** The content as the in-memory form opens it: every chunk opens, the total is the declared one. */
  function DecryptedBody(r: Reading, blob: bytes): Option<bytes> {
    if r.header.fileSize == 0 then Some([])
    else
      match r.Count()
      case Unbounded => None
      case Bounded(n) =>
        match Prefix(r.Chunks(blob), n)
        case None => None
        case Some(data) => if |data| == r.header.fileSize then Some(data) else None
  }

  /** The content as the Range-request form opens it: no slice is ever clamped, no total is checked. */
  function StreamedBody(r: Reading, blob: bytes): Option<bytes> {
    if r.header.fileSize == 0 then Some([])
    else
      match r.Count()
      case Unbounded => None
      case Bounded(n) => Prefix(r.WholeChunks(blob), n)
  }

  /** What `decryptFile` returns. */
  function Decrypted(cipher: Cipher, key: bytes, blob: bytes): Option<Plain> {
    match ReadHeader(cipher, key, blob)
    case None => None
    case Some(r) =>
      match DecryptedBody(r, blob)
      case None => None
      case Some(data) => Some(Plain(r.header.filename, data))
  }

  /** What `decryptWithRangeRequests` returns and writes. */
  function Streamed(cipher: Cipher, key: bytes, blob: bytes): Option<Plain> {
    match ReadHeader(cipher, key, blob)
    case None => None
    case Some(r) =>
      if !Complete(blob) then None
      else
        match StreamedBody(r, blob)
        case None => None
        case Some(data) => Some(Plain(r.header.filename, data))
  }

  lemma PlainEndOfAll(r: Reading)
    requires 0 < r.header.fileSize && r.Count().Bounded?
    ensures PlainEnd(r.header, r.Count().n) == r.header.fileSize
  {
    CountIsCeiling(r.header.fileSize, r.header.chunkSize);
  }

  /** Never seeing a clamped slice and checking the total come to the same. */
  lemma BodiesAgree(r: Reading, blob: bytes)
    requires r.Framed()
    ensures StreamedBody(r, blob) == DecryptedBody(r, blob)
  {
    if 0 < r.header.fileSize && r.Count().Bounded? {
      var n := r.Count().n;
      PlainEndOfAll(r);
      if Prefix(r.WholeChunks(blob), n).Some? {
        r.WholeIsOpened(blob, n);
      }
      if Prefix(r.Chunks(blob), n).Some? {
        r.ClampedIsShort(blob, n);
      }
    }
  }

  /** The streaming form succeeds exactly when the in-memory form does and the header is complete,
      and then with the same name and content. */
  lemma StreamingRefinesInMemory(cipher: Cipher, key: bytes, blob: bytes)
    requires Framed(cipher)
    ensures Complete(blob) ==> Streamed(cipher, key, blob) == Decrypted(cipher, key, blob)
    ensures Streamed(cipher, key, blob).Some? <==>
            Decrypted(cipher, key, blob).Some? && Complete(blob)
  {
    if ReadHeader(cipher, key, blob).Some? {
      ReadingIsFramed(cipher, key, blob);
      BodiesAgree(ReadHeader(cipher, key, blob).value, blob);
    }
  }

  lemma ShortIv(blob: bytes)
    requires 2 <= |blob| && !Complete(blob) && Parse(HeaderBytes(blob)).Some?
    ensures |Parse(HeaderBytes(blob)).value.header.baseIV| < ChunkIv.IV_LENGTH
  {
    var hb := HeaderBytes(blob);
    assert hb[..2] == blob[..2];
    ParsedFields(hb);
  }

  lemma ShortIvDoesNotOpen(cipher: Cipher, key: bytes, blob: bytes, n: nat)
    requires Framed(cipher)
    requires ReadHeader(cipher, key, blob).Some? && 0 < n && !Complete(blob)
    ensures Prefix(ReadHeader(cipher, key, blob).value.Chunks(blob), n).None?
  {
    var r := ReadHeader(cipher, key, blob).value;
    ShortIv(blob);
    OpenerIsFramed(cipher, key, r.header.baseIV, HeaderBytes(blob), 0,
                   Slice(blob, ChunkStart(r.header, 0), ChunkEnd(r.header, 0)));
    if Prefix(r.Chunks(blob), n).Some? {
      EachOpens(r.Chunks(blob), 0, n);
    }
  }

  /** A cut-off header is accepted by the in-memory form alone, and only with a declared size of zero. */
  lemma CutOffHeader(cipher: Cipher, key: bytes, blob: bytes)
    requires Framed(cipher) && !Complete(blob) && ReadHeader(cipher, key, blob).Some?
    ensures Decrypted(cipher, key, blob).Some? <==> ReadHeader(cipher, key, blob).value.header.fileSize == 0
    ensures Streamed(cipher, key, blob).None?
  {
    var r := ReadHeader(cipher, key, blob).value;
    if 0 < r.header.fileSize && r.Count().Bounded? {
      CountIsCeiling(r.header.fileSize, r.header.chunkSize);
      ShortIvDoesNotOpen(cipher, key, blob, r.Count().n);
    }
  }
}
