/** Against an ideal cipher, nothing but the encrypted file decrypts. */
module Authenticity {
  import opened Bytes
  import opened Results
  import opened Header
  import opened Aead
  import opened Prefixes
  import opened Container
  import opened Encrypt
  import opened Stream
  import ChunkIv

  /** The entry that sealing chunk i leaves under the key. */
  function ChunkEntry(run: Run, i: nat): Entry
    requires run.Valid()
  {
    Entry(ChunkIv.DeriveChunkIV(run.baseIV, i).value, ChunkAad(run.Header().Serialize(), i),
          run.Writing().SealedChunk(i), run.Writing().PlainChunk(i))
  }

  /** All entries of one run of `encryptFile`. */
  function RunLog(run: Run): seq<Entry>
    requires run.Valid()
  {
    seq(run.Writing().Count(), (i: nat) => ChunkEntry(run, i))
  }

  /** All nonces of one run are distinct, up to 2^32 chunks. */
  lemma NoncesAreDistinct(run: Run, i: nat, j: nat)
    requires run.Valid() && i < run.Writing().Count() <= ChunkIv.WORD && j < run.Writing().Count()
    ensures ChunkEntry(run, i).iv == ChunkEntry(run, j).iv ==> i == j
  {
    if ChunkIv.DeriveChunkIV(run.baseIV, i) == ChunkIv.DeriveChunkIV(run.baseIV, j) {
      ChunkIv.DistinctInWord(run.baseIV, i, j);
    }
  }

  /** What opens as chunk i of a container under the run's base IV and additional data is chunk i. */
  lemma OnlyChunkOpens(run: Run, i: nat, ciphertext: bytes)
    requires run.Valid() && run.Writing().Count() <= ChunkIv.WORD && i < run.Writing().Count()
    requires OpensOnly(run.cipher, run.key, RunLog(run))
    ensures var plain := ChunkOpener(run.cipher, run.key, run.baseIV, run.Header().Serialize())(i, ciphertext);
            plain.Some? ==>
              plain.value == run.Writing().PlainChunk(i) && ciphertext == run.Writing().SealedChunk(i)
  {
    var iv, aad := ChunkIv.DeriveChunkIV(run.baseIV, i).value, ChunkAad(run.Header().Serialize(), i);
    var plain := ChunkOpener(run.cipher, run.key, run.baseIV, run.Header().Serialize())(i, ciphertext);
    assert plain == run.cipher.open(run.key, iv, aad, ciphertext);
    if plain.Some? {
      var entry := Entry(iv, aad, ciphertext, plain.value);
      assert entry in RunLog(run);
      var j :| 0 <= j < run.Writing().Count() && RunLog(run)[j] == entry;
      assert RunLog(run)[j] == ChunkEntry(run, j);
      NoncesAreDistinct(run, i, j);
    }
  }

  /** Chunk 0 opens only with the run's own header. */
  lemma OnlyHeaderOpens(run: Run, baseIV: bytes, headerBytes: bytes, ciphertext: bytes)
    requires run.Valid() && headerBytes != []
    requires OpensOnly(run.cipher, run.key, RunLog(run))
    requires ChunkOpener(run.cipher, run.key, baseIV, headerBytes)(0, ciphertext).Some?
    ensures headerBytes == run.Header().Serialize() && 0 < run.Writing().Count()
  {
    var iv := ChunkIv.DeriveChunkIV(baseIV, 0);
    var i: nat := 0;
    var plain := ChunkOpener(run.cipher, run.key, baseIV, headerBytes)(i, ciphertext);
    assert plain == if iv.None? then None
                    else run.cipher.open(run.key, iv.value, ChunkAad(headerBytes, i), ciphertext);
    var entry := Entry(iv.value, headerBytes, ciphertext, plain.value);
    assert entry in RunLog(run);
    var j :| 0 <= j < run.Writing().Count() && RunLog(run)[j] == entry;
    assert RunLog(run)[j] == ChunkEntry(run, j);
  }

  /** A blob whose first chunk opens has the run's header. */
  lemma OpenedHeader(run: Run, blob: bytes)
    requires run.Valid() && |run.file.name| < NAME_WORD
    requires OpensOnly(run.cipher, run.key, RunLog(run))
    requires ReadHeader(run.cipher, run.key, blob).Some?
    requires ReadHeader(run.cipher, run.key, blob).value.ChunkAt(blob, 0).Some?
    ensures run.Header().Serialize() <= blob && |run.Header().Serialize()| == run.Header().Size()
    ensures 0 < run.Writing().Count()
    ensures ReadHeader(run.cipher, run.key, blob) ==
            Some(Reading(run.Header(), ChunkOpener(run.cipher, run.key, run.baseIV, run.Header().Serialize())))
  {
    var r := ReadHeader(run.cipher, run.key, blob).value;
    var hb := HeaderBytes(blob);
    OnlyHeaderOpens(run, r.header.baseIV, hb, Slice(blob, ChunkStart(r.header, 0), ChunkEnd(r.header, 0)));
    var rest := blob[|hb|..];
    assert blob == hb + rest;
    HeaderFits(run);
    HeaderReadBack(run.cipher, run.key, run.Header(), rest);
  }

  /** An accepted blob that declares a positive size has the run's header. */
  lemma AcceptedHeader(run: Run, blob: bytes)
    requires run.Valid() && |run.file.name| < NAME_WORD
    requires OpensOnly(run.cipher, run.key, RunLog(run))
    requires Decrypted(run.cipher, run.key, blob).Some?
    requires ReadHeader(run.cipher, run.key, blob).value.header.fileSize > 0
    ensures run.Header().Serialize() <= blob && |run.Header().Serialize()| == run.Header().Size()
    ensures ReadHeader(run.cipher, run.key, blob) ==
            Some(Reading(run.Header(), ChunkOpener(run.cipher, run.key, run.baseIV, run.Header().Serialize())))
  {
    var r := ReadHeader(run.cipher, run.key, blob).value;
    CountIsCeiling(r.header.fileSize, r.header.chunkSize);
    EachOpens(r.Chunks(blob), 0, r.Count().n);
    assert r.Chunks(blob)(0) == r.ChunkAt(blob, 0);
    OpenedHeader(run, blob);
  }

  /** Chunk i of a blob is whole, and is the run's chunk i. */
  ghost predicate ChunkIsOwn(run: Run, r: Reading, blob: bytes, i: nat)
    requires run.Valid()
  {
    && ChunkEnd(r.header, i) <= |blob|
    && r.Chunks(blob)(i) == Some(run.Writing().PlainChunk(i))
    && blob[ChunkStart(r.header, i)..ChunkEnd(r.header, i)] == run.Writing().SealedChunk(i)
  }

  lemma ChunksAreOwn(run: Run, r: Reading, blob: bytes)
    requires run.Valid() && run.Writing().Count() <= ChunkIv.WORD
    requires OpensOnly(run.cipher, run.key, RunLog(run))
    requires r == Reading(run.Header(), ChunkOpener(run.cipher, run.key, run.baseIV, run.Header().Serialize()))
    requires Prefix(r.WholeChunks(blob), run.Writing().Count()).Some?
    ensures forall i: nat | i < run.Writing().Count() :: ChunkIsOwn(run, r, blob, i)
  {
    forall i: nat | i < run.Writing().Count()
      ensures ChunkIsOwn(run, r, blob, i)
    {
      EachOpens(r.WholeChunks(blob), i, run.Writing().Count());
      OnlyChunkOpens(run, i, Slice(blob, ChunkStart(r.header, i), ChunkEnd(r.header, i)));
    }
  }

  lemma ContentIsOwn(run: Run, r: Reading, blob: bytes)
    requires run.Valid() && r.header == run.Header() && 0 < |run.file.content|
    requires forall i: nat | i < run.Writing().Count() :: ChunkIsOwn(run, r, blob, i)
    ensures Prefix(r.Chunks(blob), run.Writing().Count()) == Some(run.file.content)
  {
    var n, end := run.Writing().Count(), (k: nat) => PlainEnd(run.Header(), k);
    forall i: nat | i < n
      ensures OpensSlice(r.Chunks(blob), run.file.content, end, i)
    {
      assert ChunkIsOwn(run, r, blob, i);
    }
    SlicesAddUp(r.Chunks(blob), run.file.content, end, n);
    CountIsCeiling(|run.file.content|, run.chunkSize);
    assert run.file.content[..|run.file.content|] == run.file.content;
  }

  lemma BodyIsOwn(run: Run, r: Reading, blob: bytes)
    requires run.Valid() && r.header == run.Header() && 0 < |run.file.content|
    requires run.Header().Serialize() <= blob && |run.Header().Serialize()| == r.header.Size()
    requires forall i: nat | i < run.Writing().Count() :: ChunkIsOwn(run, r, blob, i)
    ensures run.Encrypted() <= blob
  {
    var h, n, base := r.header, run.Writing().Count(), r.header.Size();
    var body := blob[base..];
    var end := (k: nat) => SealedEnd(h, k);
    forall i: nat | i < n
      ensures OpensSlice(run.Writing().SealedChunks(), body, end, i)
    {
      SealedPlace(h, i);
      assert ChunkIsOwn(run, r, blob, i);
      assert body[ChunkStart(h, i) - base..ChunkEnd(h, i) - base] == blob[ChunkStart(h, i)..ChunkEnd(h, i)];
      assert run.Writing().SealedChunks()(i) == Some(run.Writing().SealedChunk(i));
    }
    SlicesAddUp(run.Writing().SealedChunks(), body, end, n);
    assert blob == run.Header().Serialize() + body;
  }

  /** Unique decoding: if only the entries of one run of `encryptFile` open under the key, a blob that
      declares a positive size and decrypts is the encrypted file, possibly with bytes after it, and it
      yields exactly the file. So no chunk was reordered, dropped, repeated, cut or replaced. */
  lemma UniqueDecoding(run: Run, blob: bytes)
    requires run.Valid() && |run.file.name| < NAME_WORD && run.Writing().Count() <= ChunkIv.WORD
    requires Framed(run.cipher) && OpensOnly(run.cipher, run.key, RunLog(run))
    requires Decrypted(run.cipher, run.key, blob).Some?
    requires ReadHeader(run.cipher, run.key, blob).value.header.fileSize > 0
    ensures Decrypted(run.cipher, run.key, blob) == Some(Plain(run.file.name, run.file.content))
    ensures run.Encrypted() <= blob
  {
    AcceptedHeader(run, blob);
    var r := ReadHeader(run.cipher, run.key, blob).value;
    ReadingIsFramed(run.cipher, run.key, blob);
    BodiesAgree(r, blob);
    ChunksAreOwn(run, r, blob);
    ContentIsOwn(run, r, blob);
    BodyIsOwn(run, r, blob);
  }

  // ---- what is written before everything is known ------------------------------------------

  lemma OpenedPrefixIsOwn(run: Run, blob: bytes, n: nat)
    requires run.Valid() && |run.file.name| < NAME_WORD && run.Writing().Count() <= ChunkIv.WORD
    requires OpensOnly(run.cipher, run.key, RunLog(run)) && ReadHeader(run.cipher, run.key, blob).Some?
    requires var r := ReadHeader(run.cipher, run.key, blob).value;
      Prefix(r.WholeChunks(blob), n).Some? && (r.Count().Exceeds(n) || r.Count() == Bounded(n))
    ensures Prefix(ReadHeader(run.cipher, run.key, blob).value.WholeChunks(blob), n).value <= run.file.content
  {
    if n > 0 {
      var r, end := ReadHeader(run.cipher, run.key, blob).value, (k: nat) => PlainEnd(run.Header(), k);
      EachOpens(r.WholeChunks(blob), 0, n);
      OpenedHeader(run, blob);
      forall i: nat | i < n
        ensures OpensSlice(r.WholeChunks(blob), run.file.content, end, i)
      {
        EachOpens(r.WholeChunks(blob), i, n);
        OnlyChunkOpens(run, i, Slice(blob, ChunkStart(r.header, i), ChunkEnd(r.header, i)));
      }
      SlicesAddUp(r.WholeChunks(blob), run.file.content, end, n);
    }
  }

  /** Whatever the server delivers, the Range-request form writes a prefix of the file's content and nothing else,
      also when it fails later on. */
  lemma WritesOnlyContent(run: Run, serve: (nat, nat) -> Response, totalSize: nat, done: nat, written: bytes)
    requires run.Valid() && |run.file.name| < NAME_WORD && run.Writing().Count() <= ChunkIv.WORD
    requires OpensOnly(run.cipher, run.key, RunLog(run))
    requires Writes(run.cipher, run.key, Delivered(serve, totalSize, 0), done, written)
    ensures written <= run.file.content
  {
    var tape := Delivered(serve, totalSize, 0);
    if ReadHeader(run.cipher, run.key, tape).Some? {
      var r := ReadHeader(run.cipher, run.key, tape).value;
      if Streamed(run.cipher, run.key, tape).None? {
        if Complete(tape) {
          OpenedPrefixIsOwn(run, tape, done);
        }
      } else if r.header.fileSize > 0 {
        OpenedPrefixIsOwn(run, tape, r.Count().n);
      }
    }
  }

  lemma RestrictionIsIdeal(run: Run)
    requires run.Valid() && Lawful(run.cipher)
    ensures var ideal := Restricted(run.cipher, RunLog(run));
            Framed(ideal) && OpensOnly(ideal, run.key, RunLog(run.(cipher := ideal)))
  {
    var ideal := Restricted(run.cipher, RunLog(run));
    var log := RunLog(run.(cipher := ideal));
    assert log == RunLog(run) by {
      forall i: nat | i < |log|
        ensures log[i] == RunLog(run)[i]
      {
        assert ChunkEntry(run.(cipher := ideal), i) == ChunkEntry(run, i);
      }
    }
  }

  lemma RestrictedOpens(run: Run, i: nat)
    requires run.Valid() && Lawful(run.cipher) && i < run.Writing().Count()
    ensures var ideal := Restricted(run.cipher, RunLog(run)); var w := run.Writing();
            ChunkOpener(ideal, run.key, run.baseIV, w.header.Serialize())(i, w.SealedChunk(i)) == Some(w.PlainChunk(i))
  {
    var e := ChunkEntry(run, i);
    var w := run.Writing();
    var sealed := w.SealedChunk(i);
    SealsAndOpens(run.cipher, run.key, run.baseIV, w.header.Serialize(), i, w.PlainChunk(i));
    assert RunLog(run)[i] == e;
    assert e in RunLog(run);
    assert run.cipher.open(run.key, e.iv, e.aad, sealed)
        == ChunkOpener(run.cipher, run.key, run.baseIV, w.header.Serialize())(i, sealed);
    var ideal := Restricted(run.cipher, RunLog(run));
    assert ideal.open(run.key, e.iv, e.aad, sealed) == Some(w.PlainChunk(i));
    assert ChunkOpener(ideal, run.key, run.baseIV, w.header.Serialize())(i, sealed)
        == ideal.open(run.key, e.iv, e.aad, sealed);
  }

  /** The ideal assumption is satisfiable for every run: restricting a lawful cipher to what the run sealed
      opens nothing else, and still decrypts the run's own blob. */
  lemma IdealIsSatisfiable(run: Run)
    requires run.Valid() && Lawful(run.cipher) && |run.file.name| <= MAX_FILENAME_LENGTH
    ensures var ideal := run.(cipher := Restricted(run.cipher, RunLog(run)));
            && Framed(ideal.cipher) && OpensOnly(ideal.cipher, run.key, RunLog(ideal))
            && ideal.Encrypted() == run.Encrypted()
            && Decrypted(ideal.cipher, run.key, ideal.Encrypted()) == Some(Plain(run.file.name, run.file.content))
  {
    var ideal := run.(cipher := Restricted(run.cipher, RunLog(run)));
    var w := run.Writing();
    assert ideal.Writing() == w;
    RestrictionIsIdeal(run);
    HeaderFits(run);
    SealerIsFramed(run);
    forall i: nat | i < w.Count()
      ensures ChunkOpener(ideal.cipher, run.key, run.baseIV, w.header.Serialize())(i, w.SealedChunk(i))
           == Some(w.PlainChunk(i))
    {
      RestrictedOpens(run, i);
    }
    DecryptsWhatOpens(ideal.cipher, run.key, w, []);
    assert run.Encrypted() + [] == run.Encrypted();
  }

  /** A declared size of zero is not authenticated: such a header decrypts to an empty file under any key. */
  lemma ZeroSizeNeedsNoKey(cipher: Cipher, key: bytes, h: FileHeader, rest: bytes)
    requires h.Fits() && h.fileSize == 0 && |h.filename| <= MAX_FILENAME_LENGTH
    ensures Decrypted(cipher, key, h.Serialize() + rest) == Some(Plain(h.filename, []))
  {
    HeaderReadBack(cipher, key, h, rest);
  }
}
