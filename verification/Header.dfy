/** The self-delimiting file header: name length (2), name, chunk size (4), file size (8), base IV (12),
    all integers big-endian. Names are their UTF-8 bytes. */
module Header {
  import opened Bytes
  import opened Results
  import ChunkIv

  const FIXED_SIZE := 2 + 4 + 8 + 12
  const NAME_WORD := 0x1_0000
  const SIZE_WORD := 0x1_0000_0000_0000_0000
  const EXACT_LIMIT := 0x20_0000_0000_0000

  /** The distance between neighbouring doubles at n. */
  function Spacing(n: nat): (s: nat)
    ensures s > 0
  {
    if n < EXACT_LIMIT then 1 else 2 * Spacing(n / 2)
  }

  predicate Representable(n: nat) {
    n % Spacing(n) == 0
  }

  datatype FileHeader = FileHeader(filename: bytes, chunkSize: nat, fileSize: nat, baseIV: bytes)
  {
    /** The `size` getter. */
    function Size(): nat {
      2 + |filename| + 4 + 8 + 12
    }

    /** `serialize`. The integer setters keep the low bytes of what does not fit. */
    function Serialize(): bytes {
      BigEndian(|filename|, 2) + filename
      + BigEndian(chunkSize, 4) + BigEndian(fileSize, 8) + baseIV
    }

    /** Every field fits its slot and the size is a number that a double represents. */
    predicate Fits() {
      && |filename| < NAME_WORD && chunkSize < ChunkIv.WORD
      && fileSize < SIZE_WORD && Representable(fileSize)
      && |baseIV| == ChunkIv.IV_LENGTH
    }
  }

  // ---- Number(): 64-bit integers as doubles ---------------------------------------------------

  /** `Number(big)`: the nearest double, ties to the even significand. */
  function ToNumber(n: nat): nat {
    var s := Spacing(n);
    var rest := n % s;
    var down := n - rest;
    if 2 * rest < s || (2 * rest == s && n / s % 2 == 0) then down else down + s
  }

  lemma ToNumberRounds(n: nat)
    ensures ToNumber(n) == n <==> Representable(n)
    ensures n < EXACT_LIMIT ==> Representable(n)
    ensures n < ToNumber(n) + Spacing(n) && ToNumber(n) < n + Spacing(n)
  {
  }

  /** Doubles have 53 significant bits: the spacing is the power of two that leaves so many. */
  lemma {:induction false} SpacingIs(n: nat)
    requires EXACT_LIMIT <= n
    ensures 0x10_0000_0000_0000 * Spacing(n) <= n < 0x20_0000_0000_0000 * Spacing(n)
  {
    if EXACT_LIMIT <= n / 2 {
      SpacingIs(n / 2);
    }
  }

  lemma Division(n: nat, s: nat) returns (q: nat, rest: nat)
    requires s > 0
    ensures q == n / s && rest == n % s && rest < s
    ensures n - rest == q * s && n - rest + s == (q + 1) * s
  {
    q, rest := n / s, n % s;
  }

  /** What the rounding comes to, without division. */
  lemma RoundedIs(n: nat, q: nat, rest: nat)
    requires q == n / Spacing(n) && rest == n % Spacing(n)
    ensures ToNumber(n) == if 2 * rest < Spacing(n) || (2 * rest == Spacing(n) && q % 2 == 0) then n - rest
                           else n - rest + Spacing(n)
  {
  }

  /** The result is a multiple of the spacing, none is nearer, and of two equally near ones it is the even one. */
  lemma NearestDouble(n: nat) returns (m: nat)
    ensures ToNumber(n) == m * Spacing(n)
    ensures 2 * (ToNumber(n) - n) <= Spacing(n) && 2 * (n - ToNumber(n)) <= Spacing(n)
    ensures 2 * (ToNumber(n) - n) == Spacing(n) || 2 * (n - ToNumber(n)) == Spacing(n) ==> m % 2 == 0
  {
    var s := Spacing(n);
    var q, rest := Division(n, s);
    RoundedIs(n, q, rest);
    m := if 2 * rest < s || (2 * rest == s && q % 2 == 0) then q else q + 1;
  }

  // ---- parsing --------------------------------------------------------------------------------

  datatype Parsed = Parsed(header: FileHeader, bytesRead: nat)

  function NameLength(b: bytes): nat
    requires 2 <= |b|
  {
    FromBigEndian(b[..2])
  }

  /** `parse`: an integer read past the end raises (None); the IV is cut off silently. */
  function Parse(b: bytes): Option<Parsed> {
    if |b| < 2 || |b| < 2 + NameLength(b) + 12 then None
    else
      var n := NameLength(b);
      Some(Parsed(
             FileHeader(
               b[2..2 + n],
               FromBigEndian(b[2 + n..6 + n]),
               ToNumber(FromBigEndian(b[6 + n..14 + n])),
               Slice(b, 14 + n, 26 + n)),
             26 + n))
  }

  predicate Complete(b: bytes) {
    2 <= |b| && FIXED_SIZE + NameLength(b) <= |b|
  }

  /** The ranges of the parsed fields. */
  lemma ParsedFields(b: bytes)
    requires Parse(b).Some?
    ensures var p := Parse(b).value;
            && |p.header.filename| == NameLength(b) < NAME_WORD
            && p.header.chunkSize < ChunkIv.WORD
            && p.bytesRead == p.header.Size()
            && |p.header.baseIV| <= ChunkIv.IV_LENGTH
            && (|p.header.baseIV| == ChunkIv.IV_LENGTH <==> Complete(b))
  {
    var n := NameLength(b);
    FromBigEndianRoundTrip(b[..2]);
    FromBigEndianRoundTrip(b[2 + n..6 + n]);
    Widths();
  }

  /** The fields of a serialized header sit in their slots of a byte string. */
  ghost predicate InSlots(h: FileHeader, b: bytes) {
    var n := |h.filename|;
    && 14 + n + |h.baseIV| <= |b|
    && b[..2] == BigEndian(n, 2)
    && b[2..2 + n] == h.filename
    && b[2 + n..6 + n] == BigEndian(h.chunkSize, 4)
    && b[6 + n..14 + n] == BigEndian(h.fileSize, 8)
    && b[14 + n..14 + n + |h.baseIV|] == h.baseIV
  }

  lemma SerializedFields(h: FileHeader, rest: bytes)
    ensures InSlots(h, h.Serialize() + rest)
    ensures |h.Serialize()| == 14 + |h.filename| + |h.baseIV|
  {
  }

  lemma ParseFields(b: bytes, h: FileHeader)
    requires h.Size() <= |b| && |h.baseIV| == ChunkIv.IV_LENGTH
    requires var n := |h.filename|;
             && FromBigEndian(b[..2]) == n && b[2..2 + n] == h.filename
             && FromBigEndian(b[2 + n..6 + n]) == h.chunkSize
             && ToNumber(FromBigEndian(b[6 + n..14 + n])) == h.fileSize
             && b[14 + n..26 + n] == h.baseIV
    ensures Parse(b) == Some(Parsed(h, h.Size())) && Complete(b)
  {
  }

  lemma ParseSlots(b: bytes, h: FileHeader)
    requires h.Fits() && InSlots(h, b)
    ensures Parse(b) == Some(Parsed(h, h.Size())) && Complete(b)
  {
    var n := |h.filename|;
    Widths();
    BigEndianRoundTrip(n, 2);
    BigEndianRoundTrip(h.chunkSize, 4);
    BigEndianRoundTrip(h.fileSize, 8);
    ToNumberRounds(h.fileSize);
    ParseFields(b, h);
  }

  /** Parsing a serialized header followed by anything gives the fields back and reads `size` bytes. */
  lemma ParseSerialized(h: FileHeader, rest: bytes)
    requires h.Fits()
    ensures Parse(h.Serialize() + rest) == Some(Parsed(h, h.Size()))
    ensures Complete(h.Serialize() + rest)
    ensures |h.Serialize()| == h.Size()
  {
    SerializedFields(h, rest);
    ParseSlots(h.Serialize() + rest, h);
  }

  /** With the other fields in range, a header survives exactly when its name's length fits 16 bits. */
  lemma HeaderRoundTrip(h: FileHeader, rest: bytes)
    requires h.(filename := []).Fits()
    ensures Parse(h.Serialize() + rest) == Some(Parsed(h, h.Size())) <==> |h.filename| < NAME_WORD
  {
    if |h.filename| < NAME_WORD {
      ParseSerialized(h, rest);
    } else if Parse(h.Serialize() + rest).Some? {
      ParsedFields(h.Serialize() + rest);
    }
  }

  lemma FiveParts(b: bytes, n: nat)
    requires 26 + n <= |b|
    ensures b[..26 + n] == b[..2] + b[2..2 + n] + b[2 + n..6 + n] + b[6 + n..14 + n] + b[14 + n..26 + n]
  {
  }

  lemma SameFourth(p: bytes, q: bytes, r: bytes, x: bytes, y: bytes, z: bytes)
    requires |x| == |y|
    ensures p + q + r + x + z == p + q + r + y + z <==> x == y
  {
    var k := |p| + |q| + |r|;
    assert (p + q + r + x + z)[k..k + |x|] == x;
    assert (p + q + r + y + z)[k..k + |y|] == y;
  }

  /** Re-serialization reproduces everything but possibly the size field. */
  lemma Reserialized(b: bytes, h: FileHeader)
    requires Complete(b) && |h.filename| == NameLength(b) < NAME_WORD
    requires var n := NameLength(b);
             && h.filename == b[2..2 + n]
             && h.chunkSize == FromBigEndian(b[2 + n..6 + n])
             && h.baseIV == b[14 + n..26 + n]
    ensures var n := NameLength(b);
            h.Serialize() == b[..26 + n] <==> BigEndian(h.fileSize, 8) == b[6 + n..14 + n]
  {
    var n := NameLength(b);
    Widths();
    FromBigEndianRoundTrip(b[..2]);
    FromBigEndianRoundTrip(b[2 + n..6 + n]);
    FiveParts(b, n);
    SameFourth(BigEndian(n, 2), h.filename, BigEndian(h.chunkSize, 4),
               BigEndian(h.fileSize, 8), b[6 + n..14 + n], h.baseIV);
  }

  lemma OtherField(stored: nat, t: nat)
    requires stored < SIZE_WORD && stored != t && t < 2 * stored
    ensures FromBigEndian(BigEndian(t, 8)) != stored
  {
    Widths();
    if SIZE_WORD <= t {
      BigEndianWraps(t - SIZE_WORD, 8);
      BigEndianRoundTrip(t - SIZE_WORD, 8);
    } else {
      BigEndianRoundTrip(t, 8);
    }
  }

  lemma {:induction false} SpacingBound(n: nat)
    ensures EXACT_LIMIT <= n ==> Spacing(n) <= n
    ensures n < EXACT_LIMIT ==> Spacing(n) == 1
  {
    if EXACT_LIMIT <= n {
      SpacingBound(n / 2);
    }
  }

  /** Reading a 64-bit size as a double and writing it back keeps it iff it is representable. */
  lemma SizeKept(field: bytes)
    requires |field| == 8
    ensures BigEndian(ToNumber(FromBigEndian(field)), 8) == field <==> Representable(FromBigEndian(field))
  {
    var stored := FromBigEndian(field);
    var t := ToNumber(stored);
    Widths();
    FromBigEndianRoundTrip(field);
    ToNumberRounds(stored);
    if t != stored {
      SpacingBound(stored);
      OtherField(stored, t);
    }
  }

  /** Re-serializing a completely parsed header gives the consumed prefix back exactly when the
      stored size is one a double represents (all sizes below 2^53 are). */
  lemma SerializeParsed(b: bytes)
    requires Complete(b)
    ensures Parse(b).Some?
    ensures var p := Parse(b).value; var stored := FromBigEndian(b[6 + NameLength(b)..14 + NameLength(b)]);
            p.header.Serialize() == b[..p.bytesRead] <==> Representable(stored)
  {
    var n := NameLength(b);
    var stored := b[6 + n..14 + n];
    ParsedFields(b);
    Reserialized(b, Parse(b).value.header);
    SizeKept(stored);
  }

  /** 2^53 + 1 is the first size that does not survive. */
  lemma FirstLostSize()
    ensures !Representable(EXACT_LIMIT + 1) && ToNumber(EXACT_LIMIT + 1) == EXACT_LIMIT
    ensures forall n: nat | n <= EXACT_LIMIT :: Representable(n)
  {
    assert Spacing(EXACT_LIMIT / 2) == 1;
    assert Spacing((EXACT_LIMIT + 1) / 2) == 1;
    forall n: nat | n <= EXACT_LIMIT
      ensures Representable(n)
    {
      ToNumberRounds(n);
    }
  }

  /** No serialized header is a proper prefix of another; the header delimits itself. */
  lemma SelfDelimiting(h: FileHeader, k: FileHeader, hRest: bytes, kRest: bytes)
    requires h.Fits() && k.Fits()
    requires h.Serialize() + hRest == k.Serialize() + kRest
    ensures h == k && hRest == kRest
  {
    ParseSerialized(h, hRest);
    ParseSerialized(k, kRest);
    assert hRest == (h.Serialize() + hRest)[h.Size()..];
    assert kRest == (k.Serialize() + kRest)[k.Size()..];
  }
}
