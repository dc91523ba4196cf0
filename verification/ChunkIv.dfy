/** The nonce of each chunk: the base IV with its last word combined with the chunk index. */
module ChunkIv {
  import opened Bytes
  import opened Results

  const IV_LENGTH := 12
  const WORD := 0x1_0000_0000

  function Join(high: nat, bit: bool): nat {
    2 * high + if bit then 1 else 0
  }

  /** Bitwise exclusive or, least significant bit first. */
  function Xor(a: nat, b: nat): nat
    decreases a + b
  {
    if a == 0 && b == 0 then 0 else Join(Xor(a / 2, b / 2), a % 2 != b % 2)
  }

  function Pow2(n: nat): nat {
    if n == 0 then 1 else 2 * Pow2(n - 1)
  }

  lemma {:induction false} XorStaysInWord(a: nat, b: nat, width: nat)
    requires a < Pow2(width) && b < Pow2(width)
    ensures Xor(a, b) < Pow2(width)
    decreases width
  {
    if width > 0 && (a != 0 || b != 0) {
      XorStaysInWord(a / 2, b / 2, width - 1);
    }
  }

  lemma Split(high: nat, bit: bool)
    ensures Join(high, bit) / 2 == high
    ensures Join(high, bit) % 2 == if bit then 1 else 0
  {
  }

  lemma {:induction false} XorUndoesItself(a: nat, b: nat)
    ensures Xor(Xor(a, b), b) == a
    decreases a + b
  {
    if a != 0 || b != 0 {
      var high, bit := Xor(a / 2, b / 2), a % 2 != b % 2;
      Split(high, bit);
      XorUndoesItself(a / 2, b / 2);
      calc {
        Xor(Xor(a, b), b);
        Xor(Join(high, bit), b);
        { if Join(high, bit) == 0 && b == 0 { assert high == 0 && a / 2 == 0; } }
        Join(Xor(high, b / 2), bit != (b % 2 == 1));
        Join(a / 2, a % 2 == 1);
        a;
      }
    }
  }

  lemma {:induction false} XorCommutes(a: nat, b: nat)
    ensures Xor(a, b) == Xor(b, a)
    decreases a + b
  {
    if a != 0 || b != 0 {
      XorCommutes(a / 2, b / 2);
    }
  }

  predicate Bit(n: nat, k: nat) {
    if k == 0 then n % 2 == 1 else Bit(n / 2, k - 1)
  }

  /** Every bit of the result is set exactly if it is set in one of the two. */
  lemma {:induction false} XorBits(a: nat, b: nat, k: nat)
    ensures Bit(Xor(a, b), k) <==> Bit(a, k) != Bit(b, k)
    decreases k
  {
    if k > 0 {
      XorBits(a / 2, b / 2, k - 1);
      if a != 0 || b != 0 {
        Split(Xor(a / 2, b / 2), a % 2 != b % 2);
      }
    }
  }

  lemma {:induction false} XorZero(a: nat)
    ensures Xor(a, 0) == a
  {
    if a != 0 {
      XorZero(a / 2);
    }
  }

  lemma XorCancels(a: nat, i: nat, j: nat)
    requires Xor(a, i) == Xor(a, j)
    ensures i == j
  {
  }

  lemma WordIs32Bits()
    ensures Pow2(32) == WORD == Pow256(4)
  {
    Widths();
    assert Pow2(8) == 256;
    assert Pow2(16) == 0x1_0000;
    assert Pow2(24) == 0x100_0000;
  }

  /** `deriveChunkIV`. The view's `getUint32(8)` raises on a buffer shorter than 12 bytes (None);
      `^` reduces the index to 32 bits. */
  function DeriveChunkIV(baseIV: bytes, chunkIndex: nat): (iv: Option<bytes>)
    ensures iv.Some? <==> IV_LENGTH <= |baseIV|
  {
    if |baseIV| < IV_LENGTH then None
    else
      var current := FromBigEndian(baseIV[8..12]);
      Some(baseIV[..8] + BigEndian(Xor(current, chunkIndex % WORD), 4) + baseIV[12..])
  }

  /** What the derived IV is, read back: the prefix stays, the last word is the combination. */
  lemma DerivedParts(baseIV: bytes, chunkIndex: nat)
    requires |baseIV| == IV_LENGTH
    ensures var iv := DeriveChunkIV(baseIV, chunkIndex).value;
            && |iv| == IV_LENGTH && iv[..8] == baseIV[..8]
            && FromBigEndian(iv[8..12]) == Xor(FromBigEndian(baseIV[8..12]), chunkIndex % WORD)
  {
    var word := baseIV[8..12];
    FromBigEndianRoundTrip(word);
    WordIs32Bits();
    var mixed := Xor(FromBigEndian(word), chunkIndex % WORD);
    XorStaysInWord(FromBigEndian(word), chunkIndex % WORD, 32);
    BigEndianRoundTrip(mixed, 4);
    var iv := DeriveChunkIV(baseIV, chunkIndex).value;
    assert iv[8..12] == BigEndian(mixed, 4);
    assert iv[..8] == baseIV[..8];
  }

  /** Chunk 0 is sealed under the base IV itself. */
  lemma FirstChunkIv(baseIV: bytes)
    requires |baseIV| == IV_LENGTH
    ensures DeriveChunkIV(baseIV, 0) == Some(baseIV)
  {
    var word := baseIV[8..12];
    XorZero(FromBigEndian(word));
    FromBigEndianRoundTrip(word);
    assert baseIV == baseIV[..8] + word + baseIV[12..];
  }

  /** Deriving twice with one index gives the base IV back. */
  lemma DeriveIsItsOwnInverse(baseIV: bytes, chunkIndex: nat)
    requires |baseIV| == IV_LENGTH
    ensures DeriveChunkIV(DeriveChunkIV(baseIV, chunkIndex).value, chunkIndex) == Some(baseIV)
  {
    var once := DeriveChunkIV(baseIV, chunkIndex).value;
    DerivedParts(baseIV, chunkIndex);
    XorUndoesItself(FromBigEndian(baseIV[8..12]), chunkIndex % WORD);
    FromBigEndianRoundTrip(baseIV[8..12]);
    assert baseIV == baseIV[..8] + baseIV[8..12] + baseIV[12..];
    assert once[12..] == [] == baseIV[12..];
  }

  /** Two chunks share a nonce exactly when their indices agree modulo 2^32. */
  lemma SameIvIffSameIndex(baseIV: bytes, i: nat, j: nat)
    requires |baseIV| == IV_LENGTH
    ensures DeriveChunkIV(baseIV, i) == DeriveChunkIV(baseIV, j) <==> i % WORD == j % WORD
  {
    DerivedParts(baseIV, i);
    DerivedParts(baseIV, j);
    if DeriveChunkIV(baseIV, i) == DeriveChunkIV(baseIV, j) {
      XorCancels(FromBigEndian(baseIV[8..12]), i % WORD, j % WORD);
    }
  }

  /** Below 2^32 all nonces are distinct. */
  lemma DistinctInWord(baseIV: bytes, i: nat, j: nat)
    requires |baseIV| == IV_LENGTH && i < WORD && j < WORD
    requires DeriveChunkIV(baseIV, i) == DeriveChunkIV(baseIV, j)
    ensures i == j
  {
    SameIvIffSameIndex(baseIV, i, j);
    assert i % 0x1_0000_0000 == i && j % 0x1_0000_0000 == j;
  }
}
