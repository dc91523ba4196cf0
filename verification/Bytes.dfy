/** Byte strings, big-endian integers and the clamped slices of JavaScript's buffers. */
module Bytes {

  type byte = b: int | 0 <= b < 256

  type bytes = seq<byte>

  function Min(a: int, b: int): int {
    if a < b then a else b
  }

  function Max(a: int, b: int): int {
    if a < b then b else a
  }

  /** `slice(start, end)`: both ends are clamped to the length, an inverted range is empty. */
  function Slice(b: bytes, start: nat, end: nat): bytes {
    var lo := Min(start, |b|);
    var hi := Min(end, |b|);
    if lo <= hi then b[lo..hi] else []
  }

  // ---- concatenation ----------------------------------------------------------------------

  function Flatten(parts: seq<bytes>): bytes {
    if parts == [] then [] else parts[0] + Flatten(parts[1..])
  }

  lemma {:induction false} FlattenAppend(xs: seq<bytes>, ys: seq<bytes>)
    ensures Flatten(xs + ys) == Flatten(xs) + Flatten(ys)
  {
    if xs == [] {
      assert xs + ys == ys;
    } else {
      assert (xs + ys)[1..] == xs[1..] + ys;
      FlattenAppend(xs[1..], ys);
    }
  }

  lemma FlattenSnoc(xs: seq<bytes>, x: bytes)
    ensures Flatten(xs + [x]) == Flatten(xs) + x
  {
    FlattenAppend(xs, [x]);
    assert Flatten([x]) == x + Flatten([x][1..]);
  }

  lemma FlattenLast(xs: seq<bytes>)
    requires xs != []
    ensures Flatten(xs) == Flatten(xs[..|xs| - 1]) + xs[|xs| - 1]
  {
    assert xs == xs[..|xs| - 1] + [xs[|xs| - 1]];
    FlattenSnoc(xs[..|xs| - 1], xs[|xs| - 1]);
  }

  /** `result.set(chunk, offset)` on a typed array. */
  method SetBytes(result: array<byte>, chunk: bytes, offset: nat)
    requires offset + |chunk| <= result.Length
    modifies result
    ensures result[..offset + |chunk|] == old(result[..offset]) + chunk
    ensures forall k | offset + |chunk| <= k < result.Length :: result[k] == old(result[k])
  {
    forall k | 0 <= k < |chunk| {
      result[offset + k] := chunk[k];
    }
  }

  /** `concatBuffers`: one array of the total length, filled left to right. */
  method ConcatBuffers(parts: seq<bytes>) returns (result: array<byte>)
    ensures fresh(result)
    ensures result[..] == Flatten(parts)
  {
    var total := 0;
    for k := 0 to |parts|
      invariant total == |Flatten(parts[..k])|
    {
      assert parts[..k + 1] == parts[..k] + [parts[k]];
      FlattenSnoc(parts[..k], parts[k]);
      total := total + |parts[k]|;
    }
    assert parts[..|parts|] == parts;
    result := new byte[total](_ => 0);
    var offset := 0;
    for k := 0 to |parts|
      invariant offset == |Flatten(parts[..k])| <= total
      invariant result[..offset] == Flatten(parts[..k])
    {
      assert parts == parts[..k + 1] + parts[k + 1..];
      FlattenAppend(parts[..k + 1], parts[k + 1..]);
      assert parts[..k + 1] == parts[..k] + [parts[k]];
      FlattenSnoc(parts[..k], parts[k]);
      SetBytes(result, parts[k], offset);
      offset := offset + |parts[k]|;
    }
  }

  // ---- big-endian integers ----------------------------------------------------------------

  function Pow256(n: nat): (p: nat)
    ensures p > 0
  {
    if n == 0 then 1 else 256 * Pow256(n - 1)
  }

  /** The low `width` bytes of v; higher ones are dropped, as the setters of a DataView do. */
  function BigEndian(v: nat, width: nat): (b: bytes)
    ensures |b| == width
  {
    if width == 0 then [] else BigEndian(v / 256, width - 1) + [v % 256]
  }

  function FromBigEndian(b: bytes): nat {
    if b == [] then 0 else 256 * FromBigEndian(b[..|b| - 1]) + b[|b| - 1]
  }

  lemma {:induction false} BigEndianRoundTrip(v: nat, width: nat)
    requires v < Pow256(width)
    ensures FromBigEndian(BigEndian(v, width)) == v
  {
    if width > 0 {
      BigEndianRoundTrip(v / 256, width - 1);
      assert BigEndian(v, width)[..width - 1] == BigEndian(v / 256, width - 1);
    }
  }

  /** A value one word too large is written as if it were not. */
  lemma {:induction false} BigEndianWraps(v: nat, width: nat)
    ensures BigEndian(v + Pow256(width), width) == BigEndian(v, width)
  {
    if width > 0 {
      var p := Pow256(width - 1);
      BigEndianWraps(v / 256, width - 1);
      assert (v + 256 * p) / 256 == v / 256 + p && (v + 256 * p) % 256 == v % 256;
    }
  }

  lemma {:induction false} FromBigEndianRoundTrip(b: bytes)
    ensures FromBigEndian(b) < Pow256(|b|)
    ensures BigEndian(FromBigEndian(b), |b|) == b
  {
    if b != [] {
      var front := b[..|b| - 1];
      FromBigEndianRoundTrip(front);
      assert FromBigEndian(b) / 256 == FromBigEndian(front);
      assert FromBigEndian(b) % 256 == b[|b| - 1];
      assert b == front + [b[|b| - 1]];
    }
  }

  /** Two bytes less: the last two are written at the end. */
  lemma LastTwo(v: nat, width: nat)
    ensures BigEndian(v, width + 2) == BigEndian(v / 0x1_0000, width) + [v / 0x100 % 0x100, v % 0x100]
  {
    assert v / 0x100 / 0x100 == v / 0x1_0000;
    assert BigEndian(v, width + 2) == BigEndian(v / 0x100, width + 1) + [v % 0x100];
  }

  lemma LastTwoRead(b: bytes)
    requires 2 <= |b|
    ensures FromBigEndian(b) == FromBigEndian(b[..|b| - 2]) * 0x1_0000 + b[|b| - 2] as int * 0x100 + b[|b| - 1] as int
  {
    var front := b[..|b| - 1];
    assert front[..|front| - 1] == b[..|b| - 2];
  }

  /** The first byte weighs most, and what does not fit is cut off at the front. */
  lemma TwoBytes(v: nat, b: bytes)
    requires |b| == 2
    ensures BigEndian(v, 2)[0] == v / 0x100 % 0x100 && BigEndian(v, 2)[1] == v % 0x100
    ensures FromBigEndian(b) == b[0] as int * 0x100 + b[1] as int
  {
    LastTwo(v, 0);
    LastTwoRead(b);
  }

  lemma FourBytes(v: nat, b: bytes)
    requires |b| == 4
    ensures var f := BigEndian(v, 4);
      && f[0] == v / 0x100_0000 % 0x100 && f[1] == v / 0x1_0000 % 0x100
      && f[2] == v / 0x100 % 0x100 && f[3] == v % 0x100
    ensures FromBigEndian(b)
         == b[0] as int * 0x100_0000 + b[1] as int * 0x1_0000 + b[2] as int * 0x100 + b[3] as int
  {
    LastTwo(v, 2);
    TwoBytes(v / 0x1_0000, b[..2]);
    LastTwoRead(b);
    assert v / 0x1_0000 / 0x100 == v / 0x100_0000;
  }

  lemma EightBytes(v: nat, b: bytes)
    requires |b| == 8
    ensures BigEndian(v, 8) == BigEndian(v / 0x1_0000_0000, 4) + BigEndian(v, 4)
    ensures FromBigEndian(b) == FromBigEndian(b[..4]) * 0x1_0000_0000 + FromBigEndian(b[4..])
  {
    LastTwo(v, 6);
    LastTwo(v / 0x1_0000, 4);
    LastTwo(v, 2);
    LastTwo(v / 0x1_0000, 0);
    assert v / 0x1_0000 / 0x1_0000 == v / 0x1_0000_0000;
    LastTwoRead(b);
    LastTwoRead(b[..6]);
    assert b[..6][..4] == b[..4];
    LastTwoRead(b[4..]);
    LastTwoRead(b[4..][..2]);
  }

  /** The ranges of the three integer widths the container uses. */
  lemma Widths()
    ensures Pow256(2) == 0x1_0000
    ensures Pow256(4) == 0x1_0000_0000
    ensures Pow256(8) == 0x1_0000_0000_0000_0000
  {
  }
}
