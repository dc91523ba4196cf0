/** Opening a run of chunks one after the other, whatever opening a single chunk means. */
module Prefixes {
  import opened Bytes
  import opened Results

  /** The content of chunk i, if it opens. */
  type Opener = nat -> Option<bytes>

  /** The concatenation of the first n chunks, if all of them open. */
  function Prefix(open: Opener, n: nat): Option<bytes> {
    if n == 0 then Some([])
    else
      match Prefix(open, n - 1)
      case None => None
      case Some(front) =>
        match open(n - 1)
        case None => None
        case Some(chunk) => Some(front + chunk)
  }

  lemma {:induction false} EachOpens(open: Opener, i: nat, n: nat)
    requires i < n && Prefix(open, n).Some?
    ensures open(i).Some? && Prefix(open, i).Some?
  {
    if i < n - 1 {
      EachOpens(open, i, n - 1);
    }
  }

  /** Openers that agree wherever the first one opens. */
  lemma {:induction false} Agree(open: Opener, other: Opener, n: nat)
    requires Prefix(open, n).Some?
    requires forall i: nat | i < n && open(i).Some? :: other(i) == open(i)
    ensures Prefix(other, n) == Prefix(open, n)
  {
    if n > 0 {
      Agree(open, other, n - 1);
    }
  }

  ghost predicate OpensAs(open: Opener, parts: seq<bytes>) {
    forall i | 0 <= i < |parts| :: open(i) == Some(parts[i])
  }

  lemma {:induction false} EachChunkMakesPrefix(open: Opener, parts: seq<bytes>)
    requires OpensAs(open, parts)
    ensures Prefix(open, |parts|) == Some(Flatten(parts))
  {
    if parts != [] {
      EachChunkMakesPrefix(open, parts[..|parts| - 1]);
      FlattenLast(parts);
    }
  }

  lemma {:induction false} PrefixHasChunks(open: Opener, n: nat) returns (parts: seq<bytes>)
    requires Prefix(open, n).Some?
    ensures |parts| == n && OpensAs(open, parts) && Prefix(open, n) == Some(Flatten(parts))
  {
    if n == 0 {
      parts := [];
    } else {
      var front := PrefixHasChunks(open, n - 1);
      FlattenSnoc(front, open(n - 1).value);
      parts := front + [open(n - 1).value];
    }
  }

  /** A prefix opens exactly when each of its chunks does, and is their concatenation. */
  lemma OpenedIffEachChunk(open: Opener, n: nat, data: bytes)
    ensures Prefix(open, n) == Some(data) <==>
            exists parts :: |parts| == n && OpensAs(open, parts) && Flatten(parts) == data
  {
    if Prefix(open, n) == Some(data) {
      var parts := PrefixHasChunks(open, n);
    }
    forall parts | |parts| == n && OpensAs(open, parts)
      ensures Prefix(open, n) == Some(Flatten(parts))
    {
      EachChunkMakesPrefix(open, parts);
    }
  }

  /** Chunks of bounded length: if every chunk is at most its share long, and is its whole share exactly
      when it also opens whole, then the same holds for a prefix. */
  lemma {:induction false} SharesAddUp(open: Opener, whole: Opener, end: nat -> nat, n: nat)
    requires Prefix(open, n).Some? && end(0) == 0
    requires forall i: nat | i < n && open(i).Some? ::
               && end(i) + |open(i).value| <= end(i + 1)
               && (end(i) + |open(i).value| == end(i + 1) <==> whole(i).Some?)
               && (whole(i).Some? ==> whole(i) == open(i))
    ensures |Prefix(open, n).value| <= end(n)
    ensures |Prefix(open, n).value| == end(n) <==> Prefix(whole, n).Some?
    ensures Prefix(whole, n).Some? ==> Prefix(whole, n) == Prefix(open, n)
  {
    if n > 0 {
      SharesAddUp(open, whole, end, n - 1);
    }
  }

  /** Piece i of a concatenation lies between the ends of the prefixes before and after it. */
  lemma {:induction false} PieceAt(pieces: Opener, i: nat, n: nat)
    requires i < n && Prefix(pieces, n).Some?
    ensures Prefix(pieces, i).Some? && Prefix(pieces, i + 1).Some? && pieces(i).Some?
    ensures var all := Prefix(pieces, n).value;
            var start, end := |Prefix(pieces, i).value|, |Prefix(pieces, i + 1).value|;
            start <= end <= |all| && all[start..end] == pieces(i).value
  {
    if i < n - 1 {
      PieceAt(pieces, i, n - 1);
      var front := Prefix(pieces, n - 1).value;
      assert front <= Prefix(pieces, n).value;
    }
  }

  ghost predicate OpensSlice(open: Opener, content: bytes, end: nat -> nat, i: nat) {
    end(i) <= end(i + 1) <= |content| && open(i) == Some(content[end(i)..end(i + 1)])
  }

  /** Pieces that are consecutive slices make up the beginning of the content. */
  lemma {:induction false} SlicesAddUp(open: Opener, content: bytes, end: nat -> nat, n: nat)
    requires end(0) == 0
    requires forall i: nat | i < n :: OpensSlice(open, content, end, i)
    ensures end(n) <= |content| && Prefix(open, n) == Some(content[..end(n)])
  {
    if n > 0 {
      SlicesAddUp(open, content, end, n - 1);
      assert OpensSlice(open, content, end, n - 1);
      assert content[..end(n - 1)] + content[end(n - 1)..end(n)] == content[..end(n)];
    } else {
      assert content[..0] == [];
    }
  }
}
