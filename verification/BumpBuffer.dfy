/**
 The block allocator of containers/BumpBuffer.hpp. Storage is a row of blocks of
 equal size; positions count through all of them, and each block begins at the
 configured alignment. Growth may fail at any time.
 */
module BumpBuffer {
  import opened Quotients
  import Requests

  predicate IsPow2(n: nat) {
    n > 0 && (n == 1 || (n % 2 == 0 && IsPow2(n / 2)))
  }

  lemma {:induction false} Pow2Some(n: nat)
    requires IsPow2(n)
    ensures n > 0
  {
  }

  /** The least power of two that is not less than `n`. */
  function RoundUp(n: nat, p: nat): (r: nat)
    requires IsPow2(p)
    ensures IsPow2(r) && r >= n && r >= p && (r == p || r < 2 * n)
    decreases n - p
  {
    if n <= p then p else
    assert IsPow2(2 * p) by { assert 2 * p % 2 == 0 && 2 * p / 2 == p; }
    RoundUp(n, 2 * p)
  }

  /** A piece handed out: where it starts, its size, and the alignment asked for. */
  datatype Piece = Piece(start: nat, size: nat, alignment: nat)

  /** A piece lies in one block, at an offset that is a multiple of its alignment. */
  predicate Placed(p: Piece, block: nat) {
    block > 0 && p.size > 0 && p.alignment > 0 && Rem(p.start, block) + p.size <= block && Rem(Rem(p.start, block), p.alignment) == 0
  }

  predicate Apart(p: Piece, q: Piece) {
    p.start + p.size <= q.start || q.start + q.size <= p.start
  }

  /** Each piece is placed, each begins after the one before it ends, and all end before `end`. */
  ghost predicate Laid(ps: seq<Piece>, block: nat, alignment: nat, end: nat) {
    && (forall i :: 0 <= i < |ps| ==> Placed(ps[i], block) && ps[i].alignment <= alignment && ps[i].start + ps[i].size <= end)
    && (forall i, j :: 0 <= i < j < |ps| ==> ps[i].start + ps[i].size <= ps[j].start)
  }

  lemma LaidNext(ps: seq<Piece>, block: nat, alignment: nat, end: nat, p: Piece)
    requires Laid(ps, block, alignment, end) && Placed(p, block) && p.alignment <= alignment && end <= p.start
    ensures Laid(ps + [p], block, alignment, p.start + p.size) && forall i :: 0 <= i < |ps| ==> Apart(ps[i], p)
  {
    hide Placed;
  }

  lemma LaidNone(block: nat, alignment: nat)
    ensures Laid([], block, alignment, 0) && Total([]) == 0
  {
  }

  function Total(ps: seq<Piece>): nat {
    if ps == [] then 0 else Total(ps[..|ps| - 1]) + ps[|ps| - 1].size
  }

  lemma {:induction false} TotalNext(ps: seq<Piece>, p: Piece)
    ensures Total(ps + [p]) == Total(ps) + p.size
  {
    assert (ps + [p])[..|ps|] == ps;
  }

  lemma BlockStart(cursor: nat, block: nat)
    requires block > 0
    ensures Rem(cursor, block) <= cursor && Rem(cursor - Rem(cursor, block), block) == 0
  {
    hide Quot, Rem, Times;
    Division(cursor, block);
    Multiples(Quot(cursor, block), 0, block);
  }

  /** A place in a block has its offset as remainder. */
  lemma OffsetIs(start: nat, offset: nat, block: nat)
    requires block > 0 && Rem(start, block) == 0 && offset < block
    ensures Rem(start + offset, block) == offset && Rem(start + block, block) == 0
  {
    hide Quot, Rem, Times;
    Division(start, block);
    Multiples(Quot(start, block), offset, block);
  }

  /** Padding brings an offset up to a multiple of the alignment, by less than the alignment. */
  function Padding(offset: nat, alignment: nat): (p: nat)
    requires alignment > 0
    ensures p < alignment
  {
    Rem(alignment - Rem(offset, alignment), alignment)
  }

  lemma SmallRem(x: nat, d: nat)
    requires 0 < d && x <= d
    ensures Rem(x, d) == if x == d then 0 else x
  {
  }

  lemma PaddingAligns(offset: nat, alignment: nat)
    requires alignment > 0
    ensures Rem(offset + Padding(offset, alignment), alignment) == 0
  {
    hide Quot, Rem, Times;
    Division(offset, alignment);
    SmallRem(alignment - Rem(offset, alignment), alignment);
    Multiples(Quot(offset, alignment), 0, alignment);
  }

  lemma NoRest(d: nat)
    requires d > 0
    ensures Rem(0, d) == 0 && Rem(d, d) == 0
  {
    SmallRem(0, d);
    SmallRem(d, d);
  }

  class Bump {
    const maxCount: nat
    const ceiling: nat
    /** Whether memory is there whenever it is asked for. */
    const granted: bool

    /** Configuration, zero before the first allocation, and the storage, a multiple of the block size. */
    var block: nat
    var alignment: nat
    var capacity: nat
    var cursor: nat
    var count: nat
    var size: nat
    var padded: nat

    /** The pieces handed out since the last reset. */
    ghost var pieces: seq<Piece>

    /** Each piece is placed, each begins after the one before it ends, and the counters add up. */
    ghost predicate Valid()
      reads this
    {
      && (capacity > 0 ==> block > 0 && alignment > 0 && Rem(capacity, block) == 0) && block <= maxCount
      && count == |pieces| && size == Total(pieces) && count <= size <= padded <= cursor <= capacity
      && Laid(pieces, block, alignment, cursor)
    }

    constructor (maxCount: nat, ceiling: nat, granted: bool)
      ensures Valid() && pieces == [] && capacity == 0 && this.maxCount == maxCount && this.ceiling == ceiling
      ensures this.granted == granted
    {
      this.maxCount, this.ceiling, this.granted := maxCount, ceiling, granted;
      block, alignment, capacity, cursor, count, size, padded := 0, 0, 0, 0, 0, 0, 0;
      pieces := [];
    }

    method Reset()
      requires Valid()
      modifies `cursor, `count, `size, `padded, `pieces
      ensures Valid() && pieces == [] && cursor == count == size == padded == 0
    {
      LaidNone(block, alignment);
      cursor, count, size, padded := 0, 0, 0, 0;
      pieces := [];
    }

    /** Prepares the first block. The same settings keep all blocks; invalid ones change nothing. */
    method Allocate(blockSize: nat, align: nat) returns (ok: bool)
      requires Valid()
      modifies this
      ensures Valid()
      ensures blockSize > ceiling || !IsPow2(align) ==> !ok && unchanged(this)
      ensures ok ==> pieces == [] && capacity > 0 && block == RoundUp(blockSize, 4096) && alignment == align
      ensures !ok ==> unchanged(this) || (pieces == [] && cursor == 0 && capacity == 0)
      ensures ok && old(block) == block && old(alignment) == align && old(capacity) > 0 ==> capacity == old(capacity)
      ensures granted && blockSize <= ceiling && IsPow2(align) && RoundUp(blockSize, 4096) <= maxCount ==> ok
    {
      hide Rem, IsPow2, RoundUp, Laid, Total;
      if blockSize > ceiling || !IsPow2(align) { return false; }
      Pow2Some(align);
      SmallestBlock();
      var normalised := RoundUp(blockSize, 4096);
      Pow2Some(normalised);
      if normalised != block || align != alignment {
        var stable := Requests.Ask(granted);
        if !stable || normalised > maxCount { return false; }
        LaidNone(normalised, align);
        block, alignment, capacity := normalised, align, 0;
        cursor, count, size, padded := 0, 0, 0, 0;
        pieces := [];
      }
      Reset();
      if capacity == 0 {
        var met := Requests.Ask(granted);
        if !met { return false; }
        NoRest(block);
        capacity := block;
      }
      ok := true;
    }

    lemma SmallestBlock()
      ensures IsPow2(4096)
    {
      assert IsPow2(2) && IsPow2(4) && IsPow2(8) && IsPow2(16) && IsPow2(32) && IsPow2(64);
      assert IsPow2(128) && IsPow2(256) && IsPow2(512) && IsPow2(1024) && IsPow2(2048);
    }

    /** A request that the settings allow, with room for another block below the limit. */
    predicate Fitting(bytes: nat, align: nat)
      reads this
    {
      capacity > 0 && 0 < bytes <= block && IsPow2(align) && align <= alignment && cursor + 2 * block <= maxCount
    }

    /**
     Hands out a piece: aligned as asked, inside one block, apart from every other piece. A request that cannot be met
     changes nothing.
     */
    method Take(bytes: nat, align: nat) returns (ok: bool, piece: Piece)
      requires Valid()
      modifies this
      ensures Valid() && block == old(block) && alignment == old(alignment)
      ensures !ok ==> unchanged(this)
      ensures ok ==> pieces == old(pieces) + [piece] && piece.size == bytes && piece.alignment == (if align != 0 then align else alignment)
      ensures ok ==> Placed(piece, block) && piece.start >= old(cursor) && forall i :: 0 <= i < |old(pieces)| ==> Apart(old(pieces[i]), piece)
      ensures bytes == 0 || bytes > block || capacity == 0 || (align != 0 && (!IsPow2(align) || align > alignment)) ==> !ok
      ensures granted && old(Fitting(bytes, if align != 0 then align else alignment)) ==> ok
    {
      hide Rem, IsPow2, Laid, Total, Apart;
      piece := Piece(0, 0, 0);
      var asked := if align != 0 then align else alignment;
      if capacity == 0 || bytes == 0 || bytes > block || !IsPow2(asked) || asked > alignment { return false, piece; }
      Pow2Some(asked);
      var start, offset, padding := Place(bytes, asked);
      if start > maxCount - block { return false, piece; }
      OffsetIs(start, offset, block);
      var required := start + block;
      if required > capacity {
        var grown := Requests.Ask(granted);
        if !grown { return false, piece; }
        capacity := required;
      }
      piece := Piece(start + offset, bytes, asked);
      TotalNext(pieces, piece);
      LaidNext(pieces, block, alignment, cursor, piece);
      cursor := start + offset + bytes;
      count := count + 1;
      size := size + bytes;
      padded := padded + (bytes + padding);
      pieces := pieces + [piece];
      ok := true;
    }

    /** Where the next piece goes: after the cursor in its block, or at the start of the next. */
    method Place(bytes: nat, asked: nat) returns (start: nat, offset: nat, padding: nat)
      requires Valid() && capacity > 0 && 0 < bytes <= block && 0 < asked <= alignment
      ensures Rem(start, block) == 0 && offset < block && offset + bytes <= block && Rem(offset, asked) == 0
      ensures start + offset >= cursor + padding && start <= cursor + block
    {
      hide Rem, Padding;
      offset := Rem(cursor, block);
      BlockStart(cursor, block);
      start := cursor - offset;
      padding := Padding(offset, asked);
      PaddingAligns(offset, asked);
      var remaining := block - offset;
      if padding > remaining || bytes > remaining - padding {
        OffsetIs(start, 0, block);
        NoRest(asked);
        start := start + block;
        offset, padding := 0, 0;
      } else {
        offset := offset + padding;
      }
    }
  }

  /** Any two pieces handed out since a reset are apart. */
  lemma PiecesApart(b: Bump, i: nat, j: nat)
    requires b.Valid() && i < |b.pieces| && j < |b.pieces| && i != j
    ensures Apart(b.pieces[i], b.pieces[j])
  {
    if i < j { assert b.pieces[i].start + b.pieces[i].size <= b.pieces[j].start; }
  }
}
