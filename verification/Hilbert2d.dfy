/**
 Hilbert codes of a square grid (core/bit_utils/spatial_codes.hpp,
 morton_to_hilbert_2d and hilbert_to_morton_2d): a remap word of two-bit entries
 changes as digits pass, and the two directions are mutual inverses along a
 continuous curve.
 */
module Hilbert2d {
  import opened Quotients

  function Pow4(n: nat): (p: nat)
    ensures p > 0
  {
    if n == 0 then 1 else 4 * Pow4(n - 1)
  }

  /** The four ways the curve can run through a square: as at the root, turned at its start, at its end, or both. */
  datatype Course = Course(atStart: bool, atEnd: bool)

  const ROOT := Course(false, false)

  /** Visiting the first quarter flips one turn, visiting the last the other. */
  function Turn(c: Course, h: nat): Course {
    if h == 0 then c.(atStart := !c.atStart) else if h == 3 then c.(atEnd := !c.atEnd) else c
  }

  /** The low byte of the encoder's remap word: the only byte it ever reads. */
  function EncoderByte(c: Course): bv8 {
    if c.atStart then if c.atEnd then 0x1e else 0x9c else if c.atEnd then 0x36 else 0xb4
  }

  function DecoderByte(c: Course): bv8 {
    if c.atStart then if c.atEnd then 0x4b else 0x78 else if c.atEnd then 0x87 else 0xb4
  }

  /** Entry `k` of a remap word. */
  function Entry(remap: bv32, k: nat): (e: nat)
    requires k < 4
    ensures e < 4
  {
    var pair := if k == 0 then remap & 3 else if k == 1 then (remap >> 2) & 3 else if k == 2 then (remap >> 4) & 3 else (remap >> 6) & 3;
    if pair == 0 then 0 else if pair == 1 then 1 else if pair == 2 then 2 else 3
  }

  function Low(remap: bv32): bv8 {
    (remap & 0xff) as bv8
  }

  /** The quarter of the square that is visited `h`-th. */
  function QuarterAt(c: Course, h: nat): (m: nat)
    requires h < 4
    ensures m < 4
  {
    if c.atStart then
      if c.atEnd then [3, 2, 0, 1][h] else [0, 2, 3, 1][h]
    else
      if c.atEnd then [3, 1, 0, 2][h] else [0, 1, 3, 2][h]
  }

  function VisitOf(c: Course, m: nat): (h: nat)
    requires m < 4
    ensures h < 4
  {
    if c.atStart then
      if c.atEnd then [2, 3, 1, 0][m] else [0, 3, 1, 2][m]
    else
      if c.atEnd then [2, 1, 3, 0][m] else [0, 1, 3, 2][m]
  }

  lemma VisitsInverse(c: Course, k: nat)
    requires k < 4
    ensures VisitOf(c, QuarterAt(c, k)) == k && QuarterAt(c, VisitOf(c, k)) == k
  {
  }

  lemma EncoderReads(remap: bv32, c: Course, m: nat)
    requires m < 4 && Low(remap) == EncoderByte(c)
    ensures Entry(remap, m) == VisitOf(c, m)
  {
  }

  lemma DecoderReads(remap: bv32, c: Course, h: nat)
    requires h < 4 && Low(remap) == DecoderByte(c)
    ensures Entry(remap, h) == QuarterAt(c, h)
  {
  }

  function Shifted(word: bv32, h: nat): bv32
    requires h < 4
  {
    if h == 0 then word else if h == 1 then word >> 8 else if h == 2 then word >> 16 else word >> 24
  }

  lemma EncoderTurns(remap: bv32, c: Course, h: nat)
    requires h < 4 && Low(remap) == EncoderByte(c)
    ensures Low(remap ^ Shifted(0x82000028, h)) == EncoderByte(Turn(c, h))
  {
  }

  lemma DecoderTurns(remap: bv32, c: Course, h: nat)
    requires h < 4 && Low(remap) == DecoderByte(c)
    ensures Low(remap ^ Shifted(0x330000cc, h)) == DecoderByte(Turn(c, h))
  {
  }

  // ---------------------------------------------------------------------
  // The codes

  function Top(code: nat, levels: nat): (d: nat)
    requires levels > 0
    ensures d < 4
  {
    Quot(code, Pow4(levels - 1)) % 4
  }

  function Below(code: nat, levels: nat): (r: nat)
    requires levels > 0
    ensures r < Pow4(levels - 1)
  {
    Rem(code, Pow4(levels - 1))
  }

  function Put(d: nat, rest: nat, levels: nat): nat
    requires levels > 0
  {
    Times(d, Pow4(levels - 1)) + rest
  }

  lemma PutParts(d: nat, rest: nat, levels: nat)
    requires levels > 0 && d < 4 && rest < Pow4(levels - 1)
    ensures Put(d, rest, levels) < Pow4(levels) && Top(Put(d, rest, levels), levels) == d && Below(Put(d, rest, levels), levels) == rest
  {
    hide Quot, Rem, Times;
    var p := Pow4(levels - 1);
    Unique(d, rest, p);
    Monotone(d, 3, p);
    Small(p);
  }

  lemma {:induction false} PartsPut(code: nat, levels: nat)
    requires levels > 0 && code < Pow4(levels)
    ensures Put(Top(code, levels), Below(code, levels), levels) == code
  {
    hide Quot, Rem, Times;
    Division(code, Pow4(levels - 1));
    QuotSmall(code, Pow4(levels - 1));
  }

  /** From a Morton code to the place on the curve, quarter by quarter. */
  function Encode(c: Course, morton: nat, levels: nat): nat
    decreases levels
  {
    if levels == 0 then 0
    else
      var h := VisitOf(c, Top(morton, levels));
      Put(h, Encode(Turn(c, h), Below(morton, levels), levels - 1), levels)
  }

  function Decode(c: Course, hilbert: nat, levels: nat): nat
    decreases levels
  {
    if levels == 0 then 0
    else
      var h := Top(hilbert, levels);
      Put(QuarterAt(c, h), Decode(Turn(c, h), Below(hilbert, levels), levels - 1), levels)
  }

  lemma {:induction false} EncodeInverse(c: Course, morton: nat, levels: nat)
    requires morton < Pow4(levels)
    ensures Encode(c, morton, levels) < Pow4(levels) && Decode(c, Encode(c, morton, levels), levels) == morton
    decreases levels
  {
    hide Pow4, Top, Below, Put;
    if levels > 0 {
      var m := Top(morton, levels);
      var h := VisitOf(c, m);
      EncodeInverse(Turn(c, h), Below(morton, levels), levels - 1);
      PutParts(h, Encode(Turn(c, h), Below(morton, levels), levels - 1), levels);
      VisitsInverse(c, m);
      PartsPut(morton, levels);
    } else {
      NoLevels(morton);
    }
  }

  lemma NoLevels(code: nat)
    ensures Pow4(0) == 1
  {
  }

  lemma {:induction false} DecodeInverse(c: Course, hilbert: nat, levels: nat)
    requires hilbert < Pow4(levels)
    ensures Decode(c, hilbert, levels) < Pow4(levels) && Encode(c, Decode(c, hilbert, levels), levels) == hilbert
    decreases levels
  {
    hide Pow4, Top, Below, Put;
    if levels > 0 {
      var h := Top(hilbert, levels);
      var m := QuarterAt(c, h);
      DecodeInverse(Turn(c, h), Below(hilbert, levels), levels - 1);
      PutParts(m, Decode(Turn(c, h), Below(hilbert, levels), levels - 1), levels);
      VisitsInverse(c, h);
      PartsPut(hilbert, levels);
    } else {
      NoLevels(hilbert);
    }
  }

  // ---------------------------------------------------------------------
  // The curve

  datatype Cell = Cell(x: int, y: int)

  predicate Adjacent(a: Cell, b: Cell) {
    (a.x == b.x && (a.y == b.y + 1 || b.y == a.y + 1)) || (a.y == b.y && (a.x == b.x + 1 || b.x == a.x + 1))
  }

  function Within(m: nat, inner: Cell, half: nat): Cell {
    Cell((if m % 2 == 1 then half else 0) + inner.x, (if m >= 2 then half else 0) + inner.y)
  }

  /** The grid cell of a Morton code: its even bits are x, its odd bits y. */
  function CellOf(morton: nat, levels: nat): Cell
    decreases levels
  {
    if levels == 0 then Cell(0, 0) else Within(Top(morton, levels), CellOf(Below(morton, levels), levels - 1), Pow2(levels - 1))
  }

  /** The cell at a place on the curve. */
  function Visited(c: Course, hilbert: nat, levels: nat): Cell {
    CellOf(Decode(c, hilbert, levels), levels)
  }

  lemma {:induction false} VisitedParts(c: Course, h: nat, rest: nat, levels: nat)
    requires levels > 0 && h < 4 && rest < Pow4(levels - 1)
    ensures Visited(c, Put(h, rest, levels), levels) == Within(QuarterAt(c, h), Visited(Turn(c, h), rest, levels - 1), Pow2(levels - 1))
  {
    hide Pow4, Top, Below, Put, Pow2;
    PutParts(h, rest, levels);
    DecodeInverse(Turn(c, h), rest, levels - 1);
    PutParts(QuarterAt(c, h), Decode(Turn(c, h), rest, levels - 1), levels);
  }

  /** The corner of a square of `side` cells in the direction of quarter `m`. */
  function Corner(m: nat, side: int): Cell {
    Cell(if m % 2 == 1 then side - 1 else 0, if m >= 2 then side - 1 else 0)
  }

  /** The first corner of the first quarter, and the last corner of the last, are corners of the square. */
  lemma Corners(c: Course, half: nat)
    ensures Within(QuarterAt(c, 0), Corner(QuarterAt(Turn(c, 0), 0), half), half) == Corner(QuarterAt(c, 0), 2 * half)
    ensures Within(QuarterAt(c, 3), Corner(QuarterAt(Turn(c, 3), 3), half), half) == Corner(QuarterAt(c, 3), 2 * half)
  {
  }

  lemma {:induction false} FirstCell(c: Course, levels: nat)
    ensures Visited(c, 0, levels) == Corner(QuarterAt(c, 0), Pow2(levels))
    decreases levels
  {
    hide QuarterAt, Within, Turn, Put, Pow4, Pow2, Visited, Corner;
    if levels > 0 {
      Doubled(levels);
      FirstCell(Turn(c, 0), levels - 1);
      VisitedParts(c, 0, 0, levels);
      ZeroPut(levels);
      Corners(c, Pow2(levels - 1));
    } else {
      OneCell(c, 0, QuarterAt(c, 0));
    }
  }

  lemma Doubled(levels: nat)
    requires levels > 0
    ensures Pow2(levels) == 2 * Pow2(levels - 1)
  {
  }

  lemma OneCell(c: Course, code: nat, m: nat)
    ensures Visited(c, code, 0) == Cell(0, 0) && Corner(m, Pow2(0)) == Cell(0, 0)
  {
  }

  lemma ZeroPut(levels: nat)
    requires levels > 0
    ensures Put(0, 0, levels) == 0
  {
  }

  lemma {:induction false} LastCell(c: Course, levels: nat)
    ensures Visited(c, Pow4(levels) - 1, levels) == Corner(QuarterAt(c, 3), Pow2(levels))
    decreases levels
  {
    hide QuarterAt, Within, Turn, Put, Pow4, Pow2, Visited, Corner;
    if levels > 0 {
      Doubled(levels);
      LastCell(Turn(c, 3), levels - 1);
      VisitedParts(c, 3, Pow4(levels - 1) - 1, levels);
      PutCarry(3, levels);
      Corners(c, Pow2(levels - 1));
    } else {
      OneCell(c, Pow4(0) - 1, QuarterAt(c, 3));
    }
  }

  /** From the last cell of one quarter to the first of the next is one step. */
  lemma Crosses(c: Course, h: nat, half: nat)
    requires h < 3 && half > 0
    ensures Adjacent(Within(QuarterAt(c, h), Corner(QuarterAt(Turn(c, h), 3), half), half),
                     Within(QuarterAt(c, h + 1), Corner(QuarterAt(Turn(c, h + 1), 0), half), half))
  {
  }

  lemma StepsWithin(m: nat, a: Cell, b: Cell, half: nat)
    requires Adjacent(a, b)
    ensures Adjacent(Within(m, a, half), Within(m, b, half))
  {
  }

  /** Consecutive places on the curve are neighbouring cells. */
  lemma {:induction false} Continuous(c: Course, hilbert: nat, levels: nat)
    requires hilbert + 1 < Pow4(levels)
    ensures Adjacent(Visited(c, hilbert, levels), Visited(c, hilbert + 1, levels))
    decreases levels
  {
    hide Pow2, Top, Below, Visited, Within, Adjacent, Corner, QuarterAt;
    if levels == 0 { NoLevels(hilbert); } else {
      var h, rest := Top(hilbert, levels), Below(hilbert, levels);
      PartsPut(hilbert, levels);
      VisitedParts(c, h, rest, levels);
      if rest + 1 < Pow4(levels - 1) {
        Continuous(Turn(c, h), rest, levels - 1);
        VisitedParts(c, h, rest + 1, levels);
        PutNext(h, rest, levels);
        StepsWithin(QuarterAt(c, h), Visited(Turn(c, h), rest, levels - 1), Visited(Turn(c, h), rest + 1, levels - 1), Pow2(levels - 1));
      } else {
        PutCarry(h, levels);
        VisitedParts(c, h + 1, 0, levels);
        LastCell(Turn(c, h), levels - 1);
        FirstCell(Turn(c, h + 1), levels - 1);
        Crosses(c, h, Pow2(levels - 1));
      }
    }
  }

  lemma PutNext(h: nat, rest: nat, levels: nat)
    requires levels > 0
    ensures Put(h, rest + 1, levels) == Put(h, rest, levels) + 1
  {
  }

  lemma PutCarry(h: nat, levels: nat)
    requires levels > 0
    ensures Put(h, Pow4(levels - 1) - 1, levels) + 1 == Put(h + 1, 0, levels)
    ensures Put(3, Pow4(levels - 1) - 1, levels) + 1 == Pow4(levels)
  {
    hide Times;
    Successor(h, Pow4(levels - 1));
    Small(Pow4(levels - 1));
  }

  // ---------------------------------------------------------------------
  // The loops

  /** Digit `k` from below. */
  function Digit(code: nat, k: nat): (d: nat)
    ensures d < 4
  {
    Quot(code, Pow4(k)) % 4
  }

  /** The code without the digits above `k`. */
  function Lower(code: nat, k: nat): (r: nat)
    ensures r < Pow4(k)
  {
    Rem(code, Pow4(k))
  }

  lemma Distribute(q: nat, a: nat, p: nat)
    ensures Times(q, 4 * p) + Times(a, p) == Times(4 * q + a, p)
  {
    assert q * (4 * p) == 4 * q * p;
    assert (4 * q + a) * p == 4 * q * p + a * p;
  }

  /** Adding a digit below the digits already found. */
  lemma Appended(index: nat, d: nat, rest: nat, levels: nat)
    requires levels > 0
    ensures Times(index, Pow4(levels)) + Put(d, rest, levels) == Times(4 * index + d, Pow4(levels - 1)) + rest
  {
    hide Times;
    Distribute(index, d, Pow4(levels - 1));
  }

  /** The digits below `k` of a code, and the digit on top of them. */
  lemma LowerDigits(code: nat, k: nat)
    requires k > 0
    ensures Top(Lower(code, k), k) == Digit(code, k - 1) && Below(Lower(code, k), k) == Lower(code, k - 1)
  {
    hide Quot, Rem, Times;
    var p := Pow4(k - 1);
    var q, r := Quot(code, 4 * p), Rem(code, 4 * p);
    Division(code, 4 * p);
    Division(r, p);
    QuotSmall(r, p);
    var a, b := Quot(r, p), Rem(r, p);
    Distribute(q, a, p);
    Unique(4 * q + a, b, p);
    assert (4 * q + a) % 4 == a;
  }

  lemma StartBytes()
    ensures Low(0xb4) == EncoderByte(ROOT) == DecoderByte(ROOT)
  {
  }

  lemma {:induction false} Nothing(levels: nat, result: nat)
    ensures Times(0, Pow4(levels)) + result == result
  {
    Small(Pow4(levels));
  }

  lemma EncodeStep(c: Course, morton: nat, levels: nat)
    requires levels > 0
    ensures var h := VisitOf(c, Top(morton, levels)); Encode(c, morton, levels) == Put(h, Encode(Turn(c, h), Below(morton, levels), levels - 1), levels)
  {
  }

  lemma DecodeStep(c: Course, hilbert: nat, levels: nat)
    requires levels > 0
    ensures var h := Top(hilbert, levels); Decode(c, hilbert, levels) == Put(QuarterAt(c, h), Decode(Turn(c, h), Below(hilbert, levels), levels - 1), levels)
  {
  }

  lemma {:induction false} Everything(index: nat, c: Course, code: nat)
    ensures Times(index, Pow4(0)) + Encode(c, Lower(code, 0), 0) == index && Times(index, Pow4(0)) + Decode(c, Lower(code, 0), 0) == index
  {
  }

  /** The place on the curve of a Morton code; digits above `levels` are ignored. */
  method MortonToHilbert(morton: nat, levels: nat) returns (index: nat)
    requires levels <= 16
    ensures index == Encode(ROOT, Lower(morton, levels), levels) < Pow4(levels)
  {
    hide Pow4, Top, Below, Put, Digit, Lower, Times, Entry, Low, Shifted, EncoderByte, Encode, VisitOf;
    index := 0;
    var remap: bv32 := 0xb4;
    StartBytes();
    ghost var c := ROOT;
    var block: nat := levels;
    EncodeInverse(ROOT, Lower(morton, levels), levels);
    ghost var result := Encode(ROOT, Lower(morton, levels), levels);
    Nothing(levels, result);
    while block > 0
      invariant block <= levels && Low(remap) == EncoderByte(c)
      invariant Times(index, Pow4(block)) + Encode(c, Lower(morton, block), block) == result
    {
      LowerDigits(morton, block);
      EncodeStep(c, Lower(morton, block), block);
      block := block - 1;
      var mcode := Digit(morton, block);
      EncoderReads(remap, c, mcode);
      var hcode := Entry(remap, mcode);
      EncoderTurns(remap, c, hcode);
      Appended(index, hcode, Encode(Turn(c, hcode), Lower(morton, block), block), block + 1);
      c := Turn(c, hcode);
      remap := remap ^ Shifted(0x82000028, hcode);
      index := 4 * index + hcode;
    }
    Everything(index, c, morton);
  }

  /** The Morton code at a place on the curve. */
  method HilbertToMorton(hilbert: nat, levels: nat) returns (index: nat)
    requires levels <= 16
    ensures index == Decode(ROOT, Lower(hilbert, levels), levels) < Pow4(levels)
  {
    hide Pow4, Top, Below, Put, Digit, Lower, Times, Entry, Low, Shifted, DecoderByte, Decode, QuarterAt;
    index := 0;
    var remap: bv32 := 0xb4;
    StartBytes();
    ghost var c := ROOT;
    var block: nat := levels;
    DecodeInverse(ROOT, Lower(hilbert, levels), levels);
    ghost var result := Decode(ROOT, Lower(hilbert, levels), levels);
    Nothing(levels, result);
    while block > 0
      invariant block <= levels && Low(remap) == DecoderByte(c)
      invariant Times(index, Pow4(block)) + Decode(c, Lower(hilbert, block), block) == result
    {
      LowerDigits(hilbert, block);
      DecodeStep(c, Lower(hilbert, block), block);
      block := block - 1;
      var hcode := Digit(hilbert, block);
      DecoderReads(remap, c, hcode);
      var mcode := Entry(remap, hcode);
      DecoderTurns(remap, c, hcode);
      Appended(index, mcode, Decode(Turn(c, hcode), Lower(hilbert, block), block), block + 1);
      c := Turn(c, hcode);
      remap := remap ^ Shifted(0x330000cc, hcode);
      index := 4 * index + mcode;
    }
    Everything(index, c, hilbert);
  }
}
