/**
 Hilbert codes of a cube of up to ten levels (core/bit_utils/spatial_codes.hpp,
 morton_to_hilbert_3d and hilbert_to_morton_3d): digits of three bits are rotated
 and sign-flipped in place, under a rotation and a sign mask that the digits above
 them select.
 */
module Hilbert3d {

  type Word = bv32

  /** Three bits at a constant place. */
  function Digit(index: Word, k: nat): (d: Word)
    requires k < 10
    ensures d < 8
  {
    if k == 0 then index & 7
    else if k == 1 then (index >> 3) & 7
    else if k == 2 then (index >> 6) & 7
    else if k == 3 then (index >> 9) & 7
    else if k == 4 then (index >> 12) & 7
    else if k == 5 then (index >> 15) & 7
    else if k == 6 then (index >> 18) & 7
    else if k == 7 then (index >> 21) & 7
    else if k == 8 then (index >> 24) & 7
    else (index >> 27) & 7
  }

  /** A digit moved to its place. */
  function Moved(d: Word, k: nat): Word
    requires k < 10
  {
    if k == 0 then d
    else if k == 1 then d << 3
    else if k == 2 then d << 6
    else if k == 3 then d << 9
    else if k == 4 then d << 12
    else if k == 5 then d << 15
    else if k == 6 then d << 18
    else if k == 7 then d << 21
    else if k == 8 then d << 24
    else d << 27
  }

  function Xor(a: Word, b: Word): Word {
    a ^ b
  }

  /** Exchanges one digit for another (index ^= (old ^ new) << block). */
  function Exchange(index: Word, k: nat, new_: Word): Word
    requires k < 10
  {
    Xor(index, Moved(Xor(Digit(index, k), new_), k))
  }

  /** Rotates three bits to the right. */
  function Rotated(d: Word, shift: Word): (r: Word)
    requires d < 8 && shift < 3
    ensures r < 8
  {
    ((d | (d << 3)) >> shift) & 7
  }

  /** How far a digit turns what is below it. */
  function TurnOf(h: Word): (t: Word)
    requires h < 8
    ensures t < 3
  {
    (0x20212021 >> (h << 2)) & 3
  }

  function FlipOf(h: Word): Word
    requires h < 8
  {
    0x53560300 >> (h << 2)
  }

  function EncoderShift(shift: Word, turn: Word): (s: Word)
    requires shift < 3 && turn < 3
    ensures s < 3
  {
    (0x49 >> (4 - shift - turn)) & 3
  }

  function DecoderShift(shift: Word, turn: Word): (s: Word)
    requires shift < 3 && turn < 3
    ensures s < 3
  {
    (0x49 >> (4 - shift + turn)) & 3
  }

  function SignsAfter(signs: Word, h: Word): (s: Word)
    requires signs < 8 && h < 8
    ensures s < 8
  {
    (((signs | (signs << 3)) >> TurnOf(h)) ^ FlipOf(h)) & 7
  }

  /** The rotations of encoder and decoder undo each other: they sum to none or to a full turn. */
  predicate Opposite(shift: Word, shift': Word) {
    shift < 3 && shift' < 3 && (shift + shift' == 0 || shift + shift' == 3)
  }

  lemma OppositeStays(shift: Word, shift': Word, turn: Word)
    requires Opposite(shift, shift') && turn < 3
    ensures Opposite(EncoderShift(shift, turn), DecoderShift(shift', turn))
  {
  }

  lemma RotatedBack(d: Word, shift: Word, shift': Word, signs: Word)
    requires Opposite(shift, shift') && d < 8 && signs < 8
    ensures (Rotated(d, shift) ^ signs) < 8 && (d ^ signs) < 8
    ensures Rotated(Rotated(d, shift) ^ signs ^ signs, shift') == d
    ensures Rotated(Rotated(d ^ signs, shift'), shift) ^ signs == d
  {
  }

  // ---------------------------------------------------------------------
  // Digits of a word

  predicate IsDigits(ds: seq<Word>) {
    |ds| == 10 && forall i :: 0 <= i < 10 ==> ds[i] < 8
  }

  function DigitsOf(word: Word): (ds: seq<Word>)
    ensures IsDigits(ds)
  {
    seq(10, i requires 0 <= i < 10 => Digit(word, i))
  }

  /** The two bits above the ten digits. */
  function High(word: Word): (h: Word)
    ensures h < 4
  {
    word >> 30
  }

  function Assembled(ds: seq<Word>, high: Word): Word
    requires IsDigits(ds) && high < 4
  {
    ds[0] | (ds[1] << 3) | (ds[2] << 6) | (ds[3] << 9) | (ds[4] << 12)
    | (ds[5] << 15) | (ds[6] << 18) | (ds[7] << 21) | (ds[8] << 24) | (ds[9] << 27) | (high << 30)
  }

  lemma PartsJoin(word: Word)
    ensures Assembled(DigitsOf(word), High(word)) == word
  {
    Joined(word);
  }

  lemma Joined(w: Word)
    ensures Digit(w, 0) | (Digit(w, 1) << 3) | (Digit(w, 2) << 6) | (Digit(w, 3) << 9) | (Digit(w, 4) << 12)
      | (Digit(w, 5) << 15) | (Digit(w, 6) << 18) | (Digit(w, 7) << 21) | (Digit(w, 8) << 24) | (Digit(w, 9) << 27) | (High(w) << 30) == w
  {
  }

  /** Assembled digits are found again. */
  lemma JoinParts(ds: seq<Word>, high: Word)
    requires IsDigits(ds) && high < 4
    ensures DigitsOf(Assembled(ds, high)) == ds && High(Assembled(ds, high)) == high
  {
  }

  lemma DigitXor(x: Word, y: Word, k: nat)
    requires k < 10
    ensures Digit(Xor(x, y), k) == Xor(Digit(x, k), Digit(y, k))
  {
    if k == 0 { assert ((x ^ y) & 7) == (x & 7) ^ (y & 7); }
    else if k == 1 { assert ((x ^ y) >> 3) & 7 == ((x >> 3) & 7) ^ ((y >> 3) & 7); }
    else if k == 2 { assert ((x ^ y) >> 6) & 7 == ((x >> 6) & 7) ^ ((y >> 6) & 7); }
    else if k == 3 { assert ((x ^ y) >> 9) & 7 == ((x >> 9) & 7) ^ ((y >> 9) & 7); }
    else if k == 4 { assert ((x ^ y) >> 12) & 7 == ((x >> 12) & 7) ^ ((y >> 12) & 7); }
    else if k == 5 { assert ((x ^ y) >> 15) & 7 == ((x >> 15) & 7) ^ ((y >> 15) & 7); }
    else if k == 6 { assert ((x ^ y) >> 18) & 7 == ((x >> 18) & 7) ^ ((y >> 18) & 7); }
    else if k == 7 { assert ((x ^ y) >> 21) & 7 == ((x >> 21) & 7) ^ ((y >> 21) & 7); }
    else if k == 8 { assert ((x ^ y) >> 24) & 7 == ((x >> 24) & 7) ^ ((y >> 24) & 7); }
    else { assert ((x ^ y) >> 27) & 7 == ((x >> 27) & 7) ^ ((y >> 27) & 7); }
  }

  lemma HighXor(x: Word, y: Word)
    ensures High(Xor(x, y)) == Xor(High(x), High(y))
  {
  }

  /** A moved digit stands at its place and nowhere else. */
  lemma MovedDigit(v: Word, k: nat, j: nat)
    requires v < 8 && k < 10 && j < 10
    ensures Digit(Moved(v, k), j) == (if j == k then v else 0) && High(Moved(v, k)) == 0
  {
  }

  lemma XorBack(a: Word, d: Word)
    ensures Xor(a, Xor(a, d)) == d && Xor(a, 0) == a
  {
  }

  lemma XorSmall(a: Word, b: Word)
    requires a < 8 && b < 8
    ensures Xor(a, b) < 8
  {
  }

  /** An exchange changes one digit. */
  lemma DigitsExchange(word: Word, k: nat, d: Word)
    requires k < 10 && d < 8
    ensures DigitsOf(Exchange(word, k, d)) == DigitsOf(word)[k := d] && High(Exchange(word, k, d)) == High(word)
  {
    hide Digit, High, Xor, Moved;
    var old_ := Digit(word, k);
    var v := Xor(old_, d);
    XorSmall(old_, d);
    var next := Exchange(word, k, d);
    forall j | 0 <= j < 10 ensures Digit(next, j) == DigitsOf(word)[k := d][j] {
      DigitXor(word, Moved(v, k), j);
      MovedDigit(v, k, j);
      XorBack(Digit(word, j), d);
    }
    HighXor(word, Moved(v, k));
    MovedDigit(v, k, k);
    XorBack(High(word), 0);
  }

  // ---------------------------------------------------------------------
  // The transforms, digit by digit

  function ToHilbert(signs: Word, shift: Word, m: Word): (h: Word)
    requires signs < 8 && shift < 3 && m < 8
    ensures h < 8
  {
    XorSmall(Rotated(m, shift), signs);
    Xor(Rotated(m, shift), signs)
  }

  function ToMorton(signs: Word, shift: Word, h: Word): (m: Word)
    requires signs < 8 && shift < 3 && h < 8
    ensures m < 8
  {
    XorSmall(h, signs);
    Rotated(Xor(h, signs), shift)
  }

  lemma Turned(signs: Word, shift: Word, shift': Word, d: Word)
    requires signs < 8 && Opposite(shift, shift') && d < 8
    ensures ToMorton(signs, shift', ToHilbert(signs, shift, d)) == d && ToHilbert(signs, shift, ToMorton(signs, shift', d)) == d
  {
    RotatedBack(d, shift, shift', signs);
  }

  /** Turns the digits below digit `k`, whose curve digit is `h`, into curve digits. */
  function Encode(ds: seq<Word>, k: nat, h: Word, shift: Word, signs: Word): (es: seq<Word>)
    requires IsDigits(ds) && k <= 10 && h < 8 && shift < 3 && signs < 8
    ensures IsDigits(es)
    decreases k
  {
    if k == 0 then ds
    else
      var shift1, signs1 := EncoderShift(shift, TurnOf(h)), SignsAfter(signs, h);
      var h1 := ToHilbert(signs1, shift1, ds[k - 1]);
      Encode(ds[k - 1 := h1], k - 1, h1, shift1, signs1)
  }

  function Decode(ds: seq<Word>, k: nat, h: Word, shift: Word, signs: Word): (es: seq<Word>)
    requires IsDigits(ds) && k <= 10 && h < 8 && shift < 3 && signs < 8
    ensures IsDigits(es)
    decreases k
  {
    if k == 0 then ds
    else
      var shift1, signs1 := DecoderShift(shift, TurnOf(h)), SignsAfter(signs, h);
      var h1 := ds[k - 1];
      Decode(ds[k - 1 := ToMorton(signs1, shift1, h1)], k - 1, h1, shift1, signs1)
  }

  /** A digit above is left alone, and makes no difference. */
  lemma {:induction false} EncodeAbove(ds: seq<Word>, k: nat, h: Word, shift: Word, signs: Word, j: nat, d: Word)
    requires IsDigits(ds) && k <= j < 10 && h < 8 && shift < 3 && signs < 8 && d < 8
    ensures Encode(ds[j := d], k, h, shift, signs) == Encode(ds, k, h, shift, signs)[j := d] && Encode(ds, k, h, shift, signs)[j] == ds[j]
    decreases k
  {
    hide Rotated, TurnOf, EncoderShift, SignsAfter, ToHilbert;
    if k > 0 {
      var shift1, signs1 := EncoderShift(shift, TurnOf(h)), SignsAfter(signs, h);
      var h1 := ToHilbert(signs1, shift1, ds[k - 1]);
      assert ds[j := d][k - 1 := h1] == ds[k - 1 := h1][j := d];
      EncodeAbove(ds[k - 1 := h1], k - 1, h1, shift1, signs1, j, d);
    }
  }

  lemma {:induction false} DecodeAbove(ds: seq<Word>, k: nat, h: Word, shift: Word, signs: Word, j: nat, d: Word)
    requires IsDigits(ds) && k <= j < 10 && h < 8 && shift < 3 && signs < 8 && d < 8
    ensures Decode(ds[j := d], k, h, shift, signs) == Decode(ds, k, h, shift, signs)[j := d] && Decode(ds, k, h, shift, signs)[j] == ds[j]
    decreases k
  {
    hide Rotated, TurnOf, DecoderShift, SignsAfter, ToMorton;
    if k > 0 {
      var shift1, signs1 := DecoderShift(shift, TurnOf(h)), SignsAfter(signs, h);
      var m := ToMorton(signs1, shift1, ds[k - 1]);
      assert ds[j := d][k - 1 := m] == ds[k - 1 := m][j := d];
      DecodeAbove(ds[k - 1 := m], k - 1, ds[k - 1], shift1, signs1, j, d);
    }
  }

  /** Decoding undoes encoding, level by level, while the rotations stay opposite. */
  lemma {:induction false} EncodeInverse(ds: seq<Word>, k: nat, h: Word, shift: Word, shift': Word, signs: Word)
    requires IsDigits(ds) && k <= 10 && h < 8 && Opposite(shift, shift') && signs < 8
    ensures Decode(Encode(ds, k, h, shift, signs), k, h, shift', signs) == ds
    decreases k
  {
    hide Rotated, TurnOf, EncoderShift, DecoderShift, SignsAfter, ToHilbert, ToMorton;
    if k > 0 {
      OppositeStays(shift, shift', TurnOf(h));
      var shift1, shift1', signs1 := EncoderShift(shift, TurnOf(h)), DecoderShift(shift', TurnOf(h)), SignsAfter(signs, h);
      var m := ds[k - 1];
      var h1 := ToHilbert(signs1, shift1, m);
      var x := ds[k - 1 := h1];
      var y := Encode(x, k - 1, h1, shift1, signs1);
      EncodeAbove(x, k - 1, h1, shift1, signs1, k - 1, h1);
      Turned(signs1, shift1, shift1', m);
      EncodeInverse(x, k - 1, h1, shift1, shift1', signs1);
      DecodeAbove(y, k - 1, h1, shift1', signs1, k - 1, m);
      assert x[k - 1 := m] == ds;
    }
  }

  lemma {:induction false} DecodeInverse(ds: seq<Word>, k: nat, h: Word, shift: Word, shift': Word, signs: Word)
    requires IsDigits(ds) && k <= 10 && h < 8 && Opposite(shift, shift') && signs < 8
    ensures Encode(Decode(ds, k, h, shift', signs), k, h, shift, signs) == ds
    decreases k
  {
    hide Rotated, TurnOf, EncoderShift, DecoderShift, SignsAfter, ToHilbert, ToMorton;
    if k > 0 {
      OppositeStays(shift, shift', TurnOf(h));
      var shift1, shift1', signs1 := EncoderShift(shift, TurnOf(h)), DecoderShift(shift', TurnOf(h)), SignsAfter(signs, h);
      var h1 := ds[k - 1];
      var m := ToMorton(signs1, shift1', h1);
      var x := ds[k - 1 := m];
      var y := Decode(x, k - 1, h1, shift1', signs1);
      DecodeAbove(x, k - 1, h1, shift1', signs1, k - 1, m);
      Turned(signs1, shift1, shift1', h1);
      DecodeInverse(x, k - 1, h1, shift1, shift1', signs1);
      EncodeAbove(y, k - 1, h1, shift1, signs1, k - 1, h1);
      assert x[k - 1 := h1] == ds;
    }
  }

  // ---------------------------------------------------------------------
  // The codes

  const MIDDLE: Word := 0x92492492

  /** The Gray step over all digits at once, and its inverse. */
  function Spread(index: Word): Word {
    var x := index ^ ((index >> 1) & MIDDLE);
    x ^ ((x & MIDDLE) >> 1)
  }

  function Gather(index: Word): Word {
    var x := index ^ ((index & MIDDLE) >> 1);
    x ^ ((x >> 1) & MIDDLE)
  }

  lemma SpreadGather(index: Word)
    ensures Gather(Spread(index)) == index && Spread(Gather(index)) == index
  {
  }

  function EncodeDigits(ds: seq<Word>, levels: nat): (es: seq<Word>)
    requires IsDigits(ds) && levels <= 10
    ensures IsDigits(es)
  {
    if levels > 1 then Encode(ds, levels - 1, ds[levels - 1], 0, 0) else ds
  }

  function DecodeDigits(ds: seq<Word>, levels: nat): (es: seq<Word>)
    requires IsDigits(ds) && levels <= 10
    ensures IsDigits(es)
  {
    if levels > 1 then Decode(ds, levels - 1, ds[levels - 1], 0, 0) else ds
  }

  /** The place on the curve of a Morton code, and back; the two bits above the digits stay. */
  function HilbertOf(morton: Word, levels: nat): Word
    requires levels <= 10
  {
    Spread(Assembled(EncodeDigits(DigitsOf(morton), levels), High(morton)))
  }

  function MortonOf(hilbert: Word, levels: nat): Word
    requires levels <= 10
  {
    var x := Gather(hilbert);
    Assembled(DecodeDigits(DigitsOf(x), levels), High(x))
  }

  lemma DigitsInverse(ds: seq<Word>, levels: nat)
    requires IsDigits(ds) && levels <= 10
    ensures DecodeDigits(EncodeDigits(ds, levels), levels) == ds && EncodeDigits(DecodeDigits(ds, levels), levels) == ds
  {
    hide Encode, Decode;
    if levels > 1 {
      var k := levels - 1;
      EncodeInverse(ds, k, ds[k], 0, 0, 0);
      DecodeInverse(ds, k, ds[k], 0, 0, 0);
      EncodeAbove(ds, k, ds[k], 0, 0, k, 0);
      DecodeAbove(ds, k, ds[k], 0, 0, k, 0);
    }
  }

  /** Both codes are inverse to each other on every word, for up to ten levels. */
  lemma CodesInverse(word: Word, levels: nat)
    requires levels <= 10
    ensures MortonOf(HilbertOf(word, levels), levels) == word && HilbertOf(MortonOf(word, levels), levels) == word
  {
    hide Spread, Gather, EncodeDigits, DecodeDigits, DigitsOf, Assembled, High;
    var es := EncodeDigits(DigitsOf(word), levels);
    DigitsInverse(DigitsOf(word), levels);
    JoinParts(es, High(word));
    SpreadGather(Assembled(es, High(word)));
    PartsJoin(word);
    SpreadGather(word);
    var x := Gather(word);
    var ds := DecodeDigits(DigitsOf(x), levels);
    DigitsInverse(DigitsOf(x), levels);
    JoinParts(ds, High(x));
    PartsJoin(x);
  }

  /** The place on the curve of a Morton code. */
  method MortonToHilbert(morton: Word, levels: nat) returns (index: Word)
    requires levels <= 10
    ensures index == HilbertOf(morton, levels)
  {
    hide Digit, High, Assembled, DigitsOf, EncodeDigits;
    index := Wind(morton, levels);
    PartsJoin(index);
    index := index ^ ((index >> 1) & MIDDLE);
    index := index ^ ((index & MIDDLE) >> 1);
  }

  /** The loop over the digits from the top. */
  method Wind(x: Word, levels: nat) returns (index: Word)
    requires levels <= 10
    ensures DigitsOf(index) == EncodeDigits(DigitsOf(x), levels) && High(index) == High(x)
  {
    hide Digit, Xor, Moved, High, Assembled, DigitsOf, Encode, Rotated, TurnOf, EncoderShift, SignsAfter, Exchange, ToHilbert;
    index := x;
    ghost var goal := EncodeDigits(DigitsOf(x), levels);
    if levels > 1 {
      var block: nat := levels - 1;
      DigitsAt(index, block);
      var hcode := Digit(index, block);
      var shift: Word, signs: Word := 0, 0;
      while block > 0
        invariant block < levels && hcode < 8 && shift < 3 && signs < 8 && High(index) == High(x)
        invariant Encode(DigitsOf(index), block, hcode, shift, signs) == goal
      {
        EncodeStep(DigitsOf(index), block, hcode, shift, signs);
        block := block - 1;
        DigitsAt(index, block);
        var turn := TurnOf(hcode);
        shift := EncoderShift(shift, turn);
        signs := SignsAfter(signs, hcode);
        var mcode := Digit(index, block);
        hcode := ToHilbert(signs, shift, mcode);
        DigitsExchange(index, block, hcode);
        index := Exchange(index, block, hcode);
      }
      EncodeNone(DigitsOf(index), hcode, shift, signs);
    }
  }

  lemma DigitsAt(index: Word, k: nat)
    requires k < 10
    ensures DigitsOf(index)[k] == Digit(index, k)
  {
  }

  lemma EncodeStep(ds: seq<Word>, k: nat, h: Word, shift: Word, signs: Word)
    requires IsDigits(ds) && 0 < k <= 10 && h < 8 && shift < 3 && signs < 8
    ensures var shift1, signs1 := EncoderShift(shift, TurnOf(h)), SignsAfter(signs, h);
      var h1 := ToHilbert(signs1, shift1, ds[k - 1]);
      Encode(ds, k, h, shift, signs) == Encode(ds[k - 1 := h1], k - 1, h1, shift1, signs1)
  {
  }

  lemma {:induction false} EncodeNone(ds: seq<Word>, h: Word, shift: Word, signs: Word)
    requires IsDigits(ds) && h < 8 && shift < 3 && signs < 8
    ensures Encode(ds, 0, h, shift, signs) == ds && Decode(ds, 0, h, shift, signs) == ds
  {
  }

  lemma DecodeStep(ds: seq<Word>, k: nat, h: Word, shift: Word, signs: Word)
    requires IsDigits(ds) && 0 < k <= 10 && h < 8 && shift < 3 && signs < 8
    ensures var shift1, signs1 := DecoderShift(shift, TurnOf(h)), SignsAfter(signs, h);
      Decode(ds, k, h, shift, signs) == Decode(ds[k - 1 := ToMorton(signs1, shift1, ds[k - 1])], k - 1, ds[k - 1], shift1, signs1)
  {
  }

  /** The Morton code at a place on the curve. */
  method HilbertToMorton(hilbert: Word, levels: nat) returns (index: Word)
    requires levels <= 10
    ensures index == MortonOf(hilbert, levels)
  {
    hide Digit, High, Assembled, DigitsOf, DecodeDigits;
    index := hilbert;
    index := index ^ ((index & MIDDLE) >> 1);
    index := index ^ ((index >> 1) & MIDDLE);
    index := Unwind(index, levels);
    PartsJoin(index);
  }

  /** The loop over the digits from the top. */
  method Unwind(x: Word, levels: nat) returns (index: Word)
    requires levels <= 10
    ensures DigitsOf(index) == DecodeDigits(DigitsOf(x), levels) && High(index) == High(x)
  {
    hide Digit, Xor, Moved, High, Assembled, DigitsOf, Decode, Rotated, TurnOf, DecoderShift, SignsAfter, Exchange, ToMorton;
    index := x;
    ghost var goal := DecodeDigits(DigitsOf(x), levels);
    if levels > 1 {
      var block: nat := levels - 1;
      DigitsAt(index, block);
      var hcode := Digit(index, block);
      var shift: Word, signs: Word := 0, 0;
      while block > 0
        invariant block < levels && hcode < 8 && shift < 3 && signs < 8 && High(index) == High(x)
        invariant Decode(DigitsOf(index), block, hcode, shift, signs) == goal
      {
        DecodeStep(DigitsOf(index), block, hcode, shift, signs);
        block := block - 1;
        DigitsAt(index, block);
        var turn := TurnOf(hcode);
        shift := DecoderShift(shift, turn);
        signs := SignsAfter(signs, hcode);
        hcode := Digit(index, block);
        var mcode := ToMorton(signs, shift, hcode);
        DigitsExchange(index, block, mcode);
        index := Exchange(index, block, mcode);
      }
      EncodeNone(DigitsOf(index), hcode, shift, signs);
    }
  }
}
