/**
 Permutation validation by interval counting, with a small stack of intervals
 still to split, and its bitmap alternative (core/algo/validate_permutations.hpp).
 Values are unsigned words; `2^bits` is where their arithmetic wraps.
 */
module Permutations {
  import opened Quotients
  import opened Sequences

  /** Unsigned subtraction. */
  function Minus(x: nat, y: nat, bits: nat): (d: nat)
    requires x < Pow2(bits) && y < Pow2(bits)
    ensures d < Pow2(bits)
  {
    if x >= y then x - y else x - y + Pow2(bits)
  }

  /** How many values lie in [lo, hi). */
  function Count(values: seq<nat>, lo: int, hi: int): (c: nat)
    ensures c <= |values|
  {
    if values == [] then 0
    else Count(values[..|values| - 1], lo, hi) + (if lo <= values[|values| - 1] < hi then 1 else 0)
  }

  /** Every value of [base, base + count) occurs exactly once. */
  ghost predicate IsPermutation(values: seq<nat>, base: nat) {
    forall v :: base <= v < base + |values| ==> Once(values, v)
  }

  ghost predicate Once(values: seq<nat>, v: int) {
    Count(values, v, v + 1) == 1
  }

  lemma {:induction false} CountSplit(values: seq<nat>, lo: int, mid: int, hi: int)
    requires lo <= mid <= hi
    ensures Count(values, lo, hi) == Count(values, lo, mid) + Count(values, mid, hi)
  {
    if values != [] { CountSplit(values[..|values| - 1], lo, mid, hi); }
  }

  lemma {:induction false} CountNone(values: seq<nat>, lo: int)
    ensures Count(values, lo, lo) == 0
  {
    if values != [] { CountNone(values[..|values| - 1], lo); }
  }

  ghost predicate Ranged(values: seq<nat>, base: nat, count: nat) {
    forall i :: 0 <= i < |values| ==> base <= values[i] < base + count
  }

  lemma {:induction false} CountAll(values: seq<nat>, base: nat, count: nat)
    requires Ranged(values, base, count)
    ensures Count(values, base, base + count) == |values|
  {
    if values != [] {
      assert forall i :: 0 <= i < |values| - 1 ==> values[..|values| - 1][i] == values[i];
      CountAll(values[..|values| - 1], base, count);
    }
  }

  /** In a permutation every range of values is as full as it is wide. */
  lemma {:induction false} FullRange(values: seq<nat>, base: nat, lo: int, hi: int)
    requires IsPermutation(values, base) && base <= lo <= hi <= base + |values|
    ensures Count(values, lo, hi) == hi - lo
    decreases hi - lo
  {
    if lo == hi {
      CountNone(values, lo);
    } else {
      FullRange(values, base, lo, hi - 1);
      CountSplit(values, lo, hi - 1, hi);
      assert Once(values, hi - 1);
    }
  }

  lemma {:induction false} CountHit(values: seq<nat>, lo: int, hi: int, i: nat)
    requires i < |values| && lo <= values[i] < hi
    ensures Count(values, lo, hi) > 0
  {
    if i < |values| - 1 { CountHit(values[..|values| - 1], lo, hi, i); }
  }

  lemma {:induction false} CountTwice(values: seq<nat>, v: int, i: nat, j: nat)
    requires i < j < |values| && values[i] == values[j] == v
    ensures Count(values, v, v + 1) >= 2
  {
    if j < |values| - 1 { CountTwice(values[..|values| - 1], v, i, j); } else { CountHit(values[..j], v, v + 1, i); }
  }

  lemma {:induction false} CountFound(values: seq<nat>, v: int) returns (i: nat)
    requires Count(values, v, v + 1) > 0
    ensures i < |values| && values[i] == v
  {
    if values[|values| - 1] == v { i := |values| - 1; } else { i := CountFound(values[..|values| - 1], v); }
  }

  /** A permutation is what one expects: all values in range, no two equal. */
  lemma PermutationMeans(values: seq<nat>, base: nat)
    ensures IsPermutation(values, base) <==>
      Ranged(values, base, |values|) && forall i, j :: 0 <= i < j < |values| ==> values[i] != values[j]
  {
    var n := |values|;
    if IsPermutation(values, base) {
      FullRange(values, base, base, base + n);
      forall i | 0 <= i < n ensures base <= values[i] < base + n {
        if values[i] < base { CountSplit(values, values[i], base, base + n); CountHit(values, values[i], base, i); }
        if values[i] >= base + n { CountSplit(values, base, base + n, values[i] + 1); CountHit(values, base + n, values[i] + 1, i); }
      }
      forall i, j | 0 <= i < j < n ensures values[i] != values[j] {
        assert Once(values, values[i]);
        if values[i] == values[j] { CountTwice(values, values[i], i, j); }
      }
    } else if Ranged(values, base, n) && forall i, j :: 0 <= i < j < n ==> values[i] != values[j] {
      CountAll(values, base, n);
      Spread(values, base, base + n);
      forall v | base <= v < base + n ensures Once(values, v) { Exact(values, base, base + n, v); }
    }
  }

  /** Different values: no value occurs twice, so no range holds more than its width. */
  lemma {:induction false} Spread(values: seq<nat>, lo: int, hi: int)
    requires lo <= hi && forall i, j :: 0 <= i < j < |values| ==> values[i] != values[j]
    ensures Count(values, lo, hi) <= hi - lo
    decreases hi - lo
  {
    if lo == hi {
      CountNone(values, lo);
    } else {
      Spread(values, lo, hi - 1);
      CountSplit(values, lo, hi - 1, hi);
      AtMostOnce(values, hi - 1);
    }
  }

  lemma {:induction false} AtMostOnce(values: seq<nat>, v: int)
    requires forall i, j :: 0 <= i < j < |values| ==> values[i] != values[j]
    ensures Count(values, v, v + 1) <= 1
  {
    if values != [] {
      var before := values[..|values| - 1];
      AtMostOnce(before, v);
      if values[|values| - 1] == v && Count(before, v, v + 1) > 0 { var i := CountFound(before, v); }
    }
  }

  /** When the whole is full and no part is overfull, every part is full. */
  lemma {:induction false} Exact(values: seq<nat>, lo: int, hi: int, v: int)
    requires lo <= v < hi && Count(values, lo, hi) == hi - lo
    requires forall i, j :: 0 <= i < j < |values| ==> values[i] != values[j]
    ensures Once(values, v)
  {
    CountSplit(values, lo, v, hi);
    CountSplit(values, v, v + 1, hi);
    Spread(values, lo, v);
    Spread(values, v + 1, hi);
    AtMostOnce(values, v);
  }

  // ---------------------------------------------------------------------
  // The interval checker

  datatype Interval = Interval(lo: nat, hi: nat)

  /** An interval that may wait at depth `j` of the stack: as full as it is wide, and small enough for the room above. */
  ghost predicate Fits(values: seq<nat>, base: nat, range: Interval, j: nat, capacity: nat) {
    && base <= range.lo < range.hi <= base + |values|
    && j <= capacity && range.hi - range.lo <= Pow2(capacity - j)
    && Count(values, range.lo, range.hi) == range.hi - range.lo
  }

  ghost predicate Waiting(values: seq<nat>, base: nat, deferred: seq<Interval>, capacity: nat) {
    |deferred| <= capacity && forall j :: 0 <= j < |deferred| ==> Fits(values, base, deferred[j], j, capacity)
  }

  ghost predicate Among(deferred: seq<Interval>, v: int) {
    exists j :: 0 <= j < |deferred| && deferred[j].lo <= v < deferred[j].hi
  }

  /** Every value is known to occur once, or still waits in an interval, or lies in [lo, hi). */
  ghost predicate Covered(values: seq<nat>, base: nat, deferred: seq<Interval>, lo: int, hi: int) {
    forall v :: base <= v < base + |values| ==> Once(values, v) || Among(deferred, v) || lo <= v < hi
  }

  /** The splits that the waiting intervals still need. */
  ghost function Splits(deferred: seq<Interval>): int {
    if deferred == [] then 0
    else Splits(deferred[..|deferred| - 1]) + deferred[|deferred| - 1].hi - deferred[|deferred| - 1].lo - 1
  }

  lemma {:induction false} SplitsNatural(deferred: seq<Interval>)
    requires forall j :: 0 <= j < |deferred| ==> deferred[j].lo < deferred[j].hi
    ensures Splits(deferred) >= 0
  {
    if deferred != [] { SplitsNatural(deferred[..|deferred| - 1]); }
  }

  lemma {:induction false} Pow2Grows(a: nat, b: nat)
    requires a <= b
    ensures Pow2(a) <= Pow2(b)
    decreases b
  {
    if a < b { Pow2Grows(a, b - 1); }
  }

  /** Everything a step of the interval checker relies on; words of `bits` bits, values checked to lie in range. */
  ghost predicate Checked(values: seq<nat>, base: nat, bits: nat) {
    Ranged(values, base, |values|) && base + |values| < Pow2(bits)
  }

  /**
   Counts the values of [lo, lo + width). The extracted form compares the wrapped difference alone, so that a value
   below `lo` must become large; the raw form compares first.
   */
  method CountLower(values: seq<nat>, lo: nat, width: nat, bits: nat, compares: bool, ghost base: nat) returns (actual: nat)
    requires Checked(values, base, bits) && base <= lo && lo + width <= base + |values|
    ensures actual == Count(values, lo, lo + width)
  {
    actual := 0;
    for i := 0 to |values|
      invariant actual == Count(values[..i], lo, lo + width)
    {
      assert values[..i + 1][..i] == values[..i];
      var x := values[i];
      if (!compares || x >= lo) && Minus(x, lo, bits) < width { actual := actual + 1; }
    }
    assert values[..|values|] == values;
  }

  /** Pushing an upper half keeps the stack in order: there is room, because halves shrink as the stack grows. */
  lemma {:induction false} WaitingPush(values: seq<nat>, base: nat, deferred: seq<Interval>, capacity: nat, range: Interval, room: nat)
    requires Waiting(values, base, deferred, capacity) && 2 <= range.hi - range.lo <= Pow2(room) && |deferred| + room <= capacity
    requires Count(values, range.lo, range.hi) == range.hi - range.lo && base <= range.lo < range.hi <= base + |values|
    ensures room >= 1 && |deferred| < capacity && Waiting(values, base, deferred + [range], capacity)
  {
    hide Count;
    Pow2Grows(room, capacity - |deferred|);
    assert Fits(values, base, range, |deferred|, capacity);
  }

  lemma {:induction false} SplitsPush(deferred: seq<Interval>, range: Interval)
    ensures Splits(deferred + [range]) == Splits(deferred) + range.hi - range.lo - 1
  {
    assert (deferred + [range])[..|deferred|] == deferred;
  }

  /** A lower half that is as full as it is wide leaves such an upper half; what is covered stays covered. */
  lemma {:induction false} Halves(values: seq<nat>, base: nat, deferred: seq<Interval>, lo: nat, mid: nat, hi: nat)
    requires lo <= mid < hi && Covered(values, base, deferred, lo, hi)
    requires Count(values, lo, hi) == hi - lo && Count(values, lo, mid) == mid - lo
    ensures Count(values, mid, hi) == hi - mid
    ensures hi - mid > 1 ==> Covered(values, base, deferred + [Interval(mid, hi)], lo, mid)
    ensures hi - mid == 1 ==> Covered(values, base, deferred, lo, mid)
  {
    CountSplit(values, lo, mid, hi);
    hide Count;
    var more := deferred + [Interval(mid, hi)];
    forall v | base <= v < base + |values| ensures Once(values, v) || Among(more, v) || lo <= v < mid || hi - mid == 1 {
      if Among(deferred, v) {
        var j :| 0 <= j < |deferred| && deferred[j].lo <= v < deferred[j].hi;
        assert more[j].lo <= v < more[j].hi;
      }
      if mid <= v < hi { assert more[|deferred|].lo <= v < more[|deferred|].hi; }
    }
    if hi - mid == 1 { assert Once(values, mid); }
  }

  /** A half that is not as full as it is wide betrays the whole. */
  lemma {:induction false} Uneven(values: seq<nat>, base: nat, lo: nat, mid: nat)
    requires base <= lo <= mid <= base + |values| && Count(values, lo, mid) != mid - lo
    ensures !IsPermutation(values, base)
  {
    if IsPermutation(values, base) { FullRange(values, base, lo, mid); }
  }

  /** Walks down the left side of one interval, leaving the upper halves on the stack, which never overflows. */
  method Descend(values: seq<nat>, range: Interval, bits: nat, compares: bool, deferred: array<Interval>, waiting: nat, ghost base: nat)
    returns (ok: bool, count: nat, ghost splits: nat)
    requires Checked(values, base, bits) && waiting < deferred.Length
    requires Waiting(values, base, deferred[..waiting], deferred.Length) && Fits(values, base, range, waiting, deferred.Length)
    requires Covered(values, base, deferred[..waiting], range.lo, range.hi)
    modifies deferred
    ensures !ok ==> !IsPermutation(values, base)
    ensures ok ==> count <= deferred.Length && Waiting(values, base, deferred[..count], deferred.Length)
    ensures ok ==> Covered(values, base, deferred[..count], 0, 0)
    ensures ok ==> splits + Splits(deferred[..count]) == old(Splits(deferred[..waiting])) + range.hi - range.lo - 1
    ensures ok ==> if range.hi - range.lo > 1 then splits > 0 else splits == 0 && count == waiting
  {
    hide IsPermutation, Ranged, Count, Pow2, Splits, Covered, Waiting;
    count := waiting;
    splits := 0;
    var lo, hi := range.lo, range.hi;
    var width := hi - lo;
    ghost var room: nat := deferred.Length - waiting;
    ghost var owed := Splits(deferred[..waiting]) + width - 1;
    while width > 1
      invariant 0 <= count && base <= lo < hi <= range.hi && width == hi - lo <= Pow2(room) && count + room <= deferred.Length
      invariant Waiting(values, base, deferred[..count], deferred.Length) && Count(values, lo, hi) == width
      invariant Covered(values, base, deferred[..count], lo, hi)
      invariant splits + Splits(deferred[..count]) + width - 1 == owed
      invariant if hi < range.hi then splits > 0 else splits == 0 && count == waiting
      decreases width
    {
      PowRoom(width, room);
      width := width / 2;
      var actual := CountLower(values, lo, width, bits, compares, base);
      splits := splits + 1;
      if actual != width {
        Uneven(values, base, lo, lo + width);
        return false, count, splits;
      }
      var mid := lo + width;
      Halves(values, base, deferred[..count], lo, mid, hi);
      room := room - 1;
      if hi - mid > 1 {
        ghost var before := deferred[..count];
        WaitingPush(values, base, before, deferred.Length, Interval(mid, hi), room);
        SplitsPush(before, Interval(mid, hi));
        deferred[count] := Interval(mid, hi);
        count := count + 1;
        assert deferred[..count] == before + [Interval(mid, hi)];
      }
      hi := mid;
    }
    Settled(values, base, deferred[..count], lo);
    ok := true;
  }

  lemma PowRoom(width: nat, room: nat)
    requires 2 <= width <= Pow2(room)
    ensures room > 0 && width - width / 2 <= Pow2(room - 1)
  {
  }

  /** An interval of one value that is full holds that value once. */
  lemma Settled(values: seq<nat>, base: nat, deferred: seq<Interval>, lo: nat)
    requires Covered(values, base, deferred, lo, lo + 1) && Count(values, lo, lo + 1) == 1
    ensures Covered(values, base, deferred, 0, 0)
  {
    assert Once(values, lo);
  }

  /** Splits intervals until none waits. Every value is read once for each of the |values| - 1 splits. */
  method Traverse(values: seq<nat>, base: nat, bits: nat, compares: bool, capacity: nat) returns (ok: bool, ghost splits: nat)
    requires values != [] && Checked(values, base, bits) && 0 < capacity && |values| <= Pow2(capacity)
    ensures ok <==> IsPermutation(values, base)
    ensures ok ==> splits == |values| - 1
  {
    hide IsPermutation, Ranged, Count, Pow2, Splits, Covered, Waiting, Fits;
    var deferred := new Interval[capacity](_ => Interval(0, 0));
    var count := 1;
    deferred[0] := Interval(base, base + |values|);
    splits := 0;
    Seeded(values, base, bits, capacity);
    assert deferred[..1] == [Interval(base, base + |values|)];
    while count > 0
      invariant 0 <= count <= capacity && Waiting(values, base, deferred[..count], capacity)
      invariant Covered(values, base, deferred[..count], 0, 0)
      invariant splits + Splits(deferred[..count]) == |values| - 1
      decreases Splits(deferred[..count]), count
    {
      count := count - 1;
      var range := deferred[count];
      assert deferred[..count + 1] == deferred[..count] + [range];
      Popped(values, base, deferred[..count], range, capacity);
      ghost var extra;
      ok, count, extra := Descend(values, range, bits, compares, deferred, count, base);
      if !ok { return; }
      splits := splits + extra;
      WaitingSplits(values, base, deferred[..count], capacity);
    }
    assert deferred[..0] == [];
    Finished(values, base);
    ok := true;
  }

  lemma {:induction false} Seeded(values: seq<nat>, base: nat, bits: nat, capacity: nat)
    requires values != [] && Checked(values, base, bits) && 0 < capacity && |values| <= Pow2(capacity)
    ensures Waiting(values, base, [Interval(base, base + |values|)], capacity)
    ensures Covered(values, base, [Interval(base, base + |values|)], 0, 0)
    ensures Splits([Interval(base, base + |values|)]) == |values| - 1
  {
    var seed := [Interval(base, base + |values|)];
    CountAll(values, base, |values|);
    SplitsPush([], seed[0]);
    assert [] + seed == seed;
    hide Count;
    assert Fits(values, base, seed[0], 0, capacity);
    forall v | base <= v < base + |values| ensures Among(seed, v) { assert seed[0].lo <= v < seed[0].hi; }
  }

  lemma {:induction false} Popped(values: seq<nat>, base: nat, rest: seq<Interval>, range: Interval, capacity: nat)
    requires Waiting(values, base, rest + [range], capacity) && Covered(values, base, rest + [range], 0, 0)
    ensures Waiting(values, base, rest, capacity) && Fits(values, base, range, |rest|, capacity) && |rest| < capacity
    ensures Covered(values, base, rest, range.lo, range.hi)
    ensures range.lo < range.hi && Splits(rest + [range]) == Splits(rest) + range.hi - range.lo - 1
    ensures Splits(rest + [range]) >= 0
  {
    hide Count, Once, Pow2;
    var all := rest + [range];
    SplitsPush(rest, range);
    assert forall j :: 0 <= j < |rest| ==> rest[j] == all[j];
    assert Fits(values, base, all[|rest|], |rest|, capacity);
    SplitsNatural(all);
    forall v | base <= v < base + |values| && Among(all, v) ensures Among(rest, v) || range.lo <= v < range.hi {
      var j :| 0 <= j < |all| && all[j].lo <= v < all[j].hi;
      if j < |rest| { assert rest[j].lo <= v < rest[j].hi; }
    }
  }

  lemma {:induction false} WaitingSplits(values: seq<nat>, base: nat, deferred: seq<Interval>, capacity: nat)
    requires Waiting(values, base, deferred, capacity)
    ensures Splits(deferred) >= 0
  {
    SplitsNatural(deferred);
  }

  lemma Finished(values: seq<nat>, base: nat)
    requires Covered(values, base, [], 0, 0)
    ensures IsPermutation(values, base) && Splits([]) == 0
  {
    hide Count, Once;
    forall v ensures !Among([], v) {}
  }

  /** The range check that comes first: exactly the values of [base, base + count) pass. */
  method CheckRange(values: seq<nat>, base: nat, bits: nat, compares: bool) returns (ok: bool)
    requires base + |values| < Pow2(bits) && forall i :: 0 <= i < |values| ==> values[i] < Pow2(bits)
    ensures ok <==> Ranged(values, base, |values|)
  {
    for i := 0 to |values|
      invariant forall k :: 0 <= k < i ==> base <= values[k] < base + |values|
    {
      var x := values[i];
      if (compares && x < base) || Minus(x, base, bits) >= |values| { return false; }
    }
    return true;
  }

  lemma Strays(values: seq<nat>, base: nat)
    requires IsPermutation(values, base)
    ensures Ranged(values, base, |values|)
  {
    PermutationMeans(values, base);
  }

  lemma Square(n: nat, splits: nat, cost: nat)
    requires cost == n + n * splits && (n == 0 || splits == n - 1)
    ensures cost == n * n
  {
  }

  /** Decides whether values extracted as words of `bits` bits are a permutation; a valid input costs exactly N * N reads. */
  method ValidateExtracted(values: seq<nat>, base: nat, bits: nat) returns (ok: bool, ghost cost: nat)
    requires |values| < Pow2(bits) && base < Pow2(bits) && forall i :: 0 <= i < |values| ==> values[i] < Pow2(bits)
    ensures ok <==> values == [] || (base + |values| < Pow2(bits) && IsPermutation(values, base))
    ensures ok ==> cost == |values| * |values|
  {
    hide IsPermutation;
    cost := 0;
    if |values| == 0 { return true, 0; }
    if base > Pow2(bits) - 1 - |values| { return false, 0; }
    ok := CheckRange(values, base, bits, false);
    if !ok {
      if IsPermutation(values, base) { Strays(values, base); }
      return;
    }
    ghost var splits;
    ok, splits := Traverse(values, base, bits, false, bits);
    cost := |values| + |values| * splits;
    if ok { Square(|values|, splits, cost); }
  }

  /** The values fit the internal word and the offset width, and the end of the range does not wrap. */
  predicate RawRangeValid(count: nat, base: nat, internalBits: nat, valueBits: nat) {
    count == 0 || (count - 1 <= Pow2(valueBits) - 1 && base <= Pow2(internalBits) - 1 - count)
  }

  lemma SmallMod(x: nat, p: nat)
    requires x < p
    ensures x % p == x
  {
  }

  /** Refuses values too wide for the internal word before casting them to it. */
  method Narrow(values: seq<nat>, elementBits: nat, internalBits: nat) returns (ok: bool, narrow: seq<nat>)
    requires forall i :: 0 <= i < |values| ==> values[i] < Pow2(elementBits)
    ensures ok <==> forall i :: 0 <= i < |values| ==> values[i] < Pow2(internalBits)
    ensures ok ==> narrow == values
  {
    hide Pow2;
    narrow := [];
    for i := 0 to |values|
      invariant narrow == values[..i] && forall k :: 0 <= k < i ==> values[k] < Pow2(internalBits)
    {
      if elementBits > internalBits {
        if values[i] > Pow2(internalBits) - 1 { return false, narrow; }
      } else {
        Pow2Grows(elementBits, internalBits);
      }
      SmallMod(values[i], Pow2(internalBits));
      narrow := narrow + [values[i] % Pow2(internalBits)];
    }
    ok := true;
  }

  /**
   The raw form: wide elements, a narrower internal word, and a stack of `valueBits` entries only. It accepts exactly
   the permutations that its offset width can hold.
   */
  method ValidateRaw(values: seq<nat>, base: nat, elementBits: nat, internalBits: nat, valueBits: nat) returns (ok: bool, ghost cost: nat)
    requires 0 < valueBits <= elementBits && valueBits <= internalBits
    requires |values| < Pow2(internalBits) && base < Pow2(internalBits) && forall i :: 0 <= i < |values| ==> values[i] < Pow2(elementBits)
    ensures ok <==> RawRangeValid(|values|, base, internalBits, valueBits) && (values == [] || IsPermutation(values, base))
    ensures ok ==> cost == |values| * |values|
  {
    hide IsPermutation;
    cost := 0;
    if |values| == 0 { return true, 0; }
    if !RawRangeValid(|values|, base, internalBits, valueBits) { return false, 0; }
    var narrow: seq<nat>;
    ok, narrow := Narrow(values, elementBits, internalBits);
    if ok { ok := CheckRange(narrow, base, internalBits, true); }
    if !ok {
      if IsPermutation(values, base) { Strays(values, base); }
      return;
    }
    ghost var splits;
    ok, splits := Traverse(narrow, base, internalBits, true, valueBits);
    cost := |values| + |values| * splits;
    if ok { Square(|values|, splits, cost); }
  }

  // ---------------------------------------------------------------------
  // The bitmap checker

  function Mask(k: nat): bv8
    requires k < 8
  {
    1 << k
  }

  lemma MaskIs(k: nat)
    requires k < 8
    ensures Mask(k) == [1, 2, 4, 8, 16, 32, 64, 128][k]
  {
  }

  /** Setting one bit of a byte sets no other. */
  lemma MarkByte(byte: bv8, b: nat, c: nat)
    requires b < 8 && c < 8
    ensures (byte | Mask(b)) & Mask(c) != 0 <==> b == c || byte & Mask(c) != 0
  {
    MaskIs(b);
    MaskIs(c);
    hide Mask;
    if b == c { SelfBit(byte, Mask(b)); } else { OtherBit(byte, Mask(b), Mask(c)); }
  }

  lemma SelfBit(byte: bv8, m: bv8)
    requires m != 0
    ensures (byte | m) & m != 0
  {
  }

  lemma OtherBit(byte: bv8, m: bv8, n: bv8)
    requires m & n == 0
    ensures (byte | m) & n == byte & n
  {
  }

  /** Bit `offset` of a bitmap of bytes. */
  predicate Marked(scratch: seq<bv8>, offset: nat)
    requires offset < 8 * |scratch|
  {
    scratch[offset / 8] & Mask(offset % 8) != 0
  }

  ghost predicate Seen(values: seq<nat>, offset: int) {
    exists k :: 0 <= k < |values| && values[k] == offset
  }

  /** The bitmap holds exactly the offsets of the values read. */
  ghost predicate Maps(scratch: seq<bv8>, values: seq<nat>, base: nat, count: nat) {
    count <= 8 * |scratch| && forall o :: 0 <= o < count ==> (Marked(scratch, o) <==> Seen(values, base + o))
  }

  function Set(scratch: seq<bv8>, o: nat): seq<bv8>
    requires o < 8 * |scratch|
  {
    scratch[o / 8 := scratch[o / 8] | Mask(o % 8)]
  }

  lemma MarkedSet(scratch: seq<bv8>, o: nat, p: nat)
    requires o < 8 * |scratch| && p < 8 * |scratch|
    ensures Marked(Set(scratch, o), p) <==> p == o || Marked(scratch, p)
  {
    hide Mask;
    if o / 8 == p / 8 { MarkByte(scratch[o / 8], o % 8, p % 8); }
  }

  lemma SeenNext(values: seq<nat>, x: nat, v: int)
    ensures Seen(values + [x], v) <==> v == x || Seen(values, v)
  {
    var more := values + [x];
    assert more[|values|] == x;
    forall k | 0 <= k < |values| ensures more[k] == values[k] {}
    if Seen(values, v) {
      var k :| 0 <= k < |values| && values[k] == v;
      assert more[k] == v;
    }
  }

  lemma MapsNext(scratch: seq<bv8>, values: seq<nat>, base: nat, count: nat, x: nat)
    requires Maps(scratch, values, base, count) && base <= x < base + count
    ensures Maps(Set(scratch, x - base), values + [x], base, count)
  {
    hide Marked, Seen;
    var next := Set(scratch, x - base);
    forall p | 0 <= p < count ensures Marked(next, p) <==> Seen(values + [x], base + p) {
      MarkedSet(scratch, x - base, p);
      SeenNext(values, x, base + p);
      assert Marked(scratch, p) <==> Seen(values, base + p);
    }
  }

  lemma MapsNone(scratch: seq<bv8>, base: nat, count: nat)
    requires count <= 8 * |scratch| && forall b :: 0 <= b < (count + 7) / 8 ==> scratch[b] == 0
    ensures Maps(scratch, [], base, count)
  {
    hide Mask;
    forall o | 0 <= o < count ensures !Marked(scratch, o) && !Seen([], base + o) { NoBits(Mask(o % 8)); }
  }

  lemma NoBits(m: bv8)
    ensures 0 & m == 0
  {
  }

  lemma Repeated(values: seq<nat>, base: nat, i: nat)
    requires i < |values| && Seen(values[..i], values[i])
    ensures !IsPermutation(values, base)
  {
    PermutationMeans(values, base);
    var k :| 0 <= k < i && values[..i][k] == values[i];
    assert values[k] == values[i];
  }

  lemma AllDistinct(values: seq<nat>, base: nat)
    requires Ranged(values, base, |values|) && Distinct(values)
    ensures IsPermutation(values, base)
  {
    PermutationMeans(values, base);
  }

  lemma DistinctNext(values: seq<nat>, x: nat)
    requires Distinct(values) && !Seen(values, x)
    ensures Distinct(values + [x])
  {
    var next := values + [x];
    forall i, j | 0 <= i < j < |next| ensures next[i] != next[j] {
      assert values[i] != x;
      if j < |values| { assert values[i] != values[j]; }
    }
  }

  /** One pass over a cleared bitmap; refuses at the first value out of range or already marked. */
  method MarkAll(values: seq<nat>, base: nat, bits: nat, scratch: array<bv8>, required: nat) returns (ok: bool)
    requires base + |values| < Pow2(bits) && forall i :: 0 <= i < |values| ==> values[i] < Pow2(bits)
    requires required == (|values| + 7) / 8 <= scratch.Length
    modifies scratch
    ensures ok <==> IsPermutation(values, base)
    ensures scratch[required..] == old(scratch[required..])
  {
    hide IsPermutation, Mask, Marked, Maps, Seen, Pow2;
    for i := 0 to required
      invariant forall b :: 0 <= b < i ==> scratch[b] == 0
      invariant scratch[required..] == old(scratch[required..])
    {
      scratch[i] := 0;
    }
    MapsNone(scratch[..], base, |values|);
    for i := 0 to |values|
      invariant Maps(scratch[..], values[..i], base, |values|) && Distinct(values[..i])
      invariant forall k :: 0 <= k < i ==> base <= values[k] < base + |values|
      invariant scratch[required..] == old(scratch[required..])
    {
      var offset := Minus(values[i], base, bits);
      if offset >= |values| {
        if IsPermutation(values, base) { Strays(values, base); }
        return false;
      }
      MapsAt(scratch[..], values[..i], base, |values|, offset);
      if scratch[offset / 8] & Mask(offset % 8) != 0 {
        Repeated(values, base, i);
        return false;
      }
      MapsNext(scratch[..], values[..i], base, |values|, values[i]);
      DistinctNext(values[..i], values[i]);
      assert values[..i + 1] == values[..i] + [values[i]];
      scratch[offset / 8] := scratch[offset / 8] | Mask(offset % 8);
    }
    assert values[..|values|] == values;
    AllDistinct(values, base);
    ok := true;
  }

  lemma MapsAt(scratch: seq<bv8>, values: seq<nat>, base: nat, count: nat, o: nat)
    requires Maps(scratch, values, base, count) && o < count
    ensures o / 8 < |scratch| && (scratch[o / 8] & Mask(o % 8) != 0 <==> Seen(values, base + o))
  {
    assert Marked(scratch, o) <==> Seen(values, base + o);
  }

  /** The bitmap checker gives the interval checker's answer, and falls back to it when its scratch is missing or too small. */
  method ValidateBitmap(values: seq<nat>, base: nat, bits: nat, scratch: array?<bv8>) returns (ok: bool, ghost cost: nat)
    requires |values| < Pow2(bits) && base < Pow2(bits) && forall i :: 0 <= i < |values| ==> values[i] < Pow2(bits)
    modifies scratch
    ensures ok <==> values == [] || (base + |values| < Pow2(bits) && IsPermutation(values, base))
    ensures scratch != null && 8 * scratch.Length < |values| ==> scratch[..] == old(scratch[..])
    ensures scratch != null ==> forall b :: |values| <= 8 * b && b < scratch.Length ==> scratch[b] == old(scratch[b])
    ensures ok ==> cost == if scratch != null && |values| <= 8 * scratch.Length then |values| else |values| * |values|
  {
    cost := 0;
    if |values| == 0 { return true, 0; }
    if base > Pow2(bits) - 1 - |values| { return false, 0; }
    var required := |values| / 8 + (if |values| % 8 != 0 then 1 else 0);
    if scratch == null || scratch.Length < required {
      ok, cost := ValidateExtracted(values, base, bits);
      return;
    }
    ok := MarkAll(values, base, bits, scratch, required);
    cost := |values|;
    forall b | required <= b < scratch.Length ensures scratch[b] == old(scratch[b]) {
      assert scratch[b] == scratch[required..][b - required];
      assert old(scratch[b]) == old(scratch[required..][b - required]);
    }
  }

  /** Up to 8192 values use a bitmap of 1024 bytes on the stack, so they cost one read each. */
  method ValidateStackBitmap(values: seq<nat>, base: nat, bits: nat) returns (ok: bool, ghost cost: nat)
    requires |values| < Pow2(bits) && base < Pow2(bits) && forall i :: 0 <= i < |values| ==> values[i] < Pow2(bits)
    ensures ok <==> values == [] || (base + |values| < Pow2(bits) && IsPermutation(values, base))
    ensures ok ==> cost == if |values| <= 8192 then |values| else |values| * |values|
  {
    if |values| > 8192 {
      ok, cost := ValidateExtracted(values, base, bits);
      return;
    }
    var scratch := new bv8[1024];
    ok, cost := ValidateBitmap(values, base, bits, scratch);
  }
}
