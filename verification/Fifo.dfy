/**
 The ring buffer of containers/TPodFifo.hpp: a queue in one block of storage,
 packed in place without spare room. A block and its capacity come and go
 together, so storage is an array whose length is the capacity.
 */
module Fifo {
  import opened Cycles
  import Requests

  /** Copies `n` elements between places that do not overlap (memcpy). */
  method CopyRange<T>(dst: array<T>, to: nat, src: array<T>, from: nat, n: nat)
    requires to + n <= dst.Length && from + n <= src.Length
    requires dst == src && n > 0 ==> to + n <= from || from + n <= to
    modifies dst
    ensures forall i :: to <= i < to + n ==> dst[i] == old(src[i - to + from])
    ensures forall i :: 0 <= i < dst.Length && !(to <= i < to + n) ==> dst[i] == old(dst[i])
  {
    for k := 0 to n
      invariant forall i :: to <= i < to + k ==> dst[i] == old(src[i - to + from])
      invariant forall i :: 0 <= i < dst.Length && !(to <= i < to + k) ==> dst[i] == old(dst[i])
    {
      dst[to + k] := src[from + k];
    }
  }

  /** Copies `n` elements within a block, overlapping or not (memmove). */
  method MoveRange<T>(a: array<T>, to: nat, from: nat, n: nat)
    requires to + n <= a.Length && from + n <= a.Length
    modifies a
    ensures forall i :: to <= i < to + n ==> a[i] == old(a[i - to + from])
    ensures forall i :: 0 <= i < a.Length && !(to <= i < to + n) ==> a[i] == old(a[i])
  {
    if to <= from {
      for k := 0 to n
        invariant forall i :: to <= i < to + k ==> a[i] == old(a[i - to + from])
        invariant forall i :: 0 <= i < a.Length && !(to <= i < to + k) ==> a[i] == old(a[i])
      {
        a[to + k] := a[from + k];
      }
    } else {
      for k := n downto 0
        invariant forall i :: to + k <= i < to + n ==> a[i] == old(a[i - to + from])
        invariant forall i :: 0 <= i < a.Length && !(to + k <= i < to + n) ==> a[i] == old(a[i])
      {
        a[to + k] := a[from + k];
      }
    }
  }

  /** Carries one element along a closed path of steps: each place takes what lay one step ahead. */
  method RotateCycle<T(!new)>(a: array<T>, r: nat, start: nat, ghost g: nat, ghost x: int, ghost y: int)
    requires 0 < r < a.Length && start < g && g > 0 && Divides(g, a.Length) && Divides(g, r) && g == x * a.Length + y * r && start < a.Length
    modifies a
    ensures forall i :: 0 <= i < a.Length ==> a[i] == if i % g == start then old(a[Step(a.Length, r, i)]) else old(a[i])
  {
    hide Divides, Path, Step, Shifted;
    var n := a.Length;
    ghost var before := a[..];
    var temporary := a[start];
    var current: nat := start;
    ghost var path: seq<nat> := [start];
    PathStarts(before, r, start);
    while true
      invariant a.Length == |before| == n && Path(n, r, start, path) && path != [] && current == path[|path| - 1] < n
      invariant forall k :: 0 <= k < |path| ==> path[k] < n
      invariant Shifted(before, a[..], r, path)
      decreases n - |path|
    {
      StepIs(n, r, current);
      var next := current + r;
      if next >= n { next := next - n; }
      if next == start { break; }
      PathGrows(n, r, start, path);
      PathFits(n, r, start, path + [next]);
      ghost var now := a[..];
      ShiftStep(before, now, r, start, path);
      a[current] := a[next];
      assert a[..] == now[current := now[next]];
      current := next;
      path := path + [next];
    }
    ghost var now := a[..];
    a[current] := temporary;
    assert a[..] == now[current := before[start]];
    ShiftEnds(before, now, r, start, path, g, x, y);
    forall i | 0 <= i < n ensures a[i] == if i % g == start then before[Step(n, r, i)] else before[i] { assert a[i] == a[..][i]; }
  }

  /** Every place of the path but the last holds what lay one step ahead; the rest is as it was. */
  ghost predicate Shifted<T(!new)>(before: seq<T>, now: seq<T>, r: nat, path: seq<nat>)
    requires 0 < r < |before| && path != [] && forall k :: 0 <= k < |path| ==> path[k] < |before|
  {
    && |now| == |before|
    && (forall k :: 0 <= k < |path| - 1 ==> now[path[k]] == before[Step(|before|, r, path[k])])
    && (forall i :: 0 <= i < |before| && (i !in path || i == path[|path| - 1]) ==> now[i] == before[i])
  }

  lemma PathStarts<T(!new)>(before: seq<T>, r: nat, start: nat)
    requires 0 < r < |before| && start < |before|
    ensures Path(|before|, r, start, [start]) && Shifted(before, before, r, [start])
  {
  }

  lemma StepIs(n: nat, r: nat, i: nat)
    requires 0 < r < n && i < n
    ensures Step(n, r, i) == if i + r >= n then i + r - n else i + r
  {
  }

  lemma ShiftStep<T(!new)>(before: seq<T>, now: seq<T>, r: nat, start: nat, path: seq<nat>)
    requires 0 < r < |before| && Path(|before|, r, start, path) && Shifted(before, now, r, path)
    requires var last := path[|path| - 1]; Path(|before|, r, start, path + [Step(|before|, r, last)])
    ensures var last := path[|path| - 1]; var next := Step(|before|, r, last); Shifted(before, now[last := now[next]], r, path + [next])
  {
    var last := path[|path| - 1];
    var next := Step(|before|, r, last);
    var path' := path + [next];
    forall k | 0 <= k < |path| ensures path[k] != next { assert path'[k] != path'[|path|]; }
    assert next !in path;
    forall k | 0 <= k < |path| - 1 ensures path[k] != last {}
  }

  lemma ShiftEnds<T(!new)>(before: seq<T>, now: seq<T>, r: nat, start: nat, path: seq<nat>, g: nat, x: int, y: int)
    requires 0 < r < |before| && Path(|before|, r, start, path) && Shifted(before, now, r, path)
    requires Step(|before|, r, path[|path| - 1]) == start
    requires start < g && Divides(g, |before|) && Divides(g, r) && g == x * |before| + y * r
    ensures var after := now[path[|path| - 1] := before[start]];
      forall i :: 0 <= i < |before| ==> after[i] == if i % g == start then before[Step(|before|, r, i)] else before[i]
  {
    var last := path[|path| - 1];
    SmallRemainder(g, start);
    var after := now[last := before[start]];
    forall i | 0 <= i < |before| ensures after[i] == if i % g == start then before[Step(|before|, r, i)] else before[i] {
      if i % g == start {
        FullCycle(|before|, r, g, x, y, start, path, i);
        var k :| 0 <= k < |path| && path[k] == i;
      } else if i in path {
        var k :| 0 <= k < |path| && path[k] == i;
        PathClass(|before|, r, g, start, path, k);
      }
    }
  }

  lemma PathFits(n: nat, r: nat, c: nat, path: seq<nat>)
    requires 0 < r < n && Path(n, r, c, path)
    ensures |path| <= n
  {
    AllBelow(path, n);
  }

  lemma {:induction false} AllBelow(path: seq<nat>, n: nat)
    requires (forall k :: 0 <= k < |path| ==> path[k] < n) && forall j, k :: 0 <= j < k < |path| ==> path[j] != path[k]
    ensures |path| <= n
  {
    var s := Elements(path);
    forall x | x in s ensures x in Below(n) { var k :| 0 <= k < |path| && path[k] == x; }
    SubsetSmaller(s, Below(n));
  }

  ghost function Elements(path: seq<nat>): (s: set<nat>)
    requires forall j, k :: 0 <= j < k < |path| ==> path[j] != path[k]
    ensures |s| == |path| && forall x :: x in s <==> x in path
  {
    if path == [] then {} else
    assert path == path[..|path| - 1] + [path[|path| - 1]];
    Elements(path[..|path| - 1]) + {path[|path| - 1]}
  }

  /** Rotates a whole block so that place `i` takes what lay `r` places ahead, cycle by cycle. */
  method Rotate<T(!new)>(a: array<T>, r: nat)
    requires 0 < r < a.Length
    modifies a
    ensures forall i :: 0 <= i < a.Length ==> a[i] == old(a[Step(a.Length, r, i)])
  {
    var n := a.Length;
    var g, x, y := HighestCommonFactor(n, r);
    FactorSmall(g, r);
    hide Divides;
    for cycle := 0 to g
      invariant forall i :: 0 <= i < n ==> a[i] == if i % g < cycle then old(a[Step(n, r, i)]) else old(a[i])
    {
      ghost var before := a[..];
      RotateCycle(a, r, cycle, g, x, y);
      forall i | 0 <= i < n ensures a[i] == if i % g < cycle + 1 then old(a[Step(n, r, i)]) else old(a[i]) {
        if i % g == cycle { SameClass(n, r, g, i); }
      }
    }
  }

  /** Copies a stretch to the start of another array, or of the same where the two do not meet. */
  method CopyStretch<T>(dst: array<T>, src: array<T>, r: nat, size: nat)
    requires r + size <= src.Length && size <= dst.Length && (dst != src || size <= r)
    modifies dst
    ensures dst[..size] == old(src[r..r + size]) && dst[size..] == old(dst[size..])
  {
    CopyRange(dst, 0, src, r, size);
  }

  /** Moves a stretch to the start of its array. */
  method SlideStretch<T>(a: array<T>, r: nat, size: nat)
    requires r + size <= a.Length
    modifies a
    ensures a[..size] == old(a[r..r + size])
  {
    MoveRange(a, 0, r, size);
  }

  /** The element that a ring of `n` places shows at `i` when it is read from `r` on. */
  function Wrapped(n: nat, r: nat, i: nat): (k: int) {
    if i < n - r then r + i else i - (n - r)
  }

  /** Copies the two stretches of a wrapped queue to another array. */
  method CopyWrapped<T>(dst: array<T>, src: array<T>, r: nat, size: nat)
    requires dst != src && r < src.Length && src.Length - r < size <= src.Length && size <= dst.Length
    modifies dst
    ensures forall i :: 0 <= i < size ==> 0 <= Wrapped(src.Length, r, i) < src.Length && dst[i] == old(src[Wrapped(src.Length, r, i)])
    ensures forall i :: size <= i < dst.Length ==> dst[i] == old(dst[i])
  {
    var tail := src.Length - r;
    CopyRange(dst, tail, src, 0, size - tail);
    CopyRange(dst, 0, src, r, tail);
  }

  /** Moves the two stretches of a wrapped queue within its array, where they do not meet. */
  method SlideWrapped<T>(a: array<T>, r: nat, size: nat)
    requires r < a.Length && a.Length - r < size <= r
    modifies a
    ensures forall i :: 0 <= i < size ==> 0 <= Wrapped(a.Length, r, i) < a.Length && a[i] == old(a[Wrapped(a.Length, r, i)])
  {
    var tail := a.Length - r;
    MoveRange(a, tail, 0, size - tail);
    MoveRange(a, 0, r, tail);
  }

  /** A rotation brings the elements from `r` on to the front. */
  method RotateFront<T(!new)>(a: array<T>, r: nat)
    requires 0 < r < a.Length
    modifies a
    ensures forall i :: 0 <= i < a.Length ==> 0 <= Wrapped(a.Length, r, i) < a.Length && a[i] == old(a[Wrapped(a.Length, r, i)])
  {
    Rotate(a, r);
  }

  lemma FactorSmall(g: nat, r: nat)
    requires g > 0 && r > 0 && Divides(g, r)
    ensures g <= r
  {
    var k :| DividesBy(g, k, r);
    if k <= 0 { MulMonotone(g, k, 0); }
    MulAtLeast(g, k);
  }

  /** A step keeps the remainder. */
  lemma SameClass(n: nat, r: nat, g: nat, i: nat)
    requires 0 < r < n && i < n && g > 0 && Divides(g, n) && Divides(g, r)
    ensures Step(n, r, i) % g == i % g
  {
    var a :| DividesBy(g, a, n);
    var b :| DividesBy(g, b, r);
    SameRemainder(g, i, b - a);
    SameRemainder(g, i, b);
    assert g * (b - a) == g * b - g * a;
  }

  /** The place of queue element `i` in a ring of `n` read from `r`. */
  function Index(n: nat, r: nat, i: nat): (j: nat)
    requires r < n && i <= n
    ensures j < n
  {
    if r + i >= n then r + i - n else r + i
  }

  /** The queue that a ring holds. */
  function Queue<T>(ring: seq<T>, r: nat, size: nat): (q: seq<T>)
    requires size <= |ring| && (size > 0 ==> r < |ring|)
    ensures |q| == size
  {
    seq(size, i requires 0 <= i < size => ring[Index(|ring|, r, i)])
  }

  /** A queue that does not wrap is one stretch of the ring; one that wraps is two. */
  lemma QueueParts<T>(ring: seq<T>, r: nat, size: nat)
    requires size <= |ring| && r < |ring|
    ensures Queue(ring, r, size) == if size <= |ring| - r then ring[r..r + size] else ring[r..] + ring[..r + size - |ring|]
  {
  }

  /** Taking elements from the front moves the place to read from. */
  lemma QueueDrop<T>(ring: seq<T>, r: nat, size: nat, count: nat)
    requires count <= size <= |ring| && r < |ring|
    ensures var next := if count < |ring| - r then r + count else count - (|ring| - r);
      next < |ring| && Queue(ring, next, size - count) == Queue(ring, r, size)[count..]
    ensures Queue(ring, r, size)[..count] == Queue(ring, r, count)
    ensures count == size ==> Queue(ring, 0, 0) == Queue(ring, r, size)[count..]
  {
  }

  class PodFifo<T(0, !new)> {
    const maxElements: nat
    /** Whether memory is there whenever it is asked for. */
    const granted: bool

    /** The block, whose length is the capacity; none when the length is zero. */
    var buffer: array<T>
    var size: nat
    var readIndex: nat

    ghost predicate Valid()
      reads this
    {
      && buffer.Length <= maxElements && size <= buffer.Length
      && (if buffer.Length == 0 then readIndex == 0 else readIndex < buffer.Length && (size == 0 ==> readIndex == 0))
    }

    ghost function Contents(): (q: seq<T>)
      reads this, buffer
      requires Valid()
    {
      Queue(buffer[..], readIndex, size)
    }

    constructor (maxElements: nat, granted: bool)
      ensures this.granted == granted
      ensures Valid() && Contents() == [] && fresh(buffer) && this.maxElements == maxElements
    {
      this.maxElements, this.granted := maxElements, granted;
      buffer := new T[0];
      size, readIndex := 0, 0;
    }

    /** Adds elements at the back; the ring must have room and the source must lie outside it. */
    method PushBack(src: array<T>, count: nat) returns (ok: bool)
      requires Valid() && count <= src.Length
      modifies this`size, buffer
      ensures Valid() && ok == (count == 0 || (src != buffer && count <= buffer.Length - old(size)))
      ensures Contents() == if ok then old(Contents()) + old(src[..count]) else old(Contents())
    {
      if count == 0 {
        assert src[..0] == [];
        return true;
      }
      if buffer.Length == 0 || src == buffer || count > buffer.Length - size { return false; }
      var check := readIndex + size;
      var writeIndex := if check >= buffer.Length then check - buffer.Length else check;
      var tail := buffer.Length - writeIndex;
      if count <= tail {
        CopyRange(buffer, writeIndex, src, 0, count);
      } else {
        CopyRange(buffer, writeIndex, src, 0, tail);
        CopyRange(buffer, 0, src, tail, count - tail);
      }
      size := size + count;
      return true;
    }

    /** Copies elements from the front: one stretch of the ring or two. */
    method CopyFront(dst: array<T>, count: nat)
      requires Valid() && 0 < count <= size && count <= dst.Length && dst != buffer
      modifies dst
      ensures dst[..count] == Queue(buffer[..], readIndex, count) && dst[count..] == old(dst[count..])
    {
      hide Queue;
      QueueParts(buffer[..], readIndex, count);
      var tail := buffer.Length - readIndex;
      if count <= tail {
        CopyRange(dst, 0, buffer, readIndex, count);
        assert dst[..count] == buffer[readIndex..readIndex + count];
      } else {
        CopyRange(dst, 0, buffer, readIndex, tail);
        CopyRange(dst, tail, buffer, 0, count - tail);
        assert dst[..count] == buffer[readIndex..] + buffer[..count - tail];
      }
    }

    /** Takes elements from the front into a block outside the ring. */
    method PopFront(dst: array<T>, count: nat) returns (ok: bool)
      requires Valid() && count <= dst.Length
      modifies this`size, this`readIndex, dst
      ensures Valid() && ok == (count == 0 || (dst != buffer && count <= old(size)))
      ensures ok && count > 0 ==> dst[..count] == old(Contents())[..count] && dst[count..] == old(dst[count..])
      ensures Contents() == if ok then old(Contents())[count..] else old(Contents())
    {
      hide Queue;
      if count == 0 { return true; }
      if buffer.Length == 0 || dst == buffer || count > size { return false; }
      QueueDrop(buffer[..], readIndex, size, count);
      CopyFront(dst, count);
      var tail := buffer.Length - readIndex;
      readIndex := if count < tail then readIndex + count else count - tail;
      size := size - count;
      if size == 0 { readIndex := 0; }
      return true;
    }

    method DiscardFront(count: nat) returns (ok: bool)
      requires Valid()
      modifies this`size, this`readIndex
      ensures Valid() && ok == (count <= old(size))
      ensures Contents() == if ok then old(Contents())[count..] else old(Contents())
    {
      if count == 0 { return true; }
      if buffer.Length == 0 || count > size { return false; }
      readIndex := readIndex + count;
      if readIndex >= buffer.Length { readIndex := readIndex - buffer.Length; }
      size := size - count;
      if size == 0 { readIndex := 0; }
      return true;
    }

    /** Puts the queue at the front of `dst`, which is the ring itself or another block. */
    method PackInto(dst: array<T>)
      requires Valid() && size <= dst.Length
      modifies this`readIndex, dst
      ensures readIndex == 0 && dst[..size] == old(Contents())
      ensures dst != buffer ==> dst[size..] == old(dst[size..])
    {
      if size != 0 {
        var tail := buffer.Length - readIndex;
        if size <= tail { PackStraight(dst); } else { PackWrapped(dst, tail); }
      }
      readIndex := 0;
    }

    /** The queue is one stretch of the ring. */
    method PackStraight(dst: array<T>)
      requires Valid() && 0 < size <= dst.Length && size <= buffer.Length - readIndex
      modifies dst
      ensures dst[..size] == old(Contents()) && (dst != buffer ==> dst[size..] == old(dst[size..]))
    {
      hide Queue;
      QueueParts(buffer[..], readIndex, size);
      Stretch(buffer, readIndex, size);
      if readIndex >= size || buffer != dst {
        CopyStretch(dst, buffer, readIndex, size);
      } else {
        SlideStretch(dst, readIndex, size);
      }
    }

    lemma Stretch(a: array<T>, r: nat, size: nat)
      requires r + size <= a.Length
      ensures a[..][r..r + size] == a[r..r + size]
    {
    }

    /** The queue wraps: its front is at the end of the ring and its back at the start. */
    method PackWrapped(dst: array<T>, tail: nat)
      requires Valid() && size <= dst.Length && tail == buffer.Length - readIndex < size
      modifies dst
      ensures dst[..size] == old(Contents()) && (dst != buffer ==> dst[size..] == old(dst[size..]))
    {
      ghost var ring := buffer[..];
      if buffer != dst {
        CopyWrapped(dst, buffer, readIndex, size);
      } else if size <= readIndex {
        SlideWrapped(dst, readIndex, size);
      } else {
        RotateFront(dst, readIndex);
      }
      Unwrapped(ring, readIndex, size, dst[..]);
      hide Queue, Wrapped;
    }

    /** The elements in ring order make up the queue. */
    lemma Unwrapped(ring: seq<T>, r: nat, size: nat, packed: seq<T>)
      requires |ring| - r < size <= |ring| && r < |ring| && size <= |packed|
      requires forall i :: 0 <= i < size ==> 0 <= Wrapped(|ring|, r, i) < |ring| && packed[i] == ring[Wrapped(|ring|, r, i)]
      ensures packed[..size] == Queue(ring, r, size)
    {
      QueueParts(ring, r, size);
      hide Queue;
    }

    /** Makes the queue one stretch from the start of the ring. */
    method Pack()
      requires Valid()
      modifies this`readIndex, buffer
      ensures Valid() && readIndex == 0 && buffer[..size] == Contents() == old(Contents())
    {
      if buffer.Length != 0 {
        PackInto(buffer);
        QueueParts(buffer[..], readIndex, size);
      }
    }

    /** Replaces the block, dropping the queue; may fail for want of memory and then changes nothing. */
    method Allocate(capacity: nat) returns (ok: bool)
      requires Valid()
      modifies this
      ensures Valid()
      ensures if ok then buffer.Length == capacity <= maxElements && Contents() == []
              else buffer == old(buffer) && Contents() == old(Contents())
      ensures old(buffer.Length) == capacity || (granted && capacity <= maxElements) ==> ok
      ensures buffer == old(buffer) || fresh(buffer)
    {
      var met := Requests.Ask(granted);
      if capacity > maxElements || (capacity != buffer.Length && !met) { return false; }
      if capacity != buffer.Length { buffer := new T[capacity]; }
      size, readIndex := 0, 0;
      return true;
    }

    /** Moves the queue, packed, to a block of another size; may fail for want of memory and then changes nothing. */
    method Reallocate(capacity: nat) returns (ok: bool)
      requires Valid()
      modifies this, buffer
      ensures Valid() && Contents() == old(Contents())
      ensures if ok then buffer.Length == capacity && readIndex == 0 && buffer[..size] == Contents() else buffer == old(buffer)
      ensures ok ==> old(size) <= capacity <= maxElements
      ensures old(buffer.Length) == capacity || (granted && old(size) <= capacity <= maxElements) ==> ok
      ensures buffer == old(buffer) || fresh(buffer)
    {
      if capacity < size || capacity > maxElements { return false; }
      if capacity == buffer.Length {
        PackInto(buffer);
        if capacity > 0 { QueueParts(buffer[..], readIndex, size); }
        return true;
      }
      var met := Requests.Ask(granted);
      if !met { return false; }
      var token := new T[capacity];
      PackInto(token);
      buffer := token;
      if capacity > 0 { QueueParts(buffer[..], readIndex, size); }
      return true;
    }

    method ShrinkToFit() returns (ok: bool)
      requires Valid()
      modifies this, buffer
      ensures Valid() && Contents() == old(Contents())
      ensures ok ==> buffer.Length == size
      ensures buffer == old(buffer) || fresh(buffer)
    {
      if size == 0 {
        buffer := new T[0];
        readIndex := 0;
        return true;
      }
      ok := Reallocate(size);
    }
  }
}
