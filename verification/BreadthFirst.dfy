/**
 Breadth-first order of a tree, as a queue walk, and where it puts the children
 of each value: the layout of baked records.
 */
module BreadthFirst {
  import opened Content

  function Size(t: Tree): (n: nat)
    ensures n >= 1
    decreases t, 0
  {
    1 + SizeAll(t.kids)
  }

  function SizeAll(ts: seq<Tree>): nat
    decreases ts, |ts|
  {
    if ts == [] then 0 else Size(ts[0]) + SizeAll(ts[1..])
  }

  lemma {:induction false} SizeJoin(a: seq<Tree>, b: seq<Tree>)
    ensures SizeAll(a + b) == SizeAll(a) + SizeAll(b)
  {
    if a == [] {
      assert a + b == b;
    } else {
      assert (a + b)[1..] == a[1..] + b;
      SizeJoin(a[1..], b);
    }
  }

  lemma {:induction false} QueueShrinks(q: seq<Tree>)
    requires q != []
    ensures SizeAll(q[1..] + q[0].kids) + 1 == SizeAll(q)
  {
    SizeJoin(q[1..], q[0].kids);
    assert Size(q[0]) == 1 + SizeAll(q[0].kids);
  }

  /** What a queue that starts as `q` takes out, when each tree taken puts in its children. */
  function BreadthOrder(q: seq<Tree>): seq<Tree>
    decreases SizeAll(q)
  {
    if q == [] then [] else
    QueueShrinks(q);
    [q[0]] + BreadthOrder(q[1..] + q[0].kids)
  }

  lemma {:induction false} OrderSize(q: seq<Tree>)
    ensures |BreadthOrder(q)| == SizeAll(q)
    decreases SizeAll(q)
  {
    if q != [] {
      QueueShrinks(q);
      OrderSize(q[1..] + q[0].kids);
    }
  }

  /** The queue comes out first, in its own order. */
  lemma {:induction false} OrderStarts(q: seq<Tree>)
    ensures |q| <= |BreadthOrder(q)| && BreadthOrder(q)[..|q|] == q
    decreases SizeAll(q)
  {
    if q != [] {
      QueueShrinks(q);
      var next := q[1..] + q[0].kids;
      OrderStarts(next);
      assert BreadthOrder(q)[..|q|] == [q[0]] + BreadthOrder(next)[..|q| - 1];
      assert next[..|q| - 1] == q[1..];
    }
  }

  /** Where the children of tree `i` of a layout begin: after the root and all earlier children. */
  function Start(ts: seq<Tree>, i: nat): nat
    requires i <= |ts|
  {
    if i == 0 then 1 else Start(ts, i - 1) + |ts[i - 1].kids|
  }

  lemma {:induction false} StartGrows(ts: seq<Tree>, i: nat, j: nat)
    requires i <= j <= |ts|
    ensures Start(ts, i) <= Start(ts, j)
    decreases j
  {
    if i < j { StartGrows(ts, i, j - 1); }
  }

  /** Each tree's children lie together, in order, after the trees before it and their children. */
  ghost predicate Laid(ts: seq<Tree>) {
    && |ts| > 0 && Start(ts, |ts|) == |ts|
    && (forall i :: 0 <= i < |ts| ==> KidsAt(ts, i))
  }

  ghost predicate KidsAt(ts: seq<Tree>, i: nat)
    requires i < |ts|
  {
    i < Start(ts, i) && Start(ts, i + 1) <= |ts| && ts[Start(ts, i)..Start(ts, i + 1)] == ts[i].kids
  }

  /** One step of a queue that has the rest of the order before it. */
  lemma QueueStep(ts: seq<Tree>, i: nat, s: nat)
    requires i < |ts| && i <= s <= |ts| && BreadthOrder(ts[i..s]) == ts[i..]
    ensures i < s && s + |ts[i].kids| <= |ts| && ts[s..s + |ts[i].kids|] == ts[i].kids
    ensures BreadthOrder(ts[i + 1..s + |ts[i].kids|]) == ts[i + 1..]
  {
    var q := ts[i..s];
    assert i == s ==> q == [] && BreadthOrder(q) == [];
    var kids := ts[i].kids;
    assert q[0] == ts[i] && q[1..] == ts[i + 1..s];
    QueueShrinks(q);
    var next := q[1..] + kids;
    assert BreadthOrder(q) == [ts[i]] + BreadthOrder(next);
    assert ts[i..] == [ts[i]] + ts[i + 1..];
    assert BreadthOrder(next) == ts[i + 1..];
    OrderStarts(next);
    StartsWith(ts, i + 1, s, kids);
  }

  lemma StartsWith(ts: seq<Tree>, i: nat, s: nat, kids: seq<Tree>)
    requires i <= s <= |ts| && s + |kids| <= |ts| && ts[i..][..s - i + |kids|] == ts[i..s] + kids
    ensures ts[s..s + |kids|] == kids && ts[i..s + |kids|] == ts[i..s] + kids
  {
    assert ts[i..][..s - i + |kids|] == ts[i..s + |kids|];
    forall k | 0 <= k < |kids| ensures ts[s + k] == kids[k] {
      assert ts[i..s + |kids|][s - i + k] == (ts[i..s] + kids)[s - i + k];
    }
  }

  /** Before tree `i` is taken, the queue holds the trees from `i` to the start of its children. */
  lemma {:induction false} QueueAt(t: Tree, ts: seq<Tree>, i: nat)
    requires ts == BreadthOrder([t]) && i <= |ts|
    ensures i <= Start(ts, i) <= |ts| && BreadthOrder(ts[i..Start(ts, i)]) == ts[i..]
    ensures forall k :: 0 <= k < i ==> KidsAt(ts, k)
  {
    if i == 0 {
      OrderStarts([t]);
      assert ts[0..1] == [t] && ts[0..] == ts;
    } else {
      hide BreadthOrder;
      QueueAt(t, ts, i - 1);
      QueueAfter(ts, i - 1);
      hide KidsAt, Start;
    }
  }

  lemma QueueAfter(ts: seq<Tree>, i: nat)
    requires i < |ts| && i <= Start(ts, i) <= |ts| && BreadthOrder(ts[i..Start(ts, i)]) == ts[i..]
    ensures i + 1 <= Start(ts, i + 1) <= |ts| && BreadthOrder(ts[i + 1..Start(ts, i + 1)]) == ts[i + 1..] && KidsAt(ts, i)
  {
    hide BreadthOrder;
    QueueStep(ts, i, Start(ts, i));
  }

  lemma OrderLaid(t: Tree)
    ensures Laid(BreadthOrder([t])) && BreadthOrder([t])[0] == t
  {
    var ts := BreadthOrder([t]);
    OrderStarts([t]);
    assert ts[..1] == [t];
    QueueAt(t, ts, |ts|);
    var q := ts[|ts|..Start(ts, |ts|)];
    assert BreadthOrder(q) == [];
  }

  /** A layout is the breadth-first order of its first tree. */
  lemma {:induction false} LaidQueue(ts: seq<Tree>, i: nat)
    requires Laid(ts) && i <= |ts|
    ensures i <= Start(ts, i) <= |ts| && BreadthOrder(ts[i..Start(ts, i)]) == ts[i..]
    decreases |ts| - i
  {
    StartGrows(ts, i, |ts|);
    if i < |ts| {
      LaidQueue(ts, i + 1);
      assert KidsAt(ts, i);
      var q := ts[i..Start(ts, i)];
      assert q[1..] + q[0].kids == ts[i + 1..Start(ts, i + 1)];
      SizeJoin(q[1..], q[0].kids);
      assert BreadthOrder(q) == [ts[i]] + ts[i + 1..];
    }
  }

  lemma LaidOrder(ts: seq<Tree>)
    requires Laid(ts)
    ensures ts == BreadthOrder([ts[0]])
  {
    LaidQueue(ts, 0);
    assert ts[0..Start(ts, 0)] == [ts[0]] && ts[0..] == ts;
  }

  lemma {:induction false} HolderBefore(ts: seq<Tree>, k: nat, n: nat) returns (i: nat)
    requires n <= |ts| && 1 <= k < Start(ts, n)
    ensures i < n && Start(ts, i) <= k < Start(ts, i + 1)
  {
    if Start(ts, n - 1) <= k { i := n - 1; } else { i := HolderBefore(ts, k, n - 1); }
  }

  /** Every tree but the first is a child of an earlier tree. */
  lemma HolderOf(ts: seq<Tree>, k: nat) returns (i: nat)
    requires Laid(ts) && 0 < k < |ts|
    ensures i < k && Start(ts, i) <= k < Start(ts, i + 1)
  {
    i := HolderBefore(ts, k, |ts|);
    assert KidsAt(ts, i);
  }

  lemma {:induction false} HolderExists(ts: seq<Tree>, k: nat)
    requires Laid(ts) && 0 < k < |ts|
    ensures exists i: nat :: i < k && Start(ts, i) <= k < Start(ts, i + 1)
  {
    var i := HolderOf(ts, k);
  }

  lemma OneHolder(ts: seq<Tree>, k: nat, i: nat, j: nat)
    requires i < |ts| && j < |ts| && Start(ts, i) <= k < Start(ts, i + 1) && Start(ts, j) <= k < Start(ts, j + 1)
    ensures i == j
  {
    if i < j { StartGrows(ts, i + 1, j); }
    if j < i { StartGrows(ts, j + 1, i); }
  }
}
