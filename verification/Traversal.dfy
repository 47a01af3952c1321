/**
 The two stackless walks of a live subtree, as sequences: preorder (the
 integrity audit and the analyses) and postorder (erasure). `Rest` is what a
 walk still has to visit, defined by the same link steps the walks take.
 */
module Traversal {
  import opened LiveNode
  import opened Forest
  import opened Sequences

  datatype Shape = Shape(nodes: Nodes, kids: Kids, rank: Rank, bound: nat)
  datatype Order = Pre | Post

  ghost predicate Wf(f: Shape) {
    IsForest(f.nodes, f.kids, f.rank, f.bound)
  }

  ghost predicate Below(f: Shape, ks: seq<Slot>, r: nat) {
    r < f.bound && forall i :: 0 <= i < |ks| ==> IsValue(f.nodes, ks[i]) && ks[i] in f.rank && f.rank[ks[i]] > r
  }

  lemma KidsBelow(f: Shape, v: Slot)
    requires Wf(f) && IsValue(f.nodes, v)
    ensures Below(f, KidsOf(f.nodes, f.kids, v), f.rank[v])
  {
    var ks := KidsOf(f.nodes, f.kids, v);
    forall i | 0 <= i < |ks| ensures IsValue(f.nodes, ks[i]) && ks[i] in f.rank && f.rank[ks[i]] > f.rank[v] {
      KidsUp(f.nodes, f.kids, v, i);
    }
  }

  /** All values of a subtree, children in order, each parent before or after them. */
  ghost function Walk(f: Shape, order: Order, v: Slot): seq<Slot>
    requires Wf(f) && IsValue(f.nodes, v)
    decreases f.bound - f.rank[v], 1, 0
  {
    KidsBelow(f, v);
    var below := WalkAll(f, order, KidsOf(f.nodes, f.kids, v), f.rank[v]);
    if order.Pre? then [v] + below else below + [v]
  }

  ghost function WalkAll(f: Shape, order: Order, ks: seq<Slot>, r: nat): seq<Slot>
    requires Wf(f) && Below(f, ks, r)
    decreases f.bound - r, 0, |ks|
  {
    if ks == [] then [] else Walk(f, order, ks[0]) + WalkAll(f, order, ks[1..], r)
  }

  ghost function Pos(f: Shape, v: Slot): nat
    requires Wf(f) && IsValue(f.nodes, v) && f.nodes[v].parent != NO_SLOT
    ensures IsKid(f.nodes, f.kids, f.nodes[v].parent, v, Pos(f, v))
  {
    FoundKid(f, v);
    var i: nat :| IsKid(f.nodes, f.kids, f.nodes[v].parent, v, i);
    i
  }

  lemma FoundKid(f: Shape, v: Slot)
    requires Wf(f) && IsValue(f.nodes, v) && f.nodes[v].parent != NO_SLOT
    ensures exists i: nat :: IsKid(f.nodes, f.kids, f.nodes[v].parent, v, i)
  {
    var i := FindKid(f.nodes, f.kids, v);
  }

  lemma SiblingStep(f: Shape, v: Slot)
    requires Wf(f) && IsValue(f.nodes, v) && f.nodes[v].parent != NO_SLOT
    ensures Up(f.nodes, v) != NO_SLOT && IsValue(f.nodes, Up(f.nodes, v))
    ensures KidsOf(f.nodes, f.kids, Up(f.nodes, v)) == f.kids[f.nodes[v].parent]
    ensures var n := f.nodes[v].next; n != NO_SLOT ==>
      && IsValue(f.nodes, n) && f.nodes[n].parent == f.nodes[v].parent && n >= 0
      && Up(f.nodes, n) == Up(f.nodes, v) && Pos(f, n) == Pos(f, v) + 1 && n == f.kids[f.nodes[v].parent][Pos(f, v) + 1]
    ensures f.nodes[v].next == NO_SLOT ==> Pos(f, v) + 1 == |f.kids[f.nodes[v].parent]|
  {
    var a := f.nodes[v].parent;
    var i := Pos(f, v);
    assert Paired(f.nodes, a);
    if i + 1 < |f.kids[a]| { KidIsValue(f.nodes, f.kids, a, i + 1); }
  }

  /** What the walk of `top` visits once everything up to and including `v`
      (for preorder: and the subtree of `v`) is behind it. */
  ghost function Rest(f: Shape, order: Order, v: Slot, top: Slot): seq<Slot>
    requires Wf(f) && IsValue(f.nodes, v) && Under(f.nodes, v, top)
    decreases if Up(f.nodes, v) != NO_SLOT && Up(f.nodes, v) in f.rank then f.rank[Up(f.nodes, v)] + 1 else 0,
              if f.nodes[v].parent == NO_SLOT then 0 else |f.kids[f.nodes[v].parent]| - Pos(f, v)
  {
    if v == top then [] else
    UnderStep(f.nodes, v, top);
    assert f.nodes[v].parent != NO_SLOT by { assert NO_SLOT !in f.nodes; }
    SiblingStep(f, v);
    var n := f.nodes[v].next;
    if n != NO_SLOT then
      UnderStep(f.nodes, n, top);
      Walk(f, order, n) + Rest(f, order, n, top)
    else
      (if order.Post? then [Up(f.nodes, v)] else []) + Rest(f, order, Up(f.nodes, v), top)
  }

  lemma NotTop(f: Shape, v: Slot, top: Slot, i: nat)
    requires Wf(f) && IsValue(f.nodes, v) && Under(f.nodes, v, top) && i < |KidsOf(f.nodes, f.kids, v)|
    ensures var k := KidsOf(f.nodes, f.kids, v)[i]; IsValue(f.nodes, k) && Up(f.nodes, k) == v && k != top && Under(f.nodes, k, top) && f.nodes[k].parent == f.nodes[v].owned
  {
    KidsUp(f.nodes, f.kids, v, i);
    var k := KidsOf(f.nodes, f.kids, v)[i];
    assert Paired(f.nodes, v);
    KidIsValue(f.nodes, f.kids, f.nodes[v].owned, i);
    UnderStep(f.nodes, k, top);
    UnderRank(f.nodes, f.kids, f.rank, f.bound, v, top);
  }

  /** One step along or up from child `i`. */
  lemma {:induction false} KidStep(f: Shape, order: Order, v: Slot, top: Slot, i: nat)
    requires Wf(f) && IsValue(f.nodes, v) && Under(f.nodes, v, top) && i < |KidsOf(f.nodes, f.kids, v)|
    ensures var ks := KidsOf(f.nodes, f.kids, v);
      && IsValue(f.nodes, ks[i]) && Under(f.nodes, ks[i], top)
      && (i + 1 < |ks| ==>
            && IsValue(f.nodes, ks[i + 1]) && Under(f.nodes, ks[i + 1], top)
            && Rest(f, order, ks[i], top) == Walk(f, order, ks[i + 1]) + Rest(f, order, ks[i + 1], top))
      && (i + 1 == |ks| ==> Rest(f, order, ks[i], top) == (if order.Post? then [v] else []) + Rest(f, order, v, top))
  {
    var ks := KidsOf(f.nodes, f.kids, v);
    NotTop(f, v, top, i);
    SiblingStep(f, ks[i]);
    var j := Pos(f, ks[i]);
    assert j == i;
    if i + 1 < |ks| { NotTop(f, v, top, i + 1); }
  }

  /** From child `i` on, a walk does the rest of the children, then what follows their parent. */
  lemma {:induction false} RestOfKids(f: Shape, order: Order, v: Slot, top: Slot, i: nat)
    requires Wf(f) && IsValue(f.nodes, v) && Under(f.nodes, v, top) && i < |KidsOf(f.nodes, f.kids, v)|
    requires Below(f, KidsOf(f.nodes, f.kids, v), f.rank[v])
    ensures var k := KidsOf(f.nodes, f.kids, v)[i];
      && IsValue(f.nodes, k) && Under(f.nodes, k, top)
      && Walk(f, order, k) + Rest(f, order, k, top)
         == WalkAll(f, order, KidsOf(f.nodes, f.kids, v)[i..], f.rank[v]) + (if order.Post? then [v] else []) + Rest(f, order, v, top)
    decreases |KidsOf(f.nodes, f.kids, v)| - i
  {
    hide Wf, Walk, Up;
    var ks := KidsOf(f.nodes, f.kids, v);
    KidStep(f, order, v, top, i);
    assert ks[i..][1..] == ks[i + 1..];
    if i + 1 < |ks| {
      RestOfKids(f, order, v, top, i + 1);
    } else {
      assert ks[i + 1..] == [];
    }
  }

  /** The first value a postorder walk of `v` visits. */
  ghost function Deepest(f: Shape, v: Slot): Slot
    requires Wf(f) && IsValue(f.nodes, v)
    ensures IsValue(f.nodes, Deepest(f, v))
    decreases f.bound - f.rank[v]
  {
    var ks := KidsOf(f.nodes, f.kids, v);
    if ks == [] then v else
    KidsBelow(f, v);
    Deepest(f, ks[0])
  }

  lemma {:induction false} DeepestStarts(f: Shape, v: Slot, top: Slot)
    requires Wf(f) && IsValue(f.nodes, v) && Under(f.nodes, v, top)
    ensures Under(f.nodes, Deepest(f, v), top)
    ensures [Deepest(f, v)] + Rest(f, Post, Deepest(f, v), top) == Walk(f, Post, v) + Rest(f, Post, v, top)
    decreases f.bound - f.rank[v]
  {
    var ks := KidsOf(f.nodes, f.kids, v);
    KidsBelow(f, v);
    if ks == [] {
      assert Walk(f, Post, v) == [v];
    } else {
      NotTop(f, v, top, 0);
      DeepestStarts(f, ks[0], top);
      RestOfKids(f, Post, v, top, 0);
      assert ks[0..] == ks;
      assert Walk(f, Post, v) == WalkAll(f, Post, ks, f.rank[v]) + [v];
    }
  }

  // ---------------------------------------------------------------------
  // A walk visits the whole subtree, each value once

  lemma {:induction false} UnderViaKid(f: Shape, x: Slot, v: Slot) returns (i: nat)
    requires Wf(f) && IsValue(f.nodes, x) && Under(f.nodes, x, v) && x != v
    ensures i < |KidsOf(f.nodes, f.kids, v)| && Under(f.nodes, x, KidsOf(f.nodes, f.kids, v)[i])
    decreases f.rank[x]
  {
    UnderStep(f.nodes, x, v);
    UpIsValue(f.nodes, f.kids, x);
    if Up(f.nodes, x) == v {
      i :| 0 <= i < |KidsOf(f.nodes, f.kids, v)| && KidsOf(f.nodes, f.kids, v)[i] == x;
      UnderStep(f.nodes, x, x);
    } else {
      i := UnderViaKid(f, Up(f.nodes, x), v);
      UnderStep(f.nodes, x, KidsOf(f.nodes, f.kids, v)[i]);
    }
  }

  lemma {:induction false} WalkMembers(f: Shape, order: Order, v: Slot, x: Slot)
    requires Wf(f) && IsValue(f.nodes, v)
    ensures x in Walk(f, order, v) <==> IsValue(f.nodes, x) && Under(f.nodes, x, v)
    decreases f.bound - f.rank[v], 1, 0
  {
    var ks := KidsOf(f.nodes, f.kids, v);
    KidsBelow(f, v);
    WalkAllMembers(f, order, ks, f.rank[v], x);
    UnderStep(f.nodes, v, v);
    if IsValue(f.nodes, x) && Under(f.nodes, x, v) && x != v {
      var i := UnderViaKid(f, x, v);
    }
    if i: nat :| i < |ks| && IsValue(f.nodes, x) && Under(f.nodes, x, ks[i]) {
      NotTop(f, v, v, i);
      UnderTransitive(f.nodes, f.kids, f.rank, f.bound, x, ks[i], v);
    }
  }

  lemma {:induction false} WalkAllMembers(f: Shape, order: Order, ks: seq<Slot>, r: nat, x: Slot)
    requires Wf(f) && Below(f, ks, r)
    ensures x in WalkAll(f, order, ks, r) <==> IsValue(f.nodes, x) && exists i :: 0 <= i < |ks| && Under(f.nodes, x, ks[i])
    decreases f.bound - r, 0, |ks|
  {
    if ks != [] {
      WalkMembers(f, order, ks[0], x);
      WalkAllMembers(f, order, ks[1..], r, x);
      if i :| 0 <= i < |ks| && Under(f.nodes, x, ks[i]) {
        assert i == 0 || ks[i] == ks[1..][i - 1];
      }
    }
  }

  lemma DistinctJoin<T>(s: seq<T>, t: seq<T>)
    requires Distinct(s) && Distinct(t) && forall x :: x in s ==> x !in t
    ensures Distinct(s + t)
  {
    forall i, j | 0 <= i < j < |s + t| ensures (s + t)[i] != (s + t)[j] {
      if i < |s| <= j { assert s[i] in s && t[j - |s|] in t; }
    }
  }

  lemma SiblingsApart(f: Shape, v: Slot, i: nat, j: nat, x: Slot)
    requires Wf(f) && IsValue(f.nodes, v) && IsValue(f.nodes, x) && i < j < |KidsOf(f.nodes, f.kids, v)|
    ensures !(Under(f.nodes, x, KidsOf(f.nodes, f.kids, v)[i]) && Under(f.nodes, x, KidsOf(f.nodes, f.kids, v)[j]))
  {
    var a, b := KidsOf(f.nodes, f.kids, v)[i], KidsOf(f.nodes, f.kids, v)[j];
    if Under(f.nodes, x, a) && Under(f.nodes, x, b) {
      UnderNested(f.nodes, f.kids, f.rank, f.bound, x, a, b);
      KidsUp(f.nodes, f.kids, v, i);
      KidsUp(f.nodes, f.kids, v, j);
      KidsBelow(f, v);
      var (lo, hi) := if Under(f.nodes, a, b) then (a, b) else (b, a);
      UnderStep(f.nodes, lo, hi);
      assert lo != hi;
      UnderRank(f.nodes, f.kids, f.rank, f.bound, v, hi);
    }
  }

  lemma {:induction false} WalkDistinct(f: Shape, order: Order, v: Slot)
    requires Wf(f) && IsValue(f.nodes, v)
    ensures Distinct(Walk(f, order, v))
    decreases f.bound - f.rank[v], 1, 0
  {
    var ks := KidsOf(f.nodes, f.kids, v);
    KidsBelow(f, v);
    WalkKidsDistinct(f, order, v, 0);
    assert ks[0..] == ks;
    if v in WalkAll(f, order, ks, f.rank[v]) {
      WalkAllMembers(f, order, ks, f.rank[v], v);
      var i :| 0 <= i < |ks| && Under(f.nodes, v, ks[i]);
      UnderRank(f.nodes, f.kids, f.rank, f.bound, v, ks[i]);
    }
  }

  lemma {:induction false} WalkKidsDistinct(f: Shape, order: Order, v: Slot, i: nat)
    requires Wf(f) && IsValue(f.nodes, v) && i <= |KidsOf(f.nodes, f.kids, v)|
    requires Below(f, KidsOf(f.nodes, f.kids, v), f.rank[v])
    ensures Distinct(WalkAll(f, order, KidsOf(f.nodes, f.kids, v)[i..], f.rank[v]))
    decreases f.bound - f.rank[v], 0, |KidsOf(f.nodes, f.kids, v)| - i
  {
    var ks := KidsOf(f.nodes, f.kids, v);
    if i < |ks| {
      assert ks[i..][1..] == ks[i + 1..];
      WalkDistinct(f, order, ks[i]);
      WalkKidsDistinct(f, order, v, i + 1);
      var head, tail := Walk(f, order, ks[i]), WalkAll(f, order, ks[i + 1..], f.rank[v]);
      forall x | x in head ensures x !in tail {
        WalkMembers(f, order, ks[i], x);
        WalkAllMembers(f, order, ks[i + 1..], f.rank[v], x);
        if x in tail {
          var later := ks[i + 1..];
          var j :| 0 <= j < |later| && Under(f.nodes, x, later[j]);
          SiblingsApart(f, v, i, i + 1 + j, x);
        }
      }
      DistinctJoin(head, tail);
      assert ks[i..][0] == ks[i];
    }
  }
}
