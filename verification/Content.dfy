/**
 The tree a live value stands for, apart from slots and keys, and how the
 document's link operations change it.
 */
module Content {
  import opened LiveNode
  import opened Forest
  import opened Traversal

  datatype Tree = Tree(payload: Payload, name: nat, named: bool, kids: seq<Tree>)

  ghost function ContentOf(f: Shape, v: Slot): Tree
    requires Wf(f) && IsValue(f.nodes, v)
    decreases f.bound - f.rank[v], 1, 0
  {
    KidsBelow(f, v);
    var n := f.nodes[v];
    Tree(n.payload, n.name, n.named, Contents(f, KidsOf(f.nodes, f.kids, v), f.rank[v]))
  }

  ghost function Contents(f: Shape, ks: seq<Slot>, r: nat): (ts: seq<Tree>)
    requires Wf(f) && Below(f, ks, r)
    ensures |ts| == |ks|
    decreases f.bound - r, 0, |ks|
  {
    if ks == [] then [] else [ContentOf(f, ks[0])] + Contents(f, ks[1..], r)
  }

  lemma {:induction false} ContentsAt(f: Shape, ks: seq<Slot>, r: nat, i: nat)
    requires Wf(f) && Below(f, ks, r) && i < |ks|
    ensures Contents(f, ks, r)[i] == ContentOf(f, ks[i])
  {
    if i > 0 { ContentsAt(f, ks[1..], r, i - 1); }
  }

  lemma {:induction false} ContentKids(f: Shape, v: Slot)
    requires Wf(f) && IsValue(f.nodes, v)
    ensures |ContentOf(f, v).kids| == |KidsOf(f.nodes, f.kids, v)|
    ensures forall i :: 0 <= i < |KidsOf(f.nodes, f.kids, v)| ==>
      IsValue(f.nodes, KidsOf(f.nodes, f.kids, v)[i]) && ContentOf(f, v).kids[i] == ContentOf(f, KidsOf(f.nodes, f.kids, v)[i])
  {
    KidsBelow(f, v);
    var ks := KidsOf(f.nodes, f.kids, v);
    forall i | 0 <= i < |ks| ensures IsValue(f.nodes, ks[i]) && ContentOf(f, v).kids[i] == ContentOf(f, ks[i]) {
      ContentsAt(f, ks, f.rank[v], i);
    }
  }

  /** `x` has the same payload, name and children in both shapes. */
  ghost predicate SameNode(f: Shape, f': Shape, x: Slot) {
    && IsValue(f.nodes, x) && IsValue(f'.nodes, x)
    && f'.nodes[x].payload == f.nodes[x].payload && f'.nodes[x].name == f.nodes[x].name && f'.nodes[x].named == f.nodes[x].named
    && KidsOf(f'.nodes, f'.kids, x) == KidsOf(f.nodes, f.kids, x)
  }

  /** A subtree whose values all stay as they are keeps its content. */
  lemma {:induction false} ContentSame(f: Shape, f': Shape, v: Slot)
    requires Wf(f) && Wf(f') && IsValue(f.nodes, v)
    requires forall x :: IsValue(f.nodes, x) && Under(f.nodes, x, v) ==> SameNode(f, f', x)
    ensures IsValue(f'.nodes, v) && ContentOf(f', v) == ContentOf(f, v)
    decreases f.bound - f.rank[v]
  {
    UnderStep(f.nodes, v, v);
    assert SameNode(f, f', v);
    var ks := KidsOf(f.nodes, f.kids, v);
    KidsBelow(f, v);
    KidsBelow(f', v);
    ContentKids(f, v);
    ContentKids(f', v);
    forall i | 0 <= i < |ks| ensures ContentOf(f', ks[i]) == ContentOf(f, ks[i]) {
      NotTop(f, v, v, i);
      forall x | IsValue(f.nodes, x) && Under(f.nodes, x, ks[i]) ensures SameNode(f, f', x) {
        UnderTransitive(f.nodes, f.kids, f.rank, f.bound, x, ks[i], v);
      }
      ContentSame(f, f', ks[i]);
    }
    assert ContentOf(f', v).kids == ContentOf(f, v).kids;
  }

  /** Values off the path from `changed` to the top of its tree do not see a change there. */
  lemma {:induction false} ContentElsewhere(f: Shape, f': Shape, changed: set<Slot>, v: Slot)
    requires Wf(f) && Wf(f') && IsValue(f.nodes, v)
    requires forall x :: IsValue(f.nodes, x) && x !in changed ==> SameNode(f, f', x)
    requires forall c :: c in changed ==> !Under(f.nodes, c, v)
    ensures IsValue(f'.nodes, v) && ContentOf(f', v) == ContentOf(f, v)
  {
    ContentSame(f, f', v);
  }

  lemma {:induction false} ChainSame(nodes: Nodes, nodes': Nodes, kids: Kids, rank: Rank, bound: nat, x: Slot, top: Slot)
    requires IsForest(nodes, kids, rank, bound) && IsValue(nodes, x)
    requires forall y :: Under(nodes, x, y) && IsValue(nodes, y) ==> Up(nodes', y) == Up(nodes, y)
    ensures Under(nodes', x, top) <==> Under(nodes, x, top)
    decreases rank[x]
  {
    UnderStep(nodes, x, x);
    UnderStep(nodes, x, top);
    UnderStep(nodes', x, top);
    var u := Up(nodes, x);
    if x != top && u != NO_SLOT {
      UpIsValue(nodes, kids, x);
      forall y | Under(nodes, u, y) && IsValue(nodes, y) ensures Up(nodes', y) == Up(nodes, y) { UnderStep(nodes, x, y); }
      ChainSame(nodes, nodes', kids, rank, bound, u, top);
    }
  }
}
