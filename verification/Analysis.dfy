/**
 The measuring walk before baking (core/data_model/live_document.cpp,
 analyse_common): how many values the root's tree has, and which names and
 strings they use.
 */
module Analysis {
  import opened LiveNode
  import opened Forest
  import opened Traversal
  import opened DocumentState
  import opened Integrity

  /** `counts` is nonzero exactly at the identifiers in `used`, and `total` is their number without the empty text. */
  ghost predicate Counted(counts: seq<nat>, used: set<nat>, total: nat) {
    && |counts| > 0 && (forall id :: 0 <= id < |counts| ==> (counts[id] != 0 <==> id in used))
    && (forall id :: id in used ==> id < |counts|) && |used - {0}| == total
  }

  function Zeros(n: nat): (z: seq<nat>)
    ensures |z| == n && forall i :: 0 <= i < n ==> z[i] == 0
  {
    seq(n, i => 0)
  }

  /** The names, or the strings, of the values of a walk. */
  ghost function NamesOf(nodes: Nodes, w: seq<Slot>): set<nat> {
    set i | 0 <= i < |w| && IsValue(nodes, w[i]) :: nodes[w[i]].name
  }

  ghost function StringsOf(nodes: Nodes, w: seq<Slot>): set<nat> {
    set i | 0 <= i < |w| && IsValue(nodes, w[i]) && nodes[w[i]].payload.vtype.Text? :: nodes[w[i]].payload.bits as nat
  }

  /** One more reference to `id`. */
  method CountReference(counts: seq<nat>, id: nat, total: nat, ghost used: set<nat>) returns (counts': seq<nat>, total': nat)
    requires id < |counts| && Counted(counts, used, total)
    ensures |counts'| == |counts| && Counted(counts', used + {id}, total')
  {
    counts', total' := counts, total;
    if id != 0 && counts[id] == 0 {
      total' := total + 1;
      assert used + {id} - {0} == (used - {0}) + {id};
    } else {
      assert used + {id} - {0} == used - {0};
    }
    counts' := counts'[id := counts'[id] + 1];
  }

  lemma WalkNames(nodes: Nodes, w: seq<Slot>, x: Slot)
    requires IsValue(nodes, x)
    ensures NamesOf(nodes, w + [x]) == NamesOf(nodes, w) + {nodes[x].name}
    ensures StringsOf(nodes, w + [x]) == StringsOf(nodes, w) + (if nodes[x].payload.vtype.Text? then {nodes[x].payload.bits as nat} else {})
  {
    var more := w + [x];
    assert more[|w|] == x;
    forall n | n in NamesOf(nodes, w) ensures n in NamesOf(nodes, more) {
      var i :| 0 <= i < |w| && IsValue(nodes, w[i]) && nodes[w[i]].name == n;
      assert more[i] == w[i];
    }
    forall n | n in StringsOf(nodes, w) ensures n in StringsOf(nodes, more) {
      var i :| 0 <= i < |w| && IsValue(nodes, w[i]) && nodes[w[i]].payload.vtype.Text? && nodes[w[i]].payload.bits == n;
      assert more[i] == w[i];
    }
  }

  lemma StepAlong(f: Shape, top: Slot, w: seq<Slot>, x: Slot)
    requires OnWalk(f, top, w, x) && x >= 0
    ensures IsValue(f.nodes, x) && |w| < |f.nodes| && NextOf(f.nodes, top, x) != FAIL && OnWalk(f, top, w + [x], NextOf(f.nodes, top, x))
    ensures IsContainer(f.nodes[x].payload.vtype) ==> IsAggregate(f.nodes, f.nodes[x].owned) && AggregateValid(f.nodes[f.nodes[x].owned])
  {
    if IsContainer(f.nodes[x].payload.vtype) { ContainerFacts(f.nodes, f.kids, f.rank, f.bound, x); }
    hide Wf, Walk, Rest, Under, NextOf;
    NextRest(f, top, x);
    var next := NextOf(f.nodes, top, x);
    var all := Walk(f, Pre, top);
    var rest := if next >= 0 then Walk(f, Pre, next) + Rest(f, Pre, next, top) else [];
    assert Walk(f, Pre, x) + Rest(f, Pre, x, top) == [x] + rest;
    WalkDistinct(f, Pre, top);
    WalkInside(f, top);
    SeenPart(w, x, rest, all);
  }

  lemma {:induction false} WalkInside(f: Shape, top: Slot)
    requires Wf(f) && IsValue(f.nodes, top)
    ensures |Walk(f, Pre, top)| <= |f.nodes|
  {
    var all := Walk(f, Pre, top);
    forall x | x in all ensures x in f.nodes.Keys { WalkMembers(f, Pre, top, x); }
    WalkDistinct(f, Pre, top);
    DistinctSize(all, f.nodes.Keys);
  }

  /** Walks the tree of `root` and counts its values and what they refer to. */
  method Analyse(nodes: Nodes, root: Slot, names: nat, strings: nat, ghost f: Shape)
    returns (ok: bool, values: nat, empties: nat, nameCounts: seq<nat>, stringCounts: seq<nat>, nameTotal: nat, stringTotal: nat)
    ensures ok ==> values > 0 && |nameCounts| == names + 1 && |stringCounts| == strings + 1
    ensures Wf(f) && f.nodes == nodes && IsValue(nodes, root) && root >= 0 && PayloadsValid(nodes, names, strings) ==>
      && ok && values == |Walk(f, Pre, root)|
      && Counted(nameCounts, NamesOf(nodes, Walk(f, Pre, root)), nameTotal)
      && Counted(stringCounts, StringsOf(nodes, Walk(f, Pre, root)), stringTotal)
  {
    hide Wf, PayloadsValid, OnWalk, NextOf, PayloadValid, NameValid, NamesOf, StringsOf, Counted, Walk;
    ghost var good := Wf(f) && f.nodes == nodes && IsValue(nodes, root) && root >= 0 && PayloadsValid(nodes, names, strings);
    ok, values, empties, nameTotal, stringTotal := false, 0, 0, 0, 0;
    nameCounts, stringCounts := Zeros(names + 1), Zeros(strings + 1);
    ghost var w: seq<Slot> := [];
    var current := root;
    NothingCounted(nodes, nameCounts, stringCounts);
    if good { WalkStarts(f, root); }
    while current >= 0
      invariant values == |w| <= |nodes| && (values == 0 ==> current == root)
      invariant |nameCounts| == names + 1 && |stringCounts| == strings + 1
      invariant Counted(nameCounts, NamesOf(nodes, w), nameTotal) && Counted(stringCounts, StringsOf(nodes, w), stringTotal)
      invariant good ==> OnWalk(f, root, w, current)
      decreases |nodes| - values
    {
      if good { StepAlong(f, root, w, current); ValueDomain(nodes, names, strings, current); }
      if values >= |nodes| { return; }
      if !IsValue(nodes, current) || !PayloadValid(nodes[current].payload, strings) || !NameValid(nodes[current].name, nodes[current].named, names) { return; }
      if IsContainer(nodes[current].payload.vtype) && (!IsAggregate(nodes, nodes[current].owned) || !AggregateValid(nodes[nodes[current].owned])) { return; }
      values := values + 1;
      if nodes[current].payload.vtype.EmptyValue? { empties := empties + 1; }
      InDomain(nodes[current], names, strings);
      WalkNames(nodes, w, current);
      nameCounts, nameTotal := CountReference(nameCounts, nodes[current].name, nameTotal, NamesOf(nodes, w));
      if nodes[current].payload.vtype.Text? {
        stringCounts, stringTotal := CountReference(stringCounts, nodes[current].payload.bits, stringTotal, StringsOf(nodes, w));
      } else {
        assert StringsOf(nodes, w) + {} == StringsOf(nodes, w);
      }
      var stepped, next := SubtreeNext(nodes, root, current);
      if !stepped { return; }
      w := w + [current];
      current := next;
    }
    ok := values != 0;
    if good { WalkEnds(f, root, w, current); WalkSome(f, root); }
  }

  lemma {:induction false} WalkSome(f: Shape, v: Slot)
    requires Wf(f) && IsValue(f.nodes, v)
    ensures |Walk(f, Pre, v)| > 0
  {
  }

  lemma NothingCounted(nodes: Nodes, a: seq<nat>, b: seq<nat>)
    requires |a| > 0 && |b| > 0 && (forall i :: 0 <= i < |a| ==> a[i] == 0) && (forall i :: 0 <= i < |b| ==> b[i] == 0)
    ensures Counted(a, NamesOf(nodes, []), 0) && Counted(b, StringsOf(nodes, []), 0)
  {
    assert NamesOf(nodes, []) == {} && StringsOf(nodes, []) == {};
    var none: set<nat> := {};
    assert none - {0} == {};
  }

  lemma ValueDomain(nodes: Nodes, names: nat, strings: nat, v: Slot)
    requires PayloadsValid(nodes, names, strings) && IsValue(nodes, v)
    ensures PayloadValid(nodes[v].payload, strings) && NameValid(nodes[v].name, nodes[v].named, names)
  {
  }

  lemma InDomain(n: Node, names: nat, strings: nat)
    requires n.Value? && PayloadValid(n.payload, strings) && NameValid(n.name, n.named, names)
    ensures n.name < names + 1 && (n.payload.vtype.Text? ==> n.payload.bits < strings + 1)
  {
  }
}
