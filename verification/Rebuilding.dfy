/**
 The live forest while a baked document is promoted into it: after each step
 it holds the first records, each under its parent, and nothing else.
 */
module Rebuilding {
  import opened LiveNode
  import opened Forest
  import opened Traversal
  import opened Content
  import opened DocumentState
  import opened ValueFlags
  import opened BakedRecords
  import opened Sequences

  function Least(a: nat, b: nat): nat {
    if a < b then a else b
  }

  /** Value `s` carries what record `r` says. */
  predicate Carries(nodes: Nodes, s: Slot, r: Record) {
    IsValue(nodes, s) && nodes[s].payload == PayloadOf(r) && nodes[s].name == r.name && nodes[s].named == Named(r.flags)
  }

  /** The children of record `i` among the first `|at|` records. */
  function KidsSoFar(rs: seq<Record>, at: seq<Slot>, i: nat): seq<Slot>
    requires i < |rs|
  {
    RangeGrows(rs, i, i + 1);
    at[Least(RangeStart(rs, i), |at|)..Least(RangeStart(rs, i + 1), |at|)]
  }

  ghost predicate BuiltAt(f: Shape, rs: seq<Record>, at: seq<Slot>, i: nat)
    requires i < |at| <= |rs|
  {
    Carries(f.nodes, at[i], rs[i]) && KidsOf(f.nodes, f.kids, at[i]) == KidsSoFar(rs, at, i)
  }

  /** The forest is the tree of the first records: record `i` in slot `at[i]`. */
  ghost predicate Built(f: Shape, rs: seq<Record>, at: seq<Slot>) {
    && Wf(f) && 0 < |at| <= |rs| && Distinct(at)
    && (forall i :: 0 <= i < |at| ==> BuiltAt(f, rs, at, i))
    && (forall s :: IsValue(f.nodes, s) ==> s in at)
  }

  /** One more value is there, detached and without children. */
  ghost predicate Loose(f: Shape, rs: seq<Record>, at: seq<Slot>, v: Slot) {
    && Wf(f) && 0 < |at| < |rs| && Distinct(at) && v !in at
    && (forall i :: 0 <= i < |at| ==> BuiltAt(f, rs, at, i))
    && Carries(f.nodes, v, rs[|at|]) && Unattached(f.nodes[v]) && KidsOf(f.nodes, f.kids, v) == []
    && (forall s :: IsValue(f.nodes, s) ==> s in at || s == v)
  }

  lemma KeptKids(f: Shape, f': Shape, x: Slot)
    requires Wf(f) && IsValue(f.nodes, x) && x in f'.nodes && f'.nodes[x] == f.nodes[x]
    requires forall b :: b in f.kids ==> b in f'.kids && f'.kids[b] == f.kids[b]
    ensures KidsOf(f'.nodes, f'.kids, x) == KidsOf(f.nodes, f.kids, x)
  {
    assert Paired(f.nodes, x);
  }

  /** Creating a value leaves what was built. */
  lemma BuiltCreated(f: Shape, f': Shape, rs: seq<Record>, at: seq<Slot>, v: Slot)
    requires Built(f, rs, at) && Wf(f') && |at| < |rs| && v !in f.nodes
    requires forall s :: s in f.nodes ==> s in f'.nodes && f'.nodes[s] == f.nodes[s]
    requires forall b :: b in f.kids ==> b in f'.kids && f'.kids[b] == f.kids[b]
    requires Carries(f'.nodes, v, rs[|at|]) && Unattached(f'.nodes[v]) && KidsOf(f'.nodes, f'.kids, v) == []
    requires forall s :: IsValue(f'.nodes, s) ==> s in f.nodes || s == v
    ensures Loose(f', rs, at, v)
  {
    forall i | 0 <= i < |at| ensures BuiltAt(f', rs, at, i) {
      assert BuiltAt(f, rs, at, i);
      KeptKids(f, f', at[i]);
    }
    forall i | 0 <= i < |at| ensures at[i] != v { assert BuiltAt(f, rs, at, i); }
    hide Wf, KidsSoFar, KidsOf;
  }

  /** The new value may go under its parent: no other child has its name, and it holds nothing. */
  lemma LooseAdmitted(f: Shape, rs: seq<Record>, names: U32, strings: U32, at: seq<Slot>, v: Slot)
    requires RecordsSound(rs, names, strings) && Loose(f, rs, at, v)
    ensures var p := rs[|at|].parent;
      && p < |at| && IsValue(f.nodes, at[p]) && IsValue(f.nodes, v)
      && IsContainer(f.nodes[at[p]].payload.vtype) && Admission(f.nodes, f.kids, at[p], v).Accepted?
  {
    var k := |at|;
    ParentRange(rs, names, strings, k);
    var p := rs[k].parent;
    assert BuiltAt(f, rs, at, p);
    RecordParts(rs, names, strings, p);
    PayloadSound(rs[p], strings);
    TagSays(rs[p]);
    hide RecordsSound, RecordSound, PayloadOf, Named, Positioned, Meta, Decode;
    if Under(f.nodes, at[p], v) && at[p] != v { var i := UnderViaKid(f, at[p], v); }
    UnderStep(f.nodes, at[p], v);
    var start, ks := RangeStart(rs, p), KidsOf(f.nodes, f.kids, at[p]);
    forall i | 0 <= i < |ks| && rs[p].tag == 7 ensures NameAt(f.nodes, ks[i]) != rs[k].name {
      assert ks[i] == at[start + i] && BuiltAt(f, rs, at, start + i);
    }
  }

  lemma TagSays(r: Record)
    ensures PayloadOf(r).vtype.Object? <==> r.tag == 7
  {
  }

  /** Linking it as the last child of its parent. */
  lemma BuiltLinked(f: Shape, f': Shape, rs: seq<Record>, names: U32, strings: U32, at: seq<Slot>, v: Slot)
    requires RecordsSound(rs, names, strings) && Loose(f, rs, at, v) && Wf(f') && rs[|at|].parent < |at|
    requires var d := at[rs[|at|].parent]; LinkedUnder(f.nodes, f.kids, f'.nodes, f'.kids, d, v, |KidsOf(f.nodes, f.kids, d)|)
    ensures Built(f', rs, at + [v])
  {
    var p, at' := rs[|at|].parent, at + [v];
    forall i | 0 <= i < |at'| ensures BuiltAt(f', rs, at', i) { BuiltLinkedAt(f, f', rs, names, strings, at, v, i); }
    forall s | IsValue(f'.nodes, s) ensures s in at' { assert SameButLinks(f.nodes[s], f'.nodes[s]); }
  }

  /** One more record joins the children of its parent, and of no other. */
  lemma KidsGrow(rs: seq<Record>, at: seq<Slot>, v: Slot, p: nat, i: nat)
    requires |at| < |rs| && p < |rs| && RangeStart(rs, p) <= |at| < RangeStart(rs, p + 1) && i < |rs|
    ensures i == p ==> KidsSoFar(rs, at + [v], i) == KidsSoFar(rs, at, i) + [v]
    ensures i != p ==> KidsSoFar(rs, at + [v], i) == KidsSoFar(rs, at, i)
    ensures RangeStart(rs, i) >= |at| ==> KidsSoFar(rs, at, i) == []
  {
    hide RangeStart;
    RangeGrows(rs, i, i + 1);
    if i < p { RangeGrows(rs, i + 1, p); }
    if i > p { RangeGrows(rs, p + 1, i); }
  }

  lemma BuiltLinkedAt(f: Shape, f': Shape, rs: seq<Record>, names: U32, strings: U32, at: seq<Slot>, v: Slot, i: nat)
    requires RecordsSound(rs, names, strings) && Loose(f, rs, at, v) && Wf(f') && rs[|at|].parent < |at| && i <= |at|
    requires var d := at[rs[|at|].parent]; LinkedUnder(f.nodes, f.kids, f'.nodes, f'.kids, d, v, |KidsOf(f.nodes, f.kids, d)|)
    ensures BuiltAt(f', rs, at + [v], i)
  {
    hide RecordsSound, PayloadOf, Named, Wf, KidsSoFar, RangeStart;
    var k, at' := |at|, at + [v];
    var p := rs[k].parent;
    ParentRange(rs, names, strings, k);
    RangeAhead(rs, names, strings, i);
    KidsGrow(rs, at, v, p, i);
    var x := at'[i];
    assert i < k ==> BuiltAt(f, rs, at, i);
    assert BuiltAt(f, rs, at, p);
    assert SameButLinks(f.nodes[x], f'.nodes[x]);
    if i == p { MoreKids(f, f', at[p], v); } else { OtherKids(f, f', at[p], v, x); }
  }

  lemma MoreKids(f: Shape, f': Shape, d: Slot, v: Slot)
    requires Wf(f) && IsValue(f.nodes, d) && LinkedUnder(f.nodes, f.kids, f'.nodes, f'.kids, d, v, |KidsOf(f.nodes, f.kids, d)|)
    ensures KidsOf(f'.nodes, f'.kids, d) == KidsOf(f.nodes, f.kids, d) + [v]
  {
    assert Paired(f.nodes, d);
    assert SameButLinks(f.nodes[d], f'.nodes[d]);
  }

  lemma OtherKids(f: Shape, f': Shape, d: Slot, v: Slot, x: Slot)
    requires Wf(f) && IsValue(f.nodes, x) && IsValue(f.nodes, d) && x != d
    requires LinkedUnder(f.nodes, f.kids, f'.nodes, f'.kids, d, v, |KidsOf(f.nodes, f.kids, d)|)
    ensures KidsOf(f'.nodes, f'.kids, x) == KidsOf(f.nodes, f.kids, x)
  {
    assert Paired(f.nodes, x) && Paired(f.nodes, d);
    assert SameButLinks(f.nodes[x], f'.nodes[x]);
  }

  /** When every record is there, each value's content is the tree below its record. */
  lemma {:induction false} BuiltContent(f: Shape, rs: seq<Record>, names: U32, strings: U32, at: seq<Slot>, i: nat)
    requires RecordsSound(rs, names, strings) && Built(f, rs, at) && |at| == |rs| && i < |rs|
    ensures IsValue(f.nodes, at[i]) && ContentOf(f, at[i]) == TreeAt(rs, names, strings, i)
    decreases |rs| - i
  {
    hide Wf, KidsOf, Named;
    assert BuiltAt(f, rs, at, i);
    RangeAhead(rs, names, strings, i);
    RangeGrows(rs, i, i + 1);
    ContentKids(f, at[i]);
    var ks, t := KidsOf(f.nodes, f.kids, at[i]), TreeAt(rs, names, strings, i);
    var start := RangeStart(rs, i);
    hide Wf, RecordsSound, PayloadOf, Named;
    forall j | 0 <= j < |ks| ensures ContentOf(f, ks[j]) == t.kids[j] {
      BuiltContent(f, rs, names, strings, at, start + j);
    }
    assert ContentOf(f, at[i]).kids == t.kids;
  }

  /** And every value lies below the root. */
  lemma {:induction false} BuiltUnder(f: Shape, rs: seq<Record>, names: U32, strings: U32, at: seq<Slot>, i: nat)
    requires RecordsSound(rs, names, strings) && Built(f, rs, at) && |at| == |rs| && i < |rs|
    ensures Under(f.nodes, at[i], at[0])
  {
    hide RecordsSound, PayloadOf, Wf;
    UnderStep(f.nodes, at[i], at[0]);
    if i > 0 {
      ParentRange(rs, names, strings, i);
      var p := rs[i].parent;
      BuiltUnder(f, rs, names, strings, at, p);
      assert BuiltAt(f, rs, at, p);
      RangeAhead(rs, names, strings, p);
      var j := i - RangeStart(rs, p);
      assert KidsSoFar(rs, at, p)[j] == at[i];
      NotTopKid(f, at[p], j);
    }
  }

  lemma NotTopKid(f: Shape, v: Slot, j: nat)
    requires Wf(f) && IsValue(f.nodes, v) && j < |KidsOf(f.nodes, f.kids, v)|
    ensures Up(f.nodes, KidsOf(f.nodes, f.kids, v)[j]) == v && v != NO_SLOT
  {
    KidsUp(f.nodes, f.kids, v, j);
  }
}
