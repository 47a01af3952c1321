/**
 Calls that a live document does not survive (core/data_model/live_document.cpp):
 the conditions are those that `AttachPayload` and `InsertChildBefore` state, and the
 documents here meet them.
 */
module Misuses {
  import opened LiveNode
  import opened Forest
  import opened DocumentState
  import L = LiveDocument

  const LIST := Payload(Array, 0, false, PLAIN)

  /** A detached value of this payload that has no children and is not the root. */
  ghost predicate Idle(d: L.LiveDocument, key: Key, payload: Payload)
    reads d
  {
    && key != NO_KEY && key in d.slotOf && key != d.root && IsValue(d.nodes, d.slotOf[key]) && Unattached(d.nodes[d.slotOf[key]])
    && d.nodes[d.slotOf[key]].payload == payload && !d.nodes[d.slotOf[key]].named && KidsOf(d.nodes, d.kids, d.slotOf[key]) == []
  }

  /** Makes an idle value beside those that are there. */
  method MakeIdle(d: L.LiveDocument, payload: Payload, ghost made: seq<(Key, Payload)>) returns (key: Key)
    requires d.IsReady() && d.Inv() && d.Spare() >= d.Cost(payload) && PayloadValid(payload, |d.strings|)
    requires forall i :: 0 <= i < |made| ==> Idle(d, made[i].0, made[i].1)
    modifies d`nodes, d`keyAt, d`slotOf, d`nextKey, d`kids, d`rank, d`bound
    ensures d.IsReady() && d.Inv() && Idle(d, key, payload) && forall i :: 0 <= i < |made| ==> Idle(d, made[i].0, made[i].1) && key != made[i].0
    ensures d.slotOf[key] !in old(d.nodes) && forall k :: k in old(d.slotOf) ==> k in d.slotOf && d.slotOf[k] == old(d.slotOf)[k]
    ensures d.Spare() >= old(d.Spare()) - d.Cost(payload)
  {
    hide d.Inv, PayloadValid, d.Created, d.Cost;
    d.Known();
    ghost var f, keyAt0, slotOf0 := d.Shape(), d.keyAt, d.slotOf;
    key := d.CreateValue(payload, 0, false);
    d.CreatedFacts(f, keyAt0, slotOf0, key, payload, 0, false);
  }

  /** A sound document beside whose root there is an empty value that the root could be moved into. */
  method RootTransferable(breaks: LineBreaks) returns (d: L.LiveDocument, target: Key)
    ensures fresh(d) && d.IsReady() && d.Inv() && d.Transferable(target, d.root) && target != NO_KEY
  {
    hide L.LiveDocument.Inv;
    d := new L.LiveDocument(breaks, true);
    target := MakeIdle(d, EMPTY_PAYLOAD, []);
    d.Known();
    RootDetached(d);
    UnderStep(d.nodes, d.slotOf[target], d.slotOf[d.root]);
  }

  /** The document that is left when the root has been moved is not well formed, and does not say so. */
  method RootConsumed(breaks: LineBreaks) returns (d: L.LiveDocument, key: Key)
    ensures fresh(d) && key != NO_KEY && !d.bad && !d.Valid()
  {
    hide L.LiveDocument.Inv, L.LiveDocument.Transferable;
    var target;
    d, target := RootTransferable(breaks);
    key := d.AttachPayload(target, d.root);
  }

  lemma RootDetached(d: L.LiveDocument)
    requires d.Inv()
    ensures d.Contains(d.root) && !d.nodes[d.SlotOf(d.root)].payload.vtype.EmptyValue? && Unattached(d.nodes[d.SlotOf(d.root)]) && !d.nodes[d.SlotOf(d.root)].named
  {
    RootFacts(d.nodes, d.keyAt, d.slotOf, d.root);
  }

  /** What an idle value is to one that takes it: it is taken. */
  lemma IdleTaken(d: L.LiveDocument, list: Key, key: Key)
    requires d.IsReady() && d.Inv() && list != NO_KEY && list in d.slotOf && list != d.root && list != key && Idle(d, key, EMPTY_PAYLOAD)
    requires IsValue(d.nodes, d.slotOf[list]) && d.nodes[d.slotOf[list]].payload == LIST && Unattached(d.nodes[d.slotOf[list]])
    ensures d.Verdict(list, key).Accepted?
  {
    d.Known();
    UnderStep(d.nodes, d.slotOf[list], d.slotOf[key]);
    hide d.Inv;
  }

  /** An idle value in an unattached list becomes its last child. */
  method Put(d: L.LiveDocument, list: Key, key: Key)
    requires d.IsReady() && d.Inv() && list != NO_KEY && list in d.slotOf && list != d.root && list != key && Idle(d, key, EMPTY_PAYLOAD)
    requires IsValue(d.nodes, d.slotOf[list]) && d.nodes[d.slotOf[list]].payload == LIST && Unattached(d.nodes[d.slotOf[list]])
    modifies d`nodes, d`kids, d`rank, d`bound, d`bad
    ensures d.IsReady() && d.Inv() && old(d.slotOf[key] in d.nodes && d.slotOf[list] in d.nodes)
    ensures LinkedUnder(old(d.nodes), old(d.kids), d.nodes, d.kids, d.slotOf[list], d.slotOf[key], |KidsOf(old(d.nodes), old(d.kids), d.slotOf[list])|)
  {
    IdleTaken(d, list, key);
    hide d.Inv, LinkedUnder, d.Verdict;
    var r := d.AppendChild(list, key);
  }

  /** A value that a link leaves alone is as it was. */
  lemma LinkKeeps(nodes: Nodes, kids: Kids, nodes': Nodes, kids': Kids, d: Slot, c: Slot, at: nat, v: Slot)
    requires LinkedUnder(nodes, kids, nodes', kids', d, c, at) && IsValue(nodes, v) && v != c && Unattached(nodes[v])
    ensures IsValue(nodes', v) && Unattached(nodes'[v]) && nodes'[v].payload == nodes[v].payload && nodes'[v].named == nodes[v].named
    ensures nodes'[v].owned == nodes[v].owned
  {
    assert SameButLinks(nodes[v], nodes'[v]);
  }

  /** The children of a list after two values are put into it: the second has the first before it. */
  lemma SecondFollows(nodes0: Nodes, kids0: Kids, nodes1: Nodes, kids1: Kids, nodes: Nodes, kids: Kids, list: Slot, x: Slot, y: Slot)
    requires IsValue(nodes0, list) && nodes0[list].payload == LIST && KidsOf(nodes0, kids0, list) == []
    requires LinkedUnder(nodes0, kids0, nodes1, kids1, list, x, 0) && Listed(nodes, kids)
    requires IsValue(nodes1, list) && nodes1[list].payload == LIST && nodes1[list].owned == nodes0[list].owned
    requires LinkedUnder(nodes1, kids1, nodes, kids, list, y, |KidsOf(nodes1, kids1, list)|)
    ensures IsValue(nodes, y) && nodes[y].prev == x && nodes[y].parent == nodes0[list].owned && x >= 0
  {
    var a := nodes0[list].owned;
    assert kids0[a] == [] && kids1[a] == [x] && kids[a] == [x, y];
    KidIsValue(nodes, kids, a, 0);
    KidIsValue(nodes, kids, a, 1);
  }

  /** Three detached values and a list that holds two of them, beside another list. */
  method SiblingElsewhere(breaks: LineBreaks) returns (d: L.LiveDocument, other: Key, candidate: Key, before: Key)
    ensures fresh(d) && d.IsReady() && d.Inv() && d.Contains(before) && d.Screened(other, candidate).Accepted?
    ensures d.nodes[d.SlotOf(before)].prev != NO_SLOT && d.nodes[d.SlotOf(before)].parent != d.nodes[d.SlotOf(other)].owned
  {
    hide L.LiveDocument.Inv, LinkedUnder, Idle;
    d := new L.LiveDocument(breaks, true);
    var list := MakeIdle(d, LIST, []);
    ghost var made := [(list, LIST)];
    other := MakeIdle(d, LIST, made);
    assert made[0] == (list, LIST);
    made := [(list, LIST), (other, LIST)];
    var first := MakeIdle(d, EMPTY_PAYLOAD, made);
    assert made[0] == (list, LIST) && made[1] == (other, LIST);
    made := [(list, LIST), (other, LIST), (first, EMPTY_PAYLOAD)];
    before := MakeIdle(d, EMPTY_PAYLOAD, made);
    assert made[0] == (list, LIST) && made[1] == (other, LIST) && made[2] == (first, EMPTY_PAYLOAD);
    made := [(list, LIST), (other, LIST), (first, EMPTY_PAYLOAD), (before, EMPTY_PAYLOAD)];
    candidate := MakeIdle(d, EMPTY_PAYLOAD, made);
    assert made[0] == (list, LIST) && made[1] == (other, LIST) && made[2] == (first, EMPTY_PAYLOAD) && made[3] == (before, EMPTY_PAYLOAD);
    Fill(d, list, other, first, before, candidate);
  }

  /** Puts two of three values into one of two lists. */
  method Fill(d: L.LiveDocument, list: Key, other: Key, first: Key, before: Key, candidate: Key)
    requires d.IsReady() && d.Inv() && Idle(d, list, LIST) && Idle(d, other, LIST)
    requires Idle(d, first, EMPTY_PAYLOAD) && Idle(d, before, EMPTY_PAYLOAD) && Idle(d, candidate, EMPTY_PAYLOAD)
    requires list != other && first != before && before != candidate && first != candidate
    modifies d`nodes, d`kids, d`rank, d`bound, d`bad
    ensures d.IsReady() && d.Inv() && d.Contains(before) && d.Screened(other, candidate).Accepted?
    ensures d.nodes[d.SlotOf(before)].prev != NO_SLOT && d.nodes[d.SlotOf(before)].parent != d.nodes[d.SlotOf(other)].owned
  {
    ListsApart(d, list, other);
    ghost var l, o, x, y, z := d.slotOf[list], d.slotOf[other], d.slotOf[first], d.slotOf[before], d.slotOf[candidate];
    FiveApart(d, list, other, first, before, candidate);
    hide d.Inv, LinkedUnder, KidsOf, Unattached;
    ghost var nodes0, kids0 := d.nodes, d.kids;
    Put(d, list, first);
    ghost var nodes1, kids1 := d.nodes, d.kids;
    LinkKeeps(nodes0, kids0, nodes1, kids1, l, x, 0, l);
    LinkKeeps(nodes0, kids0, nodes1, kids1, l, x, 0, o);
    LinkKeeps(nodes0, kids0, nodes1, kids1, l, x, 0, y);
    LinkKeeps(nodes0, kids0, nodes1, kids1, l, x, 0, z);
    StillIdle(d, before);
    Put(d, list, before);
    ghost var n := |KidsOf(nodes1, kids1, l)|;
    LinkKeeps(nodes1, kids1, d.nodes, d.kids, l, y, n, o);
    LinkKeeps(nodes1, kids1, d.nodes, d.kids, l, y, n, z);
    d.ForestKnown();
    SecondFollows(nodes0, kids0, nodes1, kids1, d.nodes, d.kids, l, x, y);
  }

  lemma FiveApart(d: L.LiveDocument, list: Key, other: Key, first: Key, before: Key, candidate: Key)
    requires d.Inv() && Idle(d, list, LIST) && Idle(d, other, LIST)
    requires Idle(d, first, EMPTY_PAYLOAD) && Idle(d, before, EMPTY_PAYLOAD) && Idle(d, candidate, EMPTY_PAYLOAD)
    requires list != other && first != before && before != candidate && first != candidate
    ensures var l, o, x, y, z := d.slotOf[list], d.slotOf[other], d.slotOf[first], d.slotOf[before], d.slotOf[candidate];
      l != o && l != x && l != y && l != z && o != x && o != y && x != y && x != z && y != z && o != z
  {
    d.Known();
    hide d.Inv;
    assert d.keyAt[d.slotOf[first]] == first && d.keyAt[d.slotOf[before]] == before && d.keyAt[d.slotOf[candidate]] == candidate;
    assert d.keyAt[d.slotOf[list]] == list && d.keyAt[d.slotOf[other]] == other;
  }

  lemma StillIdle(d: L.LiveDocument, key: Key)
    requires key != NO_KEY && key in d.slotOf && key != d.root && IsValue(d.nodes, d.slotOf[key]) && Unattached(d.nodes[d.slotOf[key]])
    requires d.nodes[d.slotOf[key]].payload == EMPTY_PAYLOAD && !d.nodes[d.slotOf[key]].named
    ensures Idle(d, key, EMPTY_PAYLOAD)
  {
  }

  /** Two lists have different aggregates. */
  lemma ListsApart(d: L.LiveDocument, a: Key, b: Key)
    requires d.Inv() && a != b && Idle(d, a, LIST) && Idle(d, b, LIST)
    ensures d.nodes[d.slotOf[a]].owned != d.nodes[d.slotOf[b]].owned
  {
    d.Known();
    d.ForestKnown();
    hide d.Inv;
    assert d.keyAt[d.slotOf[a]] == a && d.keyAt[d.slotOf[b]] == b;
    assert Paired(d.nodes, d.slotOf[a]) && Paired(d.nodes, d.slotOf[b]);
  }

  /** Inserting before a later child of another container condemns a sound document. */
  method DocumentCondemned(breaks: LineBreaks) returns (d: L.LiveDocument, r: Rejection)
    ensures fresh(d) && r == CorruptStructure && d.bad
  {
    hide L.LiveDocument.Inv, L.LiveDocument.Verdict, LinkedUnder;
    var other, candidate, before;
    d, other, candidate, before := SiblingElsewhere(breaks);
    r := d.InsertChildBefore(other, candidate, before);
  }
}
