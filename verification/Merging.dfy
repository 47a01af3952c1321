/**
 Collision extension: what the steps of extend_object_child do to the tree
 when a member of the candidate's name is already there.
 */
module Merging {
  import opened LiveNode
  import opened Forest
  import opened Traversal
  import opened DocumentState
  import opened Content

  const ARRAY_PAYLOAD: Payload := Payload(Array, 0, false, PLAIN)

  function Anonymous(t: Tree): Tree {
    t.(name := 0, named := false)
  }

  /** A receiving array takes any other payload as its last element; otherwise the
      receiver becomes the array of its old payload and the incoming one. */
  function Merge(receiver: Tree, incoming: Tree): Tree {
    if receiver.payload.vtype.Array? && !incoming.payload.vtype.Array? then
      receiver.(kids := receiver.kids + [Anonymous(incoming)])
    else
      receiver.(payload := ARRAY_PAYLOAD, kids := [Anonymous(receiver), Anonymous(incoming)])
  }

  /** Same payload, ownership and name: everything about a value but its place. */
  predicate SameCore(m: Node, n: Node) {
    m.Value? && n.Value? && m.payload == n.payload && m.owned == n.owned && m.name == n.name && m.named == n.named
  }

  /** A detached, anonymous, empty value. */
  predicate IsShell(nodes: Nodes, s: Slot) {
    && IsValue(nodes, s) && Unattached(nodes[s]) && nodes[s].payload == EMPTY_PAYLOAD && nodes[s].owned == NO_SLOT
    && nodes[s].name == 0 && !nodes[s].named
  }

  /** A shell of key `k` and nothing else has been added. */
  ghost predicate ShellMade(nodes: Nodes, kids: Kids, keyAt: map<Slot, Key>, slotOf: map<Key, Slot>,
                            nodes': Nodes, kids': Kids, keyAt': map<Slot, Key>, slotOf': map<Key, Slot>, k: Key) {
    && k !in slotOf && k in slotOf' && slotOf'[k] !in nodes && IsShell(nodes', slotOf'[k]) && kids' == kids
    && nodes' - {slotOf'[k]} == nodes && keyAt' - {slotOf'[k]} == keyAt && slotOf' - {k} == slotOf
  }

  lemma ShellKnown(nodes: Nodes, kids: Kids, keyAt: map<Slot, Key>, slotOf: map<Key, Slot>,
                   nodes': Nodes, kids': Kids, keyAt': map<Slot, Key>, slotOf': map<Key, Slot>, k: Key)
    requires ShellMade(nodes, kids, keyAt, slotOf, nodes', kids', keyAt', slotOf', k)
    ensures k !in slotOf && k in slotOf' && slotOf'[k] !in nodes && slotOf'[k] in nodes' && IsShell(nodes', slotOf'[k])
  {
  }

  lemma ShellKept(nodes: Nodes, nodes': Nodes, s: Slot)
    requires IsShell(nodes, s) && s in nodes' && nodes'[s] == nodes[s]
    ensures IsShell(nodes', s)
  {
  }

  predicate IsArrayShell(nodes: Nodes, kids: Kids, s: Slot) {
    && IsValue(nodes, s) && Unattached(nodes[s]) && nodes[s].payload == ARRAY_PAYLOAD && nodes[s].name == 0 && !nodes[s].named
    && nodes[s].owned in kids && kids[nodes[s].owned] == []
  }

  /** The member of object `d` that carries `name`, or -1. */
  ghost function MemberNamed(f: Shape, d: Slot, name: nat): Slot {
    var ks := KidsOf(f.nodes, f.kids, d);
    if IsValue(f.nodes, d) && f.nodes[d].payload.vtype.Object? && exists i :: 0 <= i < |ks| && NameAt(f.nodes, ks[i]) == name then
      var i :| 0 <= i < |ks| && NameAt(f.nodes, ks[i]) == name;
      ks[i]
    else NO_SLOT
  }

  lemma NoMember(f: Shape, d: Slot, name: nat)
    requires !IsValue(f.nodes, d) || !f.nodes[d].payload.vtype.Object?
    ensures MemberNamed(f, d, name) == NO_SLOT
  {
  }

  lemma MemberAbsent(f: Shape, d: Slot, name: nat)
    requires forall i :: 0 <= i < |KidsOf(f.nodes, f.kids, d)| ==> NameAt(f.nodes, KidsOf(f.nodes, f.kids, d)[i]) != name
    ensures MemberNamed(f, d, name) == NO_SLOT
  {
  }

  /** Names of members differ, so the one found is the only one. */
  lemma MemberFound(f: Shape, d: Slot, name: nat, i: nat)
    requires Wf(f) && IsValue(f.nodes, d) && f.nodes[d].payload.vtype.Object?
    requires i < |KidsOf(f.nodes, f.kids, d)| && NameAt(f.nodes, KidsOf(f.nodes, f.kids, d)[i]) == name
    ensures MemberNamed(f, d, name) == KidsOf(f.nodes, f.kids, d)[i] && KidsOf(f.nodes, f.kids, d)[i] >= 0
  {
    ContainerFacts(f.nodes, f.kids, f.rank, f.bound, d);
    assert Members(f.nodes, f.kids, f.nodes[d].owned);
    KidFacts(f.nodes, f.kids, f.rank, f.bound, d, i);
  }

  lemma MemberIsNamed(f: Shape, d: Slot, i: nat)
    requires Wf(f) && IsValue(f.nodes, d) && f.nodes[d].payload.vtype.Object? && i < |KidsOf(f.nodes, f.kids, d)|
    ensures NamedAt(f.nodes, KidsOf(f.nodes, f.kids, d)[i])
  {
    ContainerFacts(f.nodes, f.kids, f.rank, f.bound, d);
    assert Members(f.nodes, f.kids, f.nodes[d].owned);
  }

  /** The collision case: `c` is detached, `e` is a child of `d`, and `d` is not inside `c`. */
  ghost predicate Colliding(f: Shape, d: Slot, e: Slot, c: Slot) {
    && Wf(f) && IsValue(f.nodes, d) && IsValue(f.nodes, e) && IsValue(f.nodes, c)
    && Unattached(f.nodes[c]) && e != c && Up(f.nodes, e) == d && !Under(f.nodes, d, c)
  }

  /** Values at the top of their trees are there still, but for the two that meet. */
  ghost predicate TopsStay(f0: Shape, f: Shape, e: Slot, c: Slot) {
    forall x :: IsValue(f0.nodes, x) && Unattached(f0.nodes[x]) && x != c && x != e ==> x in f.nodes && Unattached(f.nodes[x])
  }

  /** What every step keeps: all values but `c` and `e`, all lists of children, the names of
      `c` and `e`, the way up from `e`, and the tops of the other trees. */
  ghost predicate Frame(f0: Shape, f: Shape, d: Slot, e: Slot, c: Slot) {
    && (forall x :: IsValue(f0.nodes, x) && x != c && x != e ==> x in f.nodes && SameCore(f0.nodes[x], f.nodes[x]))
    && (forall b :: b in f0.kids ==> b in f.kids && f.kids[b] == f0.kids[b])
    && IsValue(f.nodes, c) && Unattached(f.nodes[c])
    && IsValue(f0.nodes, e) && IsValue(f.nodes, e) && f.nodes[e].name == f0.nodes[e].name && f.nodes[e].named == f0.nodes[e].named
    && Up(f.nodes, e) == d
    && (forall x :: IsValue(f0.nodes, x) && Under(f0.nodes, d, x) ==> Up(f.nodes, x) == Up(f0.nodes, x))
    && TopsStay(f0, f, e, c)
  }

  lemma FrameStart(f0: Shape, d: Slot, e: Slot, c: Slot)
    requires Colliding(f0, d, e, c)
    ensures Frame(f0, f0, d, e, c)
  {
  }

  lemma UpGrown(nodes: Nodes, kids: Kids, nodes': Nodes, x: Slot)
    requires Linked(nodes, kids) && IsValue(nodes, x) && NO_SLOT !in nodes'
    requires forall s :: s in nodes ==> s in nodes' && nodes'[s] == nodes[s]
    ensures Up(nodes', x) == Up(nodes, x)
  {
    assert Placed(nodes, kids, x);
  }

  /** New records do not disturb the old ones. */
  lemma FrameGrown(f0: Shape, f: Shape, f': Shape, d: Slot, e: Slot, c: Slot)
    requires Colliding(f0, d, e, c) && Frame(f0, f, d, e, c) && Wf(f) && Wf(f')
    requires forall s :: s in f.nodes ==> s in f'.nodes && f'.nodes[s] == f.nodes[s]
    requires forall b :: b in f.kids ==> b in f'.kids && f'.kids[b] == f.kids[b]
    ensures Frame(f0, f', d, e, c)
  {
    assert NO_SLOT !in f'.nodes;
    UpGrown(f.nodes, f.kids, f'.nodes, e);
    forall x | IsValue(f0.nodes, x) && Under(f0.nodes, d, x) ensures Up(f'.nodes, x) == Up(f0.nodes, x) {
      NotColliding(f0, d, e, c, x);
      UpGrown(f.nodes, f.kids, f'.nodes, x);
    }
  }

  /** Neither `c` nor `e` is an ancestor of `d`. */
  lemma NotColliding(f0: Shape, d: Slot, e: Slot, c: Slot, x: Slot)
    requires Colliding(f0, d, e, c) && IsValue(f0.nodes, x) && Under(f0.nodes, d, x)
    ensures x != c && x != e && Up(f0.nodes, x) != c && Up(f0.nodes, x) != e
  {
    UnderRank(f0.nodes, f0.kids, f0.rank, f0.bound, d, x);
    if Up(f0.nodes, x) == c || Up(f0.nodes, x) == e {
      var y := Up(f0.nodes, x);
      assert NO_SLOT !in f0.nodes;
      UnderStep(f0.nodes, x, y);
      UnderStep(f0.nodes, y, y);
      UnderTransitive(f0.nodes, f0.kids, f0.rank, f0.bound, d, x, y);
      UnderRank(f0.nodes, f0.kids, f0.rank, f0.bound, d, y);
    }
  }

  lemma DistinctPlayers(f0: Shape, d: Slot, e: Slot, c: Slot)
    requires Colliding(f0, d, e, c)
    ensures d != c && d != e
  {
    UnderStep(f0.nodes, d, d);
    NotColliding(f0, d, e, c, d);
  }

  /** The payload of `s` is now in `t`, its children are children of `t`, and nothing else changed. */
  ghost predicate Moved(nodes: Nodes, nodes': Nodes, t: Slot, s: Slot) {
    && IsValue(nodes, t) && IsValue(nodes, s) && t != s && nodes'.Keys == nodes.Keys
    && nodes'[t] == nodes[t].(payload := nodes[s].payload, owned := nodes[s].owned)
    && nodes'[s] == nodes[s].(payload := EMPTY_PAYLOAD, owned := NO_SLOT)
    && (forall x :: IsValue(nodes, x) && x != t && x != s ==> nodes'[x] == nodes[x])
    && (forall x :: Up(nodes', x) == if Up(nodes, x) == s then t else Up(nodes, x))
  }

  lemma MovedPayload(f: Shape, t: Slot, s: Slot)
    requires Wf(f) && CanMove(f.nodes, f.kids, t, s)
    ensures Moved(f.nodes, MoveNodes(f.nodes, t, s), t, s)
  {
    assert Paired(f.nodes, s);
    forall x ensures Up(MoveNodes(f.nodes, t, s), x) == if Up(f.nodes, x) == s then t else Up(f.nodes, x) { UpMove(f.nodes, f.kids, t, s, x); }
  }

  /** Moving nothing is no move. */
  lemma MovedNothing(f: Shape, strings: nat, t: Slot, s: Slot)
    requires Wf(f) && IsShell(f.nodes, t) && IsValue(f.nodes, s) && t != s
    requires f.nodes[s].payload.vtype.EmptyValue? && PayloadValid(f.nodes[s].payload, strings)
    ensures Moved(f.nodes, f.nodes, t, s)
  {
    assert Paired(f.nodes, s);
    forall x ensures Up(f.nodes, x) == if Up(f.nodes, x) == s then t else Up(f.nodes, x) {
      if Up(f.nodes, x) == s {
        assert NO_SLOT !in f.nodes;
        UpIsValue(f.nodes, f.kids, x);
      }
    }
  }

  lemma MoveUp(f0: Shape, f: Shape, nodes': Nodes, d: Slot, e: Slot, c: Slot, t: Slot, s: Slot)
    requires Colliding(f0, d, e, c) && Frame(f0, f, d, e, c) && Wf(f)
    requires (s == c || s == e) && Moved(f.nodes, nodes', t, s)
    ensures Up(nodes', e) == d
    ensures forall x :: IsValue(f0.nodes, x) && Under(f0.nodes, d, x) ==> Up(nodes', x) == Up(f0.nodes, x)
  {
    DistinctPlayers(f0, d, e, c);
    forall x | IsValue(f0.nodes, x) && Under(f0.nodes, d, x) ensures Up(nodes', x) == Up(f0.nodes, x) {
      NotColliding(f0, d, e, c, x);
    }
  }

  /** Moving the payload of `c` or `e` into a new shell. */
  lemma FrameMove(f0: Shape, f: Shape, f': Shape, d: Slot, e: Slot, c: Slot, t: Slot, s: Slot)
    requires Colliding(f0, d, e, c) && Frame(f0, f, d, e, c) && Wf(f)
    requires t !in f0.nodes && (s == c || s == e) && Moved(f.nodes, f'.nodes, t, s) && f'.kids == f.kids
    ensures Frame(f0, f', d, e, c)
    ensures Unattached(f.nodes[s]) ==> Unattached(f'.nodes[s])
  {
    hide IsForest;
    MoveUp(f0, f, f'.nodes, d, e, c, t, s);
    hide Wf, Colliding, Under, Up;
  }

  /** Linking a new value under a new container. */
  lemma FrameLink(f0: Shape, f: Shape, f': Shape, d: Slot, e: Slot, c: Slot, y: Slot, t: Slot, at: nat)
    requires Colliding(f0, d, e, c) && Frame(f0, f, d, e, c) && Wf(f) && Wf(f')
    requires t !in f0.nodes && IsValue(f.nodes, y) && f.nodes[y].owned !in f0.kids
    requires LinkedUnder(f.nodes, f.kids, f'.nodes, f'.kids, y, t, at)
    ensures Frame(f0, f', d, e, c)
  {
    hide Wf, Under;
    forall x | x in f.nodes ensures SameButLinks(f.nodes[x], f'.nodes[x]) {}
    forall x | IsValue(f0.nodes, x) && Under(f0.nodes, d, x) ensures Up(f'.nodes, x) == Up(f0.nodes, x) { NotColliding(f0, d, e, c, x); }
  }

  /** Nothing new is above `e`. */
  lemma NotAbove(f0: Shape, f: Shape, d: Slot, e: Slot, c: Slot, z: Slot)
    requires Colliding(f0, d, e, c) && Frame(f0, f, d, e, c) && z !in f0.nodes && z != e
    ensures !Under(f.nodes, e, z)
  {
    UnderStep(f.nodes, e, z);
    ChainSame(f0.nodes, f.nodes, f0.kids, f0.rank, f0.bound, d, z);
    if Under(f0.nodes, d, z) { UnderRank(f0.nodes, f0.kids, f0.rank, f0.bound, d, z); }
  }

  // ---------------------------------------------------------------------
  // The outcome

  /** The children of `k`, for a child `k` of `c` or `e`, are out of reach of the changes. */
  lemma {:induction false} ChildKept(f0: Shape, f: Shape, d: Slot, e: Slot, c: Slot, s: Slot, j: nat)
    requires Colliding(f0, d, e, c) && Wf(f) && (s == c || s == e) && j < |KidsOf(f0.nodes, f0.kids, s)|
    requires forall x :: IsValue(f0.nodes, x) && x != c && x != e ==> SameNode(f0, f, x)
    ensures var k := KidsOf(f0.nodes, f0.kids, s)[j];
      IsValue(f0.nodes, k) && IsValue(f.nodes, k) && ContentOf(f, k) == ContentOf(f0, k)
  {
    var k := KidsOf(f0.nodes, f0.kids, s)[j];
    NotTopSelf(f0, s, j);
    KidsUp(f0.nodes, f0.kids, s, j);
    UnderStep(f0.nodes, c, k);
    UnderStep(f0.nodes, e, k);
    assert NO_SLOT !in f0.nodes;
    if Under(f0.nodes, e, k) {
      if s == e {
        UnderRank(f0.nodes, f0.kids, f0.rank, f0.bound, e, k);
      } else {
        UnderStep(f0.nodes, d, d);
        assert e != k by { DistinctPlayers(f0, d, e, c); }
        UnderRank(f0.nodes, f0.kids, f0.rank, f0.bound, d, k);
        NotColliding(f0, d, e, c, k);
      }
    }
    ContentElsewhere(f0, f, {c, e}, k);
  }

  /** A shell that took over the payload of `s` has its content, without the name. */
  lemma {:induction false} ShellContent(f0: Shape, f: Shape, d: Slot, e: Slot, c: Slot, s: Slot, t: Slot)
    requires Colliding(f0, d, e, c) && Wf(f) && (s == c || s == e)
    requires forall x :: IsValue(f0.nodes, x) && x != c && x != e ==> SameNode(f0, f, x)
    requires IsValue(f.nodes, t) && f.nodes[t].payload == f0.nodes[s].payload && f.nodes[t].name == 0 && !f.nodes[t].named
    requires KidsOf(f.nodes, f.kids, t) == KidsOf(f0.nodes, f0.kids, s)
    ensures ContentOf(f, t) == Anonymous(ContentOf(f0, s))
  {
    ContentKids(f, t);
    ContentKids(f0, s);
    forall j | 0 <= j < |KidsOf(f0.nodes, f0.kids, s)|
      ensures ContentOf(f, KidsOf(f0.nodes, f0.kids, s)[j]) == ContentOf(f0, KidsOf(f0.nodes, f0.kids, s)[j]) {
      ChildKept(f0, f, d, e, c, s, j);
    }
    assert ContentOf(f, t).kids == ContentOf(f0, s).kids;
  }

  /** Every value but the two that met keeps its payload, name and children, and the
      retained member now has the merged content. */
  ghost predicate Extended(f0: Shape, f: Shape, e: Slot, c: Slot)
    requires Wf(f0) && IsValue(f0.nodes, e) && IsValue(f0.nodes, c)
  {
    && Wf(f) && IsValue(f.nodes, e) && c !in f.nodes
    && (forall x :: IsValue(f0.nodes, x) && x != c && x != e ==> SameNode(f0, f, x))
    && ContentOf(f, e) == Merge(ContentOf(f0, e), ContentOf(f0, c))
    && TopsStay(f0, f, e, c)
  }

  lemma WrapOutcome(f0: Shape, f: Shape, d: Slot, e: Slot, c: Slot, i: Slot, p: Slot)
    requires Colliding(f0, d, e, c) && Wf(f) && c !in f.nodes
    requires forall x :: IsValue(f0.nodes, x) && x != c && x != e ==> SameNode(f0, f, x)
    requires IsValue(f.nodes, i) && f.nodes[i].payload == f0.nodes[c].payload && f.nodes[i].name == 0 && !f.nodes[i].named
    requires KidsOf(f.nodes, f.kids, i) == KidsOf(f0.nodes, f0.kids, c)
    requires IsValue(f.nodes, p) && f.nodes[p].payload == f0.nodes[e].payload && f.nodes[p].name == 0 && !f.nodes[p].named
    requires KidsOf(f.nodes, f.kids, p) == KidsOf(f0.nodes, f0.kids, e)
    requires IsValue(f.nodes, e) && f.nodes[e].payload == ARRAY_PAYLOAD
    requires f.nodes[e].name == f0.nodes[e].name && f.nodes[e].named == f0.nodes[e].named
    requires KidsOf(f.nodes, f.kids, e) == [p, i]
    requires !f0.nodes[e].payload.vtype.Array? || f0.nodes[c].payload.vtype.Array?
    requires TopsStay(f0, f, e, c)
    ensures Extended(f0, f, e, c)
  {
    hide TopsStay;
    ShellContent(f0, f, d, e, c, c, i);
    ShellContent(f0, f, d, e, c, e, p);
    ContentKids(f, e);
    assert ContentOf(f, e).kids == [ContentOf(f, p), ContentOf(f, i)];
  }

  lemma {:induction false} ReceiverKids(f0: Shape, f: Shape, d: Slot, e: Slot, c: Slot)
    requires Colliding(f0, d, e, c) && Wf(f)
    requires forall x :: IsValue(f0.nodes, x) && x != c && x != e ==> SameNode(f0, f, x)
    ensures forall j :: 0 <= j < |KidsOf(f0.nodes, f0.kids, e)| ==>
      var k := KidsOf(f0.nodes, f0.kids, e)[j];
      IsValue(f0.nodes, k) && IsValue(f.nodes, k) && ContentOf(f, k) == ContentOf(f0, k)
  {
    var ks := KidsOf(f0.nodes, f0.kids, e);
    forall j | 0 <= j < |ks| ensures IsValue(f0.nodes, ks[j]) && IsValue(f.nodes, ks[j]) && ContentOf(f, ks[j]) == ContentOf(f0, ks[j]) {
      ChildKept(f0, f, d, e, c, e, j);
    }
  }

  lemma AppendOutcome(f0: Shape, f: Shape, d: Slot, e: Slot, c: Slot, i: Slot)
    requires Colliding(f0, d, e, c) && Wf(f) && c !in f.nodes
    requires forall x :: IsValue(f0.nodes, x) && x != c && x != e ==> SameNode(f0, f, x)
    requires IsValue(f.nodes, i) && f.nodes[i].payload == f0.nodes[c].payload && f.nodes[i].name == 0 && !f.nodes[i].named
    requires KidsOf(f.nodes, f.kids, i) == KidsOf(f0.nodes, f0.kids, c)
    requires IsValue(f.nodes, e) && f.nodes[e].payload == f0.nodes[e].payload
    requires f.nodes[e].name == f0.nodes[e].name && f.nodes[e].named == f0.nodes[e].named
    requires KidsOf(f.nodes, f.kids, e) == KidsOf(f0.nodes, f0.kids, e) + [i]
    requires f0.nodes[e].payload.vtype.Array? && !f0.nodes[c].payload.vtype.Array?
    requires TopsStay(f0, f, e, c)
    ensures Extended(f0, f, e, c)
  {
    hide TopsStay;
    ShellContent(f0, f, d, e, c, c, i);
    ReceiverKids(f0, f, d, e, c);
    ContentKids(f, e);
    ContentKids(f0, e);
    hide Wf, SameNode, Colliding;
    assert ContentOf(f, e).kids == ContentOf(f0, e).kids + [ContentOf(f, i)];
  }

  /** `t` stands where it stood but holds what `s` held in `f0`. */
  ghost predicate Carries(f0: Shape, f: Shape, s: Slot, t: Slot) {
    && IsValue(f0.nodes, s) && IsValue(f.nodes, t) && t !in f0.nodes
    && f.nodes[t].payload == f0.nodes[s].payload && f.nodes[t].owned == f0.nodes[s].owned
    && f.nodes[t].name == 0 && !f.nodes[t].named
  }

  /** All lists of the old forest stand, and so do the values that are not `c` or `e`. */
  ghost predicate Stands(f0: Shape, f: Shape, e: Slot, c: Slot) {
    && (forall x :: IsValue(f0.nodes, x) && x != c && x != e ==> x in f.nodes && SameCore(f0.nodes[x], f.nodes[x]))
    && (forall b :: b in f0.kids ==> b in f.kids && f.kids[b] == f0.kids[b])
  }

  lemma StandsSame(f0: Shape, f: Shape, e: Slot, c: Slot)
    requires Wf(f0) && Stands(f0, f, e, c)
    ensures forall x :: IsValue(f0.nodes, x) && x != c && x != e ==> SameNode(f0, f, x)
  {
    forall x | IsValue(f0.nodes, x) && x != c && x != e ensures SameNode(f0, f, x) {
      assert Paired(f0.nodes, x);
    }
  }

  lemma CarriedKids(f0: Shape, f: Shape, e: Slot, c: Slot, s: Slot, t: Slot)
    requires Wf(f0) && Stands(f0, f, e, c) && Carries(f0, f, s, t)
    ensures KidsOf(f.nodes, f.kids, t) == KidsOf(f0.nodes, f0.kids, s)
  {
    assert Paired(f0.nodes, s);
  }

  lemma WrapStands(f0: Shape, f5: Shape, f: Shape, nodes6: Nodes, d: Slot, e: Slot, c: Slot, i: Slot, p: Slot, y: Slot)
    requires Frame(f0, f5, d, e, c) && i != p && y != i && y != p && y !in f0.nodes && e != c && c in f0.nodes
    requires Carries(f0, f5, c, i) && Carries(f0, f5, e, p)
    requires IsValue(f5.nodes, y) && f5.nodes[y].payload == ARRAY_PAYLOAD && f5.nodes[y].owned in f5.kids && f5.kids[f5.nodes[y].owned] == [p, i]
    requires Moved(f5.nodes, nodes6, e, y) && f.nodes == nodes6 - {y} - {c} && f.kids == f5.kids
    ensures Stands(f0, f, e, c) && Carries(f0, f, c, i) && Carries(f0, f, e, p) && c !in f.nodes
    ensures IsValue(f.nodes, e) && f.nodes[e].payload == ARRAY_PAYLOAD && KidsOf(f.nodes, f.kids, e) == [p, i]
    ensures f.nodes[e].name == f0.nodes[e].name && f.nodes[e].named == f0.nodes[e].named && TopsStay(f0, f, e, c)
  {
  }

  /** The end of a wrapping extension. */
  lemma FinishWrap(f0: Shape, f5: Shape, f: Shape, d: Slot, e: Slot, c: Slot, i: Slot, p: Slot, y: Slot)
    requires Colliding(f0, d, e, c) && Frame(f0, f5, d, e, c) && Wf(f) && i != p && y != i && y != p && y !in f0.nodes
    requires Carries(f0, f5, c, i) && Carries(f0, f5, e, p)
    requires IsValue(f5.nodes, y) && f5.nodes[y].payload == ARRAY_PAYLOAD && f5.nodes[y].owned in f5.kids && f5.kids[f5.nodes[y].owned] == [p, i]
    requires exists nodes6: Nodes :: Moved(f5.nodes, nodes6, e, y) && f.nodes == nodes6 - {y} - {c}
    requires f.kids == f5.kids
    requires !f0.nodes[e].payload.vtype.Array? || f0.nodes[c].payload.vtype.Array?
    ensures Extended(f0, f, e, c)
  {
    var nodes6: Nodes :| Moved(f5.nodes, nodes6, e, y) && f.nodes == nodes6 - {y} - {c};
    WrapStands(f0, f5, f, nodes6, d, e, c, i, p, y);
    hide Frame, Moved, TopsStay;
    StandsSame(f0, f, e, c);
    CarriedKids(f0, f, e, c, c, i);
    CarriedKids(f0, f, e, c, e, p);
    WrapOutcome(f0, f, d, e, c, i, p);
  }

  /** The end of an appending extension. */
  lemma FinishAppend(f0: Shape, f2: Shape, f: Shape, d: Slot, e: Slot, c: Slot, i: Slot)
    requires Colliding(f0, d, e, c) && Frame(f0, f2, d, e, c) && Wf(f)
    requires Carries(f0, f2, c, i) && SameCore(f0.nodes[e], f2.nodes[e])
    requires f0.nodes[e].payload.vtype.Array? && !f0.nodes[c].payload.vtype.Array?
    requires exists nodes3: Nodes :: LinkedUnder(f2.nodes, f2.kids, nodes3, f.kids, e, i, |KidsOf(f2.nodes, f2.kids, e)|) && f.nodes == nodes3 - {c}
    ensures Extended(f0, f, e, c)
  {
    hide Wf, Colliding, Frame, Extended, KidsOf, Under, TopsStay;
    var nodes3: Nodes :| LinkedUnder(f2.nodes, f2.kids, nodes3, f.kids, e, i, |KidsOf(f2.nodes, f2.kids, e)|) && f.nodes == nodes3 - {c};
    forall x | x in f2.nodes ensures SameButLinks(f2.nodes[x], nodes3[x]) {}
    AppendedKids(f0, f2, f, nodes3, d, e, c, i);
    AppendedTops(f0, f2, f, nodes3, d, e, c, i);
    AppendOutcome(f0, f, d, e, c, i);
  }

  lemma AppendedKids(f0: Shape, f2: Shape, f: Shape, nodes3: Nodes, d: Slot, e: Slot, c: Slot, i: Slot)
    requires Colliding(f0, d, e, c) && Frame(f0, f2, d, e, c)
    requires Carries(f0, f2, c, i) && SameCore(f0.nodes[e], f2.nodes[e]) && f0.nodes[e].payload.vtype.Array? && !f0.nodes[c].payload.vtype.Array?
    requires LinkedUnder(f2.nodes, f2.kids, nodes3, f.kids, e, i, |KidsOf(f2.nodes, f2.kids, e)|) && f.nodes == nodes3 - {c}
    ensures forall x :: IsValue(f0.nodes, x) && x != c && x != e ==> SameNode(f0, f, x)
    ensures KidsOf(f.nodes, f.kids, e) == KidsOf(f0.nodes, f0.kids, e) + [i]
    ensures KidsOf(f.nodes, f.kids, i) == KidsOf(f0.nodes, f0.kids, c)
  {
    hide TopsStay;
    var own := f0.nodes[e].owned;
    assert Paired(f0.nodes, e);
    assert Paired(f0.nodes, c);
    assert SameButLinks(f2.nodes[e], nodes3[e]) && SameButLinks(f2.nodes[i], nodes3[i]);
    forall x | IsValue(f0.nodes, x) && x != c && x != e ensures SameNode(f0, f, x) {
      assert Paired(f0.nodes, x);
      assert SameButLinks(f2.nodes[x], nodes3[x]);
    }
  }

  lemma AppendedTops(f0: Shape, f2: Shape, f: Shape, nodes3: Nodes, d: Slot, e: Slot, c: Slot, i: Slot)
    requires Frame(f0, f2, d, e, c) && i !in f0.nodes
    requires LinkedUnder(f2.nodes, f2.kids, nodes3, f.kids, e, i, |KidsOf(f2.nodes, f2.kids, e)|) && f.nodes == nodes3 - {c}
    ensures TopsStay(f0, f, e, c)
  {
    hide KidsOf, Under;
  }

  lemma FrameApart(f0: Shape, f: Shape, d: Slot, e: Slot, c: Slot, t: Slot)
    requires Colliding(f0, d, e, c) && Frame(f0, f, d, e, c) && t !in f0.nodes
    ensures t != e && t != c && e != c && IsValue(f0.nodes, e) && IsValue(f0.nodes, c) && IsValue(f.nodes, e) && IsValue(f.nodes, c)
    ensures forall b :: b in f0.kids ==> b in f.kids && f.kids[b] == f0.kids[b]
  {
  }

  /** What an attachment leaves of some records. */
  lemma LinkedFacts(f: Shape, f': Shape, d: Slot, c: Slot, at: nat, some: set<Slot>)
    requires LinkedUnder(f.nodes, f.kids, f'.nodes, f'.kids, d, c, at) && forall x :: x in some ==> IsValue(f.nodes, x)
    ensures forall x :: x in some ==> IsValue(f'.nodes, x) && SameCore(f.nodes[x], f'.nodes[x])
    ensures forall x :: x in some && x != c && Unattached(f.nodes[x]) ==> Unattached(f'.nodes[x])
    ensures var a := f.nodes[d].owned; a in f.kids && at <= |f.kids[a]| && f'.kids == f.kids[a := InsertAt(f.kids[a], at, c)]
  {
    forall x | x in some ensures IsValue(f'.nodes, x) && SameCore(f.nodes[x], f'.nodes[x]) {
      assert SameButLinks(f.nodes[x], f'.nodes[x]);
    }
  }

  lemma FrameDetached(f0: Shape, f: Shape, d: Slot, e: Slot, c: Slot)
    requires Frame(f0, f, d, e, c)
    ensures IsValue(f.nodes, c) && Unattached(f.nodes[c])
  {
  }

  lemma MovedOthers(nodes: Nodes, nodes': Nodes, t: Slot, s: Slot, c: Slot)
    requires Moved(nodes, nodes', t, s) && IsValue(nodes, c) && c != t && c != s
    ensures c in nodes' && nodes'[c] == nodes[c] && nodes'.Keys == nodes.Keys
  {
  }

  /** `FrameGrown` from the start. */
  lemma GrownFrame(f0: Shape, f: Shape, d: Slot, e: Slot, c: Slot)
    requires Colliding(f0, d, e, c) && Wf(f)
    requires forall s :: s in f0.nodes ==> s in f.nodes && f.nodes[s] == f0.nodes[s]
    requires forall b :: b in f0.kids ==> b in f.kids && f.kids[b] == f0.kids[b]
    ensures Frame(f0, f, d, e, c) && IsValue(f0.nodes, c) && Unattached(f0.nodes[c]) && IsValue(f0.nodes, e) && e != c
  {
    FrameStart(f0, d, e, c);
    FrameGrown(f0, f0, f, d, e, c);
  }

  lemma MovedInto(nodes: Nodes, nodes': Nodes, t: Slot, s: Slot)
    requires Moved(nodes, nodes', t, s)
    ensures nodes'[t] == nodes[t].(payload := nodes[s].payload, owned := nodes[s].owned)
    ensures nodes'[s] == nodes[s].(payload := EMPTY_PAYLOAD, owned := NO_SLOT)
    ensures nodes'.Keys == nodes.Keys && forall x :: IsValue(nodes, x) && x != t && x != s ==> nodes'[x] == nodes[x]
  {
  }

  /** A member that carries the name is where the collision happens. */
  lemma CollidingStart(f: Shape, keyAt: map<Slot, Key>, slotOf: map<Key, Slot>, next: Key, root: Key, d: Slot, existing: Key, candidate: Key)
    requires Wf(f) && KeysValid(f.nodes, keyAt, slotOf, next) && RootValid(f.nodes, keyAt, slotOf, root)
    requires existing in slotOf && candidate in slotOf && IsValue(f.nodes, d) && IsValue(f.nodes, slotOf[candidate])
    requires Unattached(f.nodes[slotOf[candidate]]) && !Under(f.nodes, d, slotOf[candidate])
    requires slotOf[existing] == MemberNamed(f, d, f.nodes[slotOf[candidate]].name) && slotOf[existing] != NO_SLOT
    ensures existing != root && existing != NO_KEY && Colliding(f, d, slotOf[existing], slotOf[candidate])
    ensures Frame(f, f, d, slotOf[existing], slotOf[candidate])
  {
    var e := slotOf[existing];
    var ks := KidsOf(f.nodes, f.kids, d);
    var i :| 0 <= i < |ks| && ks[i] == e;
    KidsUp(f.nodes, f.kids, d, i);
    FrameStart(f, d, e, slotOf[candidate]);
  }

  lemma NoNamesake(f: Shape, d: Slot, c: Slot)
    requires Wf(f) && IsValue(f.nodes, d) && IsValue(f.nodes, c) && f.nodes[d].payload.vtype.Object? && f.nodes[c].named
    requires MemberNamed(f, d, f.nodes[c].name) == NO_SLOT && !Under(f.nodes, d, c)
    ensures Admission(f.nodes, f.kids, d, c).Accepted?
  {
    var ks := KidsOf(f.nodes, f.kids, d);
    forall i | 0 <= i < |ks| ensures NameAt(f.nodes, ks[i]) != f.nodes[c].name {
      KidsUp(f.nodes, f.kids, d, i);
    }
  }
}
