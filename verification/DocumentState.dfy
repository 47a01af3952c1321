/**
 What a live document must satisfy as a whole, and what each of its operations
 does to that, stated on plain maps: the proofs behind the methods of
 LiveDocument.
 */
module DocumentState {
  import opened LiveNode
  import opened Forest
  import opened Traversal
  import opened Sequences

  /** Zero is the invalid key. */
  type Key = k: nat | k < 0x1_0000_0000_0000_0000
  const NO_KEY: Key := 0
  const ROOT_KEY: Key := 1
  const SLOT_LIMIT := 0x8000_0000

  type Bytes = seq<bv8>

  /** Whether a text holds a line break; the empty text never does. */
  type LineBreaks = f: Bytes -> bool | !f([]) witness (t: Bytes) => false

  datatype Rejection =
    | Accepted
    | DocumentNotReady
    | DestinationNotFound
    | CandidateNotFound
    | DestinationNotContainer
    | CandidateIsRoot
    | CandidateNotDetached
    | ObjectEntryRequired
    | DuplicateObjectName
    | InsertBeforeNotChild
    | IndexOutOfRange
    | CycleFound
    | CorruptStructure

  lemma SubsetSize<T>(s: set<T>, t: set<T>)
    requires s <= t
    ensures |s| <= |t|
    decreases |s|
  {
    if s != {} {
      var x :| x in s;
      SubsetSize(s - {x}, t - {x});
    }
  }

  /** A list without repeats is no longer than any set that holds its elements. */
  lemma DistinctSize<T>(s: seq<T>, t: set<T>)
    requires Distinct(s) && forall x :: x in s ==> x in t
    ensures |s| <= |t|
  {
    if s != [] {
      DistinctSize(s[1..], t - {s[0]});
    }
  }

  lemma KidsFit(nodes: Nodes, kids: Kids, a: Slot)
    requires Listed(nodes, kids) && a in kids
    ensures |kids[a]| <= |nodes|
  {
    forall x | x in kids[a] ensures x in nodes.Keys {
      var i :| 0 <= i < |kids[a]| && kids[a][i] == x;
      KidIsValue(nodes, kids, a, i);
    }
    DistinctSize(kids[a], nodes.Keys);
  }

  /** Keys and slots name each other, and every key was issued before `nextKey` (zero: exhausted). */
  ghost predicate KeysValid(nodes: Nodes, keyAt: map<Slot, Key>, slotOf: map<Key, Slot>, nextKey: Key) {
    && keyAt.Keys == nodes.Keys
    && (forall s :: s in keyAt ==> keyAt[s] != NO_KEY && keyAt[s] in slotOf && slotOf[keyAt[s]] == s)
    && (forall k :: k in slotOf ==> slotOf[k] in keyAt && keyAt[slotOf[k]] == k)
    && (forall k :: k in slotOf && nextKey != NO_KEY ==> k < nextKey)
  }

  ghost predicate PayloadsValid(nodes: Nodes, names: nat, strings: nat) {
    forall v :: IsValue(nodes, v) ==>
      PayloadValid(nodes[v].payload, strings) && NameValid(nodes[v].name, nodes[v].named, names)
  }

  ghost predicate TablesValid(breaks: LineBreaks, names: seq<Bytes>, strings: seq<Bytes>) {
    && Distinct(names) && Distinct(strings) && |names| < 0xffff_ffff && |strings| < 0xffff_ffff
    && (forall i :: 0 <= i < |names| ==> names[i] != [] && !breaks(names[i]))
    && (forall i :: 0 <= i < |strings| ==> strings[i] != [])
  }

  /** The root is the value of key 1, an unnamed container at the top of its tree, paired with key 2. */
  ghost predicate RootValid(nodes: Nodes, keyAt: map<Slot, Key>, slotOf: map<Key, Slot>, root: Key) {
    && root == ROOT_KEY && root in slotOf && IsValue(nodes, slotOf[root])
    && var r := nodes[slotOf[root]];
    IsContainer(r.payload.vtype) && Unattached(r) && r.name == 0 && !r.named && r.owned in keyAt && keyAt[r.owned] == 2
  }

  lemma KeysSame(nodes: Nodes, nodes': Nodes, keyAt: map<Slot, Key>, slotOf: map<Key, Slot>, nextKey: Key)
    requires KeysValid(nodes, keyAt, slotOf, nextKey) && nodes'.Keys == nodes.Keys
    ensures KeysValid(nodes', keyAt, slotOf, nextKey)
  {
  }

  lemma SlotsDiffer(nodes: Nodes, keyAt: map<Slot, Key>, slotOf: map<Key, Slot>, nextKey: Key, k: Key, k': Key)
    requires KeysValid(nodes, keyAt, slotOf, nextKey) && k in slotOf && k' in slotOf && k != k'
    ensures slotOf[k] != slotOf[k']
  {
  }

  lemma PayloadsSame(nodes: Nodes, nodes': Nodes, names: nat, strings: nat)
    requires SameRecords(nodes, nodes') && PayloadsValid(nodes, names, strings)
    ensures PayloadsValid(nodes', names, strings)
  {
    forall v | IsValue(nodes', v) ensures PayloadValid(nodes'[v].payload, strings) && NameValid(nodes'[v].name, nodes'[v].named, names) {
      assert SameButLinks(nodes[v], nodes'[v]);
      assert IsValue(nodes, v);
    }
  }

  lemma RootSame(nodes: Nodes, nodes': Nodes, keyAt: map<Slot, Key>, slotOf: map<Key, Slot>, root: Key)
    requires SameRecords(nodes, nodes') && RootValid(nodes, keyAt, slotOf, root)
    requires Unattached(nodes'[slotOf[root]])
    ensures RootValid(nodes', keyAt, slotOf, root)
  {
    assert SameButLinks(nodes[slotOf[root]], nodes'[slotOf[root]]);
  }

  lemma KidsEnds(nodes: Nodes, kids: Kids, a: Slot)
    requires Listed(nodes, kids) && a in kids
    ensures RangeConsistent(nodes[a])
  {
    assert Ends(nodes[a], kids[a]);
    if kids[a] != [] {
      KidIsValue(nodes, kids, a, 0);
      KidIsValue(nodes, kids, a, |kids[a]| - 1);
    }
  }

  /** Why a detached value may not become a child of `d`, in terms of the tree: object
      members are named and unique, and no value may be placed inside itself. */
  ghost function Admission(nodes: Nodes, kids: Kids, d: Slot, c: Slot): Rejection
    requires IsValue(nodes, d) && IsValue(nodes, c)
  {
    var members := KidsOf(nodes, kids, d);
    if nodes[d].payload.vtype.Object? && !nodes[c].named then ObjectEntryRequired
    else if nodes[d].payload.vtype.Object? && exists i :: 0 <= i < |members| && NameAt(nodes, members[i]) == nodes[c].name then DuplicateObjectName
    else if Under(nodes, d, c) then CycleFound
    else Accepted
  }

  /** What an attachment makes of the links: `c` is child `at` of `d`, and all else is as it was. */
  ghost predicate LinkedUnder(old_: Nodes, oldKids: Kids, new_: Nodes, newKids: Kids, d: Slot, c: Slot, at: nat) {
    && IsValue(old_, d) && old_[d].owned in oldKids && at <= |oldKids[old_[d].owned]|
    && SameRecords(old_, new_)
    && newKids == oldKids[old_[d].owned := InsertAt(oldKids[old_[d].owned], at, c)]
    && (forall v :: Up(new_, v) == if v == c then d else Up(old_, v))
    && (forall v :: IsValue(old_, v) && Unattached(old_[v]) && v != c ==> Unattached(new_[v]))
  }

  lemma AttachForest(nodes: Nodes, kids: Kids, rank: Rank, bound: nat, d: Slot, c: Slot, at: nat) returns (rank': Rank, bound': nat)
    requires IsForest(nodes, kids, rank, bound) && IsValue(nodes, d) && IsContainer(nodes[d].payload.vtype)
    requires CanListIn(nodes, kids, nodes[d].owned, c, at) && Admits(nodes, kids, nodes[d].owned, c)
    requires !Under(nodes, d, c)
    ensures var nodes', kids' := NodesIn(nodes, kids, nodes[d].owned, c, at), kids[nodes[d].owned := InsertAt(kids[nodes[d].owned], at, c)];
      IsForest(nodes', kids', rank', bound') && LinkedUnder(nodes, kids, nodes', kids', d, c, at)
  {
    var a := nodes[d].owned;
    assert Paired(nodes, d);
    LinkedIn(nodes, kids, a, c, at);
    RecordsIn(nodes, kids, a, c, at);
    var nodes' := NodesIn(nodes, kids, a, c, at);
    RankedIn(nodes, kids, rank, bound, a, c, nodes');
    rank' := Lift(nodes, rank, c, rank[d] + 1);
    bound' := bound + rank[d] + 1;
  }

  lemma ContainerFacts(nodes: Nodes, kids: Kids, rank: Rank, bound: nat, d: Slot)
    requires IsForest(nodes, kids, rank, bound) && IsValue(nodes, d) && IsContainer(nodes[d].payload.vtype)
    ensures var a := nodes[d].owned;
      && IsAggregate(nodes, a) && AggregateValid(nodes[a]) && FormsPair(nodes[d], nodes[a], d, a)
      && a in kids && KidsOf(nodes, kids, d) == kids[a]
    ensures NO_SLOT !in nodes
  {
    assert Paired(nodes, d);
    KidsEnds(nodes, kids, nodes[d].owned);
  }

  lemma SlotFacts(nodes: Nodes, kids: Kids, rank: Rank, bound: nat, v: Slot)
    requires IsForest(nodes, kids, rank, bound)
    ensures NO_SLOT !in nodes
    ensures IsValue(nodes, v) ==> v >= 0 && (nodes[v].parent == NO_SLOT || nodes[v].parent >= 0)
    ensures IsValue(nodes, v) ==> (Unattached(nodes[v]) <==> nodes[v].parent == NO_SLOT)
  {
    if IsValue(nodes, v) { assert Placed(nodes, kids, v); }
  }

  lemma RootKeyFacts(nodes: Nodes, keyAt: map<Slot, Key>, slotOf: map<Key, Slot>, nextKey: Key, root: Key, v: Slot)
    requires KeysValid(nodes, keyAt, slotOf, nextKey) && RootValid(nodes, keyAt, slotOf, root) && v in nodes
    ensures v in keyAt && root in slotOf && root != NO_KEY && (keyAt[v] == root <==> v == slotOf[root])
    ensures Unattached(nodes[slotOf[root]])
  {
  }

  lemma DetachFacts(nodes: Nodes, kids: Kids, rank: Rank, bound: nat, v: Slot) returns (i: nat)
    requires IsForest(nodes, kids, rank, bound) && IsValue(nodes, v) && nodes[v].parent >= 0
    ensures IsKid(nodes, kids, nodes[v].parent, v, i)
    ensures var a, p, n := nodes[v].parent, nodes[v].prev, nodes[v].next;
      && IsAggregate(nodes, a) && AggregateValid(nodes[a]) && nodes[a].count != 0
      && (if p >= 0 then IsValue(nodes, p) && IsPreviousOf(nodes[p], nodes[v], p, v) else HasFirst(nodes[a], nodes[v], a, v))
      && (if n >= 0 then IsValue(nodes, n) && IsPreviousOf(nodes[v], nodes[n], v, n) else HasLast(nodes[a], nodes[v], a, v))
  {
    i := FindKid(nodes, kids, v);
    var a := nodes[v].parent;
    assert Paired(nodes, a);
    KidsEnds(nodes, kids, a);
    if i > 0 { KidIsValue(nodes, kids, a, i - 1); }
    if i + 1 < |kids[a]| { KidIsValue(nodes, kids, a, i + 1); }
  }

  /** The records and the children once `c` is unlinked from its parent, if it has one. */
  function Unlinked(nodes: Nodes, c: Slot): Nodes {
    if && IsValue(nodes, c) && IsAggregate(nodes, nodes[c].parent) && nodes[nodes[c].parent].count > 0
       && (nodes[c].prev >= 0 ==> IsValue(nodes, nodes[c].prev)) && (nodes[c].next >= 0 ==> IsValue(nodes, nodes[c].next))
    then LinkOut(nodes, c) else nodes
  }

  function UnlinkedKids(nodes: Nodes, kids: Kids, c: Slot): Kids {
    if IsValue(nodes, c) && nodes[c].parent in kids then kids[nodes[c].parent := Omit(kids[nodes[c].parent], c)] else kids
  }

  /** What a detachment makes of the links: `c` leaves the children of its parent, and all else is as it was. */
  ghost predicate LinkedOutOf(old_: Nodes, oldKids: Kids, new_: Nodes, newKids: Kids, c: Slot) {
    && IsValue(old_, c) && IsValue(new_, c) && Unattached(new_[c])
    && SameRecords(old_, new_)
    && old_[c].parent in oldKids && c in oldKids[old_[c].parent]
    && new_ == Unlinked(old_, c) && newKids == UnlinkedKids(old_, oldKids, c)
    && (forall v :: Up(new_, v) == if v == c then NO_SLOT else Up(old_, v))
    && (forall v :: IsValue(old_, v) && Unattached(old_[v]) ==> Unattached(new_[v]))
  }

  lemma DetachForest(nodes: Nodes, kids: Kids, rank: Rank, bound: nat, names: nat, strings: nat,
                     keyAt: map<Slot, Key>, slotOf: map<Key, Slot>, nextKey: Key, root: Key, v: Slot, i: nat)
    requires IsForest(nodes, kids, rank, bound) && PayloadsValid(nodes, names, strings) && RootValid(nodes, keyAt, slotOf, root)
    requires KeysValid(nodes, keyAt, slotOf, nextKey)
    requires IsValue(nodes, v) && IsKid(nodes, kids, nodes[v].parent, v, i) && v != slotOf[root]
    ensures var nodes', kids' := LinkOut(nodes, v), kids[nodes[v].parent := RemoveAt(kids[nodes[v].parent], i)];
      && IsForest(nodes', kids', rank, bound) && PayloadsValid(nodes', names, strings) && RootValid(nodes', keyAt, slotOf, root)
      && KeysValid(nodes', keyAt, slotOf, nextKey) && LinkedOutOf(nodes, kids, nodes', kids', v)
  {
    hide Linked, LinkOut, Ranked, Omit, PayloadsValid, KeysValid;
    var a := nodes[v].parent;
    var nodes' := LinkOut(nodes, v);
    OmitAt(kids[a], i);
    LinkedOut(nodes, kids, a, v, i);
    RecordsOut(nodes, kids, a, v, i);
    UnattachedOut(nodes, kids, a, v, i);
    RankedOut(nodes, kids, rank, bound, v, nodes');
    PayloadsSame(nodes, nodes', names, strings);
    RootSame(nodes, nodes', keyAt, slotOf, root);
    KeysSame(nodes, nodes', keyAt, slotOf, nextKey);
  }

  lemma LastFits(nodes: Nodes, kids: Kids, rank: Rank, bound: nat, d: Slot)
    requires IsForest(nodes, kids, rank, bound) && IsValue(nodes, d) && IsContainer(nodes[d].payload.vtype)
    ensures IsAggregate(nodes, nodes[d].owned) && KidsOf(nodes, kids, d) == kids[nodes[d].owned]
    ensures nodes[nodes[d].owned].last == At(KidsOf(nodes, kids, d), |KidsOf(nodes, kids, d)| - 1)
    ensures nodes[nodes[d].owned].first == At(KidsOf(nodes, kids, d), 0)
    ensures nodes[nodes[d].owned].count == |KidsOf(nodes, kids, d)|
    ensures NO_SLOT !in nodes
  {
    ContainerFacts(nodes, kids, rank, bound, d);
    assert Ends(nodes[nodes[d].owned], kids[nodes[d].owned]);
  }

  lemma KidFacts(nodes: Nodes, kids: Kids, rank: Rank, bound: nat, d: Slot, i: nat)
    requires IsForest(nodes, kids, rank, bound) && IsValue(nodes, d) && i < |KidsOf(nodes, kids, d)|
    ensures var ks := KidsOf(nodes, kids, d);
      && ks[i] >= 0 && IsValue(nodes, ks[i]) && nodes[ks[i]].parent == nodes[d].owned
      && nodes[ks[i]].prev == At(ks, i - 1) && nodes[ks[i]].next == At(ks, i + 1)
  {
    KidIsValue(nodes, kids, nodes[d].owned, i);
  }

  lemma BeforeFits(nodes: Nodes, kids: Kids, rank: Rank, bound: nat, d: Slot, b: Slot) returns (at: nat)
    requires IsForest(nodes, kids, rank, bound) && IsValue(nodes, d) && IsContainer(nodes[d].payload.vtype) && IsValue(nodes, b)
    ensures b >= 0
    ensures nodes[b].parent == nodes[d].owned ==>
      at < |KidsOf(nodes, kids, d)| && At(KidsOf(nodes, kids, d), at) == b && nodes[b].prev == At(KidsOf(nodes, kids, d), at - 1)
  {
    ContainerFacts(nodes, kids, rank, bound, d);
    at := 0;
    if nodes[b].parent == nodes[d].owned { at := FindKid(nodes, kids, b); }
  }

  lemma RootFacts(nodes: Nodes, keyAt: map<Slot, Key>, slotOf: map<Key, Slot>, root: Key)
    requires RootValid(nodes, keyAt, slotOf, root)
    ensures root == ROOT_KEY && root in slotOf && IsValue(nodes, slotOf[root]) && Unattached(nodes[slotOf[root]])
  {
  }

  /** `c` is a detached value other than the root that `d` takes as a child. */
  ghost predicate Admissible(nodes: Nodes, kids: Kids, slotOf: map<Key, Slot>, root: Key, d: Slot, c: Slot) {
    && IsValue(nodes, d) && IsContainer(nodes[d].payload.vtype)
    && IsValue(nodes, c) && Unattached(nodes[c]) && root in slotOf && c != slotOf[root]
    && Admission(nodes, kids, d, c).Accepted?
  }

  lemma CommitForest(nodes: Nodes, kids: Kids, rank: Rank, bound: nat, names: nat, strings: nat,
                     keyAt: map<Slot, Key>, slotOf: map<Key, Slot>, root: Key,
                     d: Slot, c: Slot, a: Slot, previous: Slot, next: Slot, at: nat)
    returns (rank': Rank, bound': nat)
    requires IsForest(nodes, kids, rank, bound) && PayloadsValid(nodes, names, strings) && RootValid(nodes, keyAt, slotOf, root)
    requires Admissible(nodes, kids, slotOf, root, d, c) && nodes[d].owned == a
    requires a in kids && at <= |kids[a]| && previous == At(kids[a], at - 1) && next == At(kids[a], at)
    ensures IsAggregate(nodes, a) && (previous >= 0 ==> IsValue(nodes, previous)) && (next >= 0 ==> IsValue(nodes, next))
    ensures var nodes' := LinkIn(nodes, a, c, previous, next); var kids' := kids[a := InsertAt(kids[a], at, c)];
      && nodes'.Keys == nodes.Keys
      && IsForest(nodes', kids', rank', bound') && PayloadsValid(nodes', names, strings)
      && RootValid(nodes', keyAt, slotOf, root) && LinkedUnder(nodes, kids, nodes', kids', d, c, at)
  {
    CanList(nodes, kids, a, c, at);
    assert Paired(nodes, d);
    forall i | 0 <= i < |kids[a]| ensures nodes[a].kind.ObjectKind? ==> NameAt(nodes, kids[a][i]) != nodes[c].name {
      assert KidsOf(nodes, kids, d)[i] == kids[a][i];
    }
    rank', bound' := AttachForest(nodes, kids, rank, bound, d, c, at);
    var nodes' := NodesIn(nodes, kids, a, c, at);
    CommitRecords(nodes, kids, nodes', kids[a := InsertAt(kids[a], at, c)], names, strings, keyAt, slotOf, root, d, c, at);
  }

  lemma CommitRecords(nodes: Nodes, kids: Kids, nodes': Nodes, kids': Kids, names: nat, strings: nat,
                      keyAt: map<Slot, Key>, slotOf: map<Key, Slot>, root: Key, d: Slot, c: Slot, at: nat)
    requires PayloadsValid(nodes, names, strings) && RootValid(nodes, keyAt, slotOf, root)
    requires LinkedUnder(nodes, kids, nodes', kids', d, c, at) && c != slotOf[root]
    ensures PayloadsValid(nodes', names, strings) && RootValid(nodes', keyAt, slotOf, root)
  {
    PayloadsSame(nodes, nodes', names, strings);
    RootSame(nodes, nodes', keyAt, slotOf, root);
  }

  function NextKey(k: Key): Key {
    if k == NO_KEY || k == 0xffff_ffff_ffff_ffff then NO_KEY else k + 1
  }

  /** Every key in use after was in use before, or was issued in between; issued keys only grow. */
  ghost predicate Advances(slotOf: map<Key, Slot>, next: Key, slotOf': map<Key, Slot>, next': Key) {
    && (next == NO_KEY ==> next' == NO_KEY)
    && (next' != NO_KEY ==> next <= next')
    && (forall k :: k in slotOf' ==> k in slotOf || (next != NO_KEY && next <= k && (next' != NO_KEY ==> k < next')))
  }

  lemma AdvancesSame(slotOf: map<Key, Slot>, next: Key)
    ensures Advances(slotOf, next, slotOf, next)
  {
  }

  lemma AdvancesTransitive(s0: map<Key, Slot>, n0: Key, s1: map<Key, Slot>, n1: Key, s2: map<Key, Slot>, n2: Key)
    requires Advances(s0, n0, s1, n1) && Advances(s1, n1, s2, n2)
    ensures Advances(s0, n0, s2, n2)
  {
  }

  lemma IssueFacts(nodes: Nodes, keyAt: map<Slot, Key>, slotOf: map<Key, Slot>, next: Key)
    requires KeysValid(nodes, keyAt, slotOf, next)
    ensures keyAt.Keys == nodes.Keys
    ensures next != NO_KEY ==> next !in slotOf && (NextKey(next) != NO_KEY ==> NextKey(next) !in slotOf)
    ensures Advances(slotOf, next, slotOf, NextKey(next)) && KeysValid(nodes, keyAt, slotOf, NextKey(next))
    ensures Advances(slotOf, next, slotOf, NextKey(NextKey(next))) && KeysValid(nodes, keyAt, slotOf, NextKey(NextKey(next)))
  {
  }

  lemma LeafDocument(nodes: Nodes, kids: Kids, rank: Rank, bound: nat, names: nat, strings: nat,
                     keyAt: map<Slot, Key>, slotOf: map<Key, Slot>, next: Key, root: Key,
                     s: Slot, payload: Payload, name: nat, named: bool)
    requires IsForest(nodes, kids, rank, bound) && PayloadsValid(nodes, names, strings) && RootValid(nodes, keyAt, slotOf, root)
    requires KeysValid(nodes, keyAt, slotOf, next) && next != NO_KEY
    requires PayloadValid(payload, strings) && NameValid(name, named, names)
    requires s >= 0 && s !in nodes && !IsContainer(payload.vtype)
    ensures var nodes', keyAt', slotOf' := nodes[s := NewValue(payload, NO_SLOT, name, named)], keyAt[s := next], slotOf[next := s];
      && IsForest(nodes', kids, rank[s := 0], bound + 1) && PayloadsValid(nodes', names, strings) && RootValid(nodes', keyAt', slotOf', root)
      && KeysValid(nodes', keyAt', slotOf', NextKey(next)) && Advances(slotOf, next, slotOf', NextKey(next))
  {
    InsertLeaf(nodes, kids, rank, bound, s, payload, name, named);
  }

  lemma PairDocument(nodes: Nodes, kids: Kids, rank: Rank, bound: nat, names: nat, strings: nat,
                     keyAt: map<Slot, Key>, slotOf: map<Key, Slot>, next: Key, root: Key,
                     s: Slot, a: Slot, payload: Payload, name: nat, named: bool)
    requires IsForest(nodes, kids, rank, bound) && PayloadsValid(nodes, names, strings) && RootValid(nodes, keyAt, slotOf, root)
    requires KeysValid(nodes, keyAt, slotOf, next) && next != NO_KEY && NextKey(next) != NO_KEY
    requires PayloadValid(payload, strings) && NameValid(name, named, names)
    requires s >= 0 && a >= 0 && s != a && s !in nodes && a !in nodes && IsContainer(payload.vtype)
    ensures var nodes' := InsertPair(nodes, s, a, payload, name, named);
      var keyAt', slotOf' := keyAt[s := next][a := NextKey(next)], slotOf[next := s][NextKey(next) := a];
      && IsForest(nodes', kids[a := []], rank[s := 0], bound + 1) && PayloadsValid(nodes', names, strings) && RootValid(nodes', keyAt', slotOf', root)
      && KeysValid(nodes', keyAt', slotOf', NextKey(NextKey(next))) && Advances(slotOf, next, slotOf', NextKey(NextKey(next)))
  {
    InsertPairForest(nodes, kids, rank, bound, s, a, payload, name, named);
    PairRecords(nodes, kids, names, strings, keyAt, slotOf, next, root, s, a, payload, name, named);
  }

  lemma PairRecords(nodes: Nodes, kids: Kids, names: nat, strings: nat,
                    keyAt: map<Slot, Key>, slotOf: map<Key, Slot>, next: Key, root: Key,
                    s: Slot, a: Slot, payload: Payload, name: nat, named: bool)
    requires PayloadsValid(nodes, names, strings) && RootValid(nodes, keyAt, slotOf, root)
    requires KeysValid(nodes, keyAt, slotOf, next) && next != NO_KEY && NextKey(next) != NO_KEY
    requires PayloadValid(payload, strings) && NameValid(name, named, names)
    requires s != a && s !in nodes && a !in nodes && IsContainer(payload.vtype)
    ensures var nodes' := InsertPair(nodes, s, a, payload, name, named);
      var keyAt', slotOf' := keyAt[s := next][a := NextKey(next)], slotOf[next := s][NextKey(next) := a];
      && PayloadsValid(nodes', names, strings) && RootValid(nodes', keyAt', slotOf', root)
      && KeysValid(nodes', keyAt', slotOf', NextKey(NextKey(next))) && Advances(slotOf, next, slotOf', NextKey(NextKey(next)))
  {
  }

  lemma MoveFacts(nodes: Nodes, kids: Kids, rank: Rank, bound: nat, names: nat, strings: nat, target: Slot, source: Slot)
    requires IsForest(nodes, kids, rank, bound) && CanMove(nodes, kids, target, source) && PayloadsValid(nodes, names, strings)
    ensures PayloadValid(nodes[target].payload, strings) && PayloadValid(nodes[source].payload, strings)
    ensures target in rank && nodes[target].owned == NO_SLOT
    ensures var a := nodes[source].owned; IsContainer(nodes[source].payload.vtype) ==>
      IsAggregate(nodes, a) && AggregateValid(nodes[a]) && FormsPair(nodes[source], nodes[a], source, a)
  {
    assert Paired(nodes, target);
    if IsContainer(nodes[source].payload.vtype) { ContainerFacts(nodes, kids, rank, bound, source); }
  }

  lemma MoveDocument(nodes: Nodes, kids: Kids, rank: Rank, bound: nat, names: nat, strings: nat,
                     keyAt: map<Slot, Key>, slotOf: map<Key, Slot>, next: Key, root: Key, target: Slot, source: Slot)
    requires IsForest(nodes, kids, rank, bound) && PayloadsValid(nodes, names, strings) && RootValid(nodes, keyAt, slotOf, root)
    requires KeysValid(nodes, keyAt, slotOf, next)
    requires CanMove(nodes, kids, target, source) && !Under(nodes, target, source)
    ensures target in rank
    ensures var nodes' := MoveNodes(nodes, target, source);
      && IsForest(nodes', kids, Lift(nodes, rank, source, rank[target] + 1), bound + rank[target] + 1)
      && PayloadsValid(nodes', names, strings) && KeysValid(nodes', keyAt, slotOf, next)
      && (source != slotOf[root] ==> RootValid(nodes', keyAt, slotOf, root))
  {
    var nodes' := MoveNodes(nodes, target, source);
    LinkedMove(nodes, kids, target, source);
    RankedMove(nodes, kids, rank, bound, target, source);
    MoveRecords(nodes, kids, names, strings, keyAt, slotOf, root, target, source);
    KeysSame(nodes, nodes', keyAt, slotOf, next);
  }

  lemma MoveRecords(nodes: Nodes, kids: Kids, names: nat, strings: nat,
                    keyAt: map<Slot, Key>, slotOf: map<Key, Slot>, root: Key, target: Slot, source: Slot)
    requires Linked(nodes, kids) && PayloadsValid(nodes, names, strings) && RootValid(nodes, keyAt, slotOf, root)
    requires CanMove(nodes, kids, target, source)
    ensures PayloadsValid(MoveNodes(nodes, target, source), names, strings) && MoveNodes(nodes, target, source).Keys == nodes.Keys
    ensures source != slotOf[root] ==> RootValid(MoveNodes(nodes, target, source), keyAt, slotOf, root)
  {
    assert Paired(nodes, source);
    assert Paired(nodes, slotOf[root]);
  }

  lemma PayloadPairFacts(nodes: Nodes, kids: Kids, rank: Rank, bound: nat, s: Slot)
    requires IsForest(nodes, kids, rank, bound) && IsValue(nodes, s)
    ensures NO_SLOT !in nodes
    ensures (nodes[s].owned >= 0) == IsContainer(nodes[s].payload.vtype)
    ensures IsContainer(nodes[s].payload.vtype) ==> nodes[s].owned in nodes && FormsPair(nodes[s], nodes[nodes[s].owned], s, nodes[s].owned)
    ensures !IsContainer(nodes[s].payload.vtype) ==> nodes[s].owned == NO_SLOT
  {
    assert Paired(nodes, s);
  }

  /** A value that has just been made is outside every other subtree. */
  lemma FreshTarget(nodes: Nodes, kids: Kids, rank: Rank, bound: nat, t: Slot, s: Slot, nodes': Nodes, rank': Rank, bound': nat)
    requires IsForest(nodes, kids, rank, bound) && t !in nodes && IsValue(nodes, s) && !nodes[s].payload.vtype.EmptyValue?
    requires nodes' == nodes[t := NewValue(EMPTY_PAYLOAD, NO_SLOT, 0, false)] && IsForest(nodes', kids, rank', bound')
    ensures CanMove(nodes', kids, t, s) && !Under(nodes', t, s)
  {
    UnderStep(nodes', t, s);
    assert Up(nodes', t) == NO_SLOT;
  }

  lemma ShellFacts(nodes: Nodes, kids: Kids, rank: Rank, bound: nat, keyAt: map<Slot, Key>, slotOf: map<Key, Slot>, next: Key,
                   source: Key, t: Slot, s: Slot)
    requires IsForest(nodes, kids, rank, bound) && KeysValid(nodes, keyAt, slotOf, next)
    requires source in slotOf && slotOf[source] == s
    requires IsValue(nodes, t) && IsValue(nodes, s) && t != s && Unattached(nodes[s])
    requires nodes[t].payload.vtype.EmptyValue? && !nodes[s].payload.vtype.EmptyValue?
    ensures CanMove(nodes, kids, t, s) && s in keyAt && keyAt[s] == source
    ensures var moved := MoveNodes(nodes, t, s); IsValue(moved, s) && Unattached(moved[s]) && moved[s].owned == NO_SLOT
  {
    assert Paired(nodes, s);
  }

  /** Erasing an unattached empty value takes away its record and nothing else. */
  lemma ShellErased(nodes: Nodes, kids: Kids, rank: Rank, bound: nat, names: nat, strings: nat,
                    keyAt: map<Slot, Key>, slotOf: map<Key, Slot>, next: Key, root: Key, s: Slot)
    requires IsForest(nodes, kids, rank, bound) && PayloadsValid(nodes, names, strings) && RootValid(nodes, keyAt, slotOf, root)
    requires KeysValid(nodes, keyAt, slotOf, next)
    requires IsValue(nodes, s) && Unattached(nodes[s]) && nodes[s].owned == NO_SLOT && s != slotOf[root]
    ensures var nodes', keyAt', slotOf' := nodes - {s}, keyAt - {s}, slotOf - {keyAt[s]};
      && IsForest(nodes', kids, rank, bound) && PayloadsValid(nodes', names, strings) && KeysValid(nodes', keyAt', slotOf', next)
      && RootValid(nodes', keyAt', slotOf', root)
  {
    forall a, i | a in kids && 0 <= i < |kids[a]| ensures kids[a][i] != s && a != s { KidIsValue(nodes, kids, a, i); }
    forall a | a in nodes && nodes[a].Aggregate? ensures nodes[a].owner != s { assert Paired(nodes, a); }
    assert kids - {s} == kids;
    SeverForest(nodes, kids, rank, bound, {s}, NO_SLOT);
    assert Sever(nodes, {s}, NO_SLOT) == nodes - {s};
    assert SeverKids(kids, {s}, NO_SLOT) == kids;
    ShellRecords(nodes, names, strings, keyAt, slotOf, next, root, s);
  }

  lemma ShellRecords(nodes: Nodes, names: nat, strings: nat,
                     keyAt: map<Slot, Key>, slotOf: map<Key, Slot>, next: Key, root: Key, s: Slot)
    requires PayloadsValid(nodes, names, strings) && RootValid(nodes, keyAt, slotOf, root)
    requires KeysValid(nodes, keyAt, slotOf, next) && IsValue(nodes, s) && s != slotOf[root]
    ensures var nodes', keyAt', slotOf' := nodes - {s}, keyAt - {s}, slotOf - {keyAt[s]};
      && PayloadsValid(nodes', names, strings) && KeysValid(nodes', keyAt', slotOf', next)
      && (nodes[slotOf[root]].owned != s ==> RootValid(nodes', keyAt', slotOf', root))
  {
  }

  lemma RootNeeded(nodes: Nodes, keyAt: map<Slot, Key>, slotOf: map<Key, Slot>, root: Key)
    ensures RootValid(nodes, keyAt, slotOf, root) ==> root in slotOf
  {
  }

  // -----------------------------------------------------------------------
  // Walking a subtree whose visited part is already gone

  /** The value `x` and its aggregate are still as they were in `f`. */
  ghost predicate Live(f: Shape, nodes: Nodes, x: Slot) {
    && IsValue(f.nodes, x) && x in nodes && nodes[x] == f.nodes[x]
    && (f.nodes[x].owned in f.nodes ==> f.nodes[x].owned in nodes && nodes[f.nodes[x].owned] == f.nodes[f.nodes[x].owned])
  }

  ghost predicate AllLive(f: Shape, nodes: Nodes, xs: seq<Slot>) {
    forall i :: 0 <= i < |xs| ==> Live(f, nodes, xs[i])
  }

  lemma LiveMember(f: Shape, nodes: Nodes, xs: seq<Slot>, x: Slot)
    requires AllLive(f, nodes, xs) && x in xs
    ensures Live(f, nodes, x)
  {
  }

  lemma LivePart(f: Shape, nodes: Nodes, xs: seq<Slot>, ys: seq<Slot>)
    requires AllLive(f, nodes, xs) && forall y :: y in ys ==> y in xs
    ensures AllLive(f, nodes, ys)
  {
    forall i | 0 <= i < |ys| ensures Live(f, nodes, ys[i]) { LiveMember(f, nodes, xs, ys[i]); }
  }

  lemma {:induction false} KidsEmptyOrFirst(f: Shape, v: Slot)
    requires Wf(f) && IsValue(f.nodes, v)
    ensures v in f.rank && v >= 0
    ensures var ks := KidsOf(f.nodes, f.kids, v);
      && (IsContainer(f.nodes[v].payload.vtype) ==>
            && IsAggregate(f.nodes, f.nodes[v].owned)
            && f.nodes[f.nodes[v].owned].first == At(ks, 0))
      && (!IsContainer(f.nodes[v].payload.vtype) ==> ks == [])
      && (ks != [] ==> ks[0] >= 0 && IsValue(f.nodes, ks[0]) && ks[0] in f.rank && f.rank[v] < f.rank[ks[0]]
                       && Deepest(f, v) == Deepest(f, ks[0]))
      && (ks == [] ==> Deepest(f, v) == v)
  {
    if IsContainer(f.nodes[v].payload.vtype) { LastFits(f.nodes, f.kids, f.rank, f.bound, v); }
    KidsBelow(f, v);
    if KidsOf(f.nodes, f.kids, v) != [] { KidFacts(f.nodes, f.kids, f.rank, f.bound, v, 0); }
  }

  lemma {:induction false} DescentFacts(f: Shape, nodes: Nodes, v: Slot)
    requires Wf(f) && IsValue(f.nodes, v) && AllLive(f, nodes, Walk(f, Post, v))
    ensures v in f.rank && Live(f, nodes, v)
    ensures var ks := KidsOf(f.nodes, f.kids, v);
      && (IsContainer(f.nodes[v].payload.vtype) ==>
            IsAggregate(nodes, f.nodes[v].owned) && nodes[f.nodes[v].owned].first == At(ks, 0))
      && (!IsContainer(f.nodes[v].payload.vtype) ==> ks == [])
      && (ks != [] ==> ks[0] >= 0 && IsValue(f.nodes, ks[0]) && ks[0] in f.rank && f.rank[v] < f.rank[ks[0]]
                       && Deepest(f, v) == Deepest(f, ks[0]) && AllLive(f, nodes, Walk(f, Post, ks[0])))
      && (ks == [] ==> Deepest(f, v) == v)
  {
    KidsEmptyOrFirst(f, v);
    UnderStep(f.nodes, v, v);
    WalkMembers(f, Post, v, v);
    LiveMember(f, nodes, Walk(f, Post, v), v);
    var ks := KidsOf(f.nodes, f.kids, v);
    if ks != [] {
      forall y | y in Walk(f, Post, ks[0]) ensures y in Walk(f, Post, v) {
        WalkMembers(f, Post, ks[0], y);
        WalkMembers(f, Post, v, y);
        NotTop(f, v, v, 0);
        UnderTransitive(f.nodes, f.kids, f.rank, f.bound, y, ks[0], v);
      }
      LivePart(f, nodes, Walk(f, Post, v), Walk(f, Post, ks[0]));
    }
  }

  lemma {:induction false} StepFacts(f: Shape, nodes: Nodes, v: Slot, top: Slot)
    requires Wf(f) && IsValue(f.nodes, v) && Under(f.nodes, v, top) && v != top
    requires AllLive(f, nodes, [v] + Rest(f, Post, v, top))
    ensures Live(f, nodes, v)
    ensures var n := f.nodes[v].next; n != NO_SLOT ==>
      && n >= 0 && IsValue(f.nodes, n) && AllLive(f, nodes, Walk(f, Post, n))
      && Under(f.nodes, Deepest(f, n), top) && Deepest(f, n) >= 0
      && [Deepest(f, n)] + Rest(f, Post, Deepest(f, n), top) == Rest(f, Post, v, top)
    ensures var a, u := f.nodes[v].parent, Up(f.nodes, v); f.nodes[v].next == NO_SLOT ==>
      && u >= 0 && IsValue(f.nodes, u) && Under(f.nodes, u, top)
      && IsAggregate(nodes, a) && nodes[a].owner == u
      && Rest(f, Post, v, top) == [u] + Rest(f, Post, u, top)
  {
    assert ([v] + Rest(f, Post, v, top))[0] == v;
    UnderStep(f.nodes, v, top);
    assert NO_SLOT !in f.nodes;
    SiblingStep(f, v);
    var n, u := f.nodes[v].next, Up(f.nodes, v);
    if n != NO_SLOT {
      UnderStep(f.nodes, n, top);
      LivePart(f, nodes, [v] + Rest(f, Post, v, top), Walk(f, Post, n));
      DeepestStarts(f, n, top);
    } else {
      LiveMember(f, nodes, [v] + Rest(f, Post, v, top), u);
      UpIsValue(f.nodes, f.kids, v);
    }
  }

  ghost function Elems(xs: seq<Slot>): set<Slot> {
    set x | x in xs
  }

  function Home(nodes: Nodes, s: Slot): Slot
    requires s in nodes
  {
    if nodes[s].Value? then s else nodes[s].owner
  }

  /** The records of a set of values: the values and their aggregates. */
  ghost function RecordsOf(f: Shape, values: set<Slot>): set<Slot> {
    set s | s in f.nodes && Home(f.nodes, s) in values
  }

  ghost function SlotsWithout(slotOf: map<Key, Slot>, dead: set<Slot>): map<Key, Slot> {
    map k | k in slotOf && slotOf[k] !in dead :: slotOf[k]
  }

  lemma LiveIfKept(f: Shape, nodes: Nodes, gone: set<Slot>, x: Slot)
    requires Wf(f) && IsValue(f.nodes, x) && x !in gone && nodes == f.nodes - RecordsOf(f, gone)
    ensures Live(f, nodes, x)
  {
    assert Paired(f.nodes, x);
    assert x !in RecordsOf(f, gone);
    assert f.nodes[x].owned in f.nodes ==> f.nodes[x].owned !in RecordsOf(f, gone);
  }

  lemma {:induction false} StartFacts(f: Shape, nodes: Nodes, gone: set<Slot>, v: Slot)
    requires Wf(f) && IsValue(f.nodes, v) && nodes == f.nodes - RecordsOf(f, gone)
    requires forall x :: x in Walk(f, Post, v) ==> x !in gone
    ensures AllLive(f, nodes, Walk(f, Post, v))
    ensures Deepest(f, v) >= 0 && IsValue(f.nodes, Deepest(f, v)) && Under(f.nodes, Deepest(f, v), v)
    ensures Walk(f, Post, v) == [] + ([Deepest(f, v)] + Rest(f, Post, Deepest(f, v), v))
    ensures gone + Elems([]) == gone
  {
    var all := Walk(f, Post, v);
    forall i | 0 <= i < |all| ensures Live(f, nodes, all[i]) {
      WalkMembers(f, Post, v, all[i]);
      LiveIfKept(f, nodes, gone, all[i]);
    }
    UnderStep(f.nodes, v, v);
    DeepestStarts(f, v, v);
  }

  lemma SlotsStep(nodes: Nodes, keyAt: map<Slot, Key>, slotOf: map<Key, Slot>, next: Key, dead: set<Slot>, s: Slot)
    requires KeysValid(nodes, keyAt, slotOf, next) && s in nodes && s !in dead
    ensures s in keyAt && SlotsWithout(slotOf, dead + {s}) == SlotsWithout(slotOf, dead) - {keyAt[s]}
  {
  }

  lemma StepRecords(f: Shape, gone: set<Slot>, x: Slot)
    requires Wf(f) && IsValue(f.nodes, x) && x !in gone
    ensures x !in RecordsOf(f, gone)
    ensures var own := f.nodes[x].owned;
      if own >= 0 then own in f.nodes && own != x && own !in RecordsOf(f, gone) && RecordsOf(f, gone + {x}) == RecordsOf(f, gone) + {own} + {x}
      else own !in f.nodes && RecordsOf(f, gone + {x}) == RecordsOf(f, gone) + {x}
  {
    assert Paired(f.nodes, x);
    forall s | s in f.nodes && f.nodes[s].Aggregate? && f.nodes[s].owner == x ensures s == f.nodes[x].owned { assert Paired(f.nodes, s); }
  }

  lemma {:induction false} DoneFits(f: Shape, gone: set<Slot>, v: Slot, done: seq<Slot>)
    requires Wf(f) && IsValue(f.nodes, v) && done <= Walk(f, Post, v)
    requires forall y :: y in Walk(f, Post, v) ==> y !in gone
    ensures |done| <= |f.nodes.Keys - RecordsOf(f, gone)|
  {
    var all := Walk(f, Post, v);
    WalkDistinct(f, Post, v);
    assert Distinct(done) by {
      forall i, j | 0 <= i < j < |done| ensures done[i] != done[j] { assert done[i] == all[i] && done[j] == all[j]; }
    }
    forall x | x in done ensures x in f.nodes.Keys - RecordsOf(f, gone) {
      var i :| 0 <= i < |done| && done[i] == x;
      assert all[i] == x;
      WalkMembers(f, Post, v, x);
    }
    DistinctSize(done, f.nodes.Keys - RecordsOf(f, gone));
  }

  lemma {:induction false} RestLive(f: Shape, nodes: Nodes, gone: set<Slot>, v: Slot, done: seq<Slot>, rest: seq<Slot>)
    requires Wf(f) && IsValue(f.nodes, v) && nodes == f.nodes - RecordsOf(f, gone + Elems(done))
    requires forall y :: y in Walk(f, Post, v) ==> y !in gone
    requires Walk(f, Post, v) == done + rest
    ensures AllLive(f, nodes, rest) && forall i :: 0 <= i < |rest| ==> rest[i] !in gone + Elems(done)
  {
    var all := Walk(f, Post, v);
    WalkDistinct(f, Post, v);
    forall i | 0 <= i < |rest| ensures Live(f, nodes, rest[i]) && rest[i] !in gone + Elems(done) {
      assert all[|done| + i] == rest[i];
      WalkMembers(f, Post, v, rest[i]);
      forall j | 0 <= j < |done| ensures done[j] != rest[i] { assert all[j] == done[j]; }
      LiveIfKept(f, nodes, gone + Elems(done), rest[i]);
    }
  }

  /** Erasing the records of `x` takes `dead` to `dead'`, and the key table along. */
  ghost predicate Erasable(f: Shape, nodes: Nodes, keyAt0: map<Slot, Key>, slotOf0: map<Key, Slot>, dead: set<Slot>, dead': set<Slot>, x: Slot) {
    && IsValue(f.nodes, x) && x in keyAt0 && x !in dead
    && var own := f.nodes[x].owned;
    if own >= 0 then
      && own != x && own in nodes && own !in dead && own in keyAt0 && dead' == dead + {own} + {x}
      && SlotsWithout(slotOf0, dead') == SlotsWithout(slotOf0, dead) - {keyAt0[own]} - {keyAt0[x]}
    else
      && dead' == dead + {x}
      && SlotsWithout(slotOf0, dead') == SlotsWithout(slotOf0, dead) - {keyAt0[x]}
  }

  lemma DoneStep(done: seq<Slot>, x: Slot, rest: seq<Slot>)
    ensures done + ([x] + rest) == (done + [x]) + rest
  {
  }

  /** What an erasing step relies on: the rest of the walk is untouched, and this value's
      two records are exactly what the step removes. */
  lemma {:induction false} EraseFacts(f: Shape, nodes: Nodes, gone: set<Slot>, v: Slot, done: seq<Slot>, x: Slot,
                   keyAt0: map<Slot, Key>, slotOf0: map<Key, Slot>, next0: Key)
    requires Wf(f) && IsValue(f.nodes, v) && IsValue(f.nodes, x) && Under(f.nodes, x, v)
    requires KeysValid(f.nodes, keyAt0, slotOf0, next0)
    requires nodes == f.nodes - RecordsOf(f, gone + Elems(done))
    requires forall y :: y in Walk(f, Post, v) ==> y !in gone
    requires Walk(f, Post, v) == done + ([x] + Rest(f, Post, x, v))
    ensures AllLive(f, nodes, [x] + Rest(f, Post, x, v)) && Live(f, nodes, x)
    ensures |done + [x]| <= |f.nodes.Keys - RecordsOf(f, gone)|
    ensures Erasable(f, nodes, keyAt0, slotOf0, RecordsOf(f, gone + Elems(done)), RecordsOf(f, gone + Elems(done + [x])), x)
  {
    var rest := [x] + Rest(f, Post, x, v);
    RestLive(f, nodes, gone, v, done, rest);
    assert rest[0] == x;
    LiveMember(f, nodes, rest, x);
    assert done + [x] <= Walk(f, Post, v);
    DoneFits(f, gone, v, done + [x]);
    StepRecords(f, gone + Elems(done), x);
    assert gone + Elems(done) + {x} == gone + Elems(done + [x]);
    var own, dead := f.nodes[x].owned, RecordsOf(f, gone + Elems(done));
    if own >= 0 {
      SlotsStep(f.nodes, keyAt0, slotOf0, next0, dead, own);
      SlotsStep(f.nodes, keyAt0, slotOf0, next0, dead + {own}, x);
    } else {
      SlotsStep(f.nodes, keyAt0, slotOf0, next0, dead, x);
    }
  }

  /** The values strictly inside the subtree of `d`. */
  ghost function Strictly(f: Shape, d: Slot): set<Slot> {
    set x | x in f.nodes && f.nodes[x].Value? && x != d && Under(f.nodes, x, d)
  }

  /** The values in the subtrees of the first `i` children of aggregate `a`. */
  ghost function Before(f: Shape, a: Slot, i: int): set<Slot>
    requires a in f.kids && 0 <= i <= |f.kids[a]|
  {
    set x, j | 0 <= j < i && x in f.nodes && f.nodes[x].Value? && Under(f.nodes, x, f.kids[a][j]) :: x
  }

  lemma AggregateFacts(f: Shape, a: Slot)
    requires Wf(f) && IsAggregate(f.nodes, a)
    ensures a in f.kids && AggregateValid(f.nodes[a]) && f.nodes[a].first == At(f.kids[a], 0)
    ensures var d := f.nodes[a].owner;
      && IsValue(f.nodes, d) && f.nodes[d].owned == a && IsContainer(f.nodes[d].payload.vtype) && KidsOf(f.nodes, f.kids, d) == f.kids[a]
  {
    assert Paired(f.nodes, a);
    KidsEnds(f.nodes, f.kids, a);
    assert Ends(f.nodes[a], f.kids[a]);
  }

  lemma ChildrenStart(f: Shape, keyAt: map<Slot, Key>, slotOf: map<Key, Slot>, next: Key, a: Slot)
    requires Wf(f) && IsAggregate(f.nodes, a) && KeysValid(f.nodes, keyAt, slotOf, next)
    ensures a in f.kids && f.nodes[a].first == At(f.kids[a], 0) && AggregateValid(f.nodes[a])
    ensures Before(f, a, 0) == {} && RecordsOf(f, {}) == {} && f.nodes - {} == f.nodes && keyAt - {} == keyAt
    ensures SlotsWithout(slotOf, {}) == slotOf
  {
    AggregateFacts(f, a);
  }

  lemma {:induction false} BeforeStep(f: Shape, a: Slot, i: int)
    requires Wf(f) && IsAggregate(f.nodes, a) && a in f.kids && 0 <= i < |f.kids[a]| && IsValue(f.nodes, f.kids[a][i])
    ensures Before(f, a, i) + Elems(Walk(f, Post, f.kids[a][i])) == Before(f, a, i + 1)
    ensures forall x :: x in Walk(f, Post, f.kids[a][i]) ==> x !in Before(f, a, i)
  {
    var c := f.kids[a][i];
    AggregateFacts(f, a);
    forall x ensures x in Walk(f, Post, c) <==> IsValue(f.nodes, x) && Under(f.nodes, x, c) { WalkMembers(f, Post, c, x); }
    forall x | x in Walk(f, Post, c) ensures x !in Before(f, a, i) {
      forall j | 0 <= j < i ensures !Under(f.nodes, x, f.kids[a][j]) { SiblingsApart(f, f.nodes[a].owner, j, i, x); }
    }
    forall x | x in Before(f, a, i + 1) ensures x in Before(f, a, i) || x in Walk(f, Post, c) {
      var j :| 0 <= j < i + 1 && Under(f.nodes, x, f.kids[a][j]);
    }
    forall x | x in Walk(f, Post, c) ensures x in Before(f, a, i + 1) {
      assert 0 <= i < i + 1 && Under(f.nodes, x, f.kids[a][i]);
    }
  }

  lemma {:induction false} ChildFacts(f: Shape, nodes: Nodes, a: Slot, i: int)
    requires Wf(f) && IsAggregate(f.nodes, a) && a in f.kids && 0 <= i < |f.kids[a]|
    requires nodes == f.nodes - RecordsOf(f, Before(f, a, i))
    ensures var c := f.kids[a][i];
      && c >= 0 && IsValue(f.nodes, c) && IsValue(nodes, c) && nodes[c].next == At(f.kids[a], i + 1)
      && Before(f, a, i) + Elems(Walk(f, Post, c)) == Before(f, a, i + 1)
      && (forall x :: x in Walk(f, Post, c) ==> x !in Before(f, a, i))
  {
    var c := f.kids[a][i];
    KidIsValue(f.nodes, f.kids, a, i);
    BeforeStep(f, a, i);
    UnderStep(f.nodes, c, c);
    WalkMembers(f, Post, c, c);
    LiveIfKept(f, nodes, Before(f, a, i), c);
  }

  /** The first `|kids|` subtrees below a container are all that lies strictly inside it. */
  lemma BeforeAll(f: Shape, a: Slot)
    requires Wf(f) && IsAggregate(f.nodes, a) && a in f.kids
    ensures Before(f, a, |f.kids[a]|) == Strictly(f, f.nodes[a].owner)
    ensures a !in RecordsOf(f, Strictly(f, f.nodes[a].owner))
  {
    AggregateFacts(f, a);
    var d := f.nodes[a].owner;
    forall x | x in Before(f, a, |f.kids[a]|) ensures x in Strictly(f, d) {
      var j :| 0 <= j < |f.kids[a]| && Under(f.nodes, x, f.kids[a][j]);
      NotTopSelf(f, d, j);
      UnderTransitive(f.nodes, f.kids, f.rank, f.bound, x, f.kids[a][j], d);
      UnderRank(f.nodes, f.kids, f.rank, f.bound, x, f.kids[a][j]);
    }
    forall x | x in Strictly(f, d) ensures x in Before(f, a, |f.kids[a]|) {
      var j := UnderViaKid(f, x, d);
    }
  }

  lemma NotTopSelf(f: Shape, d: Slot, j: nat)
    requires Wf(f) && IsValue(f.nodes, d) && j < |KidsOf(f.nodes, f.kids, d)|
    ensures var k := KidsOf(f.nodes, f.kids, d)[j]; IsValue(f.nodes, k) && Under(f.nodes, k, d) && f.rank[d] < f.rank[k]
  {
    UnderStep(f.nodes, d, d);
    NotTop(f, d, d, j);
  }

  lemma ChildrenEnd(f: Shape, nodes: Nodes, a: Slot, i: int)
    requires Wf(f) && IsAggregate(f.nodes, a) && a in f.kids && 0 <= i <= |f.kids[a]| && At(f.kids[a], i) < 0
    requires nodes == f.nodes - RecordsOf(f, Before(f, a, i))
    ensures Before(f, a, i) == Strictly(f, f.nodes[a].owner)
    ensures IsAggregate(nodes, a) && nodes[a] == f.nodes[a]
  {
    if i < |f.kids[a]| { KidIsValue(f.nodes, f.kids, a, i); }
    BeforeAll(f, a);
  }

  /** Below an aggregate other than the hole, children and aggregate are dead together. */
  lemma DeadKid(f: Shape, d: Slot, a: Slot, b: Slot, i: int)
    requires Wf(f) && IsAggregate(f.nodes, a) && f.nodes[a].owner == d && b in f.kids && 0 <= i < |f.kids[b]|
    ensures f.kids[b][i] in RecordsOf(f, Strictly(f, d)) <==> b in RecordsOf(f, Strictly(f, d)) || b == a
  {
    AggregateFacts(f, a);
    AggregateFacts(f, b);
    KidIsValue(f.nodes, f.kids, b, i);
    var k, u := f.kids[b][i], f.nodes[b].owner;
    UnderStep(f.nodes, k, d);
    UnderStep(f.nodes, d, d);
    if Under(f.nodes, u, d) && k == d { UnderRank(f.nodes, f.kids, f.rank, f.bound, u, d); }
  }

  lemma DeadPair(f: Shape, inside: set<Slot>, s: Slot)
    requires Wf(f) && s in RecordsOf(f, inside)
    ensures s in f.nodes
    ensures f.nodes[s].Value? && f.nodes[s].owned >= 0 ==> f.nodes[s].owned in RecordsOf(f, inside)
    ensures f.nodes[s].Aggregate? ==> f.nodes[s].owner in RecordsOf(f, inside)
  {
    assert Paired(f.nodes, s);
  }

  lemma RecordsWithin(f: Shape, inside: set<Slot>)
    ensures RecordsOf(f, inside) <= f.nodes.Keys
  {
  }

  /** The records inside a subtree can be removed together. */
  lemma SeverableBelow(f: Shape, d: Slot, a: Slot)
    requires Wf(f) && IsAggregate(f.nodes, a) && f.nodes[a].owner == d
    ensures Severable(f.nodes, f.kids, RecordsOf(f, Strictly(f, d)), a)
  {
    hide Wf, RecordsOf, Strictly;
    var dead := RecordsOf(f, Strictly(f, d));
    AggregateFacts(f, a);
    BeforeAll(f, a);
    RecordsWithin(f, Strictly(f, d));
    forall b, i | b in f.kids && 0 <= i < |f.kids[b]| ensures f.kids[b][i] in dead <==> b in dead || b == a { DeadKid(f, d, a, b, i); }
    forall s | s in dead
      ensures f.nodes[s].Value? && f.nodes[s].owned >= 0 ==> f.nodes[s].owned in dead
      ensures f.nodes[s].Aggregate? ==> f.nodes[s].owner in dead { DeadPair(f, Strictly(f, d), s); }
  }

  lemma SeverRecords(f: Shape, names: nat, strings: nat, keyAt: map<Slot, Key>, slotOf: map<Key, Slot>, next: Key, root: Key, dead: set<Slot>, a: Slot)
    requires KeysValid(f.nodes, keyAt, slotOf, next) && PayloadsValid(f.nodes, names, strings) && RootValid(f.nodes, keyAt, slotOf, root)
    requires slotOf[root] !in dead && f.nodes[slotOf[root]].owned !in dead && dead <= f.nodes.Keys
    ensures var nodes' := Sever(f.nodes, dead, a);
      && PayloadsValid(nodes', names, strings) && KeysValid(nodes', keyAt - dead, SlotsWithout(slotOf, dead), next)
      && RootValid(nodes', keyAt - dead, SlotsWithout(slotOf, dead), root)
  {
    assert Sever(f.nodes, dead, a).Keys == f.nodes.Keys - dead;
  }

  lemma SeverDocument(f: Shape, names: nat, strings: nat, keyAt: map<Slot, Key>, slotOf: map<Key, Slot>, next: Key, root: Key, d: Slot, a: Slot)
    requires Wf(f) && KeysValid(f.nodes, keyAt, slotOf, next) && PayloadsValid(f.nodes, names, strings) && RootValid(f.nodes, keyAt, slotOf, root)
    requires IsAggregate(f.nodes, a) && f.nodes[a].owner == d
    ensures var dead := RecordsOf(f, Strictly(f, d)); var nodes' := Sever(f.nodes, dead, a);
      && IsForest(nodes', SeverKids(f.kids, dead, a), f.rank, f.bound)
      && PayloadsValid(nodes', names, strings) && KeysValid(nodes', keyAt - dead, SlotsWithout(slotOf, dead), next)
      && RootValid(nodes', keyAt - dead, SlotsWithout(slotOf, dead), root)
      && a !in dead && nodes' == (f.nodes - dead)[a := ClearedAggregate(f.nodes[a])]
  {
    var dead := RecordsOf(f, Strictly(f, d));
    SeverableBelow(f, d, a);
    SeverForest(f.nodes, f.kids, f.rank, f.bound, dead, a);
    var r := slotOf[root];
    assert Paired(f.nodes, r);
    UnderStep(f.nodes, r, d);
    assert Up(f.nodes, r) == NO_SLOT;
    SeverRecords(f, names, strings, keyAt, slotOf, next, root, dead, a);
  }

  lemma RootPairFacts(nodes: Nodes, kids: Kids, rank: Rank, bound: nat, keyAt: map<Slot, Key>, slotOf: map<Key, Slot>, root: Key)
    requires IsForest(nodes, kids, rank, bound) && RootValid(nodes, keyAt, slotOf, root)
    ensures root == ROOT_KEY && root in slotOf
    ensures var r := slotOf[root]; IsValue(nodes, r) && IsAggregate(nodes, nodes[r].owned) && nodes[nodes[r].owned].owner == r
  {
    ContainerFacts(nodes, kids, rank, bound, slotOf[root]);
  }

  lemma PayloadFacts(nodes: Nodes, names: nat, strings: nat, v: Slot)
    requires PayloadsValid(nodes, names, strings) && IsValue(nodes, v)
    ensures PayloadValid(nodes[v].payload, strings)
  {
  }

  /** The records inside `v`, and the aggregate of `v`. */
  ghost function InsideRecords(f: Shape, v: Slot): set<Slot> {
    RecordsOf(f, Strictly(f, v)) + (if IsValue(f.nodes, v) && f.nodes[v].owned in f.nodes then {f.nodes[v].owned} else {})
  }

  ghost predicate RecordsGone(f: Shape, nodes: Nodes, kids: Kids, keyAt: map<Slot, Key>, keyAt': map<Slot, Key>,
                              slotOf: map<Key, Slot>, slotOf': map<Key, Slot>, v: Slot) {
    && IsValue(f.nodes, v)
    && nodes == (f.nodes - InsideRecords(f, v))[v := f.nodes[v].(payload := EMPTY_PAYLOAD, owned := NO_SLOT)]
    && kids == f.kids - InsideRecords(f, v)
    && keyAt' == keyAt - InsideRecords(f, v) && slotOf' == SlotsWithout(slotOf, InsideRecords(f, v))
  }

  lemma ScalarContents(f: Shape, keyAt: map<Slot, Key>, slotOf: map<Key, Slot>, next: Key, v: Slot)
    requires Wf(f) && IsValue(f.nodes, v) && !IsContainer(f.nodes[v].payload.vtype) && KeysValid(f.nodes, keyAt, slotOf, next)
    ensures InsideRecords(f, v) == {} && SlotsWithout(slotOf, {}) == slotOf && f.nodes[v].owned == NO_SLOT
  {
    assert Paired(f.nodes, v);
    forall x | IsValue(f.nodes, x) && x != v ensures !Under(f.nodes, x, v) {
      if Under(f.nodes, x, v) { var i := UnderViaKid(f, x, v); }
    }
    assert Strictly(f, v) == {};
  }

  /** Clearing a scalar changes its payload alone. */
  lemma ScalarEmptied(f: Shape, names: nat, strings: nat, keyAt: map<Slot, Key>, slotOf: map<Key, Slot>, next: Key, root: Key, v: Slot)
    requires Wf(f) && IsValue(f.nodes, v) && !IsContainer(f.nodes[v].payload.vtype) && KeysValid(f.nodes, keyAt, slotOf, next)
    requires PayloadsValid(f.nodes, names, strings) && RootValid(f.nodes, keyAt, slotOf, root)
    ensures var nodes' := f.nodes[v := f.nodes[v].(payload := EMPTY_PAYLOAD, owned := NO_SLOT)];
      && RecordsGone(f, nodes', f.kids, keyAt, keyAt, slotOf, slotOf, v)
      && IsForest(nodes', f.kids, f.rank, f.bound) && PayloadsValid(nodes', names, strings)
      && KeysValid(nodes', keyAt, slotOf, next) && RootValid(nodes', keyAt, slotOf, root)
    ensures PayloadValid(f.nodes[v].payload, strings)
    ensures f.nodes[v].payload.vtype.EmptyValue? ==> f.nodes[v := f.nodes[v].(payload := EMPTY_PAYLOAD, owned := NO_SLOT)] == f.nodes
  {
    ScalarContents(f, keyAt, slotOf, next, v);
    var nodes' := f.nodes[v := f.nodes[v].(payload := EMPTY_PAYLOAD, owned := NO_SLOT)];
    assert f.nodes - {} == f.nodes && f.kids - {} == f.kids && keyAt - {} == keyAt;
    ClearedForest(f.nodes, f.kids, f.rank, f.bound, v);
    ClearedRecords(f.nodes, names, strings, keyAt, slotOf, root, v);
    KeysSame(f.nodes, nodes', keyAt, slotOf, next);
  }

  lemma ClearedRecords(nodes: Nodes, names: nat, strings: nat, keyAt: map<Slot, Key>, slotOf: map<Key, Slot>, root: Key, v: Slot)
    requires PayloadsValid(nodes, names, strings) && RootValid(nodes, keyAt, slotOf, root) && IsValue(nodes, v) && v != slotOf[root]
    ensures var nodes' := nodes[v := nodes[v].(payload := EMPTY_PAYLOAD, owned := NO_SLOT)];
      PayloadsValid(nodes', names, strings) && RootValid(nodes', keyAt, slotOf, root)
  {
  }

  lemma ClearedForest(nodes: Nodes, kids: Kids, rank: Rank, bound: nat, v: Slot)
    requires IsForest(nodes, kids, rank, bound) && IsValue(nodes, v) && !IsContainer(nodes[v].payload.vtype)
    ensures IsForest(nodes[v := nodes[v].(payload := EMPTY_PAYLOAD, owned := NO_SLOT)], kids, rank, bound)
  {
    var nodes' := nodes[v := nodes[v].(payload := EMPTY_PAYLOAD, owned := NO_SLOT)];
    assert Paired(nodes, v);
    forall b, j | b in kids && 0 <= j < |kids[b]| ensures ChildAt(nodes', kids, b, j) { KidIsValue(nodes, kids, b, j); }
    forall x | IsValue(nodes', x) ensures Placed(nodes', kids, x) { assert Placed(nodes, kids, x); }
    forall s | s in nodes' ensures Paired(nodes', s) { assert Paired(nodes, s); }
    forall x ensures NameAt(nodes', x) == NameAt(nodes, x) && NamedAt(nodes', x) == NamedAt(nodes, x) && Up(nodes', x) == Up(nodes, x) {}
    forall b | b in kids ensures Members(nodes', kids, b) { assert Members(nodes, kids, b); }
  }

  /** An empty container value loses its aggregate and becomes an empty value. */
  lemma DropPair(nodes: Nodes, kids: Kids, rank: Rank, bound: nat, names: nat, strings: nat,
                 keyAt: map<Slot, Key>, slotOf: map<Key, Slot>, next: Key, root: Key, v: Slot, a: Slot)
    requires IsForest(nodes, kids, rank, bound) && PayloadsValid(nodes, names, strings) && RootValid(nodes, keyAt, slotOf, root)
    requires KeysValid(nodes, keyAt, slotOf, next)
    requires IsAggregate(nodes, a) && nodes[a].owner == v && a in kids && kids[a] == [] && root in slotOf && v != slotOf[root]
    ensures a in keyAt && IsValue(nodes, v) && a != v
    ensures var nodes' := (nodes - {a})[v := nodes[v].(payload := EMPTY_PAYLOAD, owned := NO_SLOT)];
      && IsForest(nodes', kids - {a}, rank, bound) && PayloadsValid(nodes', names, strings)
      && KeysValid(nodes', keyAt - {a}, slotOf - {keyAt[a]}, next) && RootValid(nodes', keyAt - {a}, slotOf - {keyAt[a]}, root)
  {
    assert Paired(nodes, a);
    assert Paired(nodes, slotOf[root]);
    DropForest(nodes, kids, rank, bound, v, a);
  }

  lemma DropForest(nodes: Nodes, kids: Kids, rank: Rank, bound: nat, v: Slot, a: Slot)
    requires IsForest(nodes, kids, rank, bound) && IsAggregate(nodes, a) && nodes[a].owner == v && a in kids && kids[a] == []
    ensures IsValue(nodes, v)
    ensures IsForest((nodes - {a})[v := nodes[v].(payload := EMPTY_PAYLOAD, owned := NO_SLOT)], kids - {a}, rank, bound)
  {
    assert Paired(nodes, a);
    var nodes', kids' := (nodes - {a})[v := nodes[v].(payload := EMPTY_PAYLOAD, owned := NO_SLOT)], kids - {a};
    forall b, j | b in kids' && 0 <= j < |kids'[b]| ensures ChildAt(nodes', kids', b, j) { KidIsValue(nodes, kids, b, j); }
    forall x | IsValue(nodes', x) ensures Placed(nodes', kids', x) { assert Placed(nodes, kids, x); }
    forall s | s in nodes' ensures Paired(nodes', s) { assert Paired(nodes, s); }
    forall x ensures NameAt(nodes', x) == NameAt(nodes, x) && NamedAt(nodes', x) == NamedAt(nodes, x) {}
    forall b | b in kids' ensures Members(nodes', kids', b) { assert Members(nodes, kids, b); }
    forall x | IsValue(nodes', x) ensures Up(nodes', x) == Up(nodes, x) { assert Placed(nodes, kids, x); }
  }

  /** A hollowed container, once its pair is dropped too, has lost exactly its contents. */
  lemma HollowFacts(f: Shape, keyAt0: map<Slot, Key>, slotOf0: map<Key, Slot>, nodes: Nodes, kids: Kids, keyAt: map<Slot, Key>, slotOf: map<Key, Slot>,
                    next: Key, v: Slot, a: Slot)
    requires Wf(f) && IsAggregate(f.nodes, a) && f.nodes[a].owner == v && KeysValid(f.nodes, keyAt0, slotOf0, next)
    requires var dead := RecordsOf(f, Strictly(f, v));
      && nodes == Sever(f.nodes, dead, a) && kids == SeverKids(f.kids, dead, a)
      && keyAt == keyAt0 - dead && slotOf == SlotsWithout(slotOf0, dead)
    ensures IsAggregate(nodes, a) && nodes[a].owner == v && a in kids && kids[a] == []
    ensures a in keyAt && v in nodes && IsValue(f.nodes, v) && nodes[v] == f.nodes[v]
    ensures RecordsGone(f, (nodes - {a})[v := nodes[v].(payload := EMPTY_PAYLOAD, owned := NO_SLOT)], kids - {a}, keyAt0, keyAt - {a}, slotOf0, slotOf - {keyAt[a]}, v)
  {
    var dead := RecordsOf(f, Strictly(f, v));
    AggregateFacts(f, a);
    BeforeAll(f, a);
    NotInside(f, v);
    SlotsStep(f.nodes, keyAt0, slotOf0, next, dead, a);
    HollowMaps(f.nodes, f.kids, dead, v, a);
  }

  lemma HollowMaps(nodes: Nodes, kids: Kids, dead: set<Slot>, v: Slot, a: Slot)
    requires IsAggregate(nodes, a) && IsValue(nodes, v) && a !in dead && v !in dead && a in kids
    ensures var left := Sever(nodes, dead, a); var leftKids := SeverKids(kids, dead, a);
      && IsAggregate(left, a) && left[a].owner == nodes[a].owner && a in leftKids && leftKids[a] == [] && v in left && left[v] == nodes[v]
      && (left - {a})[v := nodes[v].(payload := EMPTY_PAYLOAD, owned := NO_SLOT)]
         == (nodes - (dead + {a}))[v := nodes[v].(payload := EMPTY_PAYLOAD, owned := NO_SLOT)]
      && leftKids - {a} == kids - (dead + {a})
  {
  }

  lemma SlotKept(slotOf: map<Key, Slot>, slotOf': map<Key, Slot>, dead: set<Slot>, k: Key)
    requires slotOf' == SlotsWithout(slotOf, dead) && k in slotOf'
    ensures k in slotOf && slotOf'[k] == slotOf[k]
  {
  }

  lemma NotInside(f: Shape, v: Slot)
    requires Wf(f) && IsValue(f.nodes, v)
    ensures v !in RecordsOf(f, Strictly(f, v))
  {
  }

  /** The values of the subtree of `v`, itself included. */
  ghost function Whole(f: Shape, v: Slot): set<Slot> {
    set x | x in f.nodes && f.nodes[x].Value? && Under(f.nodes, x, v)
  }

  ghost predicate TreeGone(f: Shape, nodes: Nodes, kids: Kids, keyAt: map<Slot, Key>, keyAt': map<Slot, Key>,
                           slotOf: map<Key, Slot>, slotOf': map<Key, Slot>, v: Slot) {
    var dead := RecordsOf(f, Whole(f, v));
    && nodes == Unlinked(f.nodes, v) - dead && kids == UnlinkedKids(f.nodes, f.kids, v) - dead
    && keyAt' == keyAt - dead && slotOf' == SlotsWithout(slotOf, dead)
  }

  lemma NothingGone(f: Shape, keyAt: map<Slot, Key>, slotOf: map<Key, Slot>, next: Key)
    requires KeysValid(f.nodes, keyAt, slotOf, next)
    ensures RecordsOf(f, {}) == {} && f.nodes - {} == f.nodes && keyAt - {} == keyAt && SlotsWithout(slotOf, {}) == slotOf
  {
  }

  lemma {:induction false} WholeSame(f: Shape, f': Shape, v: Slot, x: Slot)
    requires Wf(f) && IsValue(f.nodes, x)
    requires forall y :: Up(f'.nodes, y) == if y == v then NO_SLOT else Up(f.nodes, y)
    ensures Under(f'.nodes, x, v) <==> Under(f.nodes, x, v)
    decreases f.rank[x]
  {
    UnderStep(f.nodes, x, v);
    UnderStep(f'.nodes, x, v);
    if x != v && Up(f.nodes, x) != NO_SLOT {
      UpIsValue(f.nodes, f.kids, x);
      WholeSame(f, f', v, Up(f.nodes, x));
    }
  }

  lemma DetachedSame(f: Shape, f': Shape, v: Slot)
    requires Wf(f) && SameRecords(f.nodes, f'.nodes)
    requires forall y :: Up(f'.nodes, y) == if y == v then NO_SLOT else Up(f.nodes, y)
    ensures RecordsOf(f', Whole(f', v)) == RecordsOf(f, Whole(f, v))
  {
    forall x | x in f.nodes ensures f'.nodes[x].Value? == f.nodes[x].Value? && Home(f'.nodes, x) == Home(f.nodes, x) {
      assert SameButLinks(f.nodes[x], f'.nodes[x]);
    }
    forall x | IsValue(f.nodes, x) ensures Under(f'.nodes, x, v) <==> Under(f.nodes, x, v) { WholeSame(f, f', v, x); }
    assert Whole(f', v) == Whole(f, v);
  }

  /** A whole tree can be removed from the forest. */
  lemma SeverableTree(f: Shape, v: Slot)
    requires Wf(f) && IsValue(f.nodes, v) && Unattached(f.nodes[v])
    ensures Severable(f.nodes, f.kids, RecordsOf(f, Whole(f, v)), NO_SLOT)
  {
    var dead := RecordsOf(f, Whole(f, v));
    assert dead <= f.nodes.Keys && NO_SLOT !in f.nodes;
    hide Wf, RecordsOf, Whole;
    forall b, i | b in f.kids && 0 <= i < |f.kids[b]| ensures f.kids[b][i] in dead <==> b in dead || b == NO_SLOT { DeadTreeKid(f, v, b, i); }
    forall s | s in dead
      ensures f.nodes[s].Value? && f.nodes[s].owned >= 0 ==> f.nodes[s].owned in dead
      ensures f.nodes[s].Aggregate? ==> f.nodes[s].owner in dead { DeadPair(f, Whole(f, v), s); }
  }

  lemma DeadTreeKid(f: Shape, v: Slot, b: Slot, i: int)
    requires Wf(f) && IsValue(f.nodes, v) && Unattached(f.nodes[v]) && b in f.kids && 0 <= i < |f.kids[b]|
    ensures f.kids[b][i] in RecordsOf(f, Whole(f, v)) <==> b in RecordsOf(f, Whole(f, v))
    ensures b != NO_SLOT
  {
    AggregateFacts(f, b);
    KidIsValue(f.nodes, f.kids, b, i);
    UnderStep(f.nodes, f.kids[b][i], v);
  }

  lemma TreeForest(f: Shape, v: Slot)
    requires Wf(f) && IsValue(f.nodes, v) && Unattached(f.nodes[v])
    ensures var dead := RecordsOf(f, Whole(f, v)); IsForest(f.nodes - dead, f.kids - dead, f.rank, f.bound)
  {
    var dead := RecordsOf(f, Whole(f, v));
    SeverableTree(f, v);
    SeverForest(f.nodes, f.kids, f.rank, f.bound, dead, NO_SLOT);
    assert NO_SLOT !in f.nodes && NO_SLOT !in f.kids;
    assert Sever(f.nodes, dead, NO_SLOT) == f.nodes - dead;
    assert SeverKids(f.kids, dead, NO_SLOT) == f.kids - dead;
  }

  lemma RootSurvives(f: Shape, keyAt: map<Slot, Key>, slotOf: map<Key, Slot>, root: Key, v: Slot)
    requires Wf(f) && RootValid(f.nodes, keyAt, slotOf, root) && IsValue(f.nodes, v) && v != slotOf[root]
    ensures var dead := RecordsOf(f, Whole(f, v)); slotOf[root] !in dead && f.nodes[slotOf[root]].owned !in dead && dead <= f.nodes.Keys
    ensures NO_SLOT !in f.nodes
  {
    var r := slotOf[root];
    assert Paired(f.nodes, r);
    UnderStep(f.nodes, r, v);
    assert Up(f.nodes, r) == NO_SLOT;
  }

  lemma {:induction false} WalkElems(f: Shape, v: Slot)
    requires Wf(f) && IsValue(f.nodes, v)
    ensures Elems(Walk(f, Post, v)) == Whole(f, v) && {} + Elems(Walk(f, Post, v)) == Whole(f, v)
  {
    forall x ensures x in Elems(Walk(f, Post, v)) <==> x in Whole(f, v) { WalkMembers(f, Post, v, x); }
  }

  lemma {:induction false} TreeDocument(f: Shape, names: nat, strings: nat, keyAt: map<Slot, Key>, slotOf: map<Key, Slot>, next: Key, root: Key, v: Slot)
    requires Wf(f) && KeysValid(f.nodes, keyAt, slotOf, next) && PayloadsValid(f.nodes, names, strings) && RootValid(f.nodes, keyAt, slotOf, root)
    requires IsValue(f.nodes, v) && Unattached(f.nodes[v]) && v != slotOf[root]
    ensures Elems(Walk(f, Post, v)) == Whole(f, v) && {} + Elems(Walk(f, Post, v)) == Whole(f, v)
    ensures var dead := RecordsOf(f, Whole(f, v)); var nodes' := f.nodes - dead;
      && IsForest(nodes', f.kids - dead, f.rank, f.bound)
      && PayloadsValid(nodes', names, strings) && KeysValid(nodes', keyAt - dead, SlotsWithout(slotOf, dead), next)
      && RootValid(nodes', keyAt - dead, SlotsWithout(slotOf, dead), root)
  {
    hide IsForest, RecordsOf, Whole, KeysValid, PayloadsValid;
    var dead := RecordsOf(f, Whole(f, v));
    WalkElems(f, v);
    TreeForest(f, v);
    RootSurvives(f, keyAt, slotOf, root, v);
    SeverRecords(f, names, strings, keyAt, slotOf, next, root, dead, NO_SLOT);
    assert Sever(f.nodes, dead, NO_SLOT) == f.nodes - dead;
  }

  lemma DetachedFacts(f: Shape, f': Shape, v: Slot)
    requires Wf(f) && IsValue(f.nodes, v)
    requires if f.nodes[v].parent == NO_SLOT then f'.nodes == f.nodes && f'.kids == f.kids && Unattached(f.nodes[v])
             else LinkedOutOf(f.nodes, f.kids, f'.nodes, f'.kids, v)
    ensures IsValue(f'.nodes, v) && Unattached(f'.nodes[v])
    ensures RecordsOf(f', Whole(f', v)) == RecordsOf(f, Whole(f, v))
    ensures f'.nodes == Unlinked(f.nodes, v) && f'.kids == UnlinkedKids(f.nodes, f.kids, v)
  {
    assert NO_SLOT !in f.nodes && NO_SLOT !in f.kids;
    if f.nodes[v].parent != NO_SLOT { DetachedSame(f, f', v); }
  }

  lemma KidsKnown(nodes: Nodes, kids: Kids, rank: Rank, bound: nat)
    requires IsForest(nodes, kids, rank, bound)
    ensures NO_SLOT !in nodes && forall b :: b in kids ==> b in nodes
  {
    assert forall b :: b in kids ==> IsAggregate(nodes, b);
  }

  lemma AdvancesBack(slotOf: map<Key, Slot>, next: Key, slotOf': map<Key, Slot>, next': Key)
    requires Advances(slotOf, next, slotOf', next')
    ensures Advances(slotOf, next, slotOf, next')
  {
  }

  /** A scalar value at the top of its own tree is a whole tree by itself. */
  lemma ShellTree(f: Shape, keyAt: map<Slot, Key>, slotOf: map<Key, Slot>, next: Key, k: Key)
    requires Wf(f) && KeysValid(f.nodes, keyAt, slotOf, next) && k in slotOf
    requires IsValue(f.nodes, slotOf[k]) && !IsContainer(f.nodes[slotOf[k]].payload.vtype) && Unattached(f.nodes[slotOf[k]])
    ensures var s := slotOf[k];
      && RecordsOf(f, Whole(f, s)) == {s} && s in keyAt && keyAt[s] == k
      && SlotsWithout(slotOf, {s}) == slotOf - {k} && Unlinked(f.nodes, s) == f.nodes && UnlinkedKids(f.nodes, f.kids, s) == f.kids
      && f.kids - {s} == f.kids
  {
    var s := slotOf[k];
    ScalarContents(f, keyAt, slotOf, next, s);
    UnderStep(f.nodes, s, s);
    assert Whole(f, s) == {s} by {
      forall x | x in Whole(f, s) ensures x == s { assert x != s ==> x in Strictly(f, s) && x in RecordsOf(f, Strictly(f, s)); }
    }
    forall a | a in f.nodes && f.nodes[a].Aggregate? ensures f.nodes[a].owner != s { AggregateFacts(f, a); }
    assert NO_SLOT !in f.nodes && NO_SLOT !in f.kids;
  }

  lemma ShellGone(f: Shape, nodes: Nodes, kids: Kids, keyAt: map<Slot, Key>, keyAt': map<Slot, Key>,
                  slotOf: map<Key, Slot>, slotOf': map<Key, Slot>, s: Slot, k: Key)
    requires TreeGone(f, nodes, kids, keyAt, keyAt', slotOf, slotOf', s)
    requires RecordsOf(f, Whole(f, s)) == {s} && SlotsWithout(slotOf, {s}) == slotOf - {k}
    requires Unlinked(f.nodes, s) == f.nodes && UnlinkedKids(f.nodes, f.kids, s) == f.kids && f.kids - {s} == f.kids
    ensures nodes == f.nodes - {s} && kids == f.kids && keyAt' == keyAt - {s} && slotOf' == slotOf - {k}
  {
  }

  lemma KeysKnown(nodes: Nodes, keyAt: map<Slot, Key>, slotOf: map<Key, Slot>, next: Key)
    requires KeysValid(nodes, keyAt, slotOf, next)
    ensures keyAt.Keys == nodes.Keys
  {
  }

  /** `f'` holds everything `f` does, unchanged. */
  ghost predicate Grows(f: Shape, f': Shape, keyAt: map<Slot, Key>, keyAt': map<Slot, Key>, slotOf: map<Key, Slot>, slotOf': map<Key, Slot>) {
    && (forall s :: s in f.nodes ==> s in f'.nodes && f'.nodes[s] == f.nodes[s])
    && (forall b :: b in f.kids ==> b in f'.kids && f'.kids[b] == f.kids[b])
    && (forall s :: s in keyAt ==> s in keyAt' && keyAt'[s] == keyAt[s])
    && (forall k :: k in slotOf ==> k in slotOf' && slotOf'[k] == slotOf[k])
  }

  lemma GrowsTransitive(f: Shape, f': Shape, f'': Shape, keyAt: map<Slot, Key>, keyAt': map<Slot, Key>, keyAt'': map<Slot, Key>,
                        slotOf: map<Key, Slot>, slotOf': map<Key, Slot>, slotOf'': map<Key, Slot>)
    requires Grows(f, f', keyAt, keyAt', slotOf, slotOf') && Grows(f', f'', keyAt', keyAt'', slotOf', slotOf'')
    ensures Grows(f, f'', keyAt, keyAt'', slotOf, slotOf'')
  {
  }

  lemma GrowsKeep(f: Shape, f': Shape, keyAt: map<Slot, Key>, keyAt': map<Slot, Key>, slotOf: map<Key, Slot>, slotOf': map<Key, Slot>, s: Slot, k: Key)
    requires Grows(f, f', keyAt, keyAt', slotOf, slotOf') && s in f.nodes && k in slotOf
    ensures s in f'.nodes && f'.nodes[s] == f.nodes[s] && k in slotOf' && slotOf'[k] == slotOf[k]
  {
  }

  lemma GrowsFresh(f: Shape, f': Shape, keyAt: map<Slot, Key>, keyAt': map<Slot, Key>, slotOf: map<Key, Slot>, slotOf': map<Key, Slot>)
    requires Grows(f, f', keyAt, keyAt', slotOf, slotOf')
    ensures forall s :: s !in f'.nodes ==> s !in f.nodes
    ensures forall k :: k !in slotOf' ==> k !in slotOf
  {
  }

  lemma AdvancesLess(slotOf: map<Key, Slot>, next: Key, slotOf': map<Key, Slot>, slotOf'': map<Key, Slot>, next': Key)
    requires Advances(slotOf, next, slotOf', next') && slotOf''.Keys <= slotOf'.Keys
    ensures Advances(slotOf, next, slotOf'', next')
  {
  }

  // ---------------------------------------------------------------------
  // Names and the root's type

  function Renamed(nodes: Nodes, v: Slot, name: nat, named: bool): Nodes
    requires IsValue(nodes, v)
  {
    nodes[v := nodes[v].(name := name, named := named)]
  }

  /** No other member of the object that holds `v` carries `name`, and members stay named. */
  ghost predicate Nameable(nodes: Nodes, kids: Kids, v: Slot, name: nat, named: bool)
    requires IsValue(nodes, v)
  {
    var d := Up(nodes, v);
    var ks := KidsOf(nodes, kids, d);
    IsValue(nodes, d) && nodes[d].payload.vtype.Object? ==>
      named && forall i :: 0 <= i < |ks| && ks[i] != v ==> NameAt(nodes, ks[i]) != name
  }

  lemma RenameLinked(nodes: Nodes, kids: Kids, v: Slot, name: nat, named: bool)
    requires Linked(nodes, kids) && IsValue(nodes, v) && Nameable(nodes, kids, v, name, named)
    ensures Linked(Renamed(nodes, v, name, named), kids)
  {
    var nodes' := Renamed(nodes, v, name, named);
    forall a, i | a in kids && 0 <= i < |kids[a]| ensures ChildAt(nodes', kids, a, i) { assert ChildAt(nodes, kids, a, i); }
    forall a | a in kids ensures Ends(nodes'[a], kids[a]) && Distinct(kids[a]) { assert Ends(nodes[a], kids[a]); }
    forall x | IsValue(nodes', x) ensures Placed(nodes', kids, x) { assert Placed(nodes, kids, x); }
    forall s | s in nodes' ensures Paired(nodes', s) { assert Paired(nodes, s); }
    forall a | a in kids ensures Members(nodes', kids, a) { RenameMembers(nodes, kids, v, name, named, a); }
  }

  lemma RenameMembers(nodes: Nodes, kids: Kids, v: Slot, name: nat, named: bool, a: Slot)
    requires Linked(nodes, kids) && IsValue(nodes, v) && Nameable(nodes, kids, v, name, named) && a in kids
    ensures Members(Renamed(nodes, v, name, named), kids, a)
  {
    var nodes' := Renamed(nodes, v, name, named);
    assert Members(nodes, kids, a) && Paired(nodes, a);
    forall i | 0 <= i < |kids[a]| ensures IsValue(nodes, kids[a][i]) && nodes[kids[a][i]].parent == a { assert ChildAt(nodes, kids, a, i); }
    if v in kids[a] && nodes[a].kind.ObjectKind? {
      assert Up(nodes, v) == nodes[a].owner && KidsOf(nodes, kids, nodes[a].owner) == kids[a];
      forall i, j | 0 <= i < j < |kids[a]| ensures NameAt(nodes', kids[a][i]) != NameAt(nodes', kids[a][j]) {
        if kids[a][i] != v { assert NameAt(nodes', kids[a][i]) == NameAt(nodes, kids[a][i]); }
        if kids[a][j] != v { assert NameAt(nodes', kids[a][j]) == NameAt(nodes, kids[a][j]); }
      }
    } else {
      forall i | nodes[a].kind.ObjectKind? && 0 <= i < |kids[a]| ensures nodes'[kids[a][i]] == nodes[kids[a][i]] {}
    }
  }

  lemma RenameDocument(nodes: Nodes, kids: Kids, rank: Rank, bound: nat, names: nat, strings: nat,
                       keyAt: map<Slot, Key>, slotOf: map<Key, Slot>, next: Key, root: Key, v: Slot, name: nat, named: bool)
    requires IsForest(nodes, kids, rank, bound) && PayloadsValid(nodes, names, strings) && RootValid(nodes, keyAt, slotOf, root)
    requires KeysValid(nodes, keyAt, slotOf, next)
    requires IsValue(nodes, v) && v != slotOf[root] && NameValid(name, named, names) && Nameable(nodes, kids, v, name, named)
    ensures var nodes' := Renamed(nodes, v, name, named);
      && IsForest(nodes', kids, rank, bound) && PayloadsValid(nodes', names, strings) && RootValid(nodes', keyAt, slotOf, root)
      && KeysValid(nodes', keyAt, slotOf, next)
  {
    var nodes' := Renamed(nodes, v, name, named);
    RenameLinked(nodes, kids, v, name, named);
    assert Ranked(nodes', rank, bound) by {
      forall x ensures Up(nodes', x) == Up(nodes, x) {}
      hide Up, Linked;
      RankedSame(nodes, nodes', rank, bound);
    }
    hide Linked, Ranked, Nameable;
    forall x | IsValue(nodes', x) ensures PayloadValid(nodes'[x].payload, strings) && NameValid(nodes'[x].name, nodes'[x].named, names) {
      assert IsValue(nodes, x);
    }
    KeysSame(nodes, nodes', keyAt, slotOf, next);
  }

  lemma RankedSame(nodes: Nodes, nodes': Nodes, rank: Rank, bound: nat)
    requires Ranked(nodes, rank, bound) && forall x :: IsValue(nodes', x) ==> IsValue(nodes, x)
    requires forall x :: Up(nodes', x) == Up(nodes, x)
    ensures Ranked(nodes', rank, bound)
  {
    hide Up;
  }

  lemma NamesGrow(nodes: Nodes, names: nat, names': nat, strings: nat)
    requires PayloadsValid(nodes, names, strings) && names <= names'
    ensures PayloadsValid(nodes, names', strings)
  {
  }

  /** The childless container `r` changes its type. */
  function Retyped(nodes: Nodes, r: Slot, t: ValueType): Nodes
    requires IsValue(nodes, r) && IsAggregate(nodes, nodes[r].owned) && IsContainer(t)
  {
    var a := nodes[r].owned;
    nodes[a := nodes[a].(kind := KindOf(t))][r := nodes[r].(payload := nodes[r].payload.(vtype := t))]
  }

  lemma RetypeForest(nodes: Nodes, kids: Kids, rank: Rank, bound: nat, r: Slot, t: ValueType)
    requires IsForest(nodes, kids, rank, bound) && IsValue(nodes, r) && IsContainer(nodes[r].payload.vtype) && IsContainer(t)
    requires KidsOf(nodes, kids, r) == []
    ensures IsAggregate(nodes, nodes[r].owned) && IsForest(Retyped(nodes, r, t), kids, rank, bound)
  {
    assert Paired(nodes, r);
    var nodes' := Retyped(nodes, r, t);
    forall a, i | a in kids && 0 <= i < |kids[a]| ensures ChildAt(nodes', kids, a, i) { assert ChildAt(nodes, kids, a, i); }
    forall a | a in kids ensures Ends(nodes'[a], kids[a]) && Distinct(kids[a]) { assert Ends(nodes[a], kids[a]); }
    forall x | IsValue(nodes', x) ensures Placed(nodes', kids, x) { assert Placed(nodes, kids, x); }
    forall s | s in nodes' ensures Paired(nodes', s) { assert Paired(nodes, s); }
    forall x ensures NameAt(nodes', x) == NameAt(nodes, x) && NamedAt(nodes', x) == NamedAt(nodes, x) {}
    forall a | a in kids ensures Members(nodes', kids, a) { assert Members(nodes, kids, a); }
    assert Ranked(nodes', rank, bound) by {
      forall x ensures Up(nodes', x) == Up(nodes, x) {}
      hide Up, Linked;
      RankedSame(nodes, nodes', rank, bound);
    }
  }

  lemma RetypeRoot(nodes: Nodes, kids: Kids, rank: Rank, bound: nat, names: nat, strings: nat,
                   keyAt: map<Slot, Key>, slotOf: map<Key, Slot>, next: Key, root: Key, t: ValueType)
    requires IsForest(nodes, kids, rank, bound) && PayloadsValid(nodes, names, strings) && RootValid(nodes, keyAt, slotOf, root)
    requires KeysValid(nodes, keyAt, slotOf, next) && IsContainer(t) && KidsOf(nodes, kids, slotOf[root]) == []
    ensures IsAggregate(nodes, nodes[slotOf[root]].owned)
    ensures var nodes' := Retyped(nodes, slotOf[root], t);
      && IsForest(nodes', kids, rank, bound) && PayloadsValid(nodes', names, strings) && RootValid(nodes', keyAt, slotOf, root)
      && KeysValid(nodes', keyAt, slotOf, next)
  {
    var r := slotOf[root];
    RetypeForest(nodes, kids, rank, bound, r, t);
    var nodes' := Retyped(nodes, r, t);
    forall x | IsValue(nodes', x) ensures PayloadValid(nodes'[x].payload, strings) && NameValid(nodes'[x].name, nodes'[x].named, names) {
      assert IsValue(nodes, x);
    }
    KeysSame(nodes, nodes', keyAt, slotOf, next);
  }

  /** The text behind a name or string identifier: zero is the empty text. */
  function TextAt(table: seq<Bytes>, id: int): Bytes {
    if 0 < id <= |table| then table[id - 1] else []
  }

  /** Different identifiers stand for different texts. */
  lemma TextsDiffer(breaks: LineBreaks, names: seq<Bytes>, strings: seq<Bytes>, id: nat, id': nat)
    requires TablesValid(breaks, names, strings) && id <= |names| && id' <= |names| && TextAt(names, id) == TextAt(names, id')
    ensures id == id'
  {
    if id > 0 { assert names[id - 1] != []; }
    if id' > 0 { assert names[id' - 1] != []; }
  }

  /** A member of the object that holds `v`, other than `v`, already has this text as its name. */
  ghost predicate Taken(nodes: Nodes, kids: Kids, names: seq<Bytes>, v: Slot, text: Bytes) {
    var d := Up(nodes, v);
    var ks := KidsOf(nodes, kids, d);
    IsValue(nodes, d) && nodes[d].payload.vtype.Object? && exists i :: 0 <= i < |ks| && ks[i] != v && TextAt(names, NameAt(nodes, ks[i])) == text
  }

  /** A text is taken exactly when its identifier is. */
  lemma TakenById(nodes: Nodes, kids: Kids, breaks: LineBreaks, names: seq<Bytes>, strings: seq<Bytes>, v: Slot, id: nat)
    requires Linked(nodes, kids) && PayloadsValid(nodes, |names|, |strings|) && TablesValid(breaks, names, strings) && id <= |names|
    ensures var ks := KidsOf(nodes, kids, Up(nodes, v));
      Taken(nodes, kids, names, v, TextAt(names, id)) <==>
        && IsValue(nodes, Up(nodes, v)) && nodes[Up(nodes, v)].payload.vtype.Object?
        && exists i :: 0 <= i < |ks| && ks[i] != v && NameAt(nodes, ks[i]) == id
  {
    var ks := KidsOf(nodes, kids, Up(nodes, v));
    forall i | 0 <= i < |ks| ensures TextAt(names, NameAt(nodes, ks[i])) == TextAt(names, id) <==> NameAt(nodes, ks[i]) == id {
      KidsUp(nodes, kids, Up(nodes, v), i);
      assert NameValid(nodes[ks[i]].name, nodes[ks[i]].named, |names|);
      if TextAt(names, NameAt(nodes, ks[i])) == TextAt(names, id) { TextsDiffer(breaks, names, strings, nodes[ks[i]].name, id); }
    }
  }

  /** A new, unbroken name enters the table without disturbing what is there. */
  lemma NameEntered(nodes: Nodes, breaks: LineBreaks, names: seq<Bytes>, strings: seq<Bytes>, text: Bytes)
    requires TablesValid(breaks, names, strings) && PayloadsValid(nodes, |names|, |strings|)
    requires text != [] && text !in names && !breaks(text) && |names| + 1 < 0xffff_ffff
    ensures TablesValid(breaks, names + [text], strings) && PayloadsValid(nodes, |names + [text]|, |strings|)
    ensures forall id: int :: 0 <= id <= |names| ==> TextAt(names + [text], id) == TextAt(names, id)
  {
    NamesGrow(nodes, |names|, |names + [text]|, |strings|);
  }

  lemma UpKeyed(nodes: Nodes, kids: Kids, keyAt: map<Slot, Key>, slotOf: map<Key, Slot>, next: Key, v: Slot)
    requires Linked(nodes, kids) && KeysValid(nodes, keyAt, slotOf, next)
    ensures NO_SLOT !in nodes
    ensures IsValue(nodes, v) && nodes[v].parent >= 0 ==>
      && IsAggregate(nodes, nodes[v].parent) && Up(nodes, v) == nodes[nodes[v].parent].owner && Up(nodes, v) in keyAt && Up(nodes, v) >= 0
      && keyAt[Up(nodes, v)] != NO_KEY && keyAt[Up(nodes, v)] in slotOf && slotOf[keyAt[Up(nodes, v)]] == Up(nodes, v)
    ensures !IsValue(nodes, v) || nodes[v].parent < 0 ==> Up(nodes, v) == NO_SLOT
  {
    if IsValue(nodes, v) {
      assert Placed(nodes, kids, v);
      if nodes[v].parent >= 0 { assert Paired(nodes, nodes[v].parent); }
    }
  }

  lemma TakenGrown(nodes: Nodes, kids: Kids, names: seq<Bytes>, names': seq<Bytes>, strings: nat, v: Slot, text: Bytes)
    requires Linked(nodes, kids) && PayloadsValid(nodes, |names|, strings)
    requires forall x: int :: 0 <= x <= |names| ==> TextAt(names', x) == TextAt(names, x)
    ensures Taken(nodes, kids, names', v, text) <==> Taken(nodes, kids, names, v, text)
  {
    var ks := KidsOf(nodes, kids, Up(nodes, v));
    forall i | 0 <= i < |ks| ensures TextAt(names', NameAt(nodes, ks[i])) == TextAt(names, NameAt(nodes, ks[i])) {
      KidsUp(nodes, kids, Up(nodes, v), i);
      assert NameValid(nodes[ks[i]].name, nodes[ks[i]].named, |names|);
    }
  }

  /** The keys in use and the next key to be issued, at one moment. */
  datatype KeyState = KeyState(slotOf: map<Key, Slot>, next: Key)

  /** A run of operations, each of which keeps keys or issues new ones. */
  ghost predicate Run(states: seq<KeyState>) {
    forall i :: 0 < i < |states| ==> Advances(states[i - 1].slotOf, states[i - 1].next, states[i].slotOf, states[i].next)
  }

  lemma {:induction false} RunAdvances(states: seq<KeyState>, i: nat, j: nat)
    requires Run(states) && i <= j < |states|
    ensures Advances(states[i].slotOf, states[i].next, states[j].slotOf, states[j].next)
    decreases j
  {
    if i < j {
      RunAdvances(states, i, j - 1);
      AdvancesTransitive(states[i].slotOf, states[i].next, states[j - 1].slotOf, states[j - 1].next, states[j].slotOf, states[j].next);
    } else {
      AdvancesSame(states[i].slotOf, states[i].next);
    }
  }

  /** A key that was in use and has gone out of use never comes back. */
  lemma NeverReused(states: seq<KeyState>, i: nat, j: nat, k: nat, key: Key)
    requires Run(states) && i <= j <= k < |states|
    requires key in states[i].slotOf && (states[i].next != NO_KEY ==> key < states[i].next)
    requires key !in states[j].slotOf
    ensures key !in states[k].slotOf
  {
    RunAdvances(states, i, j);
    RunAdvances(states, j, k);
  }

  /** The two records of a new document. */
  lemma RootPairDocument(s: Slot, a: Slot)
    requires s >= 0 && a >= 0 && s != a
    ensures var payload := Payload(Object, 0, false, PLAIN);
      var nodes := InsertPair(map[], s, a, payload, 0, false);
      var keyAt, slotOf := map[s := ROOT_KEY][a := 2], map[ROOT_KEY := s][2 := a];
      && IsForest(nodes, map[a := []], map[s := 0], 1) && PayloadsValid(nodes, 0, 0) && RootValid(nodes, keyAt, slotOf, ROOT_KEY)
      && KeysValid(nodes, keyAt, slotOf, 3) && KidsOf(nodes, map[a := []], s) == [] && nodes[s].payload == payload
      && (forall x :: IsValue(nodes, x) ==> x == s) && |nodes| == 2
  {
    hide Under;
    var nodes := InsertPair(map[], s, a, Payload(Object, 0, false, PLAIN), 0, false);
    assert nodes.Keys == {s, a};
  }

  /** A stored container pair only adds to what was there. */
  lemma PairGrows(f: Shape, f': Shape, keyAt: map<Slot, Key>, keyAt': map<Slot, Key>, slotOf: map<Key, Slot>, slotOf': map<Key, Slot>,
                  s: Slot, a: Slot, k: Key, k': Key, payload: Payload, name: nat, named: bool)
    requires IsContainer(payload.vtype) && s != a && s !in f.nodes && a !in f.nodes && k !in slotOf && k' !in slotOf && k != k'
    requires keyAt.Keys == f.nodes.Keys && forall b :: b in f.kids ==> b in f.nodes
    requires f'.nodes == InsertPair(f.nodes, s, a, payload, name, named) && f'.kids == f.kids[a := []]
    requires keyAt' == keyAt[s := k][a := k'] && slotOf' == slotOf[k := s][k' := a]
    ensures Grows(f, f', keyAt, keyAt', slotOf, slotOf')
    ensures IsValue(f'.nodes, s) && f'.nodes[s] == NewValue(payload, a, name, named) && f'.kids[a] == [] && KidsOf(f'.nodes, f'.kids, s) == []
    ensures forall x :: IsValue(f'.nodes, x) ==> x in f.nodes || x == s
  {
  }

  /** A stored scalar only adds to what was there. */
  lemma LeafGrows(f: Shape, f': Shape, keyAt: map<Slot, Key>, keyAt': map<Slot, Key>, slotOf: map<Key, Slot>, slotOf': map<Key, Slot>,
                  s: Slot, k: Key, payload: Payload, name: nat, named: bool)
    requires !IsContainer(payload.vtype) && s !in f.nodes && k !in slotOf && keyAt.Keys == f.nodes.Keys
    requires f'.nodes == f.nodes[s := NewValue(payload, NO_SLOT, name, named)] && f'.kids == f.kids
    requires keyAt' == keyAt[s := k] && slotOf' == slotOf[k := s]
    ensures Grows(f, f', keyAt, keyAt', slotOf, slotOf')
    ensures IsValue(f'.nodes, s) && f'.nodes[s] == NewValue(payload, NO_SLOT, name, named) && KidsOf(f'.nodes, f'.kids, s) == []
    ensures forall x :: IsValue(f'.nodes, x) ==> x in f.nodes || x == s
  {
  }

  lemma GrowsSame(f: Shape, keyAt: map<Slot, Key>, slotOf: map<Key, Slot>)
    ensures Grows(f, f, keyAt, keyAt, slotOf, slotOf)
  {
  }

  /** A second growth after a first: both together, and what the first brought still stands. */
  lemma GrowsTwice(f: Shape, f': Shape, f'': Shape, keyAt: map<Slot, Key>, keyAt': map<Slot, Key>, keyAt'': map<Slot, Key>,
                   slotOf: map<Key, Slot>, slotOf': map<Key, Slot>, slotOf'': map<Key, Slot>, k: Key)
    requires Grows(f, f', keyAt, keyAt', slotOf, slotOf') && Grows(f', f'', keyAt', keyAt'', slotOf', slotOf'')
    requires k in slotOf' && slotOf'[k] in f'.nodes
    ensures Grows(f, f'', keyAt, keyAt'', slotOf, slotOf'')
    ensures k in slotOf'' && slotOf''[k] == slotOf'[k] && slotOf'[k] in f''.nodes && f''.nodes[slotOf'[k]] == f'.nodes[slotOf'[k]]
    ensures forall s :: s !in f'.nodes ==> s !in f.nodes
    ensures forall x :: x !in slotOf' ==> x !in slotOf
  {
    GrowsTransitive(f, f', f'', keyAt, keyAt', keyAt'', slotOf, slotOf', slotOf'');
    GrowsKeep(f', f'', keyAt', keyAt'', slotOf', slotOf'', slotOf'[k], k);
    GrowsFresh(f, f', keyAt, keyAt', slotOf, slotOf');
  }

  /** A new string value enters the table without disturbing what is there. */
  lemma StringEntered(nodes: Nodes, breaks: LineBreaks, names: seq<Bytes>, strings: seq<Bytes>, text: Bytes)
    requires TablesValid(breaks, names, strings) && PayloadsValid(nodes, |names|, |strings|)
    requires text != [] && text !in strings && |strings| + 1 < 0xffff_ffff
    ensures TablesValid(breaks, names, strings + [text]) && PayloadsValid(nodes, |names|, |strings + [text]|)
  {
    forall v | IsValue(nodes, v) ensures PayloadValid(nodes[v].payload, |strings + [text]|) {
      assert PayloadValid(nodes[v].payload, |strings|);
    }
  }
}
