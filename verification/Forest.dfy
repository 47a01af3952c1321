/**
 What it means for the slot links of a live document to describe a forest:
 every aggregate lists its children in order, both ways, with an exact count,
 and following parents always ends.
 */
module Forest {
  import opened LiveNode
  import opened Sequences

  /** The children of each aggregate slot, in order. */
  type Kids = map<Slot, seq<Slot>>
  /** A number per value that grows from parent to child. */
  type Rank = map<Slot, nat>

  function At(s: seq<Slot>, i: int): Slot {
    if 0 <= i < |s| then s[i] else NO_SLOT
  }

  predicate IsValue(nodes: Nodes, v: Slot) {
    v in nodes && nodes[v].Value?
  }

  predicate IsAggregate(nodes: Nodes, a: Slot) {
    a in nodes && nodes[a].Aggregate?
  }

  /** Child `i` of aggregate `a` is a value whose three links say so. */
  ghost predicate ChildAt(nodes: Nodes, kids: Kids, a: Slot, i: int)
    requires a in kids && 0 <= i < |kids[a]|
  {
    var v := kids[a][i];
    && IsValue(nodes, v) && nodes[v].parent == a
    && nodes[v].prev == At(kids[a], i - 1) && nodes[v].next == At(kids[a], i + 1)
  }

  ghost predicate Ends(n: Node, s: seq<Slot>) {
    n.Aggregate? && n.first == At(s, 0) && n.last == At(s, |s| - 1) && n.count == |s|
  }

  ghost predicate Placed(nodes: Nodes, kids: Kids, v: Slot)
    requires IsValue(nodes, v)
  {
    if nodes[v].parent == NO_SLOT then Unattached(nodes[v])
    else nodes[v].parent in kids && v in kids[nodes[v].parent]
  }

  /** A container value owns exactly its aggregate; every aggregate has such an owner. */
  ghost predicate Paired(nodes: Nodes, s: Slot)
    requires s in nodes
  {
    match nodes[s]
    case Value(_, _, _, owned, payload, _, _) =>
      if IsContainer(payload.vtype) then owned in nodes && FormsPair(nodes[s], nodes[owned], s, owned)
      else owned == NO_SLOT
    case Aggregate(owner, _, _, _, _) =>
      owner in nodes && FormsPair(nodes[owner], nodes[s], owner, s)
  }

  function NameAt(nodes: Nodes, v: Slot): int {
    if IsValue(nodes, v) then nodes[v].name else -1
  }

  predicate NamedAt(nodes: Nodes, v: Slot) {
    IsValue(nodes, v) && nodes[v].named
  }

  /** The members of an object are named, with names that differ. */
  ghost predicate Members(nodes: Nodes, kids: Kids, a: Slot)
    requires IsAggregate(nodes, a) && a in kids
  {
    nodes[a].kind.ObjectKind? ==>
      && (forall i :: 0 <= i < |kids[a]| ==> NamedAt(nodes, kids[a][i]))
      && (forall i, j :: 0 <= i < j < |kids[a]| ==> NameAt(nodes, kids[a][i]) != NameAt(nodes, kids[a][j]))
  }

  ghost predicate Listed(nodes: Nodes, kids: Kids) {
    && (forall s :: s in nodes ==> s >= 0)
    && (forall a :: a in kids <==> IsAggregate(nodes, a))
    && (forall a, i :: a in kids && 0 <= i < |kids[a]| ==> ChildAt(nodes, kids, a, i))
    && (forall a :: a in kids ==> Ends(nodes[a], kids[a]) && Distinct(kids[a]))
    && (forall v :: IsValue(nodes, v) ==> Placed(nodes, kids, v))
  }

  ghost predicate Linked(nodes: Nodes, kids: Kids) {
    && Listed(nodes, kids)
    && (forall s :: s in nodes ==> Paired(nodes, s))
    && (forall a :: a in kids ==> Members(nodes, kids, a))
  }

  /** The value that holds `v`, or -1 for the root of a tree. */
  function Up(nodes: Nodes, v: Slot): Slot {
    if IsValue(nodes, v) && IsAggregate(nodes, nodes[v].parent) then nodes[nodes[v].parent].owner else NO_SLOT
  }

  function KidsOf(nodes: Nodes, kids: Kids, v: Slot): seq<Slot> {
    if IsValue(nodes, v) && IsContainer(nodes[v].payload.vtype) && nodes[v].owned in kids then kids[nodes[v].owned] else []
  }

  ghost predicate Ranked(nodes: Nodes, rank: Rank, bound: nat) {
    forall v :: IsValue(nodes, v) ==>
      && v in rank && rank[v] < bound
      && (Up(nodes, v) != NO_SLOT ==> Up(nodes, v) in rank && rank[Up(nodes, v)] < rank[v])
  }

  /** The links of `nodes` are those of a forest with these children. */
  ghost predicate IsForest(nodes: Nodes, kids: Kids, rank: Rank, bound: nat) {
    Linked(nodes, kids) && Ranked(nodes, rank, bound)
  }

  // ---------------------------------------------------------------------
  // Ancestry

  ghost predicate Climbs(nodes: Nodes, x: Slot, top: Slot, hops: nat)
    decreases hops
  {
    if hops == 0 then x == top else Up(nodes, x) != NO_SLOT && Climbs(nodes, Up(nodes, x), top, hops - 1)
  }

  /** `x` lies in the subtree of `top`: some number of parent steps leads there. */
  ghost predicate Under(nodes: Nodes, x: Slot, top: Slot) {
    exists hops: nat :: Climbs(nodes, x, top, hops)
  }

  lemma UnderStep(nodes: Nodes, x: Slot, top: Slot)
    ensures Under(nodes, x, top) <==> x == top || (Up(nodes, x) != NO_SLOT && Under(nodes, Up(nodes, x), top))
  {
    if Under(nodes, x, top) {
      var hops: nat :| Climbs(nodes, x, top, hops);
      if hops > 0 { assert Climbs(nodes, Up(nodes, x), top, hops - 1); }
    }
    if x == top { assert Climbs(nodes, x, top, 0); }
    if Up(nodes, x) != NO_SLOT && Under(nodes, Up(nodes, x), top) {
      var hops: nat :| Climbs(nodes, Up(nodes, x), top, hops);
      assert Climbs(nodes, x, top, hops + 1);
    }
  }

  lemma UpIsValue(nodes: Nodes, kids: Kids, v: Slot)
    requires Linked(nodes, kids) && IsValue(nodes, v) && Up(nodes, v) != NO_SLOT
    ensures IsValue(nodes, Up(nodes, v)) && nodes[Up(nodes, v)].owned == nodes[v].parent
    ensures v in KidsOf(nodes, kids, Up(nodes, v))
  {
    var a := nodes[v].parent;
    assert Paired(nodes, a);
    assert Placed(nodes, kids, v);
  }

  lemma KidsUp(nodes: Nodes, kids: Kids, v: Slot, i: int)
    requires Linked(nodes, kids) && 0 <= i < |KidsOf(nodes, kids, v)|
    ensures IsValue(nodes, KidsOf(nodes, kids, v)[i]) && Up(nodes, KidsOf(nodes, kids, v)[i]) == v && v >= 0
  {
    var a := nodes[v].owned;
    assert ChildAt(nodes, kids, a, i);
    assert Paired(nodes, v);
  }

  lemma {:induction false} UnderRank(nodes: Nodes, kids: Kids, rank: Rank, bound: nat, x: Slot, top: Slot)
    requires IsForest(nodes, kids, rank, bound) && IsValue(nodes, x) && Under(nodes, x, top)
    ensures IsValue(nodes, top) && rank[top] <= rank[x] && (x != top ==> rank[top] < rank[x])
    decreases rank[x]
  {
    UnderStep(nodes, x, top);
    if x != top {
      UpIsValue(nodes, kids, x);
      UnderRank(nodes, kids, rank, bound, Up(nodes, x), top);
    }
  }

  lemma {:induction false} UnderTransitive(nodes: Nodes, kids: Kids, rank: Rank, bound: nat, x: Slot, mid: Slot, top: Slot)
    requires IsForest(nodes, kids, rank, bound) && IsValue(nodes, x)
    requires Under(nodes, x, mid) && Under(nodes, mid, top)
    ensures Under(nodes, x, top)
    decreases rank[x]
  {
    UnderStep(nodes, x, mid);
    UnderStep(nodes, x, top);
    if x != mid {
      UpIsValue(nodes, kids, x);
      UnderTransitive(nodes, kids, rank, bound, Up(nodes, x), mid, top);
    }
  }

  /** Two subtrees that share a value are nested. */
  lemma {:induction false} UnderNested(nodes: Nodes, kids: Kids, rank: Rank, bound: nat, x: Slot, a: Slot, b: Slot)
    requires IsForest(nodes, kids, rank, bound) && IsValue(nodes, x)
    requires Under(nodes, x, a) && Under(nodes, x, b)
    ensures Under(nodes, a, b) || Under(nodes, b, a)
    decreases rank[x]
  {
    UnderStep(nodes, x, a);
    UnderStep(nodes, x, b);
    if x != a && x != b {
      UpIsValue(nodes, kids, x);
      UnderNested(nodes, kids, rank, bound, Up(nodes, x), a, b);
    }
  }

  // ---------------------------------------------------------------------
  // Linking a child in and out

  function InsertAt<T>(s: seq<T>, i: nat, x: T): seq<T>
    requires i <= |s|
  {
    s[..i] + [x] + s[i..]
  }

  function RemoveAt<T>(s: seq<T>, i: nat): seq<T>
    requires i < |s|
  {
    s[..i] + s[i + 1..]
  }

  /** The list without its first occurrence of `x`. */
  function Omit<T(==)>(s: seq<T>, x: T): seq<T> {
    if s == [] then [] else if s[0] == x then s[1..] else [s[0]] + Omit(s[1..], x)
  }

  lemma {:induction false} OmitAt<T>(s: seq<T>, i: nat)
    requires i < |s| && Distinct(s)
    ensures Omit(s, s[i]) == RemoveAt(s, i)
  {
    if i > 0 {
      assert s[1..][i - 1] == s[i];
      assert s[0] != s[i];
      OmitAt(s[1..], i - 1);
      assert [s[0]] + RemoveAt(s[1..], i - 1) == RemoveAt(s, i);
    }
  }

  /** The link updates of an attachment, in the order the document makes them. */
  function LinkIn(nodes: Nodes, a: Slot, c: Slot, p: Slot, n: Slot): Nodes
    requires IsAggregate(nodes, a) && IsValue(nodes, c)
    requires p >= 0 ==> IsValue(nodes, p)
    requires n >= 0 ==> IsValue(nodes, n)
  {
    var n1 := nodes[c := nodes[c].(parent := a, prev := p, next := n)];
    var n2 := if p >= 0 then n1[p := n1[p].(next := c)] else n1[a := n1[a].(first := c)];
    var n3 := if n >= 0 then n2[n := n2[n].(prev := c)] else n2[a := n2[a].(last := c)];
    n3[a := n3[a].(count := n3[a].count + 1)]
  }

  /** The link updates of a detachment. */
  function LinkOut(nodes: Nodes, c: Slot): Nodes
    requires IsValue(nodes, c) && IsAggregate(nodes, nodes[c].parent) && nodes[nodes[c].parent].count > 0
    requires nodes[c].prev >= 0 ==> IsValue(nodes, nodes[c].prev)
    requires nodes[c].next >= 0 ==> IsValue(nodes, nodes[c].next)
  {
    var a, p, n := nodes[c].parent, nodes[c].prev, nodes[c].next;
    var n1 := if p >= 0 then nodes[p := nodes[p].(next := n)] else nodes[a := nodes[a].(first := n)];
    var n2 := if n >= 0 then n1[n := n1[n].(prev := p)] else n1[a := n1[a].(last := p)];
    var n3 := n2[a := n2[a].(count := n2[a].count - 1)];
    n3[c := n3[c].(parent := NO_SLOT, prev := NO_SLOT, next := NO_SLOT)]
  }

  /** Same records up to the links that attachment may touch. */
  ghost predicate SameButLinks(old_: Node, new_: Node) {
    if old_.Value? then new_.Value? && new_.payload == old_.payload && new_.name == old_.name && new_.named == old_.named && new_.owned == old_.owned
    else new_.Aggregate? && new_.owner == old_.owner && new_.kind == old_.kind
  }

  /** Where each record ends up after `LinkIn`. */
  lemma LinkInPoints(nodes: Nodes, a: Slot, c: Slot, p: Slot, n: Slot)
    requires IsAggregate(nodes, a) && IsValue(nodes, c) && c != p && c != n && (p >= 0 ==> p != n)
    requires p >= 0 ==> IsValue(nodes, p)
    requires n >= 0 ==> IsValue(nodes, n)
    ensures var nodes' := LinkIn(nodes, a, c, p, n);
      && nodes'.Keys == nodes.Keys
      && nodes'[c] == nodes[c].(parent := a, prev := p, next := n)
      && (p >= 0 ==> nodes'[p] == nodes[p].(next := c))
      && (n >= 0 ==> nodes'[n] == nodes[n].(prev := c))
      && nodes'[a] == nodes[a].(first := if p >= 0 then nodes[a].first else c,
                                last := if n >= 0 then nodes[a].last else c, count := nodes[a].count + 1)
      && (forall s :: s in nodes && s != a && s != c && !(s == p && p >= 0) && !(s == n && n >= 0) ==> nodes'[s] == nodes[s])
  {
  }

  /** The children of an aggregate are values that name it as their parent. */
  lemma KidIsValue(nodes: Nodes, kids: Kids, a: Slot, i: int)
    requires Listed(nodes, kids) && a in kids && 0 <= i < |kids[a]|
    ensures kids[a][i] >= 0 && IsValue(nodes, kids[a][i]) && nodes[kids[a][i]].parent == a
    ensures nodes[kids[a][i]].prev == At(kids[a], i - 1) && nodes[kids[a][i]].next == At(kids[a], i + 1)
  {
    assert ChildAt(nodes, kids, a, i);
  }

  /** `c` may be linked into aggregate `a` as child number `i`. */
  ghost predicate CanListIn(nodes: Nodes, kids: Kids, a: Slot, c: Slot, i: nat) {
    && Listed(nodes, kids) && IsAggregate(nodes, a) && IsValue(nodes, c) && Unattached(nodes[c]) && i <= |kids[a]|
    && (forall j :: 0 <= j < |kids[a]| ==> IsValue(nodes, kids[a][j]) && kids[a][j] >= 0 && kids[a][j] != c)
  }

  ghost function NodesIn(nodes: Nodes, kids: Kids, a: Slot, c: Slot, i: nat): Nodes
    requires CanListIn(nodes, kids, a, c, i)
  {
    LinkIn(nodes, a, c, At(kids[a], i - 1), At(kids[a], i))
  }

  lemma AtInserted(ks: seq<Slot>, i: nat, c: Slot, j: int)
    requires i <= |ks| && 0 <= j <= |ks|
    ensures |InsertAt(ks, i, c)| == |ks| + 1
    ensures InsertAt(ks, i, c)[j] == if j < i then ks[j] else if j == i then c else ks[j - 1]
    ensures At(InsertAt(ks, i, c), j - 1) == if j <= i then At(ks, j - 1) else if j == i + 1 then c else At(ks, j - 2)
    ensures At(InsertAt(ks, i, c), j + 1) == if j + 1 < i then At(ks, j + 1) else if j + 1 == i then c else At(ks, j)
  {
  }

  lemma ChildAtIn(nodes: Nodes, kids: Kids, a: Slot, c: Slot, i: nat, j: nat)
    requires CanListIn(nodes, kids, a, c, i) && j <= |kids[a]|
    ensures ChildAt(NodesIn(nodes, kids, a, c, i), kids[a := InsertAt(kids[a], i, c)], a, j)
  {
    var ks := kids[a];
    LinkInPoints(nodes, a, c, At(ks, i - 1), At(ks, i));
    AtInserted(ks, i, c, j);
    if j < i {
      KidIsValue(nodes, kids, a, j);
    } else if j > i {
      KidIsValue(nodes, kids, a, j - 1);
    }
  }

  lemma ChildAtElsewhere(nodes: Nodes, kids: Kids, a: Slot, c: Slot, i: nat, b: Slot, j: nat)
    requires CanListIn(nodes, kids, a, c, i) && b in kids && b != a && j < |kids[b]|
    ensures ChildAt(NodesIn(nodes, kids, a, c, i), kids[a := InsertAt(kids[a], i, c)], b, j)
  {
    LinkInPoints(nodes, a, c, At(kids[a], i - 1), At(kids[a], i));
    KidIsValue(nodes, kids, b, j);
    if i > 0 { KidIsValue(nodes, kids, a, i - 1); }
    if i < |kids[a]| { KidIsValue(nodes, kids, a, i); }
  }

  lemma PlacedIn(nodes: Nodes, kids: Kids, a: Slot, c: Slot, i: nat, v: Slot)
    requires CanListIn(nodes, kids, a, c, i) && IsValue(nodes, v)
    ensures IsValue(NodesIn(nodes, kids, a, c, i), v)
    ensures Placed(NodesIn(nodes, kids, a, c, i), kids[a := InsertAt(kids[a], i, c)], v)
  {
    var ks' := InsertAt(kids[a], i, c);
    LinkInPoints(nodes, a, c, At(kids[a], i - 1), At(kids[a], i));
    assert Placed(nodes, kids, v);
    if v == c {
      assert ks'[i] == c;
    } else if v in kids[a] {
      var j :| 0 <= j < |kids[a]| && kids[a][j] == v;
      KidIsValue(nodes, kids, a, j);
      assert ks'[if j < i then j else j + 1] == v;
    }
  }

  lemma InsertDistinct(ks: seq<Slot>, i: nat, c: Slot)
    requires i <= |ks| && Distinct(ks) && c !in ks
    ensures Distinct(InsertAt(ks, i, c))
  {
  }

  lemma EndsIn(nodes: Nodes, kids: Kids, a: Slot, c: Slot, i: nat, b: Slot)
    requires CanListIn(nodes, kids, a, c, i) && b in kids
    ensures b in NodesIn(nodes, kids, a, c, i)
    ensures var ks' := kids[a := InsertAt(kids[a], i, c)][b]; Ends(NodesIn(nodes, kids, a, c, i)[b], ks') && Distinct(ks')
  {
    LinkInPoints(nodes, a, c, At(kids[a], i - 1), At(kids[a], i));
    if b == a { InsertDistinct(kids[a], i, c); }
  }

  lemma ListIn(nodes: Nodes, kids: Kids, a: Slot, c: Slot, i: nat)
    requires CanListIn(nodes, kids, a, c, i)
    ensures Listed(NodesIn(nodes, kids, a, c, i), kids[a := InsertAt(kids[a], i, c)])
  {
    var nodes' := NodesIn(nodes, kids, a, c, i);
    var kids' := kids[a := InsertAt(kids[a], i, c)];
    LinkInPoints(nodes, a, c, At(kids[a], i - 1), At(kids[a], i));
    assert forall b :: b in kids' <==> IsAggregate(nodes', b);
    forall b, j | b in kids' && 0 <= j < |kids'[b]| ensures ChildAt(nodes', kids', b, j) {
      if b == a { ChildAtIn(nodes, kids, a, c, i, j); } else { ChildAtElsewhere(nodes, kids, a, c, i, b, j); }
    }
    forall b | b in kids' ensures Ends(nodes'[b], kids'[b]) && Distinct(kids'[b]) { EndsIn(nodes, kids, a, c, i, b); }
    forall v | IsValue(nodes', v) ensures Placed(nodes', kids', v) { PlacedIn(nodes, kids, a, c, i, v); }
  }

  /** Names, payloads and pairs survive any change of the sibling links alone. */
  ghost predicate SameRecords(nodes: Nodes, nodes': Nodes) {
    nodes'.Keys == nodes.Keys && forall s :: s in nodes ==> SameButLinks(nodes[s], nodes'[s])
  }

  lemma PairedSame(nodes: Nodes, nodes': Nodes)
    requires SameRecords(nodes, nodes') && forall s :: s in nodes ==> Paired(nodes, s)
    ensures forall s :: s in nodes' ==> Paired(nodes', s)
  {
    forall s | s in nodes' ensures Paired(nodes', s) {
      assert Paired(nodes, s);
      assert SameButLinks(nodes[s], nodes'[s]);
      var t := if nodes[s].Value? then nodes[s].owned else nodes[s].owner;
      if t in nodes { assert SameButLinks(nodes[t], nodes'[t]); }
    }
  }

  lemma NamesSame(nodes: Nodes, nodes': Nodes, v: Slot)
    requires SameRecords(nodes, nodes')
    ensures NameAt(nodes', v) == NameAt(nodes, v) && NamedAt(nodes', v) == NamedAt(nodes, v)
  {
    if v in nodes { assert SameButLinks(nodes[v], nodes'[v]); }
  }

  /** A child that an aggregate may take: acceptable, and not a second member of its name. */
  ghost predicate Admits(nodes: Nodes, kids: Kids, a: Slot, c: Slot) {
    && IsAggregate(nodes, a) && a in kids && IsValue(nodes, c) && Accepts(nodes[a], nodes[c])
    && (nodes[a].kind.ObjectKind? ==> forall i :: 0 <= i < |kids[a]| ==> NameAt(nodes, kids[a][i]) != nodes[c].name)
  }

  lemma CanList(nodes: Nodes, kids: Kids, a: Slot, c: Slot, i: nat)
    requires Listed(nodes, kids) && IsAggregate(nodes, a) && IsValue(nodes, c) && Unattached(nodes[c]) && i <= |kids[a]|
    ensures CanListIn(nodes, kids, a, c, i)
  {
    forall j | 0 <= j < |kids[a]| ensures IsValue(nodes, kids[a][j]) && kids[a][j] >= 0 && kids[a][j] != c {
      KidIsValue(nodes, kids, a, j);
    }
  }

  lemma MembersIn(nodes: Nodes, nodes': Nodes, kids: Kids, a: Slot, c: Slot, i: nat)
    requires SameRecords(nodes, nodes') && Admits(nodes, kids, a, c) && i <= |kids[a]| && Members(nodes, kids, a)
    ensures Members(nodes', kids[a := InsertAt(kids[a], i, c)], a)
  {
    assert SameButLinks(nodes[a], nodes'[a]);
    var ks' := InsertAt(kids[a], i, c);
    forall j | 0 <= j < |ks'| ensures NameAt(nodes', ks'[j]) == NameAt(nodes, ks'[j]) && NamedAt(nodes', ks'[j]) == NamedAt(nodes, ks'[j])
      && ks'[j] == if j < i then kids[a][j] else if j == i then c else kids[a][j - 1] {
      NamesSame(nodes, nodes', ks'[j]);
    }
  }

  lemma MembersSame(nodes: Nodes, nodes': Nodes, kids: Kids, a: Slot)
    requires SameRecords(nodes, nodes') && IsAggregate(nodes, a) && a in kids && Members(nodes, kids, a)
    ensures IsAggregate(nodes', a) && Members(nodes', kids, a)
  {
    assert SameButLinks(nodes[a], nodes'[a]);
    forall j | 0 <= j < |kids[a]| ensures NameAt(nodes', kids[a][j]) == NameAt(nodes, kids[a][j]) && NamedAt(nodes', kids[a][j]) == NamedAt(nodes, kids[a][j]) {
      NamesSame(nodes, nodes', kids[a][j]);
    }
  }

  lemma RecordsIn(nodes: Nodes, kids: Kids, a: Slot, c: Slot, i: nat)
    requires CanListIn(nodes, kids, a, c, i)
    ensures SameRecords(nodes, NodesIn(nodes, kids, a, c, i)) && NodesIn(nodes, kids, a, c, i)[c].parent == a
    ensures forall s :: IsValue(nodes, s) && s != c ==> NodesIn(nodes, kids, a, c, i)[s].parent == nodes[s].parent
    ensures forall v :: IsValue(nodes, v) && Unattached(nodes[v]) && v != c ==> Unattached(NodesIn(nodes, kids, a, c, i)[v])
  {
    LinkInPoints(nodes, a, c, At(kids[a], i - 1), At(kids[a], i));
    if i > 0 { KidIsValue(nodes, kids, a, i - 1); }
    if i < |kids[a]| { KidIsValue(nodes, kids, a, i); }
  }

  lemma LinkedIn(nodes: Nodes, kids: Kids, a: Slot, c: Slot, i: nat)
    requires Linked(nodes, kids) && CanListIn(nodes, kids, a, c, i) && Admits(nodes, kids, a, c)
    ensures Linked(NodesIn(nodes, kids, a, c, i), kids[a := InsertAt(kids[a], i, c)])
  {
    var nodes' := NodesIn(nodes, kids, a, c, i);
    var kids' := kids[a := InsertAt(kids[a], i, c)];
    ListIn(nodes, kids, a, c, i);
    RecordsIn(nodes, kids, a, c, i);
    PairedSame(nodes, nodes');
    forall b | b in kids' ensures Members(nodes', kids', b) {
      assert Members(nodes, kids, b);
      if b == a {
        MembersIn(nodes, nodes', kids, a, c, i);
      } else {
        MembersSame(nodes, nodes', kids, b);
      }
    }
  }

  /** Ranks after a subtree moves below a value of rank `lift - 1`. */
  ghost function Lift(nodes: Nodes, rank: Rank, top: Slot, lift: nat): Rank {
    map v | v in rank :: if Under(nodes, v, top) then rank[v] + lift else rank[v]
  }

  /** Hanging a whole tree below a value outside it keeps every climb finite. */
  lemma RankedIn(nodes: Nodes, kids: Kids, rank: Rank, bound: nat, a: Slot, c: Slot, nodes': Nodes)
    requires IsForest(nodes, kids, rank, bound) && IsAggregate(nodes, a) && IsValue(nodes, c) && Unattached(nodes[c])
    requires !Under(nodes, nodes[a].owner, c)
    requires SameRecords(nodes, nodes') && nodes'[c].parent == a
    requires forall s :: IsValue(nodes, s) && s != c ==> nodes'[s].parent == nodes[s].parent
    ensures nodes[a].owner in rank
    ensures Ranked(nodes', Lift(nodes, rank, c, rank[nodes[a].owner] + 1), bound + rank[nodes[a].owner] + 1)
    ensures forall v :: Up(nodes', v) == if v == c then nodes[a].owner else Up(nodes, v)
  {
    var d := nodes[a].owner;
    assert Paired(nodes, a);
    var rank' := Lift(nodes, rank, c, rank[d] + 1);
    forall v ensures Up(nodes', v) == if v == c then d else Up(nodes, v) {
      if IsValue(nodes, v) {
        assert SameButLinks(nodes[v], nodes'[v]);
        var b := if v == c then a else nodes[v].parent;
        if b in nodes { assert SameButLinks(nodes[b], nodes'[b]); }
      }
    }
    forall v | IsValue(nodes', v)
      ensures v in rank' && rank'[v] < bound + rank[d] + 1
      ensures Up(nodes', v) != NO_SLOT ==> Up(nodes', v) in rank' && rank'[Up(nodes', v)] < rank'[v] {
      assert SameButLinks(nodes[v], nodes'[v]);
      UnderStep(nodes, v, c);
    }
  }

  // ---------------------------------------------------------------------
  // Linking a child out

  lemma LinkOutPoints(nodes: Nodes, c: Slot)
    requires IsValue(nodes, c) && IsAggregate(nodes, nodes[c].parent) && nodes[nodes[c].parent].count > 0
    requires c != nodes[c].prev && c != nodes[c].next && (nodes[c].prev >= 0 ==> nodes[c].prev != nodes[c].next)
    requires nodes[c].prev >= 0 ==> IsValue(nodes, nodes[c].prev)
    requires nodes[c].next >= 0 ==> IsValue(nodes, nodes[c].next)
    ensures var nodes' := LinkOut(nodes, c); var a, p, n := nodes[c].parent, nodes[c].prev, nodes[c].next;
      && nodes'.Keys == nodes.Keys
      && nodes'[c] == nodes[c].(parent := NO_SLOT, prev := NO_SLOT, next := NO_SLOT)
      && (p >= 0 ==> nodes'[p] == nodes[p].(next := n))
      && (n >= 0 ==> nodes'[n] == nodes[n].(prev := p))
      && nodes'[a] == nodes[a].(first := if p >= 0 then nodes[a].first else n,
                                last := if n >= 0 then nodes[a].last else p, count := nodes[a].count - 1)
      && (forall s :: s in nodes && s != a && s != c && !(s == p && p >= 0) && !(s == n && n >= 0) ==> nodes'[s] == nodes[s])
  {
  }

  lemma AtRemoved(ks: seq<Slot>, i: nat, j: int)
    requires i < |ks| && 0 <= j < |ks| - 1
    ensures |RemoveAt(ks, i)| == |ks| - 1
    ensures RemoveAt(ks, i)[j] == if j < i then ks[j] else ks[j + 1]
    ensures At(RemoveAt(ks, i), j - 1) == if j <= i then At(ks, j - 1) else At(ks, j)
    ensures At(RemoveAt(ks, i), j + 1) == if j + 1 < i then At(ks, j + 1) else At(ks, j + 2)
  {
  }

  /** `c` is child number `i` of aggregate `a`. */
  ghost predicate IsKid(nodes: Nodes, kids: Kids, a: Slot, c: Slot, i: nat) {
    && Listed(nodes, kids) && a in kids && i < |kids[a]| && kids[a][i] == c
    && IsValue(nodes, c) && nodes[c].parent == a
    && nodes[c].prev == At(kids[a], i - 1) && nodes[c].next == At(kids[a], i + 1)
    && (forall j :: 0 <= j < |kids[a]| ==> IsValue(nodes, kids[a][j]) && kids[a][j] >= 0)
    && nodes[a].Aggregate? && nodes[a].count > 0
  }

  lemma FindKid(nodes: Nodes, kids: Kids, c: Slot) returns (i: nat)
    requires Listed(nodes, kids) && IsValue(nodes, c) && nodes[c].parent != NO_SLOT
    ensures IsKid(nodes, kids, nodes[c].parent, c, i)
  {
    var a := nodes[c].parent;
    assert Placed(nodes, kids, c);
    i :| 0 <= i < |kids[a]| && kids[a][i] == c;
    KidIsValue(nodes, kids, a, i);
    forall j | 0 <= j < |kids[a]| ensures IsValue(nodes, kids[a][j]) && kids[a][j] >= 0 { KidIsValue(nodes, kids, a, j); }
  }

  /** What a position among the children of an aggregate looks like from the links around it. */
  lemma PlaceFacts(nodes: Nodes, kids: Kids, a: Slot, at: nat)
    requires Linked(nodes, kids) && NO_SLOT !in nodes && IsAggregate(nodes, a) && a in kids && at <= |kids[a]|
    ensures var previous, next := At(kids[a], at - 1), At(kids[a], at);
      && (if next < 0 then next == NO_SLOT && previous == nodes[a].last else IsValue(nodes, next) && nodes[next].parent == a && nodes[next].prev == previous)
      && (if previous < 0 then previous == NO_SLOT && next == nodes[a].first else IsValue(nodes, previous) && nodes[previous].parent == a && nodes[previous].next == next)
      && (previous < 0 || next < 0 || a >= 0)
  {
    assert Ends(nodes[a], kids[a]);
    if at > 0 { KidIsValue(nodes, kids, a, at - 1); }
    if at < |kids[a]| { KidIsValue(nodes, kids, a, at); }
  }

  /** The value before a child of another aggregate is not in this one either. */
  lemma StrayFacts(nodes: Nodes, kids: Kids, a: Slot, next: Slot)
    requires Linked(nodes, kids) && NO_SLOT !in nodes && IsAggregate(nodes, a) && IsValue(nodes, next) && next >= 0 && nodes[next].parent != a
    ensures var previous := nodes[next].prev;
      previous == NO_SLOT || (previous >= 0 && IsValue(nodes, previous) && nodes[previous].parent != a)
  {
    if nodes[next].parent == NO_SLOT {
      assert Placed(nodes, kids, next);
    } else {
      var i := FindKid(nodes, kids, next);
      if i > 0 { KidIsValue(nodes, kids, nodes[next].parent, i - 1); }
    }
  }

  lemma ChildAtOut(nodes: Nodes, kids: Kids, a: Slot, c: Slot, i: nat, j: nat)
    requires IsKid(nodes, kids, a, c, i) && j < |kids[a]| - 1
    ensures ChildAt(LinkOut(nodes, c), kids[a := RemoveAt(kids[a], i)], a, j)
  {
    hide LinkOut;
    LinkOutPoints(nodes, c);
    AtRemoved(kids[a], i, j);
    KidIsValue(nodes, kids, a, if j < i then j else j + 1);
  }

  lemma ChildAtOutElsewhere(nodes: Nodes, kids: Kids, a: Slot, c: Slot, i: nat, b: Slot, j: nat)
    requires IsKid(nodes, kids, a, c, i) && b in kids && b != a && j < |kids[b]|
    ensures ChildAt(LinkOut(nodes, c), kids[a := RemoveAt(kids[a], i)], b, j)
  {
    hide LinkOut;
    LinkOutPoints(nodes, c);
    KidIsValue(nodes, kids, b, j);
    if i > 0 { KidIsValue(nodes, kids, a, i - 1); }
    if i + 1 < |kids[a]| { KidIsValue(nodes, kids, a, i + 1); }
  }

  lemma PlacedOut(nodes: Nodes, kids: Kids, a: Slot, c: Slot, i: nat, v: Slot)
    requires IsKid(nodes, kids, a, c, i) && IsValue(nodes, v)
    ensures IsValue(LinkOut(nodes, c), v)
    ensures Placed(LinkOut(nodes, c), kids[a := RemoveAt(kids[a], i)], v)
  {
    hide LinkOut, Ends;
    var ks' := RemoveAt(kids[a], i);
    LinkOutPoints(nodes, c);
    assert Placed(nodes, kids, v);
    if v != c && v in kids[a] {
      var j :| 0 <= j < |kids[a]| && kids[a][j] == v;
      KidIsValue(nodes, kids, a, j);
      assert ks'[if j < i then j else j - 1] == v;
    }
  }

  lemma RemoveDistinct(ks: seq<Slot>, i: nat)
    requires i < |ks| && Distinct(ks)
    ensures Distinct(RemoveAt(ks, i))
  {
  }

  lemma EndsOut(nodes: Nodes, kids: Kids, a: Slot, c: Slot, i: nat, b: Slot)
    requires IsKid(nodes, kids, a, c, i) && b in kids
    ensures b in LinkOut(nodes, c)
    ensures var ks' := kids[a := RemoveAt(kids[a], i)][b]; Ends(LinkOut(nodes, c)[b], ks') && Distinct(ks')
  {
    LinkOutPoints(nodes, c);
    if b == a { RemoveDistinct(kids[a], i); }
  }

  lemma ListedOut(nodes: Nodes, kids: Kids, a: Slot, c: Slot, i: nat)
    requires IsKid(nodes, kids, a, c, i)
    ensures Listed(LinkOut(nodes, c), kids[a := RemoveAt(kids[a], i)])
  {
    var nodes' := LinkOut(nodes, c);
    var kids' := kids[a := RemoveAt(kids[a], i)];
    LinkOutPoints(nodes, c);
    assert forall b :: b in kids' <==> IsAggregate(nodes', b);
    forall b, j | b in kids' && 0 <= j < |kids'[b]| ensures ChildAt(nodes', kids', b, j) {
      if b == a { ChildAtOut(nodes, kids, a, c, i, j); } else { ChildAtOutElsewhere(nodes, kids, a, c, i, b, j); }
    }
    forall b | b in kids' ensures Ends(nodes'[b], kids'[b]) && Distinct(kids'[b]) { EndsOut(nodes, kids, a, c, i, b); }
    forall v | IsValue(nodes', v) ensures Placed(nodes', kids', v) { PlacedOut(nodes, kids, a, c, i, v); }
  }

  lemma RecordsOut(nodes: Nodes, kids: Kids, a: Slot, c: Slot, i: nat)
    requires IsKid(nodes, kids, a, c, i)
    ensures SameRecords(nodes, LinkOut(nodes, c)) && Unattached(LinkOut(nodes, c)[c])
    ensures forall s :: IsValue(nodes, s) && s != c ==> LinkOut(nodes, c)[s].parent == nodes[s].parent
  {
    LinkOutPoints(nodes, c);
  }

  lemma UnattachedOut(nodes: Nodes, kids: Kids, a: Slot, c: Slot, i: nat)
    requires IsKid(nodes, kids, a, c, i)
    ensures forall v :: IsValue(nodes, v) && Unattached(nodes[v]) ==> IsValue(LinkOut(nodes, c), v) && Unattached(LinkOut(nodes, c)[v])
  {
    LinkOutPoints(nodes, c);
    if i > 0 { KidIsValue(nodes, kids, a, i - 1); }
    if i + 1 < |kids[a]| { KidIsValue(nodes, kids, a, i + 1); }
  }

  lemma MembersOut(nodes: Nodes, kids: Kids, a: Slot, i: nat)
    requires IsAggregate(nodes, a) && a in kids && i < |kids[a]| && Members(nodes, kids, a)
    ensures Members(nodes, kids[a := RemoveAt(kids[a], i)], a)
  {
    var ks' := RemoveAt(kids[a], i);
    assert forall j :: 0 <= j < |ks'| ==> ks'[j] == if j < i then kids[a][j] else kids[a][j + 1];
  }

  lemma LinkedOut(nodes: Nodes, kids: Kids, a: Slot, c: Slot, i: nat)
    requires Linked(nodes, kids) && IsKid(nodes, kids, a, c, i)
    ensures Linked(LinkOut(nodes, c), kids[a := RemoveAt(kids[a], i)])
  {
    var nodes' := LinkOut(nodes, c);
    var kids' := kids[a := RemoveAt(kids[a], i)];
    RecordsOut(nodes, kids, a, c, i);
    ListedOut(nodes, kids, a, c, i);
    PairedSame(nodes, nodes');
    forall b | b in kids' ensures Members(nodes', kids', b) {
      MembersSame(nodes, nodes', kids, b);
      if b == a { MembersOut(nodes', kids, a, i); }
    }
  }

  lemma RankedOut(nodes: Nodes, kids: Kids, rank: Rank, bound: nat, c: Slot, nodes': Nodes)
    requires IsForest(nodes, kids, rank, bound) && IsValue(nodes, c)
    requires SameRecords(nodes, nodes') && Unattached(nodes'[c])
    requires forall s :: IsValue(nodes, s) && s != c ==> nodes'[s].parent == nodes[s].parent
    requires NO_SLOT !in nodes
    ensures Ranked(nodes', rank, bound)
    ensures forall v :: Up(nodes', v) == if v == c then NO_SLOT else Up(nodes, v)
  {
    forall v ensures Up(nodes', v) == if v == c then NO_SLOT else Up(nodes, v) {
      if IsValue(nodes, v) {
        assert SameButLinks(nodes[v], nodes'[v]);
        if nodes[v].parent in nodes { assert SameButLinks(nodes[nodes[v].parent], nodes'[nodes[v].parent]); }
      }
    }
    forall v | IsValue(nodes', v)
      ensures v in rank && rank[v] < bound
      ensures Up(nodes', v) != NO_SLOT ==> Up(nodes', v) in rank && rank[Up(nodes', v)] < rank[v] {
      assert SameButLinks(nodes[v], nodes'[v]);
    }
  }

  // ---------------------------------------------------------------------
  // Moving a payload between values

  function MoveNodes(nodes: Nodes, target: Slot, source: Slot): Nodes
    requires IsValue(nodes, target) && IsValue(nodes, source) && target != source
  {
    var moved := nodes[target := nodes[target].(payload := nodes[source].payload, owned := nodes[source].owned)]
                      [source := nodes[source].(payload := EMPTY_PAYLOAD, owned := NO_SLOT)];
    var a := nodes[source].owned;
    if IsAggregate(nodes, a) then moved[a := nodes[a].(owner := target)] else moved
  }

  ghost predicate CanMove(nodes: Nodes, kids: Kids, target: Slot, source: Slot) {
    && Linked(nodes, kids) && IsValue(nodes, target) && IsValue(nodes, source) && target != source
    && nodes[target].payload.vtype.EmptyValue? && !nodes[source].payload.vtype.EmptyValue?
  }

  lemma ListedMove(nodes: Nodes, kids: Kids, target: Slot, source: Slot)
    requires CanMove(nodes, kids, target, source)
    ensures Listed(MoveNodes(nodes, target, source), kids)
  {
    var nodes' := MoveNodes(nodes, target, source);
    assert Paired(nodes, source);
    forall b, j | b in kids && 0 <= j < |kids[b]| ensures ChildAt(nodes', kids, b, j) { KidIsValue(nodes, kids, b, j); }
    forall v | IsValue(nodes', v) ensures Placed(nodes', kids, v) { assert Placed(nodes, kids, v); }
  }

  lemma PairedMove(nodes: Nodes, kids: Kids, target: Slot, source: Slot, s: Slot)
    requires CanMove(nodes, kids, target, source) && s in nodes
    ensures Paired(MoveNodes(nodes, target, source), s)
  {
    assert Paired(nodes, s);
    assert Paired(nodes, target);
    assert Paired(nodes, source);
  }

  lemma LinkedMove(nodes: Nodes, kids: Kids, target: Slot, source: Slot)
    requires CanMove(nodes, kids, target, source)
    ensures Linked(MoveNodes(nodes, target, source), kids)
  {
    hide Paired, Placed;
    var nodes' := MoveNodes(nodes, target, source);
    ListedMove(nodes, kids, target, source);
    assert Paired(nodes, source);
    forall s | s in nodes' ensures Paired(nodes', s) { PairedMove(nodes, kids, target, source, s); }
    forall v ensures NameAt(nodes', v) == NameAt(nodes, v) && NamedAt(nodes', v) == NamedAt(nodes, v) {}
    forall b | b in kids ensures Members(nodes', kids, b) { assert Members(nodes, kids, b); }
  }

  /** Moving a payload re-parents the children of `source`, and nothing else. */
  lemma UpMove(nodes: Nodes, kids: Kids, target: Slot, source: Slot, v: Slot)
    requires CanMove(nodes, kids, target, source)
    ensures Up(MoveNodes(nodes, target, source), v) == if Up(nodes, v) == source then target else Up(nodes, v)
  {
    assert Paired(nodes, source);
    if IsValue(nodes, v) && IsAggregate(nodes, nodes[v].parent) { assert Paired(nodes, nodes[v].parent); }
  }

  lemma RankedMove(nodes: Nodes, kids: Kids, rank: Rank, bound: nat, target: Slot, source: Slot)
    requires IsForest(nodes, kids, rank, bound) && CanMove(nodes, kids, target, source)
    requires !Under(nodes, target, source)
    ensures Ranked(MoveNodes(nodes, target, source), Lift(nodes, rank, source, rank[target] + 1), bound + rank[target] + 1)
  {
    var nodes' := MoveNodes(nodes, target, source);
    var rank' := Lift(nodes, rank, source, rank[target] + 1);
    assert Paired(nodes, source);
    forall v | IsValue(nodes', v)
      ensures v in rank' && rank'[v] < bound + rank[target] + 1
      ensures Up(nodes', v) != NO_SLOT ==> Up(nodes', v) in rank' && rank'[Up(nodes', v)] < rank'[v] {
      UpMove(nodes, kids, target, source, v);
      UnderStep(nodes, v, source);
      UnderStep(nodes, source, source);
      if Up(nodes, v) != NO_SLOT && Under(nodes, Up(nodes, v), source) && v == source {
        UnderRank(nodes, kids, rank, bound, Up(nodes, v), source);
      }
    }
  }

  // ---------------------------------------------------------------------
  // New records

  function NewValue(payload: Payload, owned: Slot, name: nat, named: bool): Node {
    Value(NO_SLOT, NO_SLOT, NO_SLOT, owned, payload, name, named)
  }

  function NewAggregate(owner: Slot, kind: Kind): Node {
    Aggregate(owner, NO_SLOT, NO_SLOT, 0, kind)
  }

  lemma InsertLeaf(nodes: Nodes, kids: Kids, rank: Rank, bound: nat, s: Slot, payload: Payload, name: nat, named: bool)
    requires IsForest(nodes, kids, rank, bound) && s >= 0 && s !in nodes && !IsContainer(payload.vtype)
    ensures IsForest(nodes[s := NewValue(payload, NO_SLOT, name, named)], kids, rank[s := 0], bound + 1)
    ensures forall v :: Up(nodes[s := NewValue(payload, NO_SLOT, name, named)], v) == Up(nodes, v)
  {
    var nodes' := nodes[s := NewValue(payload, NO_SLOT, name, named)];
    forall b, j | b in kids && 0 <= j < |kids[b]| ensures ChildAt(nodes', kids, b, j) && kids[b][j] != s { KidIsValue(nodes, kids, b, j); }
    forall v | IsValue(nodes', v) ensures Placed(nodes', kids, v) { if v != s { assert Placed(nodes, kids, v); } }
    forall t | t in nodes' ensures Paired(nodes', t) { if t != s { assert Paired(nodes, t); } }
    forall b | b in kids ensures Members(nodes', kids, b) {
      assert Members(nodes, kids, b);
      forall j | 0 <= j < |kids[b]| ensures kids[b][j] != s { KidIsValue(nodes, kids, b, j); }
    }
    InsertLeafUp(nodes, kids, s, nodes');
  }

  lemma InsertLeafUp(nodes: Nodes, kids: Kids, s: Slot, nodes': Nodes)
    requires Linked(nodes, kids) && s !in nodes && nodes'.Keys == nodes.Keys + {s}
    requires nodes'[s].Value? && nodes'[s].parent == NO_SLOT && NO_SLOT !in nodes'
    requires forall t :: t in nodes ==> nodes'[t] == nodes[t]
    ensures forall v :: Up(nodes', v) == Up(nodes, v)
  {
    forall v ensures Up(nodes', v) == Up(nodes, v) {
      if IsValue(nodes, v) { assert Placed(nodes, kids, v); }
    }
  }

  function InsertPair(nodes: Nodes, s: Slot, a: Slot, payload: Payload, name: nat, named: bool): Nodes
    requires IsContainer(payload.vtype)
  {
    nodes[s := NewValue(payload, a, name, named)][a := NewAggregate(s, KindOf(payload.vtype))]
  }

  /** The pair as it is written: the value first, the aggregate, and then the link to it. */
  lemma PairWritten(nodes: Nodes, s: Slot, a: Slot, payload: Payload, name: nat, named: bool)
    requires IsContainer(payload.vtype) && s != a
    ensures var v, n := NewValue(payload, NO_SLOT, name, named), NewAggregate(s, KindOf(payload.vtype));
      v.Value? && nodes[s := v][a := n][s := v.(owned := a)] == InsertPair(nodes, s, a, payload, name, named)
  {
  }

  lemma PairSize(nodes: Nodes, s: Slot, a: Slot, payload: Payload, name: nat, named: bool)
    requires IsContainer(payload.vtype)
    ensures |InsertPair(nodes, s, a, payload, name, named)| <= |nodes| + 2
  {
    assert |nodes[s := NewValue(payload, a, name, named)]| <= |nodes| + 1;
  }

  lemma InsertPairListed(nodes: Nodes, kids: Kids, s: Slot, a: Slot, payload: Payload, name: nat, named: bool)
    requires Listed(nodes, kids) && s >= 0 && a >= 0 && s !in nodes && a !in nodes && s != a && IsContainer(payload.vtype)
    ensures Listed(InsertPair(nodes, s, a, payload, name, named), kids[a := []])
    ensures forall b, i :: b in kids && 0 <= i < |kids[b]| ==> kids[b][i] in nodes
  {
    var nodes' := InsertPair(nodes, s, a, payload, name, named);
    var kids' := kids[a := []];
    forall b, j | b in kids && 0 <= j < |kids[b]| ensures ChildAt(nodes', kids', b, j) && kids[b][j] in nodes { KidIsValue(nodes, kids, b, j); }
    forall v | IsValue(nodes', v) ensures Placed(nodes', kids', v) { if v != s { assert Placed(nodes, kids, v); } }
  }

  lemma InsertPairUp(nodes: Nodes, kids: Kids, s: Slot, a: Slot, nodes': Nodes, v: Slot)
    requires Linked(nodes, kids) && s !in nodes && a !in nodes && nodes'.Keys == nodes.Keys + {s, a}
    requires nodes'[s].Value? && nodes'[s].parent == NO_SLOT && nodes'[a].Aggregate? && NO_SLOT !in nodes'
    requires forall t :: t in nodes ==> nodes'[t] == nodes[t]
    ensures Up(nodes', v) == Up(nodes, v)
  {
    if IsValue(nodes, v) { assert Placed(nodes, kids, v); }
  }

  lemma InsertPairForest(nodes: Nodes, kids: Kids, rank: Rank, bound: nat, s: Slot, a: Slot, payload: Payload, name: nat, named: bool)
    requires IsForest(nodes, kids, rank, bound) && s >= 0 && a >= 0 && s !in nodes && a !in nodes && s != a && IsContainer(payload.vtype)
    ensures IsForest(InsertPair(nodes, s, a, payload, name, named), kids[a := []], rank[s := 0], bound + 1)
    ensures forall v :: Up(InsertPair(nodes, s, a, payload, name, named), v) == Up(nodes, v)
  {
    var nodes' := InsertPair(nodes, s, a, payload, name, named);
    var kids' := kids[a := []];
    InsertPairListed(nodes, kids, s, a, payload, name, named);
    forall t | t in nodes' ensures Paired(nodes', t) { if t != s && t != a { assert Paired(nodes, t); } }
    forall b | b in kids' ensures Members(nodes', kids', b) {
      if b != a { assert Members(nodes, kids, b); }
    }
    forall v ensures Up(nodes', v) == Up(nodes, v) { InsertPairUp(nodes, kids, s, a, nodes', v); }
  }

  // ---------------------------------------------------------------------
  // Erasing whole subtrees

  /** `dead` holds whole subtrees: pairs stay together and children follow their aggregate.
      Every surviving aggregate keeps all its children, except `hole`, which loses all. */
  ghost predicate Severable(nodes: Nodes, kids: Kids, dead: set<Slot>, hole: Slot) {
    && dead <= nodes.Keys && hole !in dead
    && (forall v :: v in dead && nodes[v].Value? && nodes[v].owned >= 0 ==> nodes[v].owned in dead)
    && (forall a :: a in dead && nodes[a].Aggregate? ==> nodes[a].owner in dead)
    && (forall a, i :: a in kids && 0 <= i < |kids[a]| ==> (kids[a][i] in dead <==> a in dead || a == hole))
  }

  function ClearedAggregate(n: Node): Node
    requires n.Aggregate?
  {
    n.(first := NO_SLOT, last := NO_SLOT, count := 0)
  }

  function Sever(nodes: Nodes, dead: set<Slot>, hole: Slot): Nodes {
    var left := nodes - dead;
    if IsAggregate(left, hole) then left[hole := ClearedAggregate(left[hole])] else left
  }

  function SeverKids(kids: Kids, dead: set<Slot>, hole: Slot): Kids {
    var left := kids - dead;
    if hole in left then left[hole := []] else left
  }

  lemma SeverPoints(nodes: Nodes, kids: Kids, dead: set<Slot>, hole: Slot)
    requires Linked(nodes, kids) && Severable(nodes, kids, dead, hole)
    ensures Sever(nodes, dead, hole).Keys == nodes.Keys - dead
    ensures SeverKids(kids, dead, hole).Keys == kids.Keys - dead
    ensures forall s :: s in nodes && s !in dead ==>
      Sever(nodes, dead, hole)[s] == if s == hole && nodes[s].Aggregate? then ClearedAggregate(nodes[s]) else nodes[s]
    ensures forall b :: b in kids && b !in dead ==> SeverKids(kids, dead, hole)[b] == if b == hole then [] else kids[b]
  {
  }

  lemma SeverListed(nodes: Nodes, kids: Kids, dead: set<Slot>, hole: Slot)
    requires Linked(nodes, kids) && Severable(nodes, kids, dead, hole)
    ensures Listed(Sever(nodes, dead, hole), SeverKids(kids, dead, hole))
  {
    var nodes', kids' := Sever(nodes, dead, hole), SeverKids(kids, dead, hole);
    SeverPoints(nodes, kids, dead, hole);
    forall b, j | b in kids' && 0 <= j < |kids'[b]| ensures ChildAt(nodes', kids', b, j) {
      KidIsValue(nodes, kids, b, j);
      assert kids[b][j] !in dead;
    }
    forall v | IsValue(nodes', v) ensures Placed(nodes', kids', v) {
      assert Placed(nodes, kids, v);
      if nodes[v].parent != NO_SLOT {
        var i := FindKid(nodes, kids, v);
        assert kids[nodes[v].parent][i] !in dead;
      }
    }
  }

  lemma SeverPaired(nodes: Nodes, kids: Kids, dead: set<Slot>, hole: Slot, s: Slot)
    requires Linked(nodes, kids) && Severable(nodes, kids, dead, hole) && s in nodes && s !in dead
    ensures s in Sever(nodes, dead, hole) && Paired(Sever(nodes, dead, hole), s)
  {
    SeverPoints(nodes, kids, dead, hole);
    assert Paired(nodes, s);
    var t := if nodes[s].Value? then nodes[s].owned else nodes[s].owner;
    if t in nodes { assert Paired(nodes, t); }
  }

  /** Removing whole subtrees leaves a forest, and leaves every other record alone. */
  lemma SeverForest(nodes: Nodes, kids: Kids, rank: Rank, bound: nat, dead: set<Slot>, hole: Slot)
    requires IsForest(nodes, kids, rank, bound) && Severable(nodes, kids, dead, hole)
    ensures IsForest(Sever(nodes, dead, hole), SeverKids(kids, dead, hole), rank, bound)
    ensures forall v :: IsValue(nodes, v) && v !in dead ==> Up(Sever(nodes, dead, hole), v) == Up(nodes, v)
  {
    var nodes', kids' := Sever(nodes, dead, hole), SeverKids(kids, dead, hole);
    SeverPoints(nodes, kids, dead, hole);
    SeverListed(nodes, kids, dead, hole);
    forall s | s in nodes' ensures Paired(nodes', s) { SeverPaired(nodes, kids, dead, hole, s); }
    forall b | b in kids' ensures Members(nodes', kids', b) {
      assert Members(nodes, kids, b);
      forall j | 0 <= j < |kids'[b]| ensures NameAt(nodes', kids'[b][j]) == NameAt(nodes, kids[b][j]) && NamedAt(nodes', kids'[b][j]) == NamedAt(nodes, kids[b][j]) {
        KidIsValue(nodes, kids, b, j);
        assert kids[b][j] !in dead;
      }
    }
    forall v | IsValue(nodes, v) && v !in dead ensures Up(nodes', v) == Up(nodes, v) {
      assert Placed(nodes, kids, v);
      if nodes[v].parent != NO_SLOT {
        var i := FindKid(nodes, kids, v);
        assert kids[nodes[v].parent][i] !in dead;
      }
    }
  }
}
