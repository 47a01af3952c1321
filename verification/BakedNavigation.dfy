/**
 Moving about in a validated baked document (core/data_model/baked_document.hpp,
 parent, previous_sibling, next_sibling, first_child, last_child, array_at) and
 the depth walk built on it (core/data_model/baked_document.cpp, maximum_depth).
 -1 is the invalid index.
 */
module BakedNavigation {
  import opened LiveNode
  import opened Content
  import opened BreadthFirst
  import opened ValueFlags
  import opened BakedRecords

  const NOWHERE := -1

  predicate IsRecord(rs: seq<Record>, i: int) {
    0 <= i < |rs|
  }

  function Parent(rs: seq<Record>, i: int): int {
    if IsRecord(rs, i) && rs[i].parent != NONE then rs[i].parent else NOWHERE
  }

  function PreviousSibling(rs: seq<Record>, i: int): int {
    if IsRecord(rs, i) && rs[i].parent != NONE && rs[i].flags & FIRST_SIBLING == 0 then i - 1 else NOWHERE
  }

  function NextSibling(rs: seq<Record>, i: int): int {
    if IsRecord(rs, i) && rs[i].parent != NONE && rs[i].flags & LAST_SIBLING == 0 then i + 1 else NOWHERE
  }

  function FirstChild(rs: seq<Record>, i: int): int {
    if IsRecord(rs, i) && IsContainerTag(rs[i].tag) && rs[i].count != 0 then rs[i].first else NOWHERE
  }

  function LastChild(rs: seq<Record>, i: int): int {
    if IsRecord(rs, i) && IsContainerTag(rs[i].tag) && rs[i].count != 0 then rs[i].first + rs[i].count - 1 else NOWHERE
  }

  function ArrayAt(rs: seq<Record>, i: int, index: nat): int {
    if IsRecord(rs, i) && rs[i].tag == 6 && index < rs[i].count then rs[i].first + index else NOWHERE
  }

  lemma PlaceFlagsSay(flags: bv16, first: bool, last: bool)
    requires Positioned(flags, first, last)
    ensures (flags & FIRST_SIBLING != 0) == first && (flags & LAST_SIBLING != 0) == last
  {
  }

  /** The first record of the children of `i`, and the one past the last. */
  function From(rs: seq<Record>, i: nat): nat
    requires i < |rs|
  {
    RangeStart(rs, i)
  }

  function To(rs: seq<Record>, i: nat): nat
    requires i < |rs|
  {
    RangeStart(rs, i + 1)
  }

  /** Downward navigation agrees with the tree. */
  lemma {:induction false} DownwardSound(rs: seq<Record>, names: U32, strings: U32, i: nat, j: nat)
    requires RecordsSound(rs, names, strings) && i < |rs|
    ensures var t := TreeAt(rs, names, strings, i);
      && FirstChild(rs, i) == (if t.kids == [] then NOWHERE else From(rs, i)) && LastChild(rs, i) == (if t.kids == [] then NOWHERE else To(rs, i) - 1)
      && |t.kids| == To(rs, i) - From(rs, i) && i < From(rs, i) && To(rs, i) <= |rs|
      && (j < |t.kids| ==> t.kids[j] == TreeAt(rs, names, strings, From(rs, i) + j))
      && (t.payload.vtype.Array? ==> ArrayAt(rs, i, j) == if j < |t.kids| then From(rs, i) + j else NOWHERE)
  {
    RecordParts(rs, names, strings, i);
    RangeAhead(rs, names, strings, i);
    PayloadSound(rs[i], strings);
    TreeParts(rs, names, strings, i);
    hide RecordsSound, RecordSound, PayloadOf, Named;
  }

  /** Sideways and upward navigation agrees with the ranges of children. */
  lemma SidewaysSound(rs: seq<Record>, names: U32, strings: U32, k: nat)
    requires RecordsSound(rs, names, strings) && 0 < k < |rs|
    ensures var p := rs[k].parent;
      && Parent(rs, k) == p && p < k && From(rs, p) <= k < To(rs, p)
      && PreviousSibling(rs, k) == (if k == From(rs, p) then NOWHERE else k - 1)
      && NextSibling(rs, k) == (if k + 1 == To(rs, p) then NOWHERE else k + 1)
  {
    ParentRange(rs, names, strings, k);
    var p := rs[k].parent;
    PlaceFlagsSay(rs[k].flags, k == RangeStart(rs, p), k + 1 == RangeStart(rs, p + 1));
    assert |rs| < NONE;
    hide RecordsSound, Positioned;
  }

  lemma RootSound(rs: seq<Record>, names: U32, strings: U32)
    requires RecordsSound(rs, names, strings)
    ensures Parent(rs, 0) == NOWHERE && PreviousSibling(rs, 0) == NOWHERE && NextSibling(rs, 0) == NOWHERE
  {
    assert FirstPass(rs, 0, names, strings);
  }

  // ---------------------------------------------------------------------
  // Depth

  function Max(a: nat, b: nat): nat {
    if a > b then a else b
  }

  /** Links from a tree's root to its deepest value. */
  function Depth(t: Tree): nat
    decreases t, 0
  {
    if t.kids == [] then 0 else 1 + DepthAll(t.kids)
  }

  function DepthAll(ts: seq<Tree>): nat
    decreases ts, |ts|
  {
    if ts == [] then 0 else Max(Depth(ts[0]), DepthAll(ts[1..]))
  }

  lemma RangeUnique(rs: seq<Record>, k: nat, i: nat, j: nat)
    requires i < |rs| && j < |rs| && From(rs, i) <= k < To(rs, i) && From(rs, j) <= k < To(rs, j)
    ensures i == j
  {
    if i < j { RangeGrows(rs, i + 1, j); }
    if j < i { RangeGrows(rs, j + 1, i); }
  }

  /** The steps a walk takes from record `i`: along to a sibling, or up. */
  lemma Links(rs: seq<Record>, names: U32, strings: U32, i: nat)
    requires RecordsSound(rs, names, strings) && 0 < i < |rs|
    ensures var p := rs[i].parent;
      && p < i && From(rs, p) <= i < To(rs, p) <= |rs| && p < From(rs, p) && (p > 0 ==> rs[p].parent < p)
      && (i + 1 < To(rs, p) ==> rs[i + 1].parent == p)
  {
    hide RecordsSound;
    SidewaysSound(rs, names, strings, i);
    var p := rs[i].parent;
    RangeAhead(rs, names, strings, p);
    if p > 0 { SidewaysSound(rs, names, strings, p); }
    if i + 1 < To(rs, p) {
      SidewaysSound(rs, names, strings, i + 1);
      RangeUnique(rs, i + 1, p, rs[i + 1].parent);
    }
  }

  /** What a depth walk has left once the subtree of `i` is done: the greatest depth it will report,
      and how many values it has still to visit. */
  ghost function Afterwards(rs: seq<Record>, names: U32, strings: U32, i: nat, depth: int, most: nat): (nat, nat)
    requires RecordsSound(rs, names, strings) && i < |rs|
    decreases if i == 0 then 0 else rs[i].parent + 1, |rs| - i
  {
    if i == 0 then (most, 0) else
    Links(rs, names, strings, i);
    var p := rs[i].parent;
    if i + 1 < To(rs, p) then
      var rest := Afterwards(rs, names, strings, i + 1, depth, Reach(rs, names, strings, i + 1, depth, most));
      (rest.0, rest.1 + Size(TreeAt(rs, names, strings, i + 1)))
    else Afterwards(rs, names, strings, p, depth - 1, most)
  }

  /** The greatest depth once the subtree of `i`, which stands at `depth`, is counted. */
  ghost function Reach(rs: seq<Record>, names: U32, strings: U32, i: nat, depth: int, most: nat): nat
    requires RecordsSound(rs, names, strings) && i < |rs|
  {
    var d := depth + Depth(TreeAt(rs, names, strings, i));
    if d > most then d else most
  }

  lemma AfterSibling(rs: seq<Record>, names: U32, strings: U32, k: nat, depth: int, most: nat)
    requires RecordsSound(rs, names, strings) && 0 < k < |rs| && rs[k].parent < |rs| && k + 1 < To(rs, rs[k].parent) <= |rs|
    ensures var rest := Afterwards(rs, names, strings, k + 1, depth, Reach(rs, names, strings, k + 1, depth, most));
      Afterwards(rs, names, strings, k, depth, most) == (rest.0, rest.1 + Size(TreeAt(rs, names, strings, k + 1)))
  {
    hide RecordsSound, Reach, TreeAt;
  }

  lemma AfterLast(rs: seq<Record>, names: U32, strings: U32, k: nat, depth: int, most: nat)
    requires RecordsSound(rs, names, strings) && 0 < k < |rs| && rs[k].parent < |rs| && k + 1 == To(rs, rs[k].parent)
    ensures Afterwards(rs, names, strings, k, depth, most) == Afterwards(rs, names, strings, rs[k].parent, depth - 1, most)
  {
    hide RecordsSound, Reach, TreeAt;
  }

  /** The greatest depth after some siblings at `depth`. */
  function Deepened(ts: seq<Tree>, depth: nat, most: nat): nat {
    if ts == [] then most else Max(most, depth + DepthAll(ts))
  }

  lemma {:induction false} DeepenedStep(ts: seq<Tree>, depth: nat, most: nat)
    requires ts != []
    ensures Deepened(ts, depth, most) == Deepened(ts[1..], depth, Max(depth + Depth(ts[0]), most))
    ensures SizeAll(ts) == Size(ts[0]) + SizeAll(ts[1..])
  {
  }

  /** Child `j` of `i`, done at one level down, is followed by its later siblings and then by what follows `i`. */
  lemma {:induction false} AfterKids(rs: seq<Record>, names: U32, strings: U32, i: nat, j: nat, depth: nat, most: nat)
    requires RecordsSound(rs, names, strings) && i < |rs|
    requires j < |TreeAt(rs, names, strings, i).kids| == To(rs, i) - From(rs, i) && To(rs, i) <= |rs| && i < From(rs, i)
    ensures var later := TreeAt(rs, names, strings, i).kids[j + 1..];
      var rest := Afterwards(rs, names, strings, i, depth, Deepened(later, depth + 1, most));
      Afterwards(rs, names, strings, From(rs, i) + j, depth + 1, most) == (rest.0, rest.1 + SizeAll(later))
    decreases To(rs, i) - (From(rs, i) + j)
  {
    hide RecordsSound, Afterwards, TreeAt, From, To;
    var k := From(rs, i) + j;
    ChildLinks(rs, names, strings, i, k);
    var kids := TreeAt(rs, names, strings, i).kids;
    var later := kids[j + 1..];
    if k + 1 < To(rs, i) {
      DownwardSound(rs, names, strings, i, j + 1);
      AfterSibling(rs, names, strings, k, depth + 1, most);
      AfterKids(rs, names, strings, i, j + 1, depth, Reach(rs, names, strings, k + 1, depth + 1, most));
      assert later[0] == kids[j + 1] && later[1..] == kids[j + 2..];
      DeepenedStep(later, depth + 1, most);
    } else {
      AfterLast(rs, names, strings, k, depth + 1, most);
      assert later == [];
    }
  }

  lemma ChildLinks(rs: seq<Record>, names: U32, strings: U32, i: nat, k: nat)
    requires RecordsSound(rs, names, strings) && i < |rs| && From(rs, i) <= k < To(rs, i) && k < |rs| && i < From(rs, i)
    ensures rs[k].parent == i
  {
    hide RecordsSound;
    SidewaysSound(rs, names, strings, k);
    RangeUnique(rs, k, i, rs[k].parent);
  }

  /** One step down: the first child of `i` stands for all of `i`. */
  lemma {:induction false} Descend(rs: seq<Record>, names: U32, strings: U32, i: nat, depth: nat, most: nat)
    requires RecordsSound(rs, names, strings) && i < |rs| && FirstChild(rs, i) != NOWHERE
    ensures var c := FirstChild(rs, i);
      && 0 < c < |rs|
      && var m := Max(most, depth + 1);
      var down := Afterwards(rs, names, strings, c, depth + 1, Reach(rs, names, strings, c, depth + 1, m));
      var here := Afterwards(rs, names, strings, i, depth, Reach(rs, names, strings, i, depth, most));
      here.0 == down.0 && here.1 + Size(TreeAt(rs, names, strings, i)) == down.1 + Size(TreeAt(rs, names, strings, c)) + 1
  {
    hide RecordsSound, Afterwards, TreeAt, From, To;
    DownwardSound(rs, names, strings, i, 0);
    var t, c := TreeAt(rs, names, strings, i), From(rs, i);
    var m := Max(most, depth + 1);
    var m' := Reach(rs, names, strings, c, depth + 1, m);
    AfterKids(rs, names, strings, i, 0, depth, m');
    var later := t.kids[1..];
    assert t.kids[0] == TreeAt(rs, names, strings, c);
    DeepenedStep(t.kids, depth + 1, m);
    assert Size(t) == 1 + SizeAll(t.kids);
    assert Deepened(t.kids, depth + 1, m) == Reach(rs, names, strings, i, depth, most);
  }

  /** How many links lie between record `i` and the root. */
  ghost function DepthOf(rs: seq<Record>, names: U32, strings: U32, i: nat): nat
    requires RecordsSound(rs, names, strings) && i < |rs|
    decreases i
  {
    if i == 0 then 0 else
    Links(rs, names, strings, i);
    1 + DepthOf(rs, names, strings, rs[i].parent)
  }

  /** All a walk starts with: the whole tree, which has as many values as there are records. */
  lemma {:induction false} WholeTree(rs: seq<Record>, names: U32, strings: U32)
    requires RecordsSound(rs, names, strings)
    ensures |rs| > 0 && Size(TreeAt(rs, names, strings, 0)) == |rs|
    ensures Afterwards(rs, names, strings, 0, 0, Reach(rs, names, strings, 0, 0, 0)) == (Depth(TreeAt(rs, names, strings, 0)), 0)
    ensures DepthOf(rs, names, strings, 0) == 0
  {
    assert |rs| > 0;
    hide RecordsSound, Trees, TreeAt;
    TreesLaid(rs, names, strings);
    var t := TreeAt(rs, names, strings, 0);
    OrderSize([t]);
    assert SizeAll([t]) == Size(t) + SizeAll([]);
  }

  lemma {:induction false} OneDeeper(rs: seq<Record>, names: U32, strings: U32, i: nat)
    requires RecordsSound(rs, names, strings) && i < |rs| && FirstChild(rs, i) != NOWHERE
    ensures 0 < FirstChild(rs, i) < |rs| && DepthOf(rs, names, strings, FirstChild(rs, i)) == DepthOf(rs, names, strings, i) + 1
  {
    hide RecordsSound, TreeAt;
    DownwardSound(rs, names, strings, i, 0);
    ChildLinks(rs, names, strings, i, FirstChild(rs, i));
  }

  lemma {:induction false} Leaf(rs: seq<Record>, names: U32, strings: U32, i: nat, depth: nat, most: nat)
    requires RecordsSound(rs, names, strings) && i < |rs| && FirstChild(rs, i) == NOWHERE && depth <= most
    ensures Reach(rs, names, strings, i, depth, most) == most && Size(TreeAt(rs, names, strings, i)) == 1
  {
    hide RecordsSound, TreeAt;
    DownwardSound(rs, names, strings, i, 0);
    assert SizeAll([]) == 0;
  }

  /** A step sideways or up from `i`, whose subtree is done. */
  lemma Ascend(rs: seq<Record>, names: U32, strings: U32, i: nat, depth: nat, most: nat)
    requires RecordsSound(rs, names, strings) && 0 < i < |rs| && DepthOf(rs, names, strings, i) == depth
    ensures NextSibling(rs, i) != NOWHERE ==>
      var n := NextSibling(rs, i);
      && 0 < n < |rs| && DepthOf(rs, names, strings, n) == depth
      && var rest := Afterwards(rs, names, strings, n, depth, Reach(rs, names, strings, n, depth, most));
      Afterwards(rs, names, strings, i, depth, most) == (rest.0, rest.1 + Size(TreeAt(rs, names, strings, n)))
    ensures NextSibling(rs, i) == NOWHERE ==>
      var p := Parent(rs, i);
      && 0 <= p < i && depth > 0 && DepthOf(rs, names, strings, p) == depth - 1
      && Afterwards(rs, names, strings, i, depth, most) == Afterwards(rs, names, strings, p, depth - 1, most)
  {
    hide RecordsSound, Afterwards, TreeAt, Reach, From, To, NextSibling, Parent;
    Links(rs, names, strings, i);
    SidewaysSound(rs, names, strings, i);
    if i + 1 < To(rs, rs[i].parent) {
      AfterSibling(rs, names, strings, i, depth, most);
    } else {
      AfterLast(rs, names, strings, i, depth, most);
    }
  }

  /** The greatest number of links from the root to a value; the walk visits every record once. */
  method MaximumDepth(rs: seq<Record>, ghost names: U32, ghost strings: U32) returns (maximum: nat, ghost visited: nat)
    requires RecordsSound(rs, names, strings)
    ensures maximum == Depth(TreeAt(rs, names, strings, 0)) && visited == |rs|
  {
    hide RecordsSound, Afterwards, TreeAt, Parent, NextSibling, FirstChild, Reach, DepthOf;
    WholeTree(rs, names, strings);
    var current: int := 0;
    var depth := 0;
    maximum, visited := 0, 0;
    while true
      invariant 0 <= current < |rs| && 0 <= depth <= maximum && DepthOf(rs, names, strings, current) == depth
      invariant var rest := Afterwards(rs, names, strings, current, depth, Reach(rs, names, strings, current, depth, maximum));
        rest.0 == Depth(TreeAt(rs, names, strings, 0)) && visited + rest.1 + Size(TreeAt(rs, names, strings, current)) == |rs|
      decreases |rs| - visited
    {
      var child := FirstChild(rs, current);
      if child != NOWHERE {
        Descend(rs, names, strings, current, depth, maximum);
        OneDeeper(rs, names, strings, current);
        visited := visited + 1;
        current := child;
        depth := depth + 1;
        if depth > maximum { maximum := depth; }
        continue;
      }
      Leaf(rs, names, strings, current, depth, maximum);
      visited := visited + 1;
      var next := NOWHERE;
      while current != 0
        invariant 0 <= current < |rs| && 0 <= depth <= maximum && DepthOf(rs, names, strings, current) == depth
        invariant var rest := Afterwards(rs, names, strings, current, depth, maximum);
          rest.0 == Depth(TreeAt(rs, names, strings, 0)) && visited + rest.1 == |rs|
        decreases current
      {
        Ascend(rs, names, strings, current, depth, maximum);
        next := NextSibling(rs, current);
        if next != NOWHERE { break; }
        current := Parent(rs, current);
        depth := depth - 1;
      }
      if current == 0 {
        AtRoot(rs, names, strings, depth, maximum);
        return;
      }
      Ascend(rs, names, strings, current, depth, maximum);
      current := next;
    }
  }

  lemma {:induction false} AtRoot(rs: seq<Record>, names: U32, strings: U32, depth: nat, most: nat)
    requires RecordsSound(rs, names, strings) && |rs| > 0
    ensures Afterwards(rs, names, strings, 0, depth, most) == (most, 0)
  {
  }
}
