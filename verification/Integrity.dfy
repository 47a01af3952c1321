/**
 The integrity check of the live document (core/data_model/live_document.cpp,
 check_integrity, audit_subtree_checked, visit_subtree, subtree_next): local
 tests on every record, a preorder audit of every tree, and a record count.
 The methods read an arbitrary set of records; nothing is assumed about links.
 */
module Integrity {
  import opened LiveNode
  import opened Forest
  import opened Traversal
  import opened DocumentState
  import opened Sequences

  const FAIL: Slot := -2

  /** The tests the first pass makes on one record. */
  predicate RecordSound(nodes: Nodes, s: Slot, names: nat, strings: nat)
    requires s in nodes
  {
    match nodes[s]
    case Value(parent, prev, next, owned, payload, name, named) =>
      && PayloadValid(payload, strings) && NameValid(name, named, names)
      && (if parent >= 0 then prev >= NO_SLOT && next >= NO_SLOT && parent in nodes && AggregateValid(nodes[parent])
          else Unattached(nodes[s]))
      && (if IsContainer(payload.vtype) then
            owned in nodes && AggregateValid(nodes[owned]) && FormsPair(nodes[s], nodes[owned], s, owned)
          else owned == NO_SLOT)
    case Aggregate(owner, _, _, _, _) =>
      AggregateValid(nodes[s]) && owner in nodes && FormsPair(nodes[owner], nodes[s], owner, s)
  }

  ghost predicate RecordsSound(nodes: Nodes, names: nat, strings: nat) {
    forall s :: s in nodes ==> s >= 0 && RecordSound(nodes, s, names, strings)
  }

  // ---------------------------------------------------------------------
  // The children of one aggregate

  /** `ks` are the children of aggregate `a`: linked both ways, counted, and fit to be there. */
  ghost predicate Row(nodes: Nodes, a: Slot, ks: seq<Slot>) {
    && a >= 0 && IsAggregate(nodes, a) && Ends(nodes[a], ks) && Distinct(ks)
    && (forall i :: 0 <= i < |ks| ==> RowAt(nodes, a, ks, i))
    && (nodes[a].kind.ObjectKind? ==>
          && (forall i :: 0 <= i < |ks| ==> NamedAt(nodes, ks[i]))
          && (forall i, j :: 0 <= i < j < |ks| ==> NameAt(nodes, ks[i]) != NameAt(nodes, ks[j])))
  }

  predicate RowAt(nodes: Nodes, a: Slot, ks: seq<Slot>, i: nat)
    requires i < |ks|
  {
    && ks[i] >= 0 && IsValue(nodes, ks[i]) && nodes[ks[i]].parent == a
    && nodes[ks[i]].prev == At(ks, i - 1) && nodes[ks[i]].next == At(ks, i + 1)
  }

  /** A list that is a row up to its last link: what a scan has found so far. */
  ghost predicate RowSoFar(nodes: Nodes, a: Slot, ks: seq<Slot>, child: Slot)
    requires IsAggregate(nodes, a)
  {
    && (forall i :: 0 <= i < |ks| ==> ks[i] >= 0 && IsValue(nodes, ks[i]) && nodes[ks[i]].parent == a && nodes[ks[i]].prev == At(ks, i - 1))
    && (forall i :: 0 <= i < |ks| - 1 ==> nodes[ks[i]].next == ks[i + 1])
    && child == (if ks == [] then nodes[a].first else nodes[ks[|ks| - 1]].next)
    && (ks != [] ==> nodes[a].first == ks[0])
    && (nodes[a].kind.ObjectKind? ==>
          && (forall i :: 0 <= i < |ks| ==> NamedAt(nodes, ks[i]))
          && (forall i, j :: 0 <= i < j < |ks| ==> NameAt(nodes, ks[i]) != NameAt(nodes, ks[j])))
  }

  /** Values whose `prev` links form a list from a first value are all different. */
  lemma {:induction false} PrevDistinct(nodes: Nodes, ks: seq<Slot>, i: nat, j: nat)
    requires i < j < |ks|
    requires forall k :: 0 <= k < |ks| ==> ks[k] >= 0 && IsValue(nodes, ks[k]) && nodes[ks[k]].prev == At(ks, k - 1)
    ensures ks[i] != ks[j]
  {
    if i > 0 { PrevDistinct(nodes, ks, i - 1, j - 1); }
  }

  lemma RowFound(nodes: Nodes, a: Slot, ks: seq<Slot>, child: Slot)
    requires a >= 0 && IsAggregate(nodes, a) && AggregateValid(nodes[a]) && RowSoFar(nodes, a, ks, child) && child < 0 && nodes[a].count == |ks|
    requires ks != [] ==> HasLast(nodes[a], nodes[ks[|ks| - 1]], a, ks[|ks| - 1])
    ensures Row(nodes, a, ks)
  {
    forall i, j | 0 <= i < j < |ks| ensures ks[i] != ks[j] { PrevDistinct(nodes, ks, i, j); }
  }

  /** A scan of a true row stays on it. */
  lemma RowPrefix(nodes: Nodes, a: Slot, row: seq<Slot>, n: nat)
    requires Row(nodes, a, row) && n <= |row|
    ensures RowSoFar(nodes, a, row[..n], At(row, n)) && |row| <= |nodes|
  {
    forall x | x in row ensures x in nodes.Keys { var i :| 0 <= i < |row| && row[i] == x; assert RowAt(nodes, a, row, i); }
    DistinctSize(row, nodes.Keys);
    var ks := row[..n];
    forall i | 0 <= i < n ensures ks[i] >= 0 && IsValue(nodes, ks[i]) && nodes[ks[i]].parent == a && nodes[ks[i]].prev == At(ks, i - 1) && nodes[ks[i]].next == At(row, i + 1) {
      assert RowAt(nodes, a, row, i);
    }
  }

  /** Whether an earlier child of `a` carries the name of `child`. */
  method EarlierNamesake(nodes: Nodes, a: Slot, child: Slot, ghost ks: seq<Slot>) returns (clash: bool)
    requires IsAggregate(nodes, a) && IsValue(nodes, child) && child >= 0 && RowSoFar(nodes, a, ks, child) && |ks| <= |nodes|
    requires child !in ks
    ensures clash <==> exists i :: 0 <= i < |ks| && NameAt(nodes, ks[i]) == nodes[child].name
  {
    var earlier := nodes[a].first;
    ghost var n := 0;
    var count := 0;
    while earlier >= 0 && earlier != child
      invariant n == count <= |ks| && earlier == (if n < |ks| then ks[n] else child)
      invariant forall i :: 0 <= i < n ==> NameAt(nodes, ks[i]) != nodes[child].name
      decreases |ks| - n
    {
      count := count + 1;
      if count > |nodes| || !IsValue(nodes, earlier) || nodes[earlier].name == nodes[child].name {
        assert NameAt(nodes, ks[n]) == nodes[child].name;
        return true;
      }
      earlier := nodes[earlier].next;
      n := n + 1;
    }
    return false;
  }

  /** Whether `child` may follow `previous` (or come first) among the children of `a`. */
  predicate Follows(nodes: Nodes, a: Slot, previous: Slot, child: Slot)
    requires IsAggregate(nodes, a)
  {
    && IsValue(nodes, child)
    && (if previous >= 0 then IsValue(nodes, previous) && IsPreviousOf(nodes[previous], nodes[child], previous, child)
        else HasFirst(nodes[a], nodes[child], a, child))
    && Accepts(nodes[a], nodes[child])
  }

  lemma ScanDistinct(nodes: Nodes, a: Slot, ks: seq<Slot>, child: Slot)
    requires IsAggregate(nodes, a) && RowSoFar(nodes, a, ks, child) && child >= 0
    requires Follows(nodes, a, At(ks, |ks| - 1), child)
    ensures child !in ks && Distinct(ks) && |ks| < |nodes|
  {
    var more := ks + [child];
    forall i, j | 0 <= i < j < |more| ensures more[i] != more[j] { PrevDistinct(nodes, more, i, j); }
    forall x | x in more ensures x in nodes.Keys {}
    DistinctSize(more, nodes.Keys);
    forall i | 0 <= i < |ks| ensures ks[i] != child { assert more[i] != more[|ks|]; }
    forall i, j | 0 <= i < j < |ks| ensures ks[i] != ks[j] { assert more[i] != more[j]; }
  }

  lemma ScanGrows(nodes: Nodes, a: Slot, ks: seq<Slot>, child: Slot)
    requires IsAggregate(nodes, a) && RowSoFar(nodes, a, ks, child) && child >= 0
    requires Follows(nodes, a, At(ks, |ks| - 1), child)
    requires nodes[a].kind.ObjectKind? ==> forall i :: 0 <= i < |ks| ==> NameAt(nodes, ks[i]) != nodes[child].name
    ensures RowSoFar(nodes, a, ks + [child], nodes[child].next)
  {
  }

  /** A true row is what the scan runs along. */
  lemma OnTrack(nodes: Nodes, a: Slot, row: seq<Slot>, n: nat)
    requires Row(nodes, a, row) && n < |row|
    ensures Follows(nodes, a, At(row, n - 1), row[n]) && row[n] >= 0
    ensures nodes[a].kind.ObjectKind? ==> forall i :: 0 <= i < n ==> NameAt(nodes, row[i]) != nodes[row[n]].name
  {
    assert RowAt(nodes, a, row, n);
    if n > 0 { assert RowAt(nodes, a, row, n - 1); }
    if nodes[a].kind.ObjectKind? {
      assert NamedAt(nodes, row[n]);
      forall i | 0 <= i < n ensures NameAt(nodes, row[i]) != nodes[row[n]].name { assert NameAt(nodes, row[i]) != NameAt(nodes, row[n]); }
    }
  }

  /** Scans the children of `a`: their links both ways, their number, their fitness, their names. */
  method AuditChildren(nodes: Nodes, a: Slot) returns (ok: bool)
    requires a >= 0 && IsAggregate(nodes, a) && AggregateValid(nodes[a])
    ensures ok <==> exists ks :: Row(nodes, a, ks)
  {
    hide Row, RowSoFar;
    ghost var good := exists ks :: Row(nodes, a, ks);
    ghost var row: seq<Slot> := [];
    if good { row :| Row(nodes, a, row); RowPrefix(nodes, a, row, 0); }
    var previous := NO_SLOT;
    var child := nodes[a].first;
    var children := 0;
    ghost var ks: seq<Slot> := [];
    StartScan(nodes, a);
    while child >= 0
      invariant RowSoFar(nodes, a, ks, child) && children == |ks| && previous == At(ks, |ks| - 1)
      invariant good ==> Row(nodes, a, row) && |ks| <= |row| && ks == row[..|ks|] && child == At(row, |ks|)
      decreases |nodes| - |ks|
    {
      if good { OnTrack(nodes, a, row, |ks|); }
      if !Follows(nodes, a, previous, child) { return false; }
      ScanDistinct(nodes, a, ks, child);
      if nodes[a].kind.ObjectKind? {
        var clash := EarlierNamesake(nodes, a, child, ks);
        if clash { return false; }
      }
      ScanGrows(nodes, a, ks, child);
      ks := ks + [child];
      previous := child;
      child := nodes[child].next;
      children := children + 1;
      if children > |nodes| { return false; }
      if good { RowPrefix(nodes, a, row, |ks|); }
    }
    if good { EndOfRow(nodes, a, row); }
    if children != nodes[a].count || (children != 0 && (!IsValue(nodes, previous) || !HasLast(nodes[a], nodes[previous], a, previous))) {
      return false;
    }
    RowFound(nodes, a, ks, child);
    return true;
  }

  lemma StartScan(nodes: Nodes, a: Slot)
    requires IsAggregate(nodes, a)
    ensures RowSoFar(nodes, a, [], nodes[a].first)
  {
  }

  lemma EndOfRow(nodes: Nodes, a: Slot, row: seq<Slot>)
    requires Row(nodes, a, row)
    ensures nodes[a].count == |row| && forall i :: 0 <= i < |row| ==> row[i] >= 0
    ensures row != [] ==> IsValue(nodes, row[|row| - 1]) && HasLast(nodes[a], nodes[row[|row| - 1]], a, row[|row| - 1])
  {
    forall i | 0 <= i < |row| ensures row[i] >= 0 { assert RowAt(nodes, a, row, i); }
    if row != [] { assert RowAt(nodes, a, row, |row| - 1); }
  }

  // ---------------------------------------------------------------------
  // The preorder step

  ghost function Ascend(nodes: Nodes, top: Slot, x: Slot, fuel: nat): (next: Slot)
    ensures next == FAIL || next == NO_SLOT || next >= 0
    decreases fuel
  {
    if x == top then NO_SLOT
    else if !IsValue(nodes, x) then FAIL
    else if nodes[x].next >= 0 then nodes[x].next
    else if !IsAggregate(nodes, nodes[x].parent) || fuel == 0 then FAIL
    else Ascend(nodes, top, nodes[nodes[x].parent].owner, fuel - 1)
  }

  /** What preorder visits after `x`: its first child, or the next value beside or above it. */
  ghost function NextOf(nodes: Nodes, top: Slot, x: Slot): (next: Slot)
    ensures next == FAIL || next == NO_SLOT || next >= 0
  {
    if !IsValue(nodes, x) then FAIL
    else if IsContainer(nodes[x].payload.vtype) && !IsAggregate(nodes, nodes[x].owned) then FAIL
    else if IsContainer(nodes[x].payload.vtype) && nodes[nodes[x].owned].first >= 0 then nodes[nodes[x].owned].first
    else Ascend(nodes, top, x, |nodes|)
  }

  method SubtreeNext(nodes: Nodes, top: Slot, value: Slot) returns (ok: bool, next: Slot)
    ensures ok <==> NextOf(nodes, top, value) != FAIL
    ensures ok ==> next == NextOf(nodes, top, value)
  {
    var current := value;
    if !IsValue(nodes, current) { return false, NO_SLOT; }
    if IsContainer(nodes[current].payload.vtype) {
      if !IsAggregate(nodes, nodes[current].owned) { return false, NO_SLOT; }
      if nodes[nodes[current].owned].first >= 0 { return true, nodes[nodes[current].owned].first; }
    }
    var ascent := 0;
    while ascent <= |nodes|
      invariant ascent <= |nodes| + 1
      invariant NextOf(nodes, top, value) == if ascent <= |nodes| then Ascend(nodes, top, current, |nodes| - ascent) else FAIL
    {
      if current == top { return true, NO_SLOT; }
      if !IsValue(nodes, current) { return false, NO_SLOT; }
      if nodes[current].next >= 0 { return true, nodes[current].next; }
      if !IsAggregate(nodes, nodes[current].parent) { return false, NO_SLOT; }
      current := nodes[nodes[current].parent].owner;
      ascent := ascent + 1;
    }
    return false, NO_SLOT;
  }

  // ---------------------------------------------------------------------
  // The audit of one tree

  ghost predicate Audited(nodes: Nodes, x: Slot) {
    && x >= 0 && IsValue(nodes, x)
    && (if IsContainer(nodes[x].payload.vtype) then
          && nodes[x].owned in nodes && FormsPair(nodes[x], nodes[nodes[x].owned], x, nodes[x].owned)
          && exists ks :: Row(nodes, nodes[x].owned, ks)
        else nodes[x].owned == NO_SLOT)
  }

  /** The value at place `i` of a trail is a child of a value at an earlier place. */
  ghost predicate Hangs(nodes: Nodes, w: seq<Slot>, i: nat)
    requires i < |w|
  {
    && IsValue(nodes, w[i]) && nodes[w[i]].parent >= 0 && IsAggregate(nodes, nodes[w[i]].parent)
    && (exists j :: 0 <= j < i && w[j] == nodes[nodes[w[i]].parent].owner)
    && (exists ks :: Row(nodes, nodes[w[i]].parent, ks) && w[i] in ks)
  }

  /** What an audit that got this far has seen. */
  ghost predicate Trail(nodes: Nodes, top: Slot, w: seq<Slot>) {
    && w != [] && w[0] == top
    && (forall i :: 0 <= i < |w| ==> Audited(nodes, w[i]))
    && (forall i :: 0 <= i < |w| - 1 ==> NextOf(nodes, top, w[i]) == w[i + 1])
    && (forall i :: 0 < i < |w| ==> Hangs(nodes, w, i))
  }

  lemma {:induction false} AscendHangs(nodes: Nodes, top: Slot, w: seq<Slot>, j: nat, fuel: nat, next: Slot)
    requires Trail(nodes, top, w) && j < |w| && Ascend(nodes, top, w[j], fuel) == next && next >= 0
    ensures Hangs(nodes, w + [next], |w|)
    decreases fuel
  {
    assert j > 0 && Hangs(nodes, w, j);
    var y := w[j];
    var a := nodes[y].parent;
    var i :| 0 <= i < j && w[i] == nodes[a].owner;
    if nodes[y].next >= 0 {
      var ks :| Row(nodes, a, ks) && y in ks;
      var k :| 0 <= k < |ks| && ks[k] == y;
      assert RowAt(nodes, a, ks, k);
      assert RowAt(nodes, a, ks, k + 1);
      assert (w + [next])[i] == w[i];
    } else {
      AscendHangs(nodes, top, w, i, fuel - 1, next);
    }
  }

  lemma NextHangs(nodes: Nodes, top: Slot, w: seq<Slot>, next: Slot)
    requires Trail(nodes, top, w) && NextOf(nodes, top, w[|w| - 1]) == next && next >= 0
    ensures Hangs(nodes, w + [next], |w|)
  {
    var x := w[|w| - 1];
    assert Audited(nodes, x);
    var a := nodes[x].owned;
    if IsContainer(nodes[x].payload.vtype) && nodes[a].first >= 0 {
      var ks :| Row(nodes, a, ks);
      assert RowAt(nodes, a, ks, 0);
      assert (w + [next])[|w| - 1] == x;
    } else {
      AscendHangs(nodes, top, w, |w| - 1, |nodes|, next);
    }
  }

  lemma TrailGrows(nodes: Nodes, top: Slot, w: seq<Slot>, next: Slot)
    requires Trail(nodes, top, w) && NextOf(nodes, top, w[|w| - 1]) == next && Audited(nodes, next)
    ensures Trail(nodes, top, w + [next])
  {
    var w' := w + [next];
    NextHangs(nodes, top, w, next);
    hide NextOf, Audited, Row;
    forall i | 0 < i < |w'| ensures Hangs(nodes, w', i) {
      if i < |w| {
        assert Hangs(nodes, w, i);
        var j :| 0 <= j < i && w[j] == nodes[nodes[w[i]].parent].owner;
        assert w'[j] == w[j];
      }
    }
  }

  /** Each step is a function of the value, so an audit that ends saw nothing twice. */
  lemma {:induction false} TrailApart(nodes: Nodes, top: Slot, w: seq<Slot>, i: nat, j: nat)
    requires Trail(nodes, top, w) && NextOf(nodes, top, w[|w| - 1]) < 0 && i < j < |w|
    ensures w[i] != w[j]
    decreases |w| - j
  {
    if j + 1 < |w| { TrailApart(nodes, top, w, i + 1, j + 1); }
    assert NextOf(nodes, top, w[i]) == w[i + 1];
    assert Audited(nodes, w[i + 1]);
  }

  // ---------------------------------------------------------------------
  // Counting records

  /** The records of the values `w` and of their aggregates, counted as the audit does. */
  ghost function Tally(nodes: Nodes, w: seq<Slot>): nat {
    if w == [] then 0
    else Tally(nodes, w[..|w| - 1]) + 1 + (if IsValue(nodes, w[|w| - 1]) && IsContainer(nodes[w[|w| - 1]].payload.vtype) then 1 else 0)
  }

  ghost function Covered(nodes: Nodes, w: seq<Slot>): set<Slot> {
    set s | s in nodes && (s in w || (nodes[s].Aggregate? && nodes[s].owner in w))
  }

  ghost predicate AllAudited(nodes: Nodes, w: seq<Slot>) {
    forall i :: 0 <= i < |w| ==> Audited(nodes, w[i])
  }

  /** The records of one value. */
  ghost function Own(nodes: Nodes, x: Slot): set<Slot> {
    {x} + (if IsValue(nodes, x) && IsContainer(nodes[x].payload.vtype) then {nodes[x].owned} else {})
  }

  lemma OwnRecords(nodes: Nodes, x: Slot, names: nat, strings: nat)
    requires RecordsSound(nodes, names, strings) && Audited(nodes, x)
    ensures forall s :: s in Own(nodes, x) <==> s == x || (s in nodes && nodes[s].Aggregate? && nodes[s].owner == x)
    ensures |Own(nodes, x)| == 1 + (if IsContainer(nodes[x].payload.vtype) then 1 else 0)
  {
    forall s | s in nodes && nodes[s].Aggregate? && nodes[s].owner == x ensures s in Own(nodes, x) { assert RecordSound(nodes, s, names, strings); }
    if IsContainer(nodes[x].payload.vtype) { assert Own(nodes, x) == {x, nodes[x].owned} && x != nodes[x].owned; }
  }

  lemma CoverGrows(nodes: Nodes, w: seq<Slot>, x: Slot, names: nat, strings: nat)
    requires RecordsSound(nodes, names, strings) && AllAudited(nodes, w + [x]) && x !in w
    ensures Covered(nodes, w + [x]) == Covered(nodes, w) + Own(nodes, x) && Covered(nodes, w) !! Own(nodes, x)
  {
    assert (w + [x])[|w|] == x;
    OwnRecords(nodes, x, names, strings);
    assert forall i :: 0 <= i < |w| ==> (w + [x])[i] == w[i];
    hide RecordsSound, Audited, Own;
    forall s | s in w ensures IsValue(nodes, s) { AuditedValue(nodes, w + [x], s); }
    AuditedValue(nodes, w + [x], x);
    forall s ensures s in Covered(nodes, w + [x]) <==> s in Covered(nodes, w) + Own(nodes, x) {
      assert forall y :: y in w + [x] <==> y in w || y == x;
    }
  }

  lemma AuditedValue(nodes: Nodes, w: seq<Slot>, x: Slot)
    requires AllAudited(nodes, w) && x in w
    ensures IsValue(nodes, x)
  {
    var i :| 0 <= i < |w| && w[i] == x;
    assert Audited(nodes, w[i]);
  }

  lemma {:induction false} TallyIsSize(nodes: Nodes, w: seq<Slot>, names: nat, strings: nat)
    requires RecordsSound(nodes, names, strings) && AllAudited(nodes, w) && Distinct(w)
    ensures |Covered(nodes, w)| == Tally(nodes, w) <= |nodes|
  {
    if w != [] {
      var x, w' := w[|w| - 1], w[..|w| - 1];
      assert w' + [x] == w;
      TallyIsSize(nodes, w', names, strings);
      CoverGrows(nodes, w', x, names, strings);
      assert Audited(nodes, x);
      OwnRecords(nodes, x, names, strings);
    } else {
      assert Covered(nodes, w) == {};
    }
    SubsetSize(Covered(nodes, w), nodes.Keys);
  }

  // ---------------------------------------------------------------------
  // A well-formed forest passes

  lemma ForestRow(f: Shape, a: Slot)
    requires Wf(f) && a in f.kids
    ensures Row(f.nodes, a, f.kids[a])
  {
    var ks := f.kids[a];
    assert Members(f.nodes, f.kids, a) && Ends(f.nodes[a], ks);
    forall i | 0 <= i < |ks| ensures RowAt(f.nodes, a, ks, i) { KidIsValue(f.nodes, f.kids, a, i); }
  }

  lemma ForestAudited(f: Shape, x: Slot)
    requires Wf(f) && IsValue(f.nodes, x)
    ensures Audited(f.nodes, x)
  {
    assert Paired(f.nodes, x);
    if IsContainer(f.nodes[x].payload.vtype) { ForestRow(f, f.nodes[x].owned); }
  }

  /** Climbing from `x` finds what a preorder walk still has to do. */
  lemma {:induction false} AscendRest(f: Shape, top: Slot, x: Slot, fuel: nat, below: set<Slot>)
    requires Wf(f) && IsValue(f.nodes, x) && IsValue(f.nodes, top) && Under(f.nodes, x, top)
    requires below <= f.nodes.Keys && |below| + fuel == |f.nodes|
    requires forall y :: y in below ==> IsValue(f.nodes, y) && f.rank[y] > f.rank[x]
    ensures var next := Ascend(f.nodes, top, x, fuel);
      && next != FAIL
      && (next == NO_SLOT ==> Rest(f, Pre, x, top) == [])
      && (next >= 0 ==> IsValue(f.nodes, next) && Under(f.nodes, next, top) && Rest(f, Pre, x, top) == Walk(f, Pre, next) + Rest(f, Pre, next, top))
    decreases fuel
  {
    if x != top {
      UnderStep(f.nodes, x, top);
      assert NO_SLOT !in f.nodes;
      SiblingStep(f, x);
      var next := f.nodes[x].next;
      if next != NO_SLOT {
        UnderStep(f.nodes, next, top);
      } else {
        var u := Up(f.nodes, x);
        var below' := below + {x};
        SubsetSize(below', f.nodes.Keys);
        UpIsValue(f.nodes, f.kids, x);
        AscendRest(f, top, u, fuel - 1, below');
      }
    }
  }

  lemma {:induction false} NextRest(f: Shape, top: Slot, x: Slot)
    requires Wf(f) && IsValue(f.nodes, x) && IsValue(f.nodes, top) && Under(f.nodes, x, top)
    ensures var next := NextOf(f.nodes, top, x);
      && next != FAIL
      && (next == NO_SLOT ==> Walk(f, Pre, x) + Rest(f, Pre, x, top) == [x])
      && (next >= 0 ==>
            && IsValue(f.nodes, next) && Under(f.nodes, next, top)
            && Walk(f, Pre, x) + Rest(f, Pre, x, top) == [x] + (Walk(f, Pre, next) + Rest(f, Pre, next, top)))
  {
    hide Wf, Walk, Rest, Under, NextOf;
    if KidsOf(f.nodes, f.kids, x) == [] { NextUp(f, top, x); } else { NextDown(f, top, x); }
  }

  /** A value without children is left upwards. */
  lemma {:induction false} NextUp(f: Shape, top: Slot, x: Slot)
    requires Wf(f) && IsValue(f.nodes, x) && IsValue(f.nodes, top) && Under(f.nodes, x, top) && KidsOf(f.nodes, f.kids, x) == []
    ensures var next := NextOf(f.nodes, top, x);
      && next != FAIL
      && (next == NO_SLOT ==> Walk(f, Pre, x) + Rest(f, Pre, x, top) == [x])
      && (next >= 0 ==>
            && IsValue(f.nodes, next) && Under(f.nodes, next, top)
            && Walk(f, Pre, x) + Rest(f, Pre, x, top) == [x] + (Walk(f, Pre, next) + Rest(f, Pre, next, top)))
  {
    hide Walk, WalkAll, Rest, Under, Ascend;
    NoFirst(f, x);
    AscendRest(f, top, x, |f.nodes|, {});
    PreWalk(f, x);
    assert Paired(f.nodes, x);
  }

  /** A value with children is left to the first of them. */
  lemma {:induction false} NextDown(f: Shape, top: Slot, x: Slot)
    requires Wf(f) && IsValue(f.nodes, x) && IsValue(f.nodes, top) && Under(f.nodes, x, top) && KidsOf(f.nodes, f.kids, x) != []
    ensures var next := NextOf(f.nodes, top, x);
      && next >= 0 && IsValue(f.nodes, next) && Under(f.nodes, next, top)
      && Walk(f, Pre, x) + Rest(f, Pre, x, top) == [x] + (Walk(f, Pre, next) + Rest(f, Pre, next, top))
  {
    hide Walk, WalkAll, Rest, Under;
    var ks := KidsOf(f.nodes, f.kids, x);
    KidsBelow(f, x);
    FirstKid(f, x);
    NotTop(f, x, top, 0);
    RestOfKids(f, Pre, x, top, 0);
    PreWalk(f, x);
    assert ks[0..] == ks;
    var below, rest := WalkAll(f, Pre, ks, f.rank[x]), Rest(f, Pre, x, top);
    assert below + [] + rest == below + rest;
    assert ([x] + below) + rest == [x] + (below + rest);
  }

  lemma PreWalk(f: Shape, x: Slot)
    requires Wf(f) && IsValue(f.nodes, x)
    ensures Below(f, KidsOf(f.nodes, f.kids, x), f.rank[x])
    ensures Walk(f, Pre, x) == [x] + WalkAll(f, Pre, KidsOf(f.nodes, f.kids, x), f.rank[x])
    ensures KidsOf(f.nodes, f.kids, x) == [] ==> WalkAll(f, Pre, KidsOf(f.nodes, f.kids, x), f.rank[x]) == []
  {
    KidsBelow(f, x);
  }

  lemma NoFirst(f: Shape, x: Slot)
    requires Wf(f) && IsValue(f.nodes, x) && KidsOf(f.nodes, f.kids, x) == []
    ensures IsContainer(f.nodes[x].payload.vtype) ==> IsAggregate(f.nodes, f.nodes[x].owned) && f.nodes[f.nodes[x].owned].first == NO_SLOT
  {
    assert Paired(f.nodes, x);
    if IsContainer(f.nodes[x].payload.vtype) { assert Ends(f.nodes[f.nodes[x].owned], f.kids[f.nodes[x].owned]); }
  }

  lemma FirstKid(f: Shape, x: Slot)
    requires Wf(f) && IsValue(f.nodes, x) && KidsOf(f.nodes, f.kids, x) != []
    ensures IsContainer(f.nodes[x].payload.vtype) && IsAggregate(f.nodes, f.nodes[x].owned)
    ensures f.nodes[f.nodes[x].owned].first == KidsOf(f.nodes, f.kids, x)[0] >= 0
  {
    assert Paired(f.nodes, x);
    assert Ends(f.nodes[f.nodes[x].owned], f.kids[f.nodes[x].owned]);
    KidIsValue(f.nodes, f.kids, f.nodes[x].owned, 0);
  }

  /** Everything an audit has seen and will see is the walk of its tree. */
  ghost predicate OnWalk(f: Shape, top: Slot, w: seq<Slot>, current: Slot) {
    && Wf(f) && IsValue(f.nodes, top)
    && (if current >= 0 then
          && IsValue(f.nodes, current) && Under(f.nodes, current, top)
          && w + (Walk(f, Pre, current) + Rest(f, Pre, current, top)) == Walk(f, Pre, top)
        else current == NO_SLOT && w == Walk(f, Pre, top))
  }

  lemma WalkStarts(f: Shape, top: Slot)
    requires Wf(f) && IsValue(f.nodes, top) && top >= 0
    ensures OnWalk(f, top, [], top)
  {
    UnderStep(f.nodes, top, top);
  }

  lemma {:induction false} WalkGoesOn(f: Shape, top: Slot, w: seq<Slot>, x: Slot, names: nat, strings: nat)
    requires OnWalk(f, top, w, x) && x >= 0 && RecordsSound(f.nodes, names, strings) && AllAudited(f.nodes, w)
    ensures |w| < |f.nodes| && IsValue(f.nodes, x) && Audited(f.nodes, x) && Tally(f.nodes, w + [x]) <= |f.nodes|
    ensures NextOf(f.nodes, top, x) != FAIL && OnWalk(f, top, w + [x], NextOf(f.nodes, top, x))
  {
    NextRest(f, top, x);
    ForestAudited(f, x);
    var next := NextOf(f.nodes, top, x);
    var all := Walk(f, Pre, top);
    var rest := if next >= 0 then Walk(f, Pre, next) + Rest(f, Pre, next, top) else [];
    assert Walk(f, Pre, x) + Rest(f, Pre, x, top) == [x] + rest;
    WalkDistinct(f, Pre, top);
    hide Wf, Walk, Rest, Under, NextOf, RecordsSound, Audited;
    SeenPart(w, x, rest, all);
    assert AllAudited(f.nodes, w + [x]);
    TallyIsSize(f.nodes, w + [x], names, strings);
    LongTally(f.nodes, w + [x]);
  }

  lemma SeenPart(w: seq<Slot>, x: Slot, rest: seq<Slot>, all: seq<Slot>)
    requires w + ([x] + rest) == all && Distinct(all)
    ensures (w + [x]) + rest == all && Distinct(w + [x])
  {
    assert w + ([x] + rest) == (w + [x]) + rest;
    forall i, j | 0 <= i < j < |w + [x]| ensures (w + [x])[i] != (w + [x])[j] { assert all[i] == (w + [x])[i] && all[j] == (w + [x])[j]; }
  }

  lemma {:induction false} LongTally(nodes: Nodes, w: seq<Slot>)
    ensures Tally(nodes, w) >= |w|
  {
    if w != [] { LongTally(nodes, w[..|w| - 1]); }
  }

  lemma SoundValue(nodes: Nodes, x: Slot, names: nat, strings: nat)
    requires RecordsSound(nodes, names, strings) && IsValue(nodes, x)
    ensures x >= 0 && RecordSound(nodes, x, names, strings)
    ensures IsContainer(nodes[x].payload.vtype) ==> nodes[x].owned >= 0 && IsAggregate(nodes, nodes[x].owned) && AggregateValid(nodes[nodes[x].owned])
  {
    assert RecordSound(nodes, x, names, strings);
  }

  lemma PassedAudit(nodes: Nodes, x: Slot, names: nat, strings: nat)
    requires x >= 0 && IsValue(nodes, x) && RecordSound(nodes, x, names, strings)
    requires IsContainer(nodes[x].payload.vtype) ==> exists ks :: Row(nodes, nodes[x].owned, ks)
    ensures Audited(nodes, x)
  {
  }

  lemma RowsPass(nodes: Nodes, x: Slot)
    requires Audited(nodes, x) && IsContainer(nodes[x].payload.vtype)
    ensures exists ks :: Row(nodes, nodes[x].owned, ks)
  {
  }

  lemma {:induction false} TallyStep(nodes: Nodes, w: seq<Slot>, x: Slot)
    requires IsValue(nodes, x)
    ensures Tally(nodes, w + [x]) == Tally(nodes, w) + 1 + (if IsContainer(nodes[x].payload.vtype) then 1 else 0)
  {
    assert (w + [x])[..|w|] == w;
  }

  lemma TrailStarts(nodes: Nodes, x: Slot)
    requires Audited(nodes, x)
    ensures Trail(nodes, x, [x])
  {
  }

  lemma TrailAudited(nodes: Nodes, top: Slot, w: seq<Slot>)
    requires Trail(nodes, top, w)
    ensures AllAudited(nodes, w)
  {
  }

  /** Audits the tree of `top` and counts its records. */
  method AuditSubtree(nodes: Nodes, top: Slot, names: nat, strings: nat, ghost f: Shape) returns (ok: bool, records: nat, ghost w: seq<Slot>)
    requires RecordsSound(nodes, names, strings) && IsValue(nodes, top)
    ensures ok ==> Trail(nodes, top, w) && NextOf(nodes, top, w[|w| - 1]) < 0 && records == Tally(nodes, w)
    ensures Wf(f) && f.nodes == nodes ==> ok && w == Walk(f, Pre, top)
  {
    hide RecordSound, RecordsSound, Wf, Audited, NextOf, OnWalk, Trail;
    ghost var good := Wf(f) && f.nodes == nodes;
    ok, records, w := false, 0, [];
    var current := top;
    var visited := 0;
    SoundValue(nodes, top, names, strings);
    if good { WalkStarts(f, top); }
    while current >= 0
      invariant visited == |w| && records == Tally(nodes, w)
      invariant if w == [] then current == top else Trail(nodes, top, w) && NextOf(nodes, top, w[|w| - 1]) == current
      invariant good ==> OnWalk(f, top, w, current)
      invariant visited <= |nodes|
      decreases |nodes| - visited
    {
      if w != [] { TrailAudited(nodes, top, w); }
      if good { WalkGoesOn(f, top, w, current, names, strings); }
      if visited >= |nodes| { return; }
      visited := visited + 1;
      if !IsValue(nodes, current) { return; }
      SoundValue(nodes, current, names, strings);
      TallyStep(nodes, w, current);
      records := records + 1;
      if records > |nodes| { return; }
      if IsContainer(nodes[current].payload.vtype) {
        records := records + 1;
        if records > |nodes| { return; }
        if good { RowsPass(nodes, current); }
        var fit := AuditChildren(nodes, nodes[current].owned);
        if !fit { return; }
      }
      PassedAudit(nodes, current, names, strings);
      if w != [] { TrailGrows(nodes, top, w, current); } else { TrailStarts(nodes, current); assert w + [current] == [current]; }
      var stepped, next := SubtreeNext(nodes, top, current);
      if !stepped { return; }
      w := w + [current];
      current := next;
    }
    ok := visited != 0;
    if good { WalkEnds(f, top, w, current); }
  }

  lemma {:induction false} WalkEnds(f: Shape, top: Slot, w: seq<Slot>, current: Slot)
    requires OnWalk(f, top, w, current) && current < 0
    ensures w == Walk(f, Pre, top)
  {
  }

  // ---------------------------------------------------------------------
  // The audit of all trees

  predicate IsTop(nodes: Nodes, t: Slot) {
    IsValue(nodes, t) && nodes[t].parent < 0
  }

  ghost predicate SlotsNatural(nodes: Nodes) {
    forall s :: s in nodes ==> s >= 0
  }

  lemma {:induction false} TrailUnder(nodes: Nodes, top: Slot, w: seq<Slot>, i: nat)
    requires Trail(nodes, top, w) && i < |w|
    ensures Under(nodes, w[i], top)
  {
    UnderStep(nodes, w[i], top);
    if i > 0 {
      assert Hangs(nodes, w, i);
      var j :| 0 <= j < i && w[j] == nodes[nodes[w[i]].parent].owner;
      TrailUnder(nodes, top, w, j);
      assert Audited(nodes, w[j]);
    }
  }

  /** No value lies in two trees. */
  lemma {:induction false} OneTop(nodes: Nodes, x: Slot, t: Slot, t': Slot, hops: nat)
    requires SlotsNatural(nodes) && IsTop(nodes, t) && IsTop(nodes, t') && Climbs(nodes, x, t, hops) && Under(nodes, x, t')
    ensures t == t'
    decreases hops
  {
    UnderStep(nodes, x, t');
    if hops > 0 && x != t' { OneTop(nodes, Up(nodes, x), t, t', hops - 1); }
  }

  /** What the audits of the trees `tops` have seen, in order. */
  ghost predicate Gathered(nodes: Nodes, tops: set<Slot>, seen: seq<Slot>) {
    && AllAudited(nodes, seen) && Distinct(seen)
    && (forall t :: t in tops ==> IsTop(nodes, t))
    && (forall i :: 0 <= i < |seen| ==> seen[i] in tops || Hangs(nodes, seen, i))
    && (forall i :: 0 <= i < |seen| ==> exists t :: t in tops && Under(nodes, seen[i], t))
  }

  lemma GatherApart(nodes: Nodes, tops: set<Slot>, seen: seq<Slot>, top: Slot, w: seq<Slot>)
    requires SlotsNatural(nodes) && Gathered(nodes, tops, seen) && IsTop(nodes, top) && top !in tops
    requires Trail(nodes, top, w) && NextOf(nodes, top, w[|w| - 1]) < 0
    ensures Distinct(seen + w) && AllAudited(nodes, seen + w)
  {
    forall i, j | 0 <= i < j < |w| ensures w[i] != w[j] { TrailApart(nodes, top, w, i, j); }
    forall x | x in seen ensures x !in w {
      if x in w {
        var i :| 0 <= i < |seen| && seen[i] == x;
        var j :| 0 <= j < |w| && w[j] == x;
        var t :| t in tops && Under(nodes, seen[i], t);
        TrailUnder(nodes, top, w, j);
        var hops: nat :| Climbs(nodes, x, t, hops);
        OneTop(nodes, x, t, top, hops);
      }
    }
    DistinctJoin(seen, w);
  }

  lemma HangsLater(nodes: Nodes, seen: seq<Slot>, w: seq<Slot>, i: nat)
    requires i < |w| && Hangs(nodes, w, i)
    ensures Hangs(nodes, seen + w, |seen| + i)
  {
    var j :| 0 <= j < i && w[j] == nodes[nodes[w[i]].parent].owner;
    assert (seen + w)[|seen| + j] == w[j];
  }

  lemma HangsStill(nodes: Nodes, seen: seq<Slot>, w: seq<Slot>, i: nat)
    requires i < |seen| && Hangs(nodes, seen, i)
    ensures Hangs(nodes, seen + w, i)
  {
    var j :| 0 <= j < i && seen[j] == nodes[nodes[seen[i]].parent].owner;
    assert (seen + w)[j] == seen[j];
  }

  lemma {:induction false} Gather(nodes: Nodes, tops: set<Slot>, seen: seq<Slot>, top: Slot, w: seq<Slot>)
    requires SlotsNatural(nodes) && Gathered(nodes, tops, seen) && IsTop(nodes, top) && top !in tops
    requires Trail(nodes, top, w) && NextOf(nodes, top, w[|w| - 1]) < 0
    ensures Gathered(nodes, tops + {top}, seen + w) && Tally(nodes, seen + w) == Tally(nodes, seen) + Tally(nodes, w)
  {
    GatherApart(nodes, tops, seen, top, w);
    TallyJoins(nodes, seen, w);
    forall i | 0 <= i < |seen + w|
      ensures ((seen + w)[i] in tops + {top} || Hangs(nodes, seen + w, i)) && exists t :: t in tops + {top} && Under(nodes, (seen + w)[i], t) {
      GatherOne(nodes, tops, seen, top, w, i);
    }
  }

  lemma GatherOne(nodes: Nodes, tops: set<Slot>, seen: seq<Slot>, top: Slot, w: seq<Slot>, i: nat)
    requires Gathered(nodes, tops, seen) && Trail(nodes, top, w) && i < |seen| + |w|
    ensures (seen + w)[i] in tops + {top} || Hangs(nodes, seen + w, i)
    ensures exists t :: t in tops + {top} && Under(nodes, (seen + w)[i], t)
  {
    var x := (seen + w)[i];
    if i < |seen| {
      assert x == seen[i];
      if x !in tops { HangsStill(nodes, seen, w, i); }
      var t :| t in tops && Under(nodes, seen[i], t);
      assert t in tops + {top} && Under(nodes, x, t);
    } else {
      TrailUnder(nodes, top, w, i - |seen|);
      if i > |seen| { HangsLater(nodes, seen, w, i - |seen|); }
      assert top in tops + {top} && Under(nodes, x, top);
    }
  }

  lemma {:induction false} TallyJoins(nodes: Nodes, seen: seq<Slot>, w: seq<Slot>)
    ensures Tally(nodes, seen + w) == Tally(nodes, seen) + Tally(nodes, w)
  {
    if w == [] {
      assert seen + w == seen;
    } else {
      assert (seen + w)[..|seen + w| - 1] == seen + w[..|w| - 1];
      TallyJoins(nodes, seen, w[..|w| - 1]);
    }
  }

  // ---------------------------------------------------------------------
  // Soundness: a full count leaves no room for a cycle or a shared subtree

  ghost function RowOf(nodes: Nodes, a: Slot): seq<Slot> {
    if exists ks :: Row(nodes, a, ks) then var ks :| Row(nodes, a, ks); ks else []
  }

  /** A row has one reading. */
  lemma {:induction false} RowUnique(nodes: Nodes, a: Slot, ks: seq<Slot>, ks': seq<Slot>, i: nat)
    requires Row(nodes, a, ks) && Row(nodes, a, ks') && i < |ks|
    ensures |ks| == |ks'| && ks[i] == ks'[i]
  {
    if i > 0 {
      RowUnique(nodes, a, ks, ks', i - 1);
      assert RowAt(nodes, a, ks, i - 1) && RowAt(nodes, a, ks', i - 1);
    }
  }

  ghost function PlaceOf(seen: seq<Slot>, x: Slot): nat {
    if x in seen then var i :| 0 <= i < |seen| && seen[i] == x; i else 0
  }

  ghost function SeenKids(nodes: Nodes): Kids {
    map a | a in nodes && nodes[a].Aggregate? :: RowOf(nodes, a)
  }

  ghost function SeenRank(seen: seq<Slot>): Rank {
    map x | x in seen :: PlaceOf(seen, x)
  }

  lemma FullRows(nodes: Nodes, tops: set<Slot>, seen: seq<Slot>, names: nat, strings: nat, a: Slot)
    requires RecordsSound(nodes, names, strings) && Gathered(nodes, tops, seen) && Covered(nodes, seen) == nodes.Keys
    requires IsAggregate(nodes, a)
    ensures Row(nodes, a, RowOf(nodes, a))
  {
    assert a in Covered(nodes, seen);
    assert RecordSound(nodes, a, names, strings);
    var x := if a in seen then a else nodes[a].owner;
    var i :| 0 <= i < |seen| && seen[i] == x;
    assert Audited(nodes, seen[i]);
  }

  lemma SeenAll(nodes: Nodes, tops: set<Slot>, seen: seq<Slot>, v: Slot) returns (i: nat)
    requires Gathered(nodes, tops, seen) && Covered(nodes, seen) == nodes.Keys && IsValue(nodes, v)
    ensures i < |seen| && seen[i] == v && PlaceOf(seen, v) == i && Audited(nodes, v) && (IsTop(nodes, v) || Hangs(nodes, seen, i))
  {
    assert v in Covered(nodes, seen);
    i := PlaceOf(seen, v);
    assert Audited(nodes, seen[i]);
  }

  lemma FullListed(nodes: Nodes, tops: set<Slot>, seen: seq<Slot>, names: nat, strings: nat)
    requires RecordsSound(nodes, names, strings) && Gathered(nodes, tops, seen) && Covered(nodes, seen) == nodes.Keys
    ensures Listed(nodes, SeenKids(nodes))
  {
    var kids := SeenKids(nodes);
    forall a, i | a in kids && 0 <= i < |kids[a]| ensures ChildAt(nodes, kids, a, i) {
      FullRows(nodes, tops, seen, names, strings, a);
      assert RowAt(nodes, a, kids[a], i);
    }
    forall a | a in kids ensures Ends(nodes[a], kids[a]) && Distinct(kids[a]) { FullRows(nodes, tops, seen, names, strings, a); }
    forall v | IsValue(nodes, v) ensures Placed(nodes, kids, v) {
      var i := SeenAll(nodes, tops, seen, v);
      assert RecordSound(nodes, v, names, strings);
      if Hangs(nodes, seen, i) {
        var a := nodes[v].parent;
        FullRows(nodes, tops, seen, names, strings, a);
        var ks :| Row(nodes, a, ks) && v in ks;
        var k :| 0 <= k < |ks| && ks[k] == v;
        RowUnique(nodes, a, ks, RowOf(nodes, a), k);
      }
    }
  }

  /** When every record was counted, the links are those of a forest. */
  lemma FullForest(nodes: Nodes, tops: set<Slot>, seen: seq<Slot>, names: nat, strings: nat)
    requires RecordsSound(nodes, names, strings) && Gathered(nodes, tops, seen) && Covered(nodes, seen) == nodes.Keys
    ensures IsForest(nodes, SeenKids(nodes), SeenRank(seen), |seen|)
  {
    var kids, rank := SeenKids(nodes), SeenRank(seen);
    FullListed(nodes, tops, seen, names, strings);
    forall s | s in nodes ensures Paired(nodes, s) { assert RecordSound(nodes, s, names, strings); }
    forall a | a in kids ensures Members(nodes, kids, a) { FullRows(nodes, tops, seen, names, strings, a); }
    forall v | IsValue(nodes, v)
      ensures v in rank && rank[v] < |seen| && (Up(nodes, v) != NO_SLOT ==> Up(nodes, v) in rank && rank[Up(nodes, v)] < rank[v]) {
      FullRank(nodes, tops, seen, v);
      assert NO_SLOT !in nodes;
    }
  }

  lemma FullRank(nodes: Nodes, tops: set<Slot>, seen: seq<Slot>, v: Slot)
    requires SlotsNatural(nodes) && Gathered(nodes, tops, seen) && Covered(nodes, seen) == nodes.Keys && IsValue(nodes, v)
    ensures v in seen && PlaceOf(seen, v) < |seen|
    ensures Up(nodes, v) != NO_SLOT ==> Up(nodes, v) in seen && PlaceOf(seen, Up(nodes, v)) < PlaceOf(seen, v)
  {
    var i := SeenAll(nodes, tops, seen, v);
    if Up(nodes, v) != NO_SLOT {
      assert Hangs(nodes, seen, i);
      var j :| 0 <= j < i && seen[j] == nodes[nodes[v].parent].owner;
      assert seen[PlaceOf(seen, seen[j])] == seen[j];
    }
  }

  // ---------------------------------------------------------------------
  // Completeness: the audits of a well-formed forest count every record

  lemma {:induction false} TopOf(f: Shape, x: Slot) returns (top: Slot)
    requires Wf(f) && IsValue(f.nodes, x)
    ensures IsTop(f.nodes, top) && Under(f.nodes, x, top)
    decreases f.rank[x]
  {
    UnderStep(f.nodes, x, x);
    if Up(f.nodes, x) == NO_SLOT {
      assert Placed(f.nodes, f.kids, x);
      top := x;
    } else {
      UpIsValue(f.nodes, f.kids, x);
      top := TopOf(f, Up(f.nodes, x));
      UnderStep(f.nodes, x, top);
    }
  }

  lemma {:induction false} AllCovered(f: Shape, tops: set<Slot>, seen: seq<Slot>)
    requires Wf(f) && (forall t :: IsTop(f.nodes, t) ==> t in tops)
    requires forall t, x :: t in tops && IsValue(f.nodes, t) && x in Walk(f, Pre, t) ==> x in seen
    ensures Covered(f.nodes, seen) == f.nodes.Keys
  {
    forall x | IsValue(f.nodes, x) ensures x in seen {
      var top := TopOf(f, x);
      WalkMembers(f, Pre, top, x);
    }
    forall s | s in f.nodes ensures s in Covered(f.nodes, seen) { assert Paired(f.nodes, s); }
  }

  lemma {:induction false} FullCount(nodes: Nodes, tops: set<Slot>, seen: seq<Slot>, names: nat, strings: nat)
    requires RecordsSound(nodes, names, strings) && Gathered(nodes, tops, seen)
    ensures Tally(nodes, seen) <= |nodes| && (Tally(nodes, seen) == |nodes| <==> Covered(nodes, seen) == nodes.Keys)
  {
    TallyIsSize(nodes, seen, names, strings);
    if |Covered(nodes, seen)| == |nodes| { FullSubset(Covered(nodes, seen), nodes.Keys); }
  }

  lemma FullSubset<T>(s: set<T>, t: set<T>)
    requires s <= t && |s| == |t|
    ensures s == t
  {
    if x :| x in t && x !in s { SubsetSize(s + {x}, t); }
  }

  /** Audits the tree of the root and of every other unattached value; true exactly when the
      records form a forest. */
  method AuditForest(nodes: Nodes, root: Slot, names: nat, strings: nat) returns (ok: bool)
    requires RecordsSound(nodes, names, strings) && IsTop(nodes, root)
    ensures ok <==> exists kids, rank, bound :: IsForest(nodes, kids, rank, bound)
  {
    hide Wf, IsForest, Trail, NextOf, Gathered, Tally, Covered, Walk, RecordSound;
    ghost var good := exists kids, rank, bound :: IsForest(nodes, kids, rank, bound);
    ghost var f := Shape(nodes, map[], map[], 0);
    if good {
      var kids, rank, bound :| IsForest(nodes, kids, rank, bound);
      f := Shape(nodes, kids, rank, bound);
      ShapeWf(f);
    }
    GatherNothing(nodes);
    ghost var tops, seen: seq<Slot> := {}, [];
    ghost var w;
    var forest;
    ok, forest, w := AuditSubtree(nodes, root, names, strings, f);
    if !ok { return; }
    Gather(nodes, tops, seen, root, w);
    tops, seen := tops + {root}, seen + w;
    var rest := nodes.Keys;
    while rest != {}
      invariant rest <= nodes.Keys && Gathered(nodes, tops, seen) && forest == Tally(nodes, seen)
      invariant forall t :: t in tops <==> t == root || (IsTop(nodes, t) && t !in rest)
      invariant good ==> forall t, x :: t in tops && IsValue(nodes, t) && x in Walk(f, Pre, t) ==> x in seen
      decreases rest
    {
      SomeMember(rest);
      var s :| s in rest;
      rest := rest - {s};
      if IsTop(nodes, s) && s != root {
        var records;
        ok, records, w := AuditSubtree(nodes, s, names, strings, f);
        if !ok { return; }
        Gather(nodes, tops, seen, s, w);
        tops, seen := tops + {s}, seen + w;
        forest := forest + records;
        FullCount(nodes, tops, seen, names, strings);
        if forest > |nodes| { return false; }
      }
    }
    FullCount(nodes, tops, seen, names, strings);
    ok := forest == |nodes|;
    if ok { FullForest(nodes, tops, seen, names, strings); }
    if good { AllCovered(f, tops, seen); }
  }

  lemma ShapeWf(f: Shape)
    requires IsForest(f.nodes, f.kids, f.rank, f.bound)
    ensures Wf(f)
  {
  }

  lemma {:induction false} GatherNothing(nodes: Nodes)
    ensures Gathered(nodes, {}, []) && Tally(nodes, []) == 0
  {
  }

  lemma SomeMember(s: set<Slot>)
    ensures s != {} ==> exists x :: x in s
  {
    assert (forall x :: x !in s) ==> s == {};
  }

  // ---------------------------------------------------------------------
  // The whole check

  /** The slot container is a partial map between keys and natural slots. */
  ghost predicate SlotsAgree(nodes: Nodes, keyAt: map<Slot, Key>, slotOf: map<Key, Slot>) {
    && keyAt.Keys == nodes.Keys && SlotsNatural(nodes)
    && (forall s :: s in keyAt ==> keyAt[s] in slotOf && slotOf[keyAt[s]] == s)
    && (forall k :: k in slotOf ==> slotOf[k] in keyAt && keyAt[slotOf[k]] == k)
  }

  predicate DomainSound(table: seq<Bytes>) {
    Distinct(table) && |table| < 0xffff_ffff && forall i :: 0 <= i < |table| ==> table[i] != []
  }

  /** Records, keys, names and links are sound, for some lists of children. */
  ghost predicate Sound(nodes: Nodes, keyAt: map<Slot, Key>, slotOf: map<Key, Slot>, next: Key, root: Key,
                        breaks: LineBreaks, names: seq<Bytes>, strings: seq<Bytes>) {
    && KeysValid(nodes, keyAt, slotOf, next) && PayloadsValid(nodes, |names|, |strings|) && RootValid(nodes, keyAt, slotOf, root)
    && DomainSound(names) && DomainSound(strings)
    && (forall v :: IsValue(nodes, v) ==> !breaks(TextAt(names, nodes[v].name)))
    && (exists kids, rank, bound :: IsForest(nodes, kids, rank, bound))
  }

  /** The tests on the root before anything else is read. */
  predicate RootSound(nodes: Nodes, keyAt: map<Slot, Key>, slotOf: map<Key, Slot>, root: Key) {
    && root == ROOT_KEY && root in slotOf && IsValue(nodes, slotOf[root])
    && var r := nodes[slotOf[root]];
    IsContainer(r.payload.vtype) && Unattached(r) && r.name == 0 && !r.named && r.owned in keyAt && keyAt[r.owned] == 2
  }

  /** The first pass: every record by itself and with its partners, every key and name. */
  method CheckRecords(nodes: Nodes, keyAt: map<Slot, Key>, slotOf: map<Key, Slot>, next: Key, breaks: LineBreaks, names: seq<Bytes>, strings: nat)
    returns (ok: bool)
    requires SlotsAgree(nodes, keyAt, slotOf)
    ensures ok <==>
      && KeysValid(nodes, keyAt, slotOf, next) && RecordsSound(nodes, |names|, strings)
      && (forall v :: IsValue(nodes, v) ==> !breaks(TextAt(names, nodes[v].name)))
  {
    var rest := nodes.Keys;
    var last: Key := NO_KEY;
    while rest != {}
      invariant rest <= nodes.Keys
      invariant forall s :: s in nodes && s !in rest ==> keyAt[s] != NO_KEY && keyAt[s] <= last && RecordSound(nodes, s, |names|, strings)
      invariant forall s :: IsValue(nodes, s) && s !in rest ==> !breaks(TextAt(names, nodes[s].name))
      invariant last != NO_KEY ==> exists s :: s in keyAt && keyAt[s] == last
      decreases rest
    {
      SomeMember(rest);
      var s :| s in rest;
      rest := rest - {s};
      if keyAt[s] == NO_KEY || !RecordSound(nodes, s, |names|, strings) { return false; }
      if nodes[s].Value? && breaks(TextAt(names, nodes[s].name)) { return false; }
      if keyAt[s] > last { last := keyAt[s]; }
    }
    ok := next == NO_KEY || next > last;
    SlotKeysBelow(nodes, keyAt, slotOf, last);
  }

  lemma SlotKeysBelow(nodes: Nodes, keyAt: map<Slot, Key>, slotOf: map<Key, Slot>, last: Key)
    requires SlotsAgree(nodes, keyAt, slotOf) && forall s :: s in nodes ==> keyAt[s] != NO_KEY && keyAt[s] <= last
    ensures forall k :: k in slotOf ==> k != NO_KEY && k <= last
  {
    forall k | k in slotOf ensures k != NO_KEY && k <= last {
      var s := slotOf[k];
      assert s in nodes;
    }
  }

  lemma SoundRecords(nodes: Nodes, keyAt: map<Slot, Key>, slotOf: map<Key, Slot>, next: Key, root: Key,
                     breaks: LineBreaks, names: seq<Bytes>, strings: seq<Bytes>)
    requires SlotsAgree(nodes, keyAt, slotOf) && Sound(nodes, keyAt, slotOf, next, root, breaks, names, strings)
    ensures RecordsSound(nodes, |names|, |strings|)
  {
    var kids, rank, bound :| IsForest(nodes, kids, rank, bound);
    forall s | s in nodes ensures RecordSound(nodes, s, |names|, |strings|) {
      assert Paired(nodes, s);
      match nodes[s]
      case Value(parent, _, _, owned, _, _, _) =>
        assert Placed(nodes, kids, s);
        if parent >= 0 {
          var i :| 0 <= i < |kids[parent]| && kids[parent][i] == s;
          KidIsValue(nodes, kids, parent, i);
          LinksReach(nodes, kids, parent, i - 1);
          LinksReach(nodes, kids, parent, i + 1);
          SoundAggregate(nodes, kids, parent);
        }
        if owned in nodes { SoundAggregate(nodes, kids, owned); }
      case Aggregate(_, _, _, _, _) => SoundAggregate(nodes, kids, s);
    }
  }

  lemma LinksReach(nodes: Nodes, kids: Kids, a: Slot, i: int)
    requires Linked(nodes, kids) && a in kids
    ensures At(kids[a], i) >= NO_SLOT
  {
    if 0 <= i < |kids[a]| { KidIsValue(nodes, kids, a, i); }
  }

  lemma SoundAggregate(nodes: Nodes, kids: Kids, a: Slot)
    requires Linked(nodes, kids) && IsAggregate(nodes, a)
    ensures AggregateValid(nodes[a])
  {
    assert Paired(nodes, a);
    assert Ends(nodes[a], kids[a]);
    if kids[a] != [] {
      KidIsValue(nodes, kids, a, 0);
      KidIsValue(nodes, kids, a, |kids[a]| - 1);
    }
  }

  /** True exactly for sound documents: the local tests and the record count together leave no
      room for a cycle, a shared subtree or a record outside every tree. */
  method CheckIntegrity(nodes: Nodes, keyAt: map<Slot, Key>, slotOf: map<Key, Slot>, next: Key, root: Key,
                        breaks: LineBreaks, names: seq<Bytes>, strings: seq<Bytes>) returns (ok: bool)
    requires SlotsAgree(nodes, keyAt, slotOf)
    ensures ok <==> Sound(nodes, keyAt, slotOf, next, root, breaks, names, strings)
  {
    if Sound(nodes, keyAt, slotOf, next, root, breaks, names, strings) {
      SoundRecords(nodes, keyAt, slotOf, next, root, breaks, names, strings);
    }
    hide IsForest, RecordSound, KeysValid, SlotsAgree;
    if !DomainSound(names) || !DomainSound(strings) || !RootSound(nodes, keyAt, slotOf, root) { return false; }
    ok := CheckRecords(nodes, keyAt, slotOf, next, breaks, names, |strings|);
    if !ok { return; }
    PayloadsFromRecords(nodes, |names|, |strings|);
    ok := AuditForest(nodes, slotOf[root], |names|, |strings|);
  }

  lemma PayloadsFromRecords(nodes: Nodes, names: nat, strings: nat)
    requires RecordsSound(nodes, names, strings)
    ensures PayloadsValid(nodes, names, strings)
  {
    forall v | IsValue(nodes, v) ensures PayloadValid(nodes[v].payload, strings) && NameValid(nodes[v].name, nodes[v].named, names) {
      assert RecordSound(nodes, v, names, strings);
    }
  }

  lemma InvSound(nodes: Nodes, kids: Kids, rank: Rank, bound: nat, keyAt: map<Slot, Key>, slotOf: map<Key, Slot>, next: Key, root: Key,
                 breaks: LineBreaks, names: seq<Bytes>, strings: seq<Bytes>)
    requires KeysValid(nodes, keyAt, slotOf, next) && IsForest(nodes, kids, rank, bound) && PayloadsValid(nodes, |names|, |strings|)
    requires TablesValid(breaks, names, strings) && RootValid(nodes, keyAt, slotOf, root)
    ensures Sound(nodes, keyAt, slotOf, next, root, breaks, names, strings) && SlotsAgree(nodes, keyAt, slotOf)
  {
  }
}
