/**
 Translation from a live document to a baked block
 (core/data_model/document_baking.cpp).
 */
module Baking {
  import opened LiveNode
  import opened Forest
  import opened Traversal
  import opened Content
  import opened DocumentState
  import opened BreadthFirst
  import opened ValueFlags
  import opened BakedRecords
  import opened BakedValidation
  import opened StringTables

  const NULL_PAYLOAD: Payload := Payload(NullValue, 0, false, PLAIN)

  /** Old identifiers to new ones. */
  type Renaming = seq<nat>

  function NewId(map_: Renaming, id: nat): nat {
    if id < |map_| then map_[id] else 0
  }

  function BakedPayload(p: Payload, strings: Renaming): Payload {
    if p.vtype.EmptyValue? then NULL_PAYLOAD
    else if p.vtype.Text? && NewId(strings, p.bits) < 0x1_0000_0000 then p.(bits := NewId(strings, p.bits))
    else p
  }

  /** The tree that is baked: empty values become null, names and strings are renumbered. */
  function Recode(t: Tree, names: Renaming, strings: Renaming): Tree
    decreases t, 1
  {
    Tree(BakedPayload(t.payload, strings), NewId(names, t.name), t.named, RecodeAll(t.kids, names, strings))
  }

  function RecodeAll(ts: seq<Tree>, names: Renaming, strings: Renaming): (rs: seq<Tree>)
    ensures |rs| == |ts| && forall i :: 0 <= i < |ts| ==> rs[i] == Recode(ts[i], names, strings)
    decreases ts, 0
  {
    seq(|ts|, i requires 0 <= i < |ts| => Recode(ts[i], names, strings))
  }

  /** Recoding keeps the breadth-first order. */
  lemma {:induction false} OrderRecoded(q: seq<Tree>, names: Renaming, strings: Renaming)
    ensures BreadthOrder(RecodeAll(q, names, strings)) == RecodeAll(BreadthOrder(q), names, strings)
    decreases SizeAll(q)
  {
    if q != [] {
      QueueShrinks(q);
      var next := q[1..] + q[0].kids;
      OrderRecoded(next, names, strings);
      var q' := RecodeAll(q, names, strings);
      assert q'[1..] + q'[0].kids == RecodeAll(next, names, strings);
      assert BreadthOrder(q) == [q[0]] + BreadthOrder(next);
    }
  }

  // ---------------------------------------------------------------------
  // The values of the root's tree

  /** Every tree in the order below `root` belongs to a value below `root`. */
  lemma {:induction false} OrderedValue(f: Shape, root: Slot, i: nat) returns (x: Slot)
    requires Wf(f) && IsValue(f.nodes, root) && i < |BreadthOrder([ContentOf(f, root)])|
    ensures IsValue(f.nodes, x) && Under(f.nodes, x, root) && BreadthOrder([ContentOf(f, root)])[i] == ContentOf(f, x)
    decreases i
  {
    hide Wf, BreadthOrder;
    var t := ContentOf(f, root);
    var ts := BreadthOrder([t]);
    OrderLaid(t);
    if i == 0 {
      UnderStep(f.nodes, root, root);
      return root;
    }
    var h := HolderOf(ts, i);
    var y := OrderedValue(f, root, h);
    assert KidsAt(ts, h);
    var j := i - Start(ts, h);
    assert ts[Start(ts, h)..Start(ts, h + 1)][j] == ts[i];
    ContentKids(f, y);
    NotTop(f, y, root, j);
    return KidsOf(f.nodes, f.kids, y)[j];
  }

  /** Every value below `root` is in the order. */
  lemma {:induction false} ValueOrdered(f: Shape, root: Slot, x: Slot) returns (i: nat)
    requires Wf(f) && IsValue(f.nodes, root) && IsValue(f.nodes, x) && Under(f.nodes, x, root)
    ensures i < |BreadthOrder([ContentOf(f, root)])| && BreadthOrder([ContentOf(f, root)])[i] == ContentOf(f, x)
    decreases f.rank[x]
  {
    var t := ContentOf(f, root);
    var ts := BreadthOrder([t]);
    OrderLaid(t);
    UnderStep(f.nodes, x, root);
    hide BreadthOrder;
    if x == root { return 0; }
    UpIsValue(f.nodes, f.kids, x);
    var u := Up(f.nodes, x);
    var h := ValueOrdered(f, root, u);
    var j :| 0 <= j < |KidsOf(f.nodes, f.kids, u)| && KidsOf(f.nodes, f.kids, u)[j] == x;
    hide Wf;
    ContentKids(f, u);
    LaidKids(ts, h);
    return Start(ts, h) + j;
  }

  lemma {:induction false} WalkSize(f: Shape, v: Slot)
    requires Wf(f) && IsValue(f.nodes, v)
    ensures |Walk(f, Pre, v)| == Size(ContentOf(f, v))
    decreases f.bound - f.rank[v], 1, 0
  {
    KidsBelow(f, v);
    var ks := KidsOf(f.nodes, f.kids, v);
    WalkAllSize(f, ks, f.rank[v]);
    assert ContentOf(f, v).kids == Contents(f, ks, f.rank[v]);
  }

  lemma {:induction false} WalkAllSize(f: Shape, ks: seq<Slot>, r: nat)
    requires Wf(f) && Below(f, ks, r)
    ensures |WalkAll(f, Pre, ks, r)| == SizeAll(Contents(f, ks, r))
    decreases f.bound - r, 0, |ks|
  {
    if ks != [] {
      WalkSize(f, ks[0]);
      WalkAllSize(f, ks[1..], r);
      assert Contents(f, ks, r)[1..] == Contents(f, ks[1..], r);
    }
  }

  // ---------------------------------------------------------------------
  // Emitting records

  const BLANK: Record := Record(0, 0, 0, 0, 0, 0, 0, 0)

  /** The flag word of a live value: everything but its place. */
  function LiveFlags(n: Node): bv16
    requires n.Value?
  {
    Pack(Encode(n.payload.meta), n.named, n.payload.suppress, false, false)
  }

  /** Record `r` with the name, flags, type and payload of a value added to it. */
  function Described(r: Record, p: Payload, name: U32, named: bool): Record {
    r.(bits := p.bits, name := name, tag := TagOf(p.vtype), flags := Join(r.flags, Pack(Encode(p.meta), named, p.suppress, false, false)))
  }

  ghost predicate Narrow(map_: Renaming) {
    forall i :: 0 <= i < |map_| ==> map_[i] < NONE
  }

  datatype Emission = Emitted(record: Record) | Failed

  /** Fills in a record, blank but for its place, from a live value (emit_value_payload). */
  function EmitPayload(n: Node, r: Record, names: Renaming, strings: Renaming): Emission
    requires n.Value?
  {
    if n.name >= |names| || names[n.name] >= NONE then Failed else
    var described := r.(name := names[n.name], flags := Join(r.flags, LiveFlags(n)));
    match n.payload.vtype
    case EmptyValue | NullValue => Emitted(described.(tag := 1))
    case Boolean => Emitted(described.(tag := 2, bits := if n.payload.bits != 0 then 1 else 0))
    case Integer => Emitted(described.(tag := 3, bits := n.payload.bits))
    case FloatingPoint => Emitted(described.(tag := 4, bits := n.payload.bits))
    case Text =>
      if n.payload.bits >= |strings| || strings[n.payload.bits] >= NONE then Failed
      else Emitted(described.(tag := 5, bits := strings[n.payload.bits]))
    case Array => Emitted(described.(tag := 6))
    case Object => Emitted(described.(tag := 7))
  }

  /** A valid value is emitted as its baked payload, name and flags. */
  lemma EmitsDescribed(n: Node, r: Record, names: Renaming, strings: Renaming, count: nat)
    requires n.Value? && Narrow(names) && Narrow(strings) && r.bits == 0
    requires PayloadValid(n.payload, count) && count < |strings| && n.name < |names|
    ensures NewId(names, n.name) < NONE
    ensures EmitPayload(n, r, names, strings) == Emitted(Described(r, BakedPayload(n.payload, strings), NewId(names, n.name), n.named))
  {
    EmptyBits(n.payload, strings, count);
    hide Join, Pack, Encode, IntegerValid, FiniteBits;
  }

  lemma EmptyBits(p: Payload, strings: Renaming, count: nat)
    requires PayloadValid(p, count)
    ensures BakedPayload(p, strings).meta == p.meta && BakedPayload(p, strings).suppress == p.suppress
    ensures !p.vtype.Text? && !p.vtype.EmptyValue? ==> BakedPayload(p, strings) == p
  {
  }

  /** The place flags of value `k`. */
  ghost function PlaceFlags(ts: seq<Tree>, k: nat): bv16
    requires Laid(ts) && 0 < k < |ts|
  {
    Join(if k == Start(ts, Holder(ts, k)) then FIRST_SIBLING else 0, if k + 1 == Start(ts, Holder(ts, k) + 1) then LAST_SIBLING else 0)
  }

  /** The record of value `k` once it is in the queue: its parent and its place are known. */
  ghost function Pending(ts: seq<Tree>, k: nat): (r: Record)
    requires Laid(ts) && k < |ts| < NONE
    ensures r.bits == 0 && r.count == 0
  {
    if k == 0 then BLANK.(parent := NONE) else BLANK.(parent := Holder(ts, k), flags := PlaceFlags(ts, k))
  }

  /** Describing a value and giving its range completes its record. */
  lemma {:induction false} Completes(ts: seq<Tree>, k: nat)
    requires Laid(ts) && NamesFit(ts) && k < |ts|
    ensures var t := ts[k]; var r := Described(Pending(ts, k).(first := NONE), t.payload, t.name, t.named);
      && Start(ts, k) <= |ts| && |t.kids| <= |ts|
      && Records(ts)[k] == if t.kids == [] then r else r.(first := Start(ts, k), count := |t.kids|)
  {
    LaidKids(ts, k);
    hide Laid, Pack, Join, TagOf, Encode;
    var t := ts[k];
    var first := k > 0 && k == Start(ts, Holder(ts, k));
    var last := k > 0 && k + 1 == Start(ts, Holder(ts, k) + 1);
    JoinPlace(Encode(t.payload.meta), t.named, t.payload.suppress, first, last);
    JoinNone();
  }

  lemma JoinNone()
    ensures Join(0, 0) == 0
  {
  }

  /** What the emission of a well-formed tree is to produce: `live` is its order and `ts` that order recoded. */
  ghost predicate Planned(f: Shape, root: Slot, names: Renaming, strings: Renaming, texts: nat, live: seq<Tree>, ts: seq<Tree>) {
    && Wf(f) && IsValue(f.nodes, root) && live == BreadthOrder([ContentOf(f, root)]) && ts == RecodeAll(live, names, strings)
    && Laid(live) && Laid(ts) && NamesFit(ts) && Narrow(names) && Narrow(strings) && texts < |strings|
    && (forall x :: IsValue(f.nodes, x) ==> PayloadValid(f.nodes[x].payload, texts) && f.nodes[x].name < |names|)
  }

  /** The queue: value `k` of the order is the value in slot `values[k]`. */
  ghost predicate Queued(f: Shape, live: seq<Tree>, values: seq<Slot>, n: nat)
    requires Wf(f)
  {
    n <= |values| && n <= |live| && forall k :: 0 <= k < n ==> IsValue(f.nodes, values[k]) && ContentOf(f, values[k]) == live[k]
  }

  /** Records before `index` are complete, those before `next` are pending, the others blank. */
  ghost predicate Written(ts: seq<Tree>, records: seq<Record>, index: nat, next: nat)
    requires Laid(ts) && NamesFit(ts)
  {
    && |records| == |ts| && index <= next <= |ts|
    && (forall k :: 0 <= k < index ==> records[k] == Records(ts)[k])
    && (forall k :: index <= k < next ==> records[k] == Pending(ts, k))
    && (forall k :: next <= k < |ts| ==> records[k] == BLANK)
  }

  lemma {:induction false} SameStart(live: seq<Tree>, names: Renaming, strings: Renaming, i: nat)
    requires i <= |live|
    ensures Start(RecodeAll(live, names, strings), i) == Start(live, i)
  {
    if i > 0 { SameStart(live, names, strings, i - 1); }
  }

  lemma {:induction false} RecodedKids(t: Tree, names: Renaming, strings: Renaming)
    ensures |Recode(t, names, strings).kids| == |t.kids|
  {
  }

  lemma StartAfter(ts: seq<Tree>, i: nat)
    requires i < |ts|
    ensures Start(ts, i + 1) == Start(ts, i) + |ts[i].kids|
  {
  }

  /** The children of the value at `index` are what comes next in the order. */
  lemma ChildrenNext(f: Shape, root: Slot, names: Renaming, strings: Renaming, texts: nat, live: seq<Tree>, ts: seq<Tree>, values: seq<Slot>, index: nat)
    requires Planned(f, root, names, strings, texts, live, ts) && Queued(f, live, values, index + 1) && index < |live|
    ensures var ks := KidsOf(f.nodes, f.kids, values[index]);
      && |ts| == |live| && |ts[index].kids| == |ks| && index < Start(ts, index) && Start(ts, index + 1) == Start(ts, index) + |ks| <= |ts|
      && (forall j :: 0 <= j < |ks| ==> IsValue(f.nodes, ks[j]) && ContentOf(f, ks[j]) == live[Start(ts, index) + j])
  {
    hide Wf, Laid, BreadthOrder, NamesFit, Narrow, PayloadValid, Start, ContentOf, Recode;
    var v := values[index];
    assert IsValue(f.nodes, values[index]) && ContentOf(f, values[index]) == live[index];
    SameStart(live, names, strings, index);
    LaidKids(live, index);
    LaidKids(ts, index);
    ContentKids(f, v);
    RecodedKids(live[index], names, strings);
    StartAfter(ts, index);
  }

  /** Child `j` of the value at `index` is held by it, and is its first or last child as `j` says. */
  lemma ChildPlace(ts: seq<Tree>, index: nat, j: nat)
    requires Laid(ts) && index < |ts| && j < |ts[index].kids|
    ensures var k := Start(ts, index) + j;
      && 0 < k < |ts| && Holder(ts, k) == index && (k == Start(ts, index) <==> j == 0)
      && (k + 1 == Start(ts, index + 1) <==> j + 1 == |ts[index].kids|)
  {
    hide Laid;
    LaidKids(ts, index);
    StartAfter(ts, index);
    var k := Start(ts, index) + j;
    var h := Holder(ts, k);
    hide Start;
    OneHolder(ts, k, index, h);
  }

  lemma {:induction false} PendingChild(ts: seq<Tree>, index: nat, j: nat)
    requires Laid(ts) && index < |ts| < NONE && j < |ts[index].kids|
    ensures Start(ts, index) + j < |ts|
    ensures Pending(ts, Start(ts, index) + j) ==
      BLANK.(parent := index, flags := Join(if j == 0 then FIRST_SIBLING else 0, if j + 1 == |ts[index].kids| then LAST_SIBLING else 0))
  {
    hide Laid, Join, Start, Holder;
    ChildPlace(ts, index, j);
  }

  /** Puts the children of a value in the queue and starts their records. */
  method EnqueueChildren(nodes: Nodes, first: Slot, index: nat, childCount: nat, start: nat, values: array<Slot>, records: array<Record>,
                         ghost f: Shape, ghost live: seq<Tree>, ghost ts: seq<Tree>, ghost good: bool)
    returns (ok: bool)
    requires index < NONE && start + childCount <= values.Length == records.Length < NONE
    requires good ==> index < start && Wf(f) && f.nodes == nodes && Laid(ts) && NamesFit(ts) && |live| == |ts| == values.Length && Queued(f, live, values[..], start)
    requires good ==>
      var ks := KidsOf(f.nodes, f.kids, values[index]);
      && childCount == |ks| == |ts[index].kids| && Start(ts, index) == start && first == At(ks, 0)
      && (forall j :: 0 <= j < |ks| ==> IsValue(f.nodes, ks[j]) && ContentOf(f, ks[j]) == live[start + j])
      && Written(ts, records[..], index + 1, start)
    modifies values, records
    ensures good ==> ok && Queued(f, live, values[..], start + childCount) && Written(ts, records[..], index + 1, start + childCount)
  {
    hide Wf, Laid, Join, Records, Pending, Start, ContentOf, NamesFit, KidsOf;
    var child := first;
    ghost var ks := if good then KidsOf(f.nodes, f.kids, values[index]) else [];
    var ordinal := 0;
    while ordinal < childCount
      invariant ordinal <= childCount
      invariant good ==> child == At(ks, ordinal) && values[index] == old(values[index])
      invariant good ==> Queued(f, live, values[..], start + ordinal) && Written(ts, records[..], index + 1, start + ordinal)
    {
      if good {
        KidStep(f, old(values[index]), ordinal);
        PendingChild(ts, index, ordinal);
      }
      if !IsValue(nodes, child) { return false; }
      var next := start + ordinal;
      values[next] := child;
      records[next] := records[next].(parent := index);
      if ordinal == 0 { records[next] := records[next].(flags := Join(records[next].flags, FIRST_SIBLING)); }
      if ordinal + 1 == childCount { records[next] := records[next].(flags := Join(records[next].flags, LAST_SIBLING)); }
      PlaceJoined(ordinal == 0, ordinal + 1 == childCount);
      child := nodes[child].next;
      ordinal := ordinal + 1;
    }
    return true;
  }

  lemma PlaceJoined(first: bool, last: bool)
    ensures var some := if first then Join(0, FIRST_SIBLING) else 0;
      (if last then Join(some, LAST_SIBLING) else some) == Join(if first then FIRST_SIBLING else 0, if last then LAST_SIBLING else 0)
  {
  }

  lemma KidStep(f: Shape, v: Slot, j: nat)
    requires Wf(f) && IsValue(f.nodes, v) && j < |KidsOf(f.nodes, f.kids, v)|
    ensures var ks := KidsOf(f.nodes, f.kids, v); IsValue(f.nodes, ks[j]) && f.nodes[ks[j]].next == At(ks, j + 1)
  {
    KidFacts(f.nodes, f.kids, f.rank, f.bound, v, j);
  }

  /** The record of the value at `index` is complete, and its children come next. */
  lemma WrittenStep(ts: seq<Tree>, records: seq<Record>, index: nat, next: nat, records': seq<Record>)
    requires Laid(ts) && NamesFit(ts) && index < |ts| && index < next && Written(ts, records, index, next)
    requires |records'| == |records| && records'[index] == Records(ts)[index]
    requires forall k :: 0 <= k < |records| && k != index ==> records'[k] == records[k]
    ensures Written(ts, records', index + 1, next)
  {
    hide Laid, Records, Pending, NamesFit;
  }

  lemma Finished(ts: seq<Tree>, records: seq<Record>)
    requires Laid(ts) && NamesFit(ts) && Written(ts, records, |ts|, |ts|)
    ensures records == Records(ts)
  {
    hide Laid, Pending, NamesFit, RecordFor;
    var rs := Records(ts);
    forall k | 0 <= k < |ts| ensures records[k] == rs[k] {}
  }

  /** What a planned value brings: it is one, its payload can be emitted, its children are counted and found. */
  lemma PlannedValue(f: Shape, root: Slot, names: Renaming, strings: Renaming, texts: nat, live: seq<Tree>, ts: seq<Tree>, values: seq<Slot>, index: nat, r: Record)
    requires Planned(f, root, names, strings, texts, live, ts) && Queued(f, live, values, index + 1) && index < |live| == |ts|
    requires r.bits == 0
    ensures var v := values[index]; var t := ts[index];
      && IsValue(f.nodes, v) && t.name < NONE && EmitPayload(f.nodes[v], r, names, strings) == Emitted(Described(r, t.payload, t.name, t.named))
      && (IsContainer(f.nodes[v].payload.vtype) ==>
            && IsAggregate(f.nodes, f.nodes[v].owned) && f.nodes[f.nodes[v].owned].count == |t.kids|
            && f.nodes[f.nodes[v].owned].first == At(KidsOf(f.nodes, f.kids, v), 0))
      && (!IsContainer(f.nodes[v].payload.vtype) ==> t.kids == [])
  {
    ChildrenNext(f, root, names, strings, texts, live, ts, values, index);
    var v := values[index];
    assert IsValue(f.nodes, values[index]) && ContentOf(f, values[index]) == live[index];
    EmitsDescribed(f.nodes[v], r, names, strings, texts);
    ContentParts(f, v, names, strings);
    if IsContainer(f.nodes[v].payload.vtype) { LastFits(f.nodes, f.kids, f.rank, f.bound, v); }
    hide Wf, Laid, BreadthOrder, Described, BakedPayload, PayloadValid, EmitPayload, Narrow, Start, NewId;
  }

  lemma {:induction false} ContentParts(f: Shape, v: Slot, names: Renaming, strings: Renaming)
    requires Wf(f) && IsValue(f.nodes, v)
    ensures var t := Recode(ContentOf(f, v), names, strings);
      && t.payload == BakedPayload(f.nodes[v].payload, strings) && t.name == NewId(names, f.nodes[v].name) && t.named == f.nodes[v].named
  {
    hide Wf;
  }

  /** Fills the records in queue order, each value putting its children at the end of the queue. */
  method EmitValues(nodes: Nodes, root: Slot, count: nat, names: Renaming, strings: Renaming,
                    ghost f: Shape, ghost texts: nat, ghost live: seq<Tree>, ghost ts: seq<Tree>, ghost good: bool)
    returns (ok: bool, result: seq<Record>)
    requires 0 < count < NONE
    requires good ==> Planned(f, root, names, strings, texts, live, ts) && f.nodes == nodes && |ts| == count
    ensures good ==> ok && Laid(ts) && NamesFit(ts) && result == Records(ts)
  {
    hide Wf, Laid, NamesFit, Narrow, BreadthOrder, Records, Pending, Recode, ContentOf, PayloadValid, EmitPayload, Start, Described, Written, Queued, Planned;
    ok, result := false, [];
    var values := new Slot[count];
    var records := new Record[count](_ => BLANK);
    values[0] := root;
    records[0] := records[0].(parent := NONE);
    var nextValue := 1;
    if good { QueueStarts(f, root, names, strings, texts, live, ts, values[..], records[..]); }
    var index := 0;
    while index < count
      invariant 0 <= index <= count && 0 <= nextValue <= count
      invariant good ==> nextValue == Start(ts, index) && Queued(f, live, values[..], nextValue) && Written(ts, records[..], index, nextValue)
    {
      var v := values[index];
      ghost var before := records[..];
      records[index] := records[index].(first := NONE);
      if good {
        QueueAhead(f, live, ts, values[..], before, index);
        PlannedValue(f, root, names, strings, texts, live, ts, values[..], index, records[index]);
        ChildrenNext(f, root, names, strings, texts, live, ts, values[..], index);
        Completes(ts, index);
      }
      if !IsValue(nodes, v) { return; }
      var emitted := EmitPayload(nodes[v], records[index], names, strings);
      if emitted.Failed? { return; }
      records[index] := emitted.record;
      var childCount := if IsContainer(nodes[v].payload.vtype) && IsAggregate(nodes, nodes[v].owned) then nodes[nodes[v].owned].count else 0;
      if childCount == 0 {
        if good { WrittenStep(ts, before, index, nextValue, records[..]); }
        index := index + 1;
        continue;
      }
      if childCount > count - nextValue { return; }
      records[index] := records[index].(first := nextValue, count := childCount);
      if good { WrittenStep(ts, before, index, nextValue, records[..]); }
      ok := EnqueueChildren(nodes, nodes[nodes[v].owned].first, index, childCount, nextValue, values, records, f, live, ts, good);
      if !ok { return; }
      ok := false;
      nextValue := nextValue + childCount;
      index := index + 1;
    }
    ok := nextValue == count;
    result := records[..];
    if good { LaidEnds(ts); Finished(ts, result); }
  }

  lemma {:induction false} QueueStarts(f: Shape, root: Slot, names: Renaming, strings: Renaming, texts: nat, live: seq<Tree>, ts: seq<Tree>, values: seq<Slot>, records: seq<Record>)
    requires Planned(f, root, names, strings, texts, live, ts) && |values| == |records| == |ts| && values[0] == root
    requires records[0] == BLANK.(parent := NONE) && forall k :: 0 < k < |records| ==> records[k] == BLANK
    ensures Start(ts, 0) == 1 && Queued(f, live, values, 1) && Written(ts, records, 0, 1) && NamesFit(ts) && Laid(ts) && Wf(f) && |live| == |ts|
  {
    OrderLaid(ContentOf(f, root));
  }

  lemma {:induction false} QueueAhead(f: Shape, live: seq<Tree>, ts: seq<Tree>, values: seq<Slot>, records: seq<Record>, index: nat)
    requires Wf(f) && Laid(ts) && NamesFit(ts) && index < |ts| && Queued(f, live, values, Start(ts, index))
    requires Written(ts, records, index, Start(ts, index))
    ensures index < Start(ts, index) && Queued(f, live, values, index + 1)
    ensures |ts| < NONE && |records| == |ts| && records[index] == Pending(ts, index)
  {
    LaidKids(ts, index);
    hide Laid, Wf, Pending;
  }
}
