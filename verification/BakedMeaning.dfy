/**
 What baking keeps: the tree of the root, with empty values read as null, and
 the texts behind its names and strings.
 */
module BakedMeaning {
  import opened LiveNode
  import opened Forest
  import opened Traversal
  import opened Content
  import opened DocumentState
  import opened BreadthFirst
  import opened BakedRecords
  import opened StringTables
  import opened Analysis
  import opened Baking

  /** A tree as its reader sees it: texts instead of identifiers. */
  datatype Document = Document(vtype: ValueType, bits: Bits, suppress: bool, meta: Metadata, text: Bytes, name: Bytes, named: bool, kids: seq<Document>)

  function Meaning(t: Tree, names: seq<Bytes>, strings: seq<Bytes>): Document
    decreases t, 1
  {
    var p := t.payload;
    Document(p.vtype, if p.vtype.Text? then 0 else p.bits, p.suppress, p.meta, if p.vtype.Text? then TextAt(strings, p.bits) else [],
             TextAt(names, t.name), t.named, Meanings(t.kids, names, strings))
  }

  function Meanings(ts: seq<Tree>, names: seq<Bytes>, strings: seq<Bytes>): (ds: seq<Document>)
    ensures |ds| == |ts| && forall i :: 0 <= i < |ts| ==> ds[i] == Meaning(ts[i], names, strings)
    decreases ts, 0
  {
    seq(|ts|, i requires 0 <= i < |ts| => Meaning(ts[i], names, strings))
  }

  /** Empty values become null; nothing else changes. */
  function Nulled(d: Document): Document {
    d.(vtype := if d.vtype.EmptyValue? then NullValue else d.vtype, kids := seq(|d.kids|, i requires 0 <= i < |d.kids| => Nulled(d.kids[i])))
  }

  /** A renumbering that reads the same: every identifier the tree uses still stands for its text. */
  ghost predicate Reads(map_: Renaming, table: seq<Bytes>, table': seq<Bytes>, used: set<nat>) {
    forall id :: id in used ==> NewId(map_, id) < 0x1_0000_0000 && TextAt(table', NewId(map_, id)) == TextAt(table, id)
  }

  ghost predicate Uses(t: Tree, names: set<nat>, strings: set<nat>) {
    && t.name in names && (t.payload.vtype.Text? ==> t.payload.bits in strings)
    && (t.payload.vtype.EmptyValue? ==> t.payload == EMPTY_PAYLOAD)
    && forall i :: 0 <= i < |t.kids| ==> Uses(t.kids[i], names, strings)
  }

  /** Renumbering names and strings does not change what a tree means. */
  lemma {:induction false} RecodedMeaning(t: Tree, nameMap: Renaming, stringMap: Renaming, names: seq<Bytes>, strings: seq<Bytes>,
                                          names': seq<Bytes>, strings': seq<Bytes>, usedNames: set<nat>, usedStrings: set<nat>)
    requires Uses(t, usedNames, usedStrings) && Reads(nameMap, names, names', usedNames) && Reads(stringMap, strings, strings', usedStrings)
    ensures Meaning(Recode(t, nameMap, stringMap), names', strings') == Nulled(Meaning(t, names, strings))
    decreases t
  {
    var t' := Recode(t, nameMap, stringMap);
    forall i | 0 <= i < |t.kids| ensures Meaning(t'.kids[i], names', strings') == Nulled(Meaning(t.kids[i], names, strings)) {
      RecodedMeaning(t.kids[i], nameMap, stringMap, names, strings, names', strings', usedNames, usedStrings);
    }
    assert Meaning(t', names', strings').kids == Nulled(Meaning(t, names, strings)).kids;
  }

  // ---------------------------------------------------------------------
  // The recoded tree of a live root can be baked

  lemma RankedApart(ids: seq<nat>, table: seq<Bytes>, i: nat, j: nat)
    requires InRank(ids, table) && i < j < |ids|
    ensures ids[i] != ids[j]
  {
    LessIrreflexive(TextAt(table, ids[i]));
    assert Precedes(table, ids[i], ids[j]);
  }

  /** `id` is the text at place `map_[id]` of the new table; zero stays. */
  predicate Numbered(map_: Renaming, ids: seq<nat>, id: nat) {
    id < |map_| && (if id == 0 then map_[0] == 0 else 1 <= map_[id] <= |ids| && ids[map_[id] - 1] == id)
  }

  ghost predicate AllUsed(ids: seq<nat>, used: set<nat>) {
    forall i :: 0 <= i < |ids| ==> ids[i] in used
  }

  /** A renumbering of the identifiers in use: they go to 1..n, each its own. */
  ghost predicate Numbers(map_: Renaming, table: seq<Bytes>, used: set<nat>, ids: seq<nat>) {
    && InRank(ids, table) && |map_| == |table| + 1 && AllUsed(ids, used)
    && (forall id {:trigger Numbered(map_, ids, id)} :: id in used ==> Numbered(map_, ids, id))
  }

  lemma {:induction false} NumbersFrom(counts: seq<nat>, used: set<nat>, total: nat, order: seq<nat>, table: seq<Bytes>, map_: Renaming)
    requires Counted(counts, used, total) && RankOrder(order, table) && |counts| == |table| + 1
    requires InRank(Kept(order, counts), table) && Renumbers(map_, counts, Kept(order, counts))
    ensures Numbers(map_, table, used, Kept(order, counts)) && |Kept(order, counts)| == total
  {
    var ids := Kept(order, counts);
    forall id | id in used ensures Numbered(map_, ids, id) && (id != 0 ==> id in ids) { assert id < |counts| && counts[id] != 0; }
    KeptUsed(counts, used, total, order, table);
    hide Renumbers, Counted, Kept, RankOrder, AllUsed;
    SizeOfIds(ids, table, used - {0});
    Widen(ids, used);
  }

  lemma Widen(ids: seq<nat>, used: set<nat>)
    requires AllUsed(ids, used - {0})
    ensures AllUsed(ids, used)
  {
  }

  lemma {:induction false} KeptUsed(counts: seq<nat>, used: set<nat>, total: nat, order: seq<nat>, table: seq<Bytes>)
    requires Counted(counts, used, total) && RankOrder(order, table) && |counts| == |table| + 1 && InRank(Kept(order, counts), table)
    ensures AllUsed(Kept(order, counts), used - {0})
  {
    var ids := Kept(order, counts);
    forall i | 0 <= i < |ids| ensures ids[i] in used - {0} { KeptMembers(order, counts, ids[i]); }
  }

  lemma SizeOfIds(ids: seq<nat>, table: seq<Bytes>, used: set<nat>)
    requires InRank(ids, table) && AllUsed(ids, used) && forall id :: id in used ==> id in ids
    ensures |ids| == |used|
  {
    forall i, j | 0 <= i < j < |ids| ensures ids[i] != ids[j] { RankedApart(ids, table, i, j); }
    DistinctSize(ids, used);
    SeqSize(ids, used);
  }

  lemma {:induction false} SeqSize(ids: seq<nat>, used: set<nat>)
    requires forall id :: id in used ==> id in ids
    ensures |used| <= |ids|
  {
    if ids == [] {
      assert used == {};
    } else {
      SeqSize(ids[1..], used - {ids[0]});
    }
  }

  /** Different identifiers in use get different numbers. */
  lemma NumbersApart(map_: Renaming, table: seq<Bytes>, used: set<nat>, ids: seq<nat>, a: nat, b: nat)
    requires Numbers(map_, table, used, ids) && a in used && b in used && a != b
    ensures NewId(map_, a) != NewId(map_, b)
  {
    assert Numbered(map_, ids, a) && Numbered(map_, ids, b);
    hide InRank, AllUsed;
  }

  lemma NumbersOnto(map_: Renaming, table: seq<Bytes>, used: set<nat>, ids: seq<nat>, n: nat) returns (id: nat)
    requires Numbers(map_, table, used, ids) && 0 < n <= |ids|
    ensures id in used && id != 0 && NewId(map_, id) == n
  {
    id := ids[n - 1];
    assert id in used && 1 <= id;
    assert Numbered(map_, ids, id);
    var m := map_[id] - 1;
    if n - 1 < m { RankedApart(ids, table, n - 1, m); }
    if m < n - 1 { RankedApart(ids, table, m, n - 1); }
  }

  /** The texts of the kept identifiers are what their numbers stand for. */
  lemma NumbersRead(map_: Renaming, table: seq<Bytes>, used: set<nat>, ids: seq<nat>)
    requires Numbers(map_, table, used, ids) && |ids| < NONE
    ensures (forall i :: 0 <= i < |ids| ==> 1 <= ids[i] <= |table|) && Reads(map_, table, TextsFor(ids, table), used)
  {
    hide AllUsed, Precedes;
    forall id | id in used ensures NewId(map_, id) < 0x1_0000_0000 && TextAt(TextsFor(ids, table), NewId(map_, id)) == TextAt(table, id) {
      assert Numbered(map_, ids, id);
    }
  }

  // ---------------------------------------------------------------------
  // The root's tree, recoded

  /** The two renumberings of a baking, over the names and strings below `root`. */
  datatype Recoding = Recoding(nameMap: Renaming, nameIds: seq<nat>, stringMap: Renaming, stringIds: seq<nat>)

  ghost predicate Recodes(f: Shape, root: Slot, names: seq<Bytes>, strings: seq<Bytes>, r: Recoding) {
    && Wf(f) && IsValue(f.nodes, root)
    && Numbers(r.nameMap, names, NamesOf(f.nodes, Walk(f, Pre, root)), r.nameIds) && |r.nameIds| + 1 < NONE
    && Numbers(r.stringMap, strings, StringsOf(f.nodes, Walk(f, Pre, root)), r.stringIds) && |r.stringIds| + 1 < NONE
  }

  /** The root as baking finds it: an unnamed container in a well-formed document. */
  ghost predicate BakeableRoot(f: Shape, root: Slot, names: seq<Bytes>, strings: seq<Bytes>) {
    && Wf(f) && IsValue(f.nodes, root) && IsContainer(f.nodes[root].payload.vtype) && !f.nodes[root].named
    && PayloadsValid(f.nodes, |names|, |strings|)
  }

  ghost function Recoded(f: Shape, root: Slot, r: Recoding): Tree
    requires Wf(f) && IsValue(f.nodes, root)
  {
    Recode(ContentOf(f, root), r.nameMap, r.stringMap)
  }

  lemma {:induction false} WalkUses(f: Shape, root: Slot, x: Slot)
    requires Wf(f) && IsValue(f.nodes, root) && IsValue(f.nodes, x) && Under(f.nodes, x, root)
    ensures f.nodes[x].name in NamesOf(f.nodes, Walk(f, Pre, root))
    ensures f.nodes[x].payload.vtype.Text? ==> f.nodes[x].payload.bits in StringsOf(f.nodes, Walk(f, Pre, root))
  {
    WalkMembers(f, Pre, root, x);
    var w := Walk(f, Pre, root);
    var i :| 0 <= i < |w| && w[i] == x;
  }

  lemma PayloadRecoded(f: Shape, root: Slot, names: seq<Bytes>, strings: seq<Bytes>, r: Recoding, x: Slot)
    requires BakeableRoot(f, root, names, strings) && Recodes(f, root, names, strings, r) && IsValue(f.nodes, x) && Under(f.nodes, x, root)
    ensures PayloadValid(BakedPayload(f.nodes[x].payload, r.stringMap), |r.stringIds|)
    ensures NameValid(NewId(r.nameMap, f.nodes[x].name), f.nodes[x].named, |r.nameIds|)
    ensures !BakedPayload(f.nodes[x].payload, r.stringMap).vtype.EmptyValue?
    ensures IsContainer(BakedPayload(f.nodes[x].payload, r.stringMap).vtype) == IsContainer(f.nodes[x].payload.vtype)
    ensures BakedPayload(f.nodes[x].payload, r.stringMap).vtype.Object? == f.nodes[x].payload.vtype.Object?
  {
    var n := f.nodes[x];
    ValueDomain(f.nodes, |names|, |strings|, x);
    WalkUses(f, root, x);
    assert Numbered(r.nameMap, r.nameIds, n.name);
    assert n.payload.vtype.Text? ==> Numbered(r.stringMap, r.stringIds, n.payload.bits);
    hide Wf, Walk, NamesOf, StringsOf, Under, InRank, AllUsed, IntegerValid, FiniteBits, PayloadsValid;
  }

  lemma {:induction false} MembersRecoded(f: Shape, root: Slot, names: seq<Bytes>, strings: seq<Bytes>, r: Recoding, x: Slot)
    requires BakeableRoot(f, root, names, strings) && Recodes(f, root, names, strings, r) && IsValue(f.nodes, x) && Under(f.nodes, x, root)
    requires f.nodes[x].payload.vtype.Object?
    ensures var t := Recode(ContentOf(f, x), r.nameMap, r.stringMap);
      && (forall i :: 0 <= i < |t.kids| ==> t.kids[i].named)
      && (forall i, j :: 0 <= i < j < |t.kids| ==> t.kids[i].name != t.kids[j].name)
  {
    var ks := KidsOf(f.nodes, f.kids, x);
    var t := Recode(ContentOf(f, x), r.nameMap, r.stringMap);
    ContentKids(f, x);
    assert Paired(f.nodes, x) && Members(f.nodes, f.kids, f.nodes[x].owned);
    hide Wf, PayloadsValid, Numbers;
    forall i | 0 <= i < |ks|
      ensures t.kids[i].named == NamedAt(f.nodes, ks[i]) && t.kids[i].name == NewId(r.nameMap, f.nodes[ks[i]].name)
      ensures IsValue(f.nodes, ks[i]) && f.nodes[ks[i]].name in NamesOf(f.nodes, Walk(f, Pre, root)) {
      NotTop(f, x, root, i);
      WalkUses(f, root, ks[i]);
      ContentParts(f, ks[i], r.nameMap, r.stringMap);
    }
    forall i, j | 0 <= i < j < |t.kids| ensures t.kids[i].name != t.kids[j].name {
      assert NameAt(f.nodes, ks[i]) != NameAt(f.nodes, ks[j]);
      NumbersApart(r.nameMap, names, NamesOf(f.nodes, Walk(f, Pre, root)), r.nameIds, f.nodes[ks[i]].name, f.nodes[ks[j]].name);
    }
  }

  lemma {:induction false} ValueRecoded(f: Shape, root: Slot, names: seq<Bytes>, strings: seq<Bytes>, r: Recoding, x: Slot)
    requires BakeableRoot(f, root, names, strings) && Recodes(f, root, names, strings, r) && IsValue(f.nodes, x) && Under(f.nodes, x, root)
    ensures ValueFit(Recode(ContentOf(f, x), r.nameMap, r.stringMap), |r.nameIds|, |r.stringIds|)
  {
    PayloadRecoded(f, root, names, strings, r, x);
    ContentParts(f, x, r.nameMap, r.stringMap);
    ContentKids(f, x);
    if f.nodes[x].payload.vtype.Object? { MembersRecoded(f, root, names, strings, r, x); }
    hide Wf, PayloadsValid, Numbers, Recodes, BakeableRoot, Under, PayloadValid, NameValid, BakedPayload;
  }

  lemma {:induction false} OrderOfRecoded(f: Shape, root: Slot, r: Recoding)
    requires Wf(f) && IsValue(f.nodes, root)
    ensures BreadthOrder([Recoded(f, root, r)]) == RecodeAll(BreadthOrder([ContentOf(f, root)]), r.nameMap, r.stringMap)
    ensures |BreadthOrder([Recoded(f, root, r)])| == |Walk(f, Pre, root)|
  {
    var t := ContentOf(f, root);
    OrderRecoded([t], r.nameMap, r.stringMap);
    assert RecodeAll([t], r.nameMap, r.stringMap) == [Recoded(f, root, r)];
    WalkSize(f, root);
    OrderSize([t]);
    assert SizeAll([t]) == Size(t) + SizeAll([]);
  }

  /** Every name and every string of the new tables is used. */
  lemma AllNamesRecoded(f: Shape, root: Slot, names: seq<Bytes>, strings: seq<Bytes>, r: Recoding)
    requires BakeableRoot(f, root, names, strings) && Recodes(f, root, names, strings, r)
    ensures var ts := BreadthOrder([Recoded(f, root, r)]);
      (forall n :: 0 < n <= |r.nameIds| ==> HasName(ts, n)) && (forall n :: 0 < n <= |r.stringIds| ==> HasString(ts, n))
  {
    var ts := BreadthOrder([Recoded(f, root, r)]);
    hide BreadthOrder, Wf, Numbers, PayloadsValid, Under;
    OrderOfRecoded(f, root, r);
    forall n | 0 < n <= |r.nameIds| ensures HasName(ts, n) {
      var id := NumbersOnto(r.nameMap, names, NamesOf(f.nodes, Walk(f, Pre, root)), r.nameIds, n);
      var x, i := UserOf(f, root, r, id, false);
      assert ts[i].name == n;
    }
    forall n | 0 < n <= |r.stringIds| ensures HasString(ts, n) {
      var id := NumbersOnto(r.stringMap, strings, StringsOf(f.nodes, Walk(f, Pre, root)), r.stringIds, n);
      var x, i := UserOf(f, root, r, id, true);
      assert ts[i].payload.vtype.Text? && ts[i].payload.bits == n;
    }
  }

  /** A value that uses an identifier, and its place in the order. */
  lemma UserOf(f: Shape, root: Slot, r: Recoding, id: nat, string_: bool) returns (x: Slot, i: nat)
    requires Wf(f) && IsValue(f.nodes, root)
    requires id in (if string_ then StringsOf(f.nodes, Walk(f, Pre, root)) else NamesOf(f.nodes, Walk(f, Pre, root)))
    requires string_ ==> NewId(r.stringMap, id) < NONE
    ensures var ts := BreadthOrder([Recoded(f, root, r)]);
      && i < |ts|
      && (!string_ ==> ts[i].name == NewId(r.nameMap, id))
      && (string_ ==> ts[i].payload.vtype.Text? && ts[i].payload.bits == NewId(r.stringMap, id))
  {
    hide Recoded;
    var w := Walk(f, Pre, root);
    var k :| 0 <= k < |w| && IsValue(f.nodes, w[k])
      && if string_ then f.nodes[w[k]].payload.vtype.Text? && f.nodes[w[k]].payload.bits == id else f.nodes[w[k]].name == id;
    x := w[k];
    WalkMembers(f, Pre, root, x);
    hide BreadthOrder, Wf, Walk, Under;
    i := ValueOrdered(f, root, x);
    OrderOfRecoded(f, root, r);
    ContentParts(f, x, r.nameMap, r.stringMap);
  }

  /** What baking a well-formed root is to produce can be baked. */
  lemma {:induction false} RootBakeable(f: Shape, root: Slot, names: seq<Bytes>, strings: seq<Bytes>, r: Recoding)
    requires BakeableRoot(f, root, names, strings) && Recodes(f, root, names, strings, r) && |Walk(f, Pre, root)| < NONE
    ensures Bakeable(Recoded(f, root, r), |r.nameIds|, |r.stringIds|)
  {
    var t, ts := Recoded(f, root, r), BreadthOrder([Recoded(f, root, r)]);
    hide BreadthOrder, Wf, PayloadsValid, ValueFit, HasName, HasString, Numbers, Recoded;
    OrderOfRecoded(f, root, r);
    AllNamesRecoded(f, root, names, strings, r);
    forall i | 0 <= i < |ts| ensures ValueFit(ts[i], |r.nameIds|, |r.stringIds|) {
      var x := OrderedValue(f, root, i);
      ValueRecoded(f, root, names, strings, r, x);
    }
    RecodedRoot(f, root, names, strings, r);
  }

  lemma RecodedRoot(f: Shape, root: Slot, names: seq<Bytes>, strings: seq<Bytes>, r: Recoding)
    requires BakeableRoot(f, root, names, strings) && Recodes(f, root, names, strings, r)
    ensures RootFit(Recoded(f, root, r))
  {
    UnderStep(f.nodes, root, root);
    PayloadRecoded(f, root, names, strings, r, root);
    ContentParts(f, root, r.nameMap, r.stringMap);
    hide Wf, PayloadsValid, Numbers;
  }

  lemma {:induction false} RootPlanned(f: Shape, root: Slot, names: seq<Bytes>, strings: seq<Bytes>, r: Recoding)
    requires BakeableRoot(f, root, names, strings) && Recodes(f, root, names, strings, r) && |Walk(f, Pre, root)| < NONE
    requires Narrow(r.nameMap) && Narrow(r.stringMap)
    ensures Bakeable(Recoded(f, root, r), |r.nameIds|, |r.stringIds|)
    ensures var live, ts := BreadthOrder([ContentOf(f, root)]), BreadthOrder([Recoded(f, root, r)]);
      Planned(f, root, r.nameMap, r.stringMap, |strings|, live, ts) && |ts| == |Walk(f, Pre, root)| && NamesFit(ts) && Laid(ts)
  {
    RootBakeable(f, root, names, strings, r);
    hide BreadthOrder, ValueFit, HasName, HasString, Wf, ContentOf, Laid, NamesFit, Narrow, InRank, AllUsed;
    OrderOfRecoded(f, root, r);
    OrderLaid(ContentOf(f, root));
    hide Bakeable, Recoded;
    BakeableFits(Recoded(f, root, r), |r.nameIds|, |r.stringIds|);
    forall x | IsValue(f.nodes, x) ensures PayloadValid(f.nodes[x].payload, |strings|) && f.nodes[x].name < |r.nameMap| {
      ValueDomain(f.nodes, |names|, |strings|, x);
    }
  }

  lemma {:induction false} ContentUses(f: Shape, root: Slot, strings: nat, names: nat, x: Slot)
    requires Wf(f) && IsValue(f.nodes, root) && IsValue(f.nodes, x) && Under(f.nodes, x, root) && PayloadsValid(f.nodes, names, strings)
    ensures Uses(ContentOf(f, x), NamesOf(f.nodes, Walk(f, Pre, root)), StringsOf(f.nodes, Walk(f, Pre, root)))
    decreases f.bound - f.rank[x]
  {
    var ks := KidsOf(f.nodes, f.kids, x);
    WalkUses(f, root, x);
    ValueDomain(f.nodes, names, strings, x);
    ContentKids(f, x);
    KidsBelow(f, x);
    forall j | 0 <= j < |ks| ensures Uses(ContentOf(f, ks[j]), NamesOf(f.nodes, Walk(f, Pre, root)), StringsOf(f.nodes, Walk(f, Pre, root))) {
      NotTop(f, x, root, j);
      ContentUses(f, root, strings, names, ks[j]);
    }
    hide Wf, PayloadsValid, NamesOf, StringsOf, Walk, Under;
  }

  /** Baking keeps what the tree means, but for empty values, which become null. */
  lemma {:induction false} RootMeaning(f: Shape, root: Slot, names: seq<Bytes>, strings: seq<Bytes>, r: Recoding)
    requires BakeableRoot(f, root, names, strings) && Recodes(f, root, names, strings, r)
    ensures (forall i :: 0 <= i < |r.nameIds| ==> 1 <= r.nameIds[i] <= |names|) && (forall i :: 0 <= i < |r.stringIds| ==> 1 <= r.stringIds[i] <= |strings|)
    ensures Meaning(Recoded(f, root, r), TextsFor(r.nameIds, names), TextsFor(r.stringIds, strings)) == Nulled(Meaning(ContentOf(f, root), names, strings))
  {
    UnderStep(f.nodes, root, root);
    ContentUses(f, root, |strings|, |names|, root);
    var usedNames, usedStrings := NamesOf(f.nodes, Walk(f, Pre, root)), StringsOf(f.nodes, Walk(f, Pre, root));
    NumbersRead(r.nameMap, names, usedNames, r.nameIds);
    NumbersRead(r.stringMap, strings, usedStrings, r.stringIds);
    hide Wf, PayloadsValid, Numbers, Reads, Uses;
    RecodedMeaning(ContentOf(f, root), r.nameMap, r.stringMap, names, strings, TextsFor(r.nameIds, names), TextsFor(r.stringIds, strings), usedNames, usedStrings);
  }
}
