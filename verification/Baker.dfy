/**
 Baking a live document into a block (core/data_model/document_baking.cpp,
 CBakedDocumentBaker): measure, lay out, write the string tables, write the
 records, and validate the result.
 */
module Baker {
  import opened LiveNode
  import opened Forest
  import opened Traversal
  import opened Content
  import opened DocumentState
  import opened BreadthFirst
  import opened BakedRecords
  import opened BakedValidation
  import opened BakedBlocks
  import opened StringTables
  import opened Analysis
  import opened Baking
  import opened BakedMeaning

  /** The identifiers in `used`, in rank order. */
  ghost function KeptOf(order: seq<nat>, used: set<nat>): seq<nat> {
    if order == [] then []
    else KeptOf(order[..|order| - 1], used) + (if order[|order| - 1] in used then [order[|order| - 1]] else [])
  }

  lemma {:induction false} KeptSame(order: seq<nat>, counts: seq<nat>, used: set<nat>)
    requires forall i :: 0 <= i < |order| ==> order[i] < |counts|
    requires forall id :: 0 <= id < |counts| ==> (counts[id] != 0 <==> id in used)
    ensures Kept(order, counts) == KeptOf(order, used)
  {
    if order != [] { KeptSame(order[..|order| - 1], counts, used); }
  }

  /** The bytes a table needs for the strings that are referenced (measure_strings). */
  method MeasureStrings(order: seq<nat>, table: seq<Bytes>, counts: seq<nat>) returns (ok: bool, size: nat)
    requires RankOrder(order, table) && |counts| == |table| + 1 && forall i :: 0 <= i < |table| ==> table[i] != []
    ensures InRank(Kept(order, counts), table)
    ensures var need := |BytesOf(TextsFor(Kept(order, counts), table))|; (ok <==> need <= CEILING) && (ok ==> size == need)
  {
    hide Less, Precedes;
    KeptAscending(order, table, counts);
    hide InRank;
    size := 1;
    MeasuresNothing(order, table, counts);
    for rank := 0 to |order|
      invariant Measured(order, table, counts, rank, size) && size <= CEILING
    {
      var id := order[rank];
      MeasureStep(order, table, counts, rank, size);
      if counts[id] == 0 { continue; }
      if |table[id - 1]| == 0 { return false, size; }
      size := size + |table[id - 1]| + 1;
      if size > CEILING {
        MeasureRest(order, table, counts, rank + 1, size);
        return false, size;
      }
    }
    MeasureRest(order, table, counts, |order|, size);
    return true, size;
  }

  /** The bytes for the first `rank` identifiers in rank order. */
  ghost predicate Measured(order: seq<nat>, table: seq<Bytes>, counts: seq<nat>, rank: nat, size: nat)
    requires RankOrder(order, table) && |counts| == |table| + 1
  {
    rank <= |order| && InRank(Kept(order[..rank], counts), table) && size == |BytesOf(TextsFor(Kept(order[..rank], counts), table))|
  }

  lemma MeasuresNothing(order: seq<nat>, table: seq<Bytes>, counts: seq<nat>)
    requires RankOrder(order, table) && |counts| == |table| + 1
    ensures Measured(order, table, counts, 0, 1)
  {
    assert order[..0] == [] && TextsFor([], table) == [];
  }

  lemma {:induction false} RankPrefix(order: seq<nat>, table: seq<Bytes>, counts: seq<nat>, rank: nat)
    requires RankOrder(order, table) && |counts| == |table| + 1 && rank <= |order|
    ensures InRank(Kept(order[..rank], counts), table)
  {
    OrderRanked(order, table);
    hide Less, Precedes;
    assert InRank(order[..rank], table);
    KeptRanked(order[..rank], table, counts);
  }

  lemma OneMoreText(ids: seq<nat>, table: seq<Bytes>, id: nat)
    requires InRank(ids, table) && InRank(ids + [id], table)
    ensures 1 <= id <= |table| && |BytesOf(TextsFor(ids + [id], table))| == |BytesOf(TextsFor(ids, table))| + |table[id - 1]| + 1
  {
    assert (ids + [id])[|ids|] == id;
    hide Less, Precedes;
    var more := TextsFor(ids + [id], table);
    assert more[..|more| - 1] == TextsFor(ids, table);
  }

  lemma MeasureStep(order: seq<nat>, table: seq<Bytes>, counts: seq<nat>, rank: nat, size: nat)
    requires RankOrder(order, table) && |counts| == |table| + 1 && rank < |order| && Measured(order, table, counts, rank, size)
    ensures var id := order[rank]; 1 <= id <= |table| && Measured(order, table, counts, rank + 1, if counts[id] == 0 then size else size + |table[id - 1]| + 1)
  {
    RankPrefix(order, table, counts, rank + 1);
    assert order[..rank + 1][..rank] == order[..rank];
    assert 1 <= order[rank] <= |table|;
    hide RankOrder, InRank, BytesOf, TextsFor, Less, Precedes;
    var ids, id := Kept(order[..rank], counts), order[rank];
    assert Kept(order[..rank + 1], counts) == ids + (if counts[id] != 0 then [id] else []);
    hide Kept;
    if counts[id] != 0 { OneMoreText(ids, table, id); } else { assert ids + [] == ids; }
  }

  lemma {:induction false} MeasureRest(order: seq<nat>, table: seq<Bytes>, counts: seq<nat>, rank: nat, size: nat)
    requires RankOrder(order, table) && |counts| == |table| + 1 && rank <= |order| && Measured(order, table, counts, rank, size)
    ensures InRank(Kept(order, counts), table)
    ensures var need := |BytesOf(TextsFor(Kept(order, counts), table))|; size <= need && (rank == |order| ==> size == need)
    decreases |order| - rank
  {
    if rank < |order| {
      MeasureStep(order, table, counts, rank, size);
      var id := order[rank];
      MeasureRest(order, table, counts, rank + 1, if counts[id] == 0 then size else size + |table[id - 1]| + 1);
    } else {
      assert order[..rank] == order;
    }
  }

  method PlaceSection(offset: nat, count: nat, stride: nat) returns (ok: bool, at: nat, end: nat)
    ensures ok <==> offset <= CEILING && offset + count * stride <= CEILING
    ensures at == offset && end == offset + count * stride
  {
    at, end := offset, offset + count * stride;
    ok := offset <= CEILING && end <= CEILING;
  }

  /** Places the sections end to end. */
  method DeriveLayout(values: nat, names: nat, nameSize: nat, strings: nat, stringSize: nat) returns (ok: bool, h: Header)
    ensures ok <==> values != 0 && HeaderFor(values, names, nameSize, strings, stringSize).totalSize <= CEILING
    ensures ok ==> h == HeaderFor(values, names, nameSize, strings, stringSize)
  {
    h := HeaderFor(0, 0, 0, 0, 0);
    if values == 0 { return false, h; }
    var valuesAt, namesAt, stringsAt, nameBytesAt, stringBytesAt, offset;
    ok, valuesAt, offset := PlaceSection(HEADER_SIZE, values, RECORD_SIZE);
    if !ok { return; }
    ok, namesAt, offset := PlaceSection(offset, names, REFERENCE_SIZE);
    if !ok { return; }
    ok, stringsAt, offset := PlaceSection(offset, strings, REFERENCE_SIZE);
    if !ok { return; }
    ok, nameBytesAt, offset := PlaceSection(offset, nameSize, 1);
    if !ok { return; }
    ok, stringBytesAt, offset := PlaceSection(offset, stringSize, 1);
    if !ok { return; }
    h := Header(MAGIC, VERSION, HEADER_SIZE, offset, values, names, nameSize, strings, stringSize,
                valuesAt, namesAt, stringsAt, nameBytesAt, stringBytesAt, 0);
  }

  /** A document ready to be baked: well formed, its strings sorted by rank and admitted as text. */
  ghost predicate Ready(f: Shape, root: Slot, names: seq<Bytes>, strings: seq<Bytes>, nameOrder: seq<nat>, stringOrder: seq<nat>,
                        admitted: Bytes -> bool, breaks: LineBreaks) {
    && BakeableRoot(f, root, names, strings) && root >= 0 && TablesValid(breaks, names, strings)
    && RankOrder(nameOrder, names) && RankOrder(stringOrder, strings)
    && (forall i :: 0 <= i < |names| ==> admitted(names[i])) && (forall i :: 0 <= i < |strings| ==> admitted(strings[i]))
  }

  /** The sections of the block for the tree of `root`. */
  ghost function SizeNeeded(f: Shape, root: Slot, names: seq<Bytes>, strings: seq<Bytes>, nameIds: seq<nat>, stringIds: seq<nat>): nat
    requires Wf(f) && IsValue(f.nodes, root) && InRank(nameIds, names) && InRank(stringIds, strings)
  {
    HeaderFor(|Walk(f, Pre, root)|, |nameIds| + 1, |BytesOf(TextsFor(nameIds, names))|, |stringIds| + 1, |BytesOf(TextsFor(stringIds, strings))|).totalSize
  }

  /** The size of the block for the tree of `root`, from the uses in that tree alone. */
  ghost function BakedSize(f: Shape, root: Slot, names: seq<Bytes>, strings: seq<Bytes>, nameOrder: seq<nat>, stringOrder: seq<nat>): nat
    requires Wf(f) && IsValue(f.nodes, root)
  {
    var nameIds, stringIds := KeptOf(nameOrder, NamesOf(f.nodes, Walk(f, Pre, root))), KeptOf(stringOrder, StringsOf(f.nodes, Walk(f, Pre, root)));
    if InRank(nameIds, names) && InRank(stringIds, strings) then SizeNeeded(f, root, names, strings, nameIds, stringIds) else 0
  }

  lemma SizeKept(f: Shape, root: Slot, names: seq<Bytes>, strings: seq<Bytes>, nameOrder: seq<nat>, stringOrder: seq<nat>, nameIds: seq<nat>, stringIds: seq<nat>)
    requires Wf(f) && IsValue(f.nodes, root) && InRank(nameIds, names) && InRank(stringIds, strings)
    requires nameIds == KeptOf(nameOrder, NamesOf(f.nodes, Walk(f, Pre, root))) && stringIds == KeptOf(stringOrder, StringsOf(f.nodes, Walk(f, Pre, root)))
    ensures BakedSize(f, root, names, strings, nameOrder, stringOrder) == SizeNeeded(f, root, names, strings, nameIds, stringIds)
  {
  }

  lemma {:induction false} RankBelow(order: seq<nat>, table: seq<Bytes>, counts: seq<nat>, used: set<nat>, total: nat)
    requires RankOrder(order, table) && |counts| == |table| + 1 && Counted(counts, used, total)
    ensures forall i :: 0 <= i < |order| ==> order[i] < |counts|
    ensures Kept(order, counts) == KeptOf(order, used)
  {
    KeptSame(order, counts, used);
  }

  /** The bytes of one domain's table, in terms of what is used. */
  method MeasureDomain(order: seq<nat>, table: seq<Bytes>, counts: seq<nat>, ghost used: set<nat>, ghost total: nat) returns (ok: bool, size: nat)
    requires RankOrder(order, table) && |counts| == |table| + 1 && Counted(counts, used, total) && forall i :: 0 <= i < |table| ==> table[i] != []
    ensures InRank(KeptOf(order, used), table)
    ensures var need := |BytesOf(TextsFor(KeptOf(order, used), table))|; (ok <==> need <= CEILING) && (ok ==> size == need)
  {
    RankBelow(order, table, counts, used, total);
    ok, size := MeasureStrings(order, table, counts);
  }

  /** Turns the identifiers of one domain into those of its table, and writes the table. */
  method EmitDomain(order: seq<nat>, table: seq<Bytes>, counts: seq<nat>, total: nat, ghost used: set<nat>)
    returns (references: seq<Reference>, bytes: Bytes, map_: Renaming)
    requires RankOrder(order, table) && |counts| == |table| + 1 && Counted(counts, used, total)
    ensures var ids := KeptOf(order, used);
      && InRank(ids, table) && TableOf(references, bytes, TextsFor(ids, table)) && Ascending(TextsFor(ids, table))
      && Numbers(map_, table, used, ids) && |ids| == total && Bounded(map_, total)
  {
    RankBelow(order, table, counts, used, total);
    references, bytes, map_ := EmitStrings(order, table, counts);
    NumbersFrom(counts, used, total, order, table, map_);
    RenumberedBound(map_, counts, Kept(order, counts));
  }

  ghost predicate Bounded(map_: Renaming, total: nat) {
    forall i :: 0 <= i < |map_| ==> map_[i] <= total
  }

  lemma RenumberedBound(map_: Renaming, counts: seq<nat>, ids: seq<nat>)
    requires Renumbers(map_, counts, ids)
    ensures Bounded(map_, |ids|)
  {
    forall i | 0 <= i < |map_| ensures map_[i] <= |ids| { if i > 0 { assert 0 < i < |counts|; } }
  }

  lemma TextsHoldable(ids: seq<nat>, table: seq<Bytes>, admitted: Bytes -> bool)
    requires InRank(ids, table) && Ascending(TextsFor(ids, table))
    requires forall i :: 0 <= i < |table| ==> admitted(table[i]) && table[i] != []
    ensures Holdable(TextsFor(ids, table), admitted)
  {
    hide Less, Precedes;
  }

  lemma TextsUnbroken(ids: seq<nat>, names: seq<Bytes>, strings: seq<Bytes>, breaks: LineBreaks)
    requires InRank(ids, names) && TablesValid(breaks, names, strings)
    ensures Unbroken(TextsFor(ids, names), breaks)
  {
    hide Less, Precedes;
  }

  /** How many identifiers are kept, and their order, before anything is written. */
  lemma {:induction false} KeptTotal(order: seq<nat>, table: seq<Bytes>, counts: seq<nat>, used: set<nat>, total: nat)
    requires RankOrder(order, table) && |counts| == |table| + 1 && Counted(counts, used, total)
    ensures InRank(KeptOf(order, used), table) && |KeptOf(order, used)| == total
  {
    RankBelow(order, table, counts, used, total);
    KeptAscending(order, table, counts);
    var ids := Kept(order, counts);
    KeptUsed(counts, used, total, order, table);
    forall id | id in used - {0} ensures id in ids {
      var k := RankOf(order, table, id);
      KeptMembers(order, counts, id);
    }
    SizeOfIds(ids, table, used - {0});
  }

  lemma Oversized(values: nat, names: nat, nameSize: nat, strings: nat, stringSize: nat)
    requires nameSize > CEILING || stringSize > CEILING
    ensures HeaderFor(values, names, nameSize, strings, stringSize).totalSize > CEILING
  {
  }

  lemma Counts(h: Header, values: nat, names: nat, nameSize: nat, strings: nat, stringSize: nat)
    requires h == HeaderFor(values, names, nameSize, strings, stringSize) && h.totalSize <= CEILING
    requires values > 0 && names > 0 && nameSize > 0 && strings > 0 && stringSize > 0
    ensures values < NONE && names < NONE && strings < NONE && SectionsSound(h)
  {
  }

  lemma NarrowMap(map_: Renaming, total: nat)
    requires Bounded(map_, total) && total < NONE
    ensures Narrow(map_)
  {
  }

  /** Everything the written block must be, from its parts. */
  lemma BlockHolds(b: Block, t: Tree, names: seq<Bytes>, strings: seq<Bytes>, admitted: Bytes -> bool, breaks: LineBreaks)
    requires SectionsSound(b.header) && Cut(b) && Bakeable(t, |names|, |strings|)
    requires TableOf(b.names, b.nameBytes, names) && Holdable(names, admitted) && Unbroken(names, breaks)
    requires TableOf(b.strings, b.stringBytes, strings) && Holdable(strings, admitted)
    requires var ts := BreadthOrder([t]); Laid(ts) && NamesFit(ts) && b.records == Records(ts)
    ensures Holds(b, t, names, strings, admitted, breaks)
  {
    hide Bakeable, Laid, NamesFit, Records, BreadthOrder;
  }

  lemma TableTexts(ids: seq<nat>, table: seq<Bytes>, strings: seq<Bytes>, references: seq<Reference>, bytes: Bytes)
    requires InRank(ids, table) && TableOf(references, bytes, TextsFor(ids, table))
    ensures |references| == |ids| + 1 && |bytes| == |BytesOf(TextsFor(ids, table))|
  {
  }

  /** Bakes the tree of the root. The block holds the recoded tree, whatever the document's other values are;
      only a block over the size ceiling is refused. */
  method Bake(nodes: Nodes, root: Slot, names: seq<Bytes>, nameOrder: seq<nat>, strings: seq<Bytes>, stringOrder: seq<nat>,
              ghost f: Shape, admitted: Bytes -> bool, breaks: LineBreaks)
    returns (ok: bool, b: Block, ghost r: Recoding, ghost nameIds: seq<nat>, ghost stringIds: seq<nat>)
    requires f.nodes == nodes && Ready(f, root, names, strings, nameOrder, stringOrder, admitted, breaks)
    ensures nameIds == KeptOf(nameOrder, NamesOf(nodes, Walk(f, Pre, root))) && stringIds == KeptOf(stringOrder, StringsOf(nodes, Walk(f, Pre, root)))
    ensures InRank(nameIds, names) && InRank(stringIds, strings)
    ensures ok <==> SizeNeeded(f, root, names, strings, nameIds, stringIds) <= CEILING
    ensures ok <==> BakedSize(f, root, names, strings, nameOrder, stringOrder) <= CEILING
    ensures ok ==>
      && Recodes(f, root, names, strings, r) && r.nameIds == nameIds && r.stringIds == stringIds
      && Holds(b, Recoded(f, root, r), TextsFor(nameIds, names), TextsFor(stringIds, strings), admitted, breaks)
  {
    hide Ready, BakeableRoot, IsContainer;
    Sound(f, root, names, strings, nameOrder, stringOrder, admitted, breaks);
    RootParts(f, root, names, strings, nameOrder, stringOrder, admitted, breaks);
    hide Wf, Walk, NamesOf, StringsOf, PayloadsValid, TablesValid, RankOrder, BytesOf, TextsFor, KeptOf, InRank, Numbers, TableOf, Counted,
      Holds, HeaderFor, Holdable, Unbroken, Bounded, Ascending, Recoded, Planned, BreadthOrder, ContentOf, Laid, NamesFit, Records, Bakeable, Narrow, SectionsSound;
    b := Block(HeaderFor(0, 0, 0, 0, 0), [], [], [], [], []);
    r := Recoding([], [], [], []);
    var values, empties, nameCounts, stringCounts, nameTotal, stringTotal;
    ok, values, empties, nameCounts, stringCounts, nameTotal, stringTotal := Analyse(nodes, root, |names|, |strings|, f);
    ghost var usedNames, usedStrings := NamesOf(nodes, Walk(f, Pre, root)), StringsOf(nodes, Walk(f, Pre, root));
    nameIds, stringIds := KeptOf(nameOrder, usedNames), KeptOf(stringOrder, usedStrings);
    KeptTotal(nameOrder, names, nameCounts, usedNames, nameTotal);
    KeptTotal(stringOrder, strings, stringCounts, usedStrings, stringTotal);
    SizeKept(f, root, names, strings, nameOrder, stringOrder, nameIds, stringIds);
    hide BakedSize;
    ghost var nameTexts, stringTexts := TextsFor(nameIds, names), TextsFor(stringIds, strings);
    if |BytesOf(nameTexts)| > CEILING || |BytesOf(stringTexts)| > CEILING {
      Oversized(values, nameTotal + 1, |BytesOf(nameTexts)|, stringTotal + 1, |BytesOf(stringTexts)|);
    }
    var nameSize, stringSize, h;
    ok, nameSize := MeasureDomain(nameOrder, names, nameCounts, usedNames, nameTotal);
    if !ok { return; }
    ok, stringSize := MeasureDomain(stringOrder, strings, stringCounts, usedStrings, stringTotal);
    if !ok { return; }
    ok, h := DeriveLayout(values, nameTotal + 1, nameSize, stringTotal + 1, stringSize);
    if !ok { return; }
    Counts(h, values, nameTotal + 1, nameSize, stringTotal + 1, stringSize);
    b, r := Emit(nodes, root, names, nameOrder, strings, stringOrder, f, h, values, nameCounts, stringCounts, nameTotal, stringTotal, admitted, breaks);
    ghost var t, n, s;
    ok, t, n, s := Validate(b, h.totalSize, admitted, breaks);
  }

  /** Writes every section of the block. */
  method Emit(nodes: Nodes, root: Slot, names: seq<Bytes>, nameOrder: seq<nat>, strings: seq<Bytes>, stringOrder: seq<nat>, ghost f: Shape,
              h: Header, values: nat, nameCounts: seq<nat>, stringCounts: seq<nat>, nameTotal: nat, stringTotal: nat,
              ghost admitted: Bytes -> bool, ghost breaks: LineBreaks)
    returns (b: Block, ghost r: Recoding)
    requires f.nodes == nodes && Ready(f, root, names, strings, nameOrder, stringOrder, admitted, breaks)
    requires values == |Walk(f, Pre, root)| && 0 < values < NONE && nameTotal + 1 < NONE && stringTotal + 1 < NONE
    requires |nameCounts| == |names| + 1 && Counted(nameCounts, NamesOf(nodes, Walk(f, Pre, root)), nameTotal)
    requires |stringCounts| == |strings| + 1 && Counted(stringCounts, StringsOf(nodes, Walk(f, Pre, root)), stringTotal)
    requires var nameIds, stringIds := KeptOf(nameOrder, NamesOf(nodes, Walk(f, Pre, root))), KeptOf(stringOrder, StringsOf(nodes, Walk(f, Pre, root)));
      && InRank(nameIds, names) && InRank(stringIds, strings) && SectionsSound(h)
      && h == HeaderFor(values, nameTotal + 1, |BytesOf(TextsFor(nameIds, names))|, stringTotal + 1, |BytesOf(TextsFor(stringIds, strings))|)
    ensures b.header == h && Cut(b) && Recodes(f, root, names, strings, r)
    ensures r.nameIds == KeptOf(nameOrder, NamesOf(nodes, Walk(f, Pre, root))) && r.stringIds == KeptOf(stringOrder, StringsOf(nodes, Walk(f, Pre, root)))
    ensures InRank(r.nameIds, names) && InRank(r.stringIds, strings)
    ensures Holds(b, Recoded(f, root, r), TextsFor(r.nameIds, names), TextsFor(r.stringIds, strings), admitted, breaks)
  {
    hide Wf, Walk, NamesOf, StringsOf, PayloadsValid, TablesValid, RankOrder, BytesOf, TextsFor, KeptOf, InRank, Numbers, TableOf, Counted, Ready,
      Holds, HeaderFor, Holdable, Unbroken, Bounded, Ascending, Recoded, Planned, BreadthOrder, ContentOf, Laid, NamesFit, Records, Bakeable, Narrow,
      SectionsSound, BakeableRoot, IsContainer;
    Sound(f, root, names, strings, nameOrder, stringOrder, admitted, breaks);
    ghost var usedNames, usedStrings := NamesOf(nodes, Walk(f, Pre, root)), StringsOf(nodes, Walk(f, Pre, root));
    ghost var nameIds, stringIds := KeptOf(nameOrder, usedNames), KeptOf(stringOrder, usedStrings);
    var nameReferences, nameBytes, nameMap := EmitDomain(nameOrder, names, nameCounts, nameTotal, usedNames);
    var stringReferences, stringBytes, stringMap := EmitDomain(stringOrder, strings, stringCounts, stringTotal, usedStrings);
    r := Recoding(nameMap, nameIds, stringMap, stringIds);
    ghost var live, ts := PlanEmission(f, root, names, strings, r, nameTotal, stringTotal);
    var emitted, records := EmitValues(nodes, root, values, nameMap, stringMap, f, |strings|, live, ts, true);
    b := Block(h, records, nameReferences, nameBytes, stringReferences, stringBytes);
    EmittedHolds(b, f, root, names, strings, r, admitted, breaks, ts);
  }

  lemma PlanEmission(f: Shape, root: Slot, names: seq<Bytes>, strings: seq<Bytes>, r: Recoding, nameTotal: nat, stringTotal: nat)
    returns (live: seq<Tree>, ts: seq<Tree>)
    requires BakeableRoot(f, root, names, strings) && Recodes(f, root, names, strings, r) && |Walk(f, Pre, root)| < NONE
    requires Bounded(r.nameMap, nameTotal) && Bounded(r.stringMap, stringTotal) && nameTotal < NONE && stringTotal < NONE
    ensures live == BreadthOrder([ContentOf(f, root)]) && ts == BreadthOrder([Recoded(f, root, r)])
    ensures Planned(f, root, r.nameMap, r.stringMap, |strings|, live, ts) && |ts| == |Walk(f, Pre, root)| && NamesFit(ts) && Laid(ts)
    ensures Bakeable(Recoded(f, root, r), |r.nameIds|, |r.stringIds|)
  {
    assert Wf(f) && IsValue(f.nodes, root);
    hide Wf, Walk, Recodes, BakeableRoot, Bounded, Recoded, Planned, BreadthOrder, Bakeable;
    NarrowMap(r.nameMap, nameTotal);
    NarrowMap(r.stringMap, stringTotal);
    RootPlanned(f, root, names, strings, r);
    live, ts := BreadthOrder([ContentOf(f, root)]), BreadthOrder([Recoded(f, root, r)]);
  }

  lemma EmittedHolds(b: Block, f: Shape, root: Slot, names: seq<Bytes>, strings: seq<Bytes>, r: Recoding, admitted: Bytes -> bool, breaks: LineBreaks, ts: seq<Tree>)
    requires Wf(f) && IsValue(f.nodes, root) && Bakeable(Recoded(f, root, r), |r.nameIds|, |r.stringIds|)
    requires InRank(r.nameIds, names) && InRank(r.stringIds, strings) && TablesValid(breaks, names, strings)
    requires forall i :: 0 <= i < |names| ==> admitted(names[i]) && names[i] != []
    requires forall i :: 0 <= i < |strings| ==> admitted(strings[i]) && strings[i] != []
    requires TableOf(b.names, b.nameBytes, TextsFor(r.nameIds, names)) && Ascending(TextsFor(r.nameIds, names))
    requires TableOf(b.strings, b.stringBytes, TextsFor(r.stringIds, strings)) && Ascending(TextsFor(r.stringIds, strings))
    requires ts == BreadthOrder([Recoded(f, root, r)]) && Laid(ts) && NamesFit(ts) && b.records == Records(ts)
    requires SectionsSound(b.header)
    requires b.header == HeaderFor(|ts|, |r.nameIds| + 1, |BytesOf(TextsFor(r.nameIds, names))|, |r.stringIds| + 1, |BytesOf(TextsFor(r.stringIds, strings))|)
    ensures Cut(b) && Holds(b, Recoded(f, root, r), TextsFor(r.nameIds, names), TextsFor(r.stringIds, strings), admitted, breaks)
  {
    HeaderCounts(b.header, |ts|, |r.nameIds| + 1, |r.stringIds| + 1);
    hide Wf, TablesValid, BytesOf, TextsFor, InRank, TableOf, Holds, HeaderFor, Holdable, Unbroken, Ascending, Recoded, BreadthOrder, ContentOf, Laid,
      NamesFit, RecordFor, Bakeable, SectionsSound;
    TableTexts(r.nameIds, names, strings, b.names, b.nameBytes);
    TableTexts(r.stringIds, strings, strings, b.strings, b.stringBytes);
    TextsHoldable(r.nameIds, names, admitted);
    TextsHoldable(r.stringIds, strings, admitted);
    TextsUnbroken(r.nameIds, names, strings, breaks);
    BlockHolds(b, Recoded(f, root, r), TextsFor(r.nameIds, names), TextsFor(r.stringIds, strings), admitted, breaks);
  }

  lemma HeaderCounts(h: Header, values: nat, names: nat, strings: nat)
    ensures forall nameSize: nat, stringSize: nat :: h == HeaderFor(values, names, nameSize, strings, stringSize) ==>
      h.values == values && h.names == names && h.strings == strings && h.nameSize == nameSize && h.stringSize == stringSize
  {
  }

  lemma RootParts(f: Shape, root: Slot, names: seq<Bytes>, strings: seq<Bytes>, nameOrder: seq<nat>, stringOrder: seq<nat>, admitted: Bytes -> bool, breaks: LineBreaks)
    requires Ready(f, root, names, strings, nameOrder, stringOrder, admitted, breaks)
    ensures root >= 0 && PayloadsValid(f.nodes, |names|, |strings|)
  {
    hide Wf, RankOrder;
  }

  lemma Sound(f: Shape, root: Slot, names: seq<Bytes>, strings: seq<Bytes>, nameOrder: seq<nat>, stringOrder: seq<nat>, admitted: Bytes -> bool, breaks: LineBreaks)
    requires Ready(f, root, names, strings, nameOrder, stringOrder, admitted, breaks)
    ensures BakeableRoot(f, root, names, strings) && RankOrder(nameOrder, names) && RankOrder(stringOrder, strings) && TablesValid(breaks, names, strings)
    ensures Wf(f) && IsValue(f.nodes, root)
    ensures forall i :: 0 <= i < |names| ==> admitted(names[i]) && names[i] != []
    ensures forall i :: 0 <= i < |strings| ==> admitted(strings[i]) && strings[i] != []
  {
    hide Wf, RankOrder;
  }
}
