/**
 Baking and promotion undo each other: promoting a baked document gives back
 what its root meant, with empty values as null, and baking a promoted document
 gives back the block, byte for byte.
 */
module RoundTrips {
  import opened LiveNode
  import opened Forest
  import opened Traversal
  import opened Content
  import opened DocumentState
  import opened BreadthFirst
  import opened ValueFlags
  import opened BakedRecords
  import opened BakedValidation
  import opened BakedBlocks
  import opened StringTables
  import opened Analysis
  import opened Baking
  import opened BakedMeaning
  import opened Baker
  import opened Promotion
  import L = LiveDocument

  /** The tree below the first record of a block is the tree the block holds. */
  lemma {:induction false} HeldTree(b: Block, t: Tree, names: seq<Bytes>, strings: seq<Bytes>, admitted: Bytes -> bool, breaks: LineBreaks)
    requires Holds(b, t, names, strings, admitted, breaks)
    ensures |names| + 1 < NONE && |strings| + 1 < NONE && RecordsSound(b.records, |names| + 1, |strings| + 1)
    ensures TreeAt(b.records, |names| + 1, |strings| + 1, 0) == t && Texts(names, strings, breaks)
  {
    FewEnough(b.header);
    hide RecordsSound, Bakeable, Encoding, ReferencesOf, BytesOf, HeaderFor, Less;
    EncodingTree(t, |names|, |strings|);
  }

  /** Block `b` is what baking the tree of `root` yields, with the renumbering `r`. */
  ghost predicate IsBaked(f: Shape, root: Slot, names: seq<Bytes>, strings: seq<Bytes>, r: Recoding, b: Block, admitted: Bytes -> bool, breaks: LineBreaks) {
    && BakeableRoot(f, root, names, strings) && Recodes(f, root, names, strings, r) && InRank(r.nameIds, names) && InRank(r.stringIds, strings)
    && Holds(b, Recoded(f, root, r), TextsFor(r.nameIds, names), TextsFor(r.stringIds, strings), admitted, breaks)
  }

  /** Promoting a block gives a document with its tree and its texts. */
  ghost predicate IsPromoted(d: L.LiveDocument, b: Block, names: seq<Bytes>, strings: seq<Bytes>)
    reads d
  {
    && |names| + 1 < NONE && |strings| + 1 < NONE && RecordsSound(b.records, |names| + 1, |strings| + 1)
    && PromotedTo(d, b.records, names, strings)
  }

  /** Promoting what was baked keeps the meaning of the root. */
  lemma {:induction false} PromotedBaked(f: Shape, root: Slot, names: seq<Bytes>, strings: seq<Bytes>, r: Recoding,
                      b: Block, admitted: Bytes -> bool, breaks: LineBreaks, d: L.LiveDocument)
    requires IsBaked(f, root, names, strings, r, b, admitted, breaks)
    requires InRank(r.nameIds, names) && InRank(r.stringIds, strings)
    requires IsPromoted(d, b, TextsFor(r.nameIds, names), TextsFor(r.stringIds, strings))
    ensures Wf(d.Shape()) && IsValue(d.nodes, d.SlotOf(d.root)) && Wf(f) && IsValue(f.nodes, root)
    ensures Meaning(ContentOf(d.Shape(), d.SlotOf(d.root)), d.names, d.strings) == Nulled(Meaning(ContentOf(f, root), names, strings))
  {
    hide Holds, RecordsSound, Recoded, L.LiveDocument.Inv, Meaning, Nulled, Wf, Numbers, Precedes, PromotedTo, BakeableRoot;
    HeldTree(b, Recoded(f, root, r), TextsFor(r.nameIds, names), TextsFor(r.stringIds, strings), admitted, breaks);
    RootMeaning(f, root, names, strings, r);
    PromotedFacts(d, b.records, TextsFor(r.nameIds, names), TextsFor(r.stringIds, strings));
  }

  // ---------------------------------------------------------------------
  // The other way round

  lemma LessForward(table: seq<Bytes>, a: nat, b: nat)
    requires Ascending(table) && a < |table| && b < |table| && Less(table[a], table[b])
    ensures a < b
  {
    LessIrreflexive(table[a]);
    if b < a {
      AscendingApart(table, b, a);
      LessTransitive(table[a], table[b], table[a]);
    }
  }

  lemma {:induction false} RankAtLeast(order: seq<nat>, table: seq<Bytes>, i: nat)
    requires Ascending(table) && RankOrder(order, table) && i < |order|
    ensures order[i] >= i + 1
  {
    if i > 0 {
      RankAtLeast(order, table, i - 1);
      LessForward(table, order[i - 1] - 1, order[i] - 1);
    }
  }

  lemma {:induction false} RankAtMost(order: seq<nat>, table: seq<Bytes>, i: nat)
    requires Ascending(table) && RankOrder(order, table) && i < |order|
    ensures order[i] <= i + 1
    decreases |order| - i
  {
    if i + 1 < |order| {
      RankAtMost(order, table, i + 1);
      LessForward(table, order[i] - 1, order[i + 1] - 1);
    }
  }

  ghost predicate Counting(ids: seq<nat>, n: nat) {
    |ids| == n && forall i :: 0 <= i < n ==> ids[i] == i + 1
  }

  /** A table that is already in order has the identity as its rank order. */
  lemma OrderCounts(order: seq<nat>, table: seq<Bytes>)
    requires Ascending(table) && RankOrder(order, table)
    ensures Counting(order, |table|)
  {
    forall i | 0 <= i < |order| ensures order[i] == i + 1 {
      RankAtLeast(order, table, i);
      RankAtMost(order, table, i);
    }
  }

  lemma {:induction false} KeepAll(order: seq<nat>, used: set<nat>)
    requires forall i :: 0 <= i < |order| ==> order[i] in used
    ensures KeptOf(order, used) == order
  {
    if order != [] {
      KeepAll(order[..|order| - 1], used);
      assert order == order[..|order| - 1] + [order[|order| - 1]];
    }
  }

  /** When everything is used and already in order, nothing is renumbered. */
  lemma {:induction false} NothingRenumbered(order: seq<nat>, table: seq<Bytes>, used: set<nat>, map_: Renaming)
    requires Ascending(table) && RankOrder(order, table) && (forall n :: 0 < n <= |table| ==> n in used)
    requires Numbers(map_, table, used, KeptOf(order, used))
    ensures Counting(KeptOf(order, used), |table|) && forall id :: id in used ==> NewId(map_, id) == id
  {
    OrderCounts(order, table);
    KeepAll(order, used);
    forall id | id in used ensures NewId(map_, id) == id { assert Numbered(map_, order, id); }
  }

  lemma CountedTexts(ids: seq<nat>, table: seq<Bytes>)
    requires Counting(ids, |table|)
    ensures TextsFor(ids, table) == table
  {
  }

  /** No value of the tree is empty. */
  ghost predicate Solid(t: Tree) {
    !t.payload.vtype.EmptyValue? && forall i :: 0 <= i < |t.kids| ==> Solid(t.kids[i])
  }

  lemma {:induction false} RecodedSame(t: Tree, names: Renaming, strings: Renaming, usedNames: set<nat>, usedStrings: set<nat>)
    requires Solid(t) && Uses(t, usedNames, usedStrings)
    requires (forall id :: id in usedNames ==> NewId(names, id) == id) && (forall id :: id in usedStrings ==> NewId(strings, id) == id)
    ensures Recode(t, names, strings) == t
    decreases t
  {
    forall i | 0 <= i < |t.kids| ensures Recode(t.kids[i], names, strings) == t.kids[i] {
      RecodedSame(t.kids[i], names, strings, usedNames, usedStrings);
    }
    assert RecodeAll(t.kids, names, strings) == t.kids;
  }

  /** The root's tree, when it can be baked as it is. */
  ghost predicate BakesAsItIs(f: Shape, root: Slot, names: nat, strings: nat) {
    Wf(f) && IsValue(f.nodes, root) && Bakeable(ContentOf(f, root), names, strings)
  }

  lemma {:induction false} ContentSolid(f: Shape, root: Slot, names: nat, strings: nat, x: Slot)
    requires BakesAsItIs(f, root, names, strings) && IsValue(f.nodes, x) && Under(f.nodes, x, root)
    ensures Solid(ContentOf(f, x))
    decreases f.bound - f.rank[x]
  {
    var i := ValueOrdered(f, root, x);
    assert ValueFit(BreadthOrder([ContentOf(f, root)])[i], names, strings);
    hide Bakeable, BreadthOrder, ValueFit;
    ContentKids(f, x);
    KidsBelow(f, x);
    var ks := KidsOf(f.nodes, f.kids, x);
    forall j | 0 <= j < |ks| ensures Solid(ContentOf(f, ks[j])) {
      NotTop(f, x, root, j);
      ContentSolid(f, root, names, strings, ks[j]);
    }
    hide Wf;
  }

  lemma {:induction false} AllTextsUsed(f: Shape, root: Slot, names: nat, strings: nat)
    requires BakesAsItIs(f, root, names, strings)
    ensures forall n :: 0 < n <= names ==> n in NamesOf(f.nodes, Walk(f, Pre, root))
    ensures forall n :: 0 < n <= strings ==> n in StringsOf(f.nodes, Walk(f, Pre, root))
  {
    var ts := BreadthOrder([ContentOf(f, root)]);
    hide Wf, BreadthOrder, Walk, NamesOf, StringsOf, Under;
    forall n | 0 < n <= names ensures n in NamesOf(f.nodes, Walk(f, Pre, root)) {
      assert HasName(ts, n);
      var i :| 0 <= i < |ts| && ts[i].name == n;
      var x := OrderedValue(f, root, i);
      ContentNode(f, x);
      WalkUses(f, root, x);
    }
    forall n | 0 < n <= strings ensures n in StringsOf(f.nodes, Walk(f, Pre, root)) {
      assert HasString(ts, n);
      var i :| 0 <= i < |ts| && ts[i].payload.vtype.Text? && ts[i].payload.bits == n;
      var x := OrderedValue(f, root, i);
      ContentNode(f, x);
      WalkUses(f, root, x);
    }
  }

  lemma {:induction false} ContentNode(f: Shape, x: Slot)
    requires Wf(f) && IsValue(f.nodes, x)
    ensures ContentOf(f, x).name == f.nodes[x].name && ContentOf(f, x).payload == f.nodes[x].payload
  {
    hide Wf;
  }

  /** Baking the tree of a promoted document renumbers nothing. */
  lemma {:induction false} RecodedItself(f: Shape, root: Slot, names: seq<Bytes>, strings: seq<Bytes>, nameOrder: seq<nat>, stringOrder: seq<nat>, r: Recoding)
    requires BakesAsItIs(f, root, |names|, |strings|) && PayloadsValid(f.nodes, |names|, |strings|) && Ascending(names) && Ascending(strings)
    requires RankOrder(nameOrder, names) && RankOrder(stringOrder, strings) && Recodes(f, root, names, strings, r)
    requires r.nameIds == KeptOf(nameOrder, NamesOf(f.nodes, Walk(f, Pre, root))) && r.stringIds == KeptOf(stringOrder, StringsOf(f.nodes, Walk(f, Pre, root)))
    ensures Counting(r.nameIds, |names|) && Counting(r.stringIds, |strings|) && Recoded(f, root, r) == ContentOf(f, root)
  {
    hide Bakeable, RankOrder, Ascending, Numbers, PayloadsValid, Wf, NamesOf, StringsOf, Walk, KeptOf, Under, Solid, Uses;
    var usedNames, usedStrings := NamesOf(f.nodes, Walk(f, Pre, root)), StringsOf(f.nodes, Walk(f, Pre, root));
    AllTextsUsed(f, root, |names|, |strings|);
    NothingRenumbered(nameOrder, names, usedNames, r.nameMap);
    NothingRenumbered(stringOrder, strings, usedStrings, r.stringMap);
    UnderStep(f.nodes, root, root);
    ContentSolid(f, root, |names|, |strings|, root);
    ContentUses(f, root, |strings|, |names|, root);
    RecodedSame(ContentOf(f, root), r.nameMap, r.stringMap, usedNames, usedStrings);
  }

  /** One tree over one pair of tables has one block. */
  lemma BlockUnique(b: Block, b': Block, t: Tree, names: seq<Bytes>, strings: seq<Bytes>, admitted: Bytes -> bool, breaks: LineBreaks)
    requires Holds(b, t, names, strings, admitted, breaks) && Holds(b', t, names, strings, admitted, breaks)
    ensures b == b'
  {
    hide Bakeable, Encoding, ReferencesOf, BytesOf, Holdable, Unbroken;
  }

  /** Baking what was promoted gives back the block it was promoted from. */
  lemma {:induction false} BakedPromoted(b: Block, t: Tree, names: seq<Bytes>, strings: seq<Bytes>, admitted: Bytes -> bool, breaks: LineBreaks, d: L.LiveDocument,
                      nameOrder: seq<nat>, stringOrder: seq<nat>, r: Recoding, b': Block)
    requires Holds(b, t, names, strings, admitted, breaks)
    requires |names| + 1 < NONE && |strings| + 1 < NONE && RecordsSound(b.records, |names| + 1, |strings| + 1)
    requires PromotedTo(d, b.records, names, strings)
    requires RankOrder(nameOrder, d.names) && RankOrder(stringOrder, d.strings)
    requires var f, root := d.Shape(), d.SlotOf(d.root);
      && Recodes(f, root, d.names, d.strings, r) && InRank(r.nameIds, d.names) && InRank(r.stringIds, d.strings)
      && r.nameIds == KeptOf(nameOrder, NamesOf(f.nodes, Walk(f, Pre, root))) && r.stringIds == KeptOf(stringOrder, StringsOf(f.nodes, Walk(f, Pre, root)))
      && Holds(b', Recoded(f, root, r), TextsFor(r.nameIds, d.names), TextsFor(r.stringIds, d.strings), admitted, breaks)
    ensures b' == b
  {
    var f, root := d.Shape(), d.SlotOf(d.root);
    HeldTree(b, t, names, strings, admitted, breaks);
    HeldFacts(b, t, names, strings, admitted, breaks);
    PromotedFacts(d, b.records, names, strings);
    hide Holds, RecordsSound, PromotedTo, L.LiveDocument.Inv, RankOrder, Ascending, Bakeable, Recoded, KeptOf, Numbers, Wf, Walk, NamesOf, StringsOf, PayloadsValid;
    RecodedItself(f, root, names, strings, nameOrder, stringOrder, r);
    CountedTexts(r.nameIds, names);
    CountedTexts(r.stringIds, strings);
    BlockUnique(b, b', t, names, strings, admitted, breaks);
  }

  lemma HeldFacts(b: Block, t: Tree, names: seq<Bytes>, strings: seq<Bytes>, admitted: Bytes -> bool, breaks: LineBreaks)
    requires Holds(b, t, names, strings, admitted, breaks)
    ensures Bakeable(t, |names|, |strings|) && Ascending(names) && Ascending(strings)
  {
    hide Bakeable, Encoding, ReferencesOf, BytesOf, HeaderFor, Less;
  }

  lemma {:induction false} PromotedFacts(d: L.LiveDocument, rs: seq<Record>, names: seq<Bytes>, strings: seq<Bytes>)
    requires |names| + 1 < NONE && |strings| + 1 < NONE && RecordsSound(rs, |names| + 1, |strings| + 1)
    requires PromotedTo(d, rs, names, strings)
    ensures d.names == names && d.strings == strings && Wf(d.Shape()) && IsValue(d.nodes, d.SlotOf(d.root))
    ensures PayloadsValid(d.nodes, |names|, |strings|)
    ensures ContentOf(d.Shape(), d.SlotOf(d.root)) == TreeAt(rs, |names| + 1, |strings| + 1, 0)
  {
    hide RecordsSound;
  }

  /** A promoted document can be baked again, in exactly the space it came from. */
  lemma {:induction false} RebakedSize(b: Block, t: Tree, names: seq<Bytes>, strings: seq<Bytes>, admitted: Bytes -> bool, breaks: LineBreaks, d: L.LiveDocument,
                    nameOrder: seq<nat>, stringOrder: seq<nat>)
    requires Holds(b, t, names, strings, admitted, breaks)
    requires |names| + 1 < NONE && |strings| + 1 < NONE && RecordsSound(b.records, |names| + 1, |strings| + 1)
    requires PromotedTo(d, b.records, names, strings)
    requires RankOrder(nameOrder, names) && RankOrder(stringOrder, strings)
    ensures var f, root := d.Shape(), d.SlotOf(d.root);
      && Wf(f) && IsValue(f.nodes, root) && BakeableRoot(f, root, d.names, d.strings)
      && var nameIds, stringIds := KeptOf(nameOrder, NamesOf(f.nodes, Walk(f, Pre, root))), KeptOf(stringOrder, StringsOf(f.nodes, Walk(f, Pre, root)));
      InRank(nameIds, names) && InRank(stringIds, strings) && SizeNeeded(f, root, names, strings, nameIds, stringIds) == b.header.totalSize <= CEILING
  {
    var f, root := d.Shape(), d.SlotOf(d.root);
    HeldTree(b, t, names, strings, admitted, breaks);
    HeldFacts(b, t, names, strings, admitted, breaks);
    PromotedFacts(d, b.records, names, strings);
    RootContent(d, b.records, names, strings);
    HeldSizes(b, t, names, strings, admitted, breaks);
    hide Holds, RecordsSound, PromotedTo, L.LiveDocument.Inv, Bakeable, KeptOf, Wf, Walk, NamesOf, StringsOf, PayloadsValid, BytesOf;
    AllTextsUsed(f, root, |names|, |strings|);
    OrderCounts(nameOrder, names);
    OrderCounts(stringOrder, strings);
    KeepAll(nameOrder, NamesOf(f.nodes, Walk(f, Pre, root)));
    KeepAll(stringOrder, StringsOf(f.nodes, Walk(f, Pre, root)));
    OrderRanked(nameOrder, names);
    OrderRanked(stringOrder, strings);
    CountedTexts(nameOrder, names);
    CountedTexts(stringOrder, strings);
    WalkSize(f, root);
  }

  lemma RootContent(d: L.LiveDocument, rs: seq<Record>, names: seq<Bytes>, strings: seq<Bytes>)
    requires |names| + 1 < NONE && |strings| + 1 < NONE && RecordsSound(rs, |names| + 1, |strings| + 1)
    requires PromotedTo(d, rs, names, strings)
    ensures BakeableRoot(d.Shape(), d.SlotOf(d.root), d.names, d.strings)
  {
    hide RecordsSound, IsForest, PayloadsValid;
  }

  lemma {:induction false} HeldSizes(b: Block, t: Tree, names: seq<Bytes>, strings: seq<Bytes>, admitted: Bytes -> bool, breaks: LineBreaks)
    requires Holds(b, t, names, strings, admitted, breaks)
    ensures b.header == HeaderFor(Size(t), |names| + 1, |BytesOf(names)|, |strings| + 1, |BytesOf(strings)|) && b.header.totalSize <= CEILING
  {
    hide Bakeable, BytesOf, Holdable, Unbroken, Records, ReferencesOf, Size;
    BakeableFits(t, |names|, |strings|);
    OrderSize([t]);
    OneTree(t);
  }

  lemma {:induction false} OneTree(t: Tree)
    ensures SizeAll([t]) == Size(t)
  {
    assert SizeAll([t]) == Size(t) + SizeAll([]);
  }

  lemma ReadyAgain(b: Block, t: Tree, names: seq<Bytes>, strings: seq<Bytes>, admitted: Bytes -> bool, breaks: LineBreaks, d: L.LiveDocument,
                   nameOrder: seq<nat>, stringOrder: seq<nat>)
    requires Holds(b, t, names, strings, admitted, breaks)
    requires |names| + 1 < NONE && |strings| + 1 < NONE && RecordsSound(b.records, |names| + 1, |strings| + 1)
    requires PromotedTo(d, b.records, names, strings) && d.breaks == breaks
    requires RankOrder(nameOrder, names) && RankOrder(stringOrder, strings)
    ensures Ready(d.Shape(), d.SlotOf(d.root), names, strings, nameOrder, stringOrder, admitted, breaks)
  {
    RootContent(d, b.records, names, strings);
    HeldAdmitted(b, t, names, strings, admitted, breaks);
    PromotedKnown(d, b.records, names, strings);
    hide Holds, RecordsSound, PromotedTo, BakeableRoot, RankOrder;
  }

  lemma HeldAdmitted(b: Block, t: Tree, names: seq<Bytes>, strings: seq<Bytes>, admitted: Bytes -> bool, breaks: LineBreaks)
    requires Holds(b, t, names, strings, admitted, breaks)
    ensures (forall i :: 0 <= i < |names| ==> admitted(names[i])) && (forall i :: 0 <= i < |strings| ==> admitted(strings[i]))
  {
    hide Encodes, TableOf, SectionsSound, Cut, Less;
  }

  lemma PromotedKnown(d: L.LiveDocument, rs: seq<Record>, names: seq<Bytes>, strings: seq<Bytes>)
    requires |names| + 1 < NONE && |strings| + 1 < NONE && RecordsSound(rs, |names| + 1, |strings| + 1)
    requires PromotedTo(d, rs, names, strings)
    ensures d.SlotOf(d.root) >= 0 && TablesValid(d.breaks, names, strings) && d.names == names && d.strings == strings
  {
    hide RecordsSound;
    KidsKnown(d.nodes, d.kids, d.rank, d.bound);
  }

  /**
   Promotes a validated block and bakes the document again: when memory is granted and the document has slots for its
   records, the outcome is the block, byte for byte, whatever order ranks the texts.
   */
  method PromoteThenBake(b: Block, names: seq<Bytes>, strings: seq<Bytes>, nameOrder: seq<nat>, stringOrder: seq<nat>,
                         admitted: Bytes -> bool, breaks: LineBreaks, granted: bool, ghost t: Tree)
    returns (ok: bool, b': Block)
    requires Holds(b, t, names, strings, admitted, breaks) && RankOrder(nameOrder, names) && RankOrder(stringOrder, strings)
    ensures ok ==> b' == b
    ensures granted && LiveCount(b.records, |b.records|) <= SLOT_LIMIT ==> ok
  {
    HeldTree(b, t, names, strings, admitted, breaks);
    hide Holds, RankOrder, RecordsSound, PromotedTo, Texts, Recodes, Recoded, Ready, InRank, KeptOf, NamesOf, StringsOf, Walk, Wf, LiveCount, L.LiveDocument.Inv, L.LiveDocument.Shape;
    var d;
    b' := b;
    ok, d := Promote(b.records, names, strings, breaks, granted);
    if !ok { return; }
    PromotedKnown(d, b.records, names, strings);
    RebakedSize(b, t, names, strings, admitted, breaks, d, nameOrder, stringOrder);
    ReadyAgain(b, t, names, strings, admitted, breaks, d, nameOrder, stringOrder);
    ghost var r, nameIds, stringIds;
    ok, b', r, nameIds, stringIds := Bake(d.nodes, d.SlotOf(d.root), d.names, nameOrder, d.strings, stringOrder, d.Shape(), admitted, breaks);
    if ok { BakedPromoted(b, t, names, strings, admitted, breaks, d, nameOrder, stringOrder, r, b'); }
  }
}
