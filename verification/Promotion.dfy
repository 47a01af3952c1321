/**
 Translation from a validated baked document to a live one
 (core/data_model/document_promotion.cpp, CLiveDocumentPromoter).
 */
module Promotion {
  import opened LiveNode
  import opened Forest
  import opened Traversal
  import opened Content
  import opened DocumentState
  import opened ValueFlags
  import opened BakedRecords
  import opened BakedNavigation
  import opened StringTables
  import opened Rebuilding
  import L = LiveDocument

  /** The values in the order they will be made, each with the place of its parent. */
  datatype Promoted = Promoted(source: int, parent: nat)

  ghost predicate InOrder(rs: seq<Record>, values: seq<Promoted>) {
    && 0 < |values| <= |rs| && values[0].source == 0
    && forall i :: 0 < i < |values| ==> values[i].source == i && values[i].parent == rs[i].parent
  }

  /** Lists the values breadth first by following first children and next siblings. */
  method PrepareValues(rs: seq<Record>, ghost names: U32, ghost strings: U32) returns (ok: bool, values: seq<Promoted>)
    requires |rs| > 0
    ensures RecordsSound(rs, names, strings) ==> ok && |values| == |rs| && InOrder(rs, values)
    ensures ok ==> |values| == |rs|
  {
    hide RecordsSound, From, To;
    ghost var good := RecordsSound(rs, names, strings);
    values := [Promoted(0, 0)];
    if good { RangesBegin(rs); }
    var index := 0;
    while index < |values|
      invariant index <= |values| <= |rs|
      invariant good ==> InOrder(rs, values) && |values| == RangeStart(rs, index)
      decreases |rs| - index
    {
      if good { DownwardSound(rs, names, strings, index, 0); RangeEnds(rs, index); }
      var child := FirstChild(rs, values[index].source);
      ghost var j := 0;
      while child != NOWHERE
        invariant |values| <= |rs|
        invariant good ==> InOrder(rs, values) && |values| == From(rs, index) + j <= To(rs, index) && index < From(rs, index)
        invariant good ==> child == (if |values| < To(rs, index) then |values| else NOWHERE)
        decreases |rs| - |values|
      {
        if |values| >= |rs| { return false, values; }
        if good { ChildSteps(rs, names, strings, index, |values|); }
        values := values + [Promoted(child, index)];
        child := NextSibling(rs, child);
        j := j + 1;
      }
      index := index + 1;
    }
    if good { AllListed(rs, names, strings, |values|); }
    ok := |values| == |rs|;
  }

  lemma {:induction false} RangesBegin(rs: seq<Record>)
    ensures RangeStart(rs, 0) == 1
  {
  }

  lemma RangeEnds(rs: seq<Record>, i: nat)
    requires i < |rs|
    ensures To(rs, i) == RangeStart(rs, i + 1) && From(rs, i) == RangeStart(rs, i)
  {
  }

  lemma ChildSteps(rs: seq<Record>, names: U32, strings: U32, i: nat, k: nat)
    requires RecordsSound(rs, names, strings) && i < |rs| && From(rs, i) <= k < To(rs, i) && k < |rs| && i < From(rs, i)
    ensures rs[k].parent == i && k > 0 && NextSibling(rs, k) == if k + 1 == To(rs, i) then NOWHERE else k + 1
  {
    hide RecordsSound;
    ChildLinks(rs, names, strings, i, k);
    SidewaysSound(rs, names, strings, k);
  }

  /** The queue runs dry only when everything is in it. */
  lemma {:induction false} AllListed(rs: seq<Record>, names: U32, strings: U32, n: nat)
    requires RecordsSound(rs, names, strings) && n <= |rs| && RangeStart(rs, n) == n
    ensures n == |rs|
  {
    if n < |rs| { RangeAhead(rs, names, strings, n); }
  }

  /** Texts that a baked document holds: ascending, not empty, and names do not break lines. */
  ghost predicate Texts(names: seq<Bytes>, strings: seq<Bytes>, breaks: LineBreaks) {
    && Ascending(names) && Ascending(strings)
    && (forall i :: 0 <= i < |names| ==> names[i] != [] && !breaks(names[i])) && (forall i :: 0 <= i < |strings| ==> strings[i] != [])
  }

  /** Enters every name and string in rank order, so that both documents use the same identifiers. */
  method PreloadStrings(d: L.LiveDocument, names: seq<Bytes>, strings: seq<Bytes>) returns (ok: bool)
    requires d.IsReady() && d.Inv() && d.names == [] && d.strings == [] && Texts(names, strings, d.breaks)
    modifies d`names, d`strings
    ensures d.IsReady() && d.Inv() && (ok ==> d.names == names && d.strings == strings)
    ensures d.granted && |names| + 1 < NONE && |strings| + 1 < NONE ==> ok
  {
    hide Less;
    for rank := 0 to |names|
      invariant d.Inv() && d.names == names[..rank] && d.strings == []
    {
      hide d.Inv;
      NewText(names, rank);
      var interned, id := d.InternName(names[rank]);
      if !interned || id != rank + 1 { return false; }
    }
    for rank := 0 to |strings|
      invariant d.Inv() && d.names == names && d.strings == strings[..rank]
    {
      NewText(strings, rank);
      var interned, id := d.InternString(strings[rank]);
      if !interned || id != rank + 1 { return false; }
    }
    return true;
  }

  lemma NewText(texts: seq<Bytes>, n: nat)
    requires Ascending(texts) && n < |texts|
    ensures texts[n] !in texts[..n] && texts[..n + 1] == texts[..n] + [texts[n]]
  {
    forall i | 0 <= i < n ensures texts[i] != texts[n] { AscendingApart(texts, i, n); }
  }

  /** The document as far as it is built: `keys[i]` is the value of record `i`. */
  ghost predicate BuiltIn(d: L.LiveDocument, rs: seq<Record>, keys: seq<Key>, at: seq<Slot>)
    reads d
  {
    && d.IsReady() && d.Inv() && Built(d.Shape(), rs, at) && |keys| == |at|
    && (forall i :: 0 <= i < |keys| ==> keys[i] != NO_KEY && keys[i] in d.slotOf && d.slotOf[keys[i]] == at[i])
    && keys[0] == d.root
  }

  /** How many live records the first `n` records become: one for each value, and one for the children of each container. */
  function LiveCount(rs: seq<Record>, n: nat): nat
    requires n <= |rs|
  {
    if n == 0 then 0 else LiveCount(rs, n - 1) + if IsContainerTag(rs[n - 1].tag) then 2 else 1
  }

  lemma {:induction false} LiveCountGrows(rs: seq<Record>, n: nat, m: nat)
    requires n <= m <= |rs|
    ensures n <= LiveCount(rs, n) && LiveCount(rs, n) + (m - n) <= LiveCount(rs, m)
  {
    if n < m { LiveCountGrows(rs, n, m - 1); } else if n > 0 { LiveCountGrows(rs, n - 1, n - 1); }
  }

  /** The document has as much to spare as it has when the first `n` records have been made. */
  ghost predicate Affordable(d: L.LiveDocument, rs: seq<Record>, n: nat)
    requires n <= |rs|
    reads d
  {
    d.Spare() >= SLOT_LIMIT - LiveCount(rs, n)
  }

  /** A value copied from its record: detached, with nothing under it yet. */
  method CopyValue(d: L.LiveDocument, rs: seq<Record>, index: nat, ghost names: U32, ghost strings: U32, ghost keys: seq<Key>, ghost at: seq<Slot>)
    returns (key: Key)
    requires RecordsSound(rs, names, strings) && BuiltIn(d, rs, keys, at) && index == |at| < |rs| && |d.names| + 1 == names < NONE && |d.strings| + 1 == strings
    modifies d`nodes, d`keyAt, d`slotOf, d`nextKey, d`kids, d`rank, d`bound
    ensures d.IsReady() && d.Inv()
    ensures key != NO_KEY ==> key in d.slotOf && key != d.root && Loose(d.Shape(), rs, at, d.slotOf[key]) && Keyed(d.slotOf, keys, at)
    ensures old(Affordable(d, rs, index)) && LiveCount(rs, index + 1) <= SLOT_LIMIT ==> key != NO_KEY && Affordable(d, rs, index + 1)
  {
    hide RecordsSound, RecordSound, PayloadOf, Named, Meta, Decode, PayloadValid, NameValid, d.Inv, Advances, Built, d.Created, d.Valid,
      LiveCount, Affordable, d.Spare, d.Cost, IsContainer, Loose, KidsOf, IsValue, Unattached, BuiltIn, Keyed;
    BuiltParts(d, rs, keys, at);
    var r := rs[index];
    ghost var affordable := Affordable(d, rs, index) && LiveCount(rs, index + 1) <= SLOT_LIMIT;
    RecordCost(d, rs, index, names, strings);
    if affordable { SpareLeft(d, rs, index, d.Spare()); }
    RecordParts(rs, names, strings, index);
    PayloadSound(r, strings);
    NameFits(r, names, strings);
    ghost var f, keyAt0, slotOf0 := d.Shape(), d.keyAt, d.slotOf;
    key := d.CreateValue(PayloadOf(r), r.name, Named(r.flags));
    if key != NO_KEY {
      Copied(d, rs, keys, at, f, keyAt0, slotOf0, key);
      if affordable { SpareLeft(d, rs, index + 1, d.Spare()); }
    }
  }

  /** One more record is counted by what its value costs. */
  lemma RecordCost(d: L.LiveDocument, rs: seq<Record>, index: nat, names: U32, strings: U32)
    requires index < |rs| && RecordsSound(rs, names, strings) && strings > 0
    ensures LiveCount(rs, index + 1) == LiveCount(rs, index) + d.Cost(PayloadOf(rs[index]))
  {
    hide RecordsSound, RecordSound, PayloadOf;
    RecordParts(rs, names, strings, index);
    PayloadSound(rs[index], strings);
  }

  /** The keys of the values that the first records became. */
  ghost predicate Keyed(slotOf: map<Key, Slot>, keys: seq<Key>, at: seq<Slot>) {
    |keys| == |at| && forall i :: 0 <= i < |keys| ==> keys[i] != NO_KEY && keys[i] in slotOf && slotOf[keys[i]] == at[i]
  }

  lemma BuiltParts(d: L.LiveDocument, rs: seq<Record>, keys: seq<Key>, at: seq<Slot>)
    requires BuiltIn(d, rs, keys, at)
    ensures d.IsReady() && d.Inv() && Built(d.Shape(), rs, at) && Keyed(d.slotOf, keys, at)
    ensures d.root in d.slotOf && d.keyAt.Keys == d.nodes.Keys && forall b :: b in d.kids ==> b in d.nodes
  {
    d.Known();
  }

  /** A created value is loose, and the values that were there keep their keys. */
  lemma Copied(d: L.LiveDocument, rs: seq<Record>, keys: seq<Key>, at: seq<Slot>, f: Shape, keyAt0: map<Slot, Key>, slotOf0: map<Key, Slot>, key: Key)
    requires d.Inv() && Built(f, rs, at) && Keyed(slotOf0, keys, at) && |at| < |rs| && d.root in slotOf0
    requires keyAt0.Keys == f.nodes.Keys && forall b :: b in f.kids ==> b in f.nodes
    requires var r := rs[|at|]; d.Created(f.nodes, f.kids, keyAt0, slotOf0, key, PayloadOf(r), r.name, Named(r.flags))
    ensures key in d.slotOf && key != d.root && Loose(d.Shape(), rs, at, d.slotOf[key]) && Keyed(d.slotOf, keys, at)
  {
    hide d.Inv, d.Created, Built, PayloadOf, Named, Loose;
    var r := rs[|at|];
    d.CreatedFacts(f, keyAt0, slotOf0, key, PayloadOf(r), r.name, Named(r.flags));
    d.Known();
    BuiltCreated(f, d.Shape(), rs, at, d.slotOf[key]);
  }

  lemma SpareLeft(d: L.LiveDocument, rs: seq<Record>, n: nat, spare: int)
    requires n <= |rs| && spare == d.Spare()
    ensures Affordable(d, rs, n) <==> spare >= SLOT_LIMIT - LiveCount(rs, n)
  {
  }

  lemma NameFits(r: Record, names: U32, strings: U32)
    requires RecordSound(r, strings) && r.name < names < NONE
    ensures NameValid(r.name, Named(r.flags), names - 1)
  {
  }

  /** Attaches the copied value under its parent, which the unchecked path accepts: no member of
      that name is there yet, and the value holds nothing. */
  method AttachCopy(d: L.LiveDocument, rs: seq<Record>, parent: Key, key: Key, ghost names: U32, ghost strings: U32, ghost keys: seq<Key>, ghost at: seq<Slot>)
    returns (ok: bool)
    requires RecordsSound(rs, names, strings) && d.IsReady() && d.Inv() && |keys| == |at|
    requires key != NO_KEY && key in d.slotOf && key != d.root && Loose(d.Shape(), rs, at, d.slotOf[key])
    requires forall i :: 0 <= i < |keys| ==> keys[i] != NO_KEY && keys[i] in d.slotOf && d.slotOf[keys[i]] == at[i]
    requires rs[|at|].parent < |keys| ==> parent == keys[rs[|at|].parent]
    requires |keys| > 0 && keys[0] == d.root
    modifies d`nodes, d`kids, d`rank, d`bound, d`bad
    ensures ok && BuiltIn(d, rs, keys + [key], at + [d.slotOf[key]])
    ensures d.Spare() == old(d.Spare())
  {
    hide RecordsSound, d.Inv, Built, d.Verdict, Admission, Carries, BuiltAt, LinkedUnder;
    ghost var f, v := d.Shape(), d.slotOf[key];
    LooseAdmitted(f, rs, names, strings, at, v);
    d.Admitted(parent, key);
    var r := d.AppendConstructedChild(parent, key);
    ok := r.Accepted?;
    d.Known();
    LinkedSize(f, d.Shape(), d.slotOf[parent], v, |KidsOf(f.nodes, f.kids, d.slotOf[parent])|);
    BuiltLinked(f, d.Shape(), rs, names, strings, at, v);
  }

  lemma LinkedSize(f: Shape, f': Shape, parent: Slot, v: Slot, at: nat)
    requires LinkedUnder(f.nodes, f.kids, f'.nodes, f'.kids, parent, v, at)
    ensures |f'.nodes| == |f.nodes|
  {
    SameSize(f.nodes, f'.nodes);
  }

  /** What a promotion leaves behind: a well-formed document whose one tree is that of the records. */
  ghost predicate PromotedTo(d: L.LiveDocument, rs: seq<Record>, names: seq<Bytes>, strings: seq<Bytes>)
    requires |names| + 1 < NONE && |strings| + 1 < NONE && RecordsSound(rs, |names| + 1, |strings| + 1)
    reads d
  {
    && d.IsReady() && d.Inv() && d.names == names && d.strings == strings
    && IsValue(d.nodes, d.SlotOf(d.root))
    && ContentOf(d.Shape(), d.SlotOf(d.root)) == TreeAt(rs, |names| + 1, |strings| + 1, 0)
    && (forall s :: IsValue(d.nodes, s) ==> Under(d.nodes, s, d.SlotOf(d.root)))
  }

  lemma Complete(d: L.LiveDocument, rs: seq<Record>, names: seq<Bytes>, strings: seq<Bytes>, keys: seq<Key>, at: seq<Slot>)
    requires |names| + 1 < NONE && |strings| + 1 < NONE && RecordsSound(rs, |names| + 1, |strings| + 1)
    requires BuiltIn(d, rs, keys, at) && |at| == |rs| && d.names == names && d.strings == strings
    ensures PromotedTo(d, rs, names, strings)
  {
    d.Known();
    hide RecordsSound, d.Inv;
    var f := d.Shape();
    BuiltContent(f, rs, |names| + 1, |strings| + 1, at, 0);
    forall s | IsValue(f.nodes, s) ensures Under(f.nodes, s, at[0]) {
      var i :| 0 <= i < |at| && at[i] == s;
      BuiltUnder(f, rs, |names| + 1, |strings| + 1, at, i);
    }
  }

  lemma Begun(d: L.LiveDocument, rs: seq<Record>, names: U32, strings: U32)
    requires RecordsSound(rs, names, strings) && d.IsReady() && d.Inv() && d.Children(d.root) == []
    requires d.nodes[d.SlotOf(d.root)].payload == Payload(if rs[0].tag == 6 then Array else Object, 0, false, PLAIN)
    requires forall s :: IsValue(d.nodes, s) ==> s == d.SlotOf(d.root)
    ensures BuiltIn(d, rs, [d.root], [d.SlotOf(d.root)])
  {
    d.Known();
    assert FirstPass(rs, 0, names, strings);
    var at := [d.SlotOf(d.root)];
    RangesBegin(rs);
    hide Wf, IsForest;
    RootPayload(rs[0], strings);
    assert KidsSoFar(rs, at, 0) == [];
    assert BuiltAt(d.Shape(), rs, at, 0);
  }

  lemma RootPayload(r: Record, strings: U32)
    requires RecordSound(r, strings) && IsContainerTag(r.tag)
    ensures PayloadOf(r) == Payload(if r.tag == 6 then Array else Object, 0, false, PLAIN)
  {
  }

  lemma {:induction false} RootCost(rs: seq<Record>, names: U32, strings: U32)
    requires RecordsSound(rs, names, strings)
    ensures |rs| > 0 && LiveCount(rs, 1) == 2
  {
    assert FirstPass(rs, 0, names, strings);
    assert LiveCount(rs, 0) == 0;
  }

  lemma SameSize(nodes: Nodes, nodes': Nodes)
    requires nodes'.Keys == nodes.Keys
    ensures |nodes'| == |nodes|
  {
    assert |nodes'| == |nodes'.Keys| && |nodes| == |nodes.Keys|;
  }

  /** A new document whose root has the baked root's type and whose tables are the baked ones. */
  method BeginDocument(rs: seq<Record>, names: seq<Bytes>, strings: seq<Bytes>, breaks: LineBreaks, granted: bool) returns (ok: bool, d: L.LiveDocument)
    requires |names| + 1 < NONE && |strings| + 1 < NONE && RecordsSound(rs, |names| + 1, |strings| + 1) && Texts(names, strings, breaks)
    requires |rs| > 0
    ensures fresh(d) && d.breaks == breaks && (ok ==> BuiltIn(d, rs, [d.root], [d.SlotOf(d.root)]) && d.names == names && d.strings == strings)
    ensures granted ==> ok && Affordable(d, rs, 1)
  {
    hide RecordsSound, Texts, BuiltIn, L.LiveDocument.Inv;
    d := new L.LiveDocument(breaks, granted);
    if !d.IsReady() { return false, d; }
    ghost var before := d.nodes;
    RootCost(rs, |names| + 1, |strings| + 1);
    var typed := d.SetRootType(if rs[0].tag == 6 then Array else Object);
    if !typed { return false, d; }
    ok := PreloadStrings(d, names, strings);
    SameSize(before, d.nodes);
    if ok { Begun(d, rs, |names| + 1, |strings| + 1); }
  }

  /** Builds a live document from validated records: the root takes the baked root's type, and every other
      value is copied and attached in order, without the searches for a namesake or a cycle. */
  method Promote(rs: seq<Record>, names: seq<Bytes>, strings: seq<Bytes>, breaks: LineBreaks, granted: bool) returns (ok: bool, d: L.LiveDocument)
    requires |names| + 1 < NONE && |strings| + 1 < NONE && RecordsSound(rs, |names| + 1, |strings| + 1) && Texts(names, strings, breaks)
    ensures fresh(d) && d.breaks == breaks && (ok ==> PromotedTo(d, rs, names, strings))
    ensures granted && LiveCount(rs, |rs|) <= SLOT_LIMIT ==> ok
  {
    hide RecordsSound, Texts, InOrder, BuiltIn, PromotedTo, LiveCount, Affordable, L.LiveDocument.Inv, L.LiveDocument.IsReady, L.LiveDocument.Valid;
    ghost var n, m := |names| + 1, |strings| + 1;
    RecordsSome(rs, n, m);
    var prepared, values := PrepareValues(rs, n, m);
    ok, d := BeginDocument(rs, names, strings, breaks, granted);
    if !prepared || !ok { return false, d; }
    var keys := [d.root];
    ghost var at := [d.SlotOf(d.root)];
    var index := 1;
    while index < |values|
      invariant 1 <= index == |keys| == |at| <= |rs| && fresh(d)
      invariant BuiltIn(d, rs, keys, at) && d.names == names && d.strings == strings
      invariant granted && LiveCount(rs, |rs|) <= SLOT_LIMIT ==> Affordable(d, rs, index)
    {
      LiveCountGrows(rs, index + 1, |rs|);
      var key;
      ok, key := AddValue(d, rs, values, index, keys, n, m, at);
      if !ok { return; }
      keys, at := keys + [key], at + [d.slotOf[key]];
      index := index + 1;
    }
    ok := true;
    Complete(d, rs, names, strings, keys, at);
  }

  /** Copies one value and attaches it under its parent. */
  method AddValue(d: L.LiveDocument, rs: seq<Record>, values: seq<Promoted>, index: nat, keys: seq<Key>, ghost names: U32, ghost strings: U32, ghost at: seq<Slot>)
    returns (ok: bool, key: Key)
    requires RecordsSound(rs, names, strings) && InOrder(rs, values) && |values| == |rs|
    requires BuiltIn(d, rs, keys, at) && 0 < index == |at| < |rs| && |d.names| + 1 == names < NONE && |d.strings| + 1 == strings
    modifies d`nodes, d`keyAt, d`slotOf, d`nextKey, d`kids, d`rank, d`bound, d`bad
    ensures ok ==> key in d.slotOf && BuiltIn(d, rs, keys + [key], at + [d.slotOf[key]])
    ensures old(Affordable(d, rs, index)) && LiveCount(rs, index + 1) <= SLOT_LIMIT ==> ok && Affordable(d, rs, index + 1)
  {
    hide RecordsSound, InOrder, Built, Loose, L.LiveDocument.Inv;
    key := CopyValue(d, rs, index, names, strings, keys, at);
    if key == NO_KEY { return false, key; }
    ParentListed(rs, names, strings, values, index);
    ok := AttachCopy(d, rs, keys[values[index].parent], key, names, strings, keys, at);
  }

  lemma RecordsSome(rs: seq<Record>, names: U32, strings: U32)
    requires RecordsSound(rs, names, strings)
    ensures |rs| > 0
  {
  }

  lemma ParentListed(rs: seq<Record>, names: U32, strings: U32, values: seq<Promoted>, i: nat)
    requires RecordsSound(rs, names, strings) && InOrder(rs, values) && 0 < i < |values| == |rs|
    ensures values[i].parent == rs[i].parent < i
  {
    ParentRange(rs, names, strings, i);
  }
}
