/**
 Records of a baked document (core/data_model/baked_document_format.hpp) and the
 breadth-first encoding of a tree as a sequence of them.
 */
module BakedRecords {
  import opened LiveNode
  import opened Content
  import opened BreadthFirst
  import opened ValueFlags

  type U32 = x: nat | x < 0x1_0000_0000
  const NONE: U32 := 0xffff_ffff

  /** One record; `reserved` stands for both fields that must stay zero. */
  datatype Record = Record(bits: Bits, parent: U32, first: U32, count: U32, name: U32, tag: nat, flags: bv16, reserved: nat)

  function TagOf(t: ValueType): nat {
    match t
    case EmptyValue => 0
    case NullValue => 1
    case Boolean => 2
    case Integer => 3
    case FloatingPoint => 4
    case Text => 5
    case Array => 6
    case Object => 7
  }

  function TypeOf(tag: nat): ValueType {
    if tag == 1 then NullValue
    else if tag == 2 then Boolean
    else if tag == 3 then Integer
    else if tag == 4 then FloatingPoint
    else if tag == 5 then Text
    else if tag == 6 then Array
    else if tag == 7 then Object
    else EmptyValue
  }

  /** The value that holds value `k` of a layout; the root has none. */
  ghost function Holder(ts: seq<Tree>, k: nat): nat
    requires Laid(ts) && 0 < k < |ts|
    ensures Holder(ts, k) < k && Start(ts, Holder(ts, k)) <= k < Start(ts, Holder(ts, k) + 1)
  {
    HolderExists(ts, k);
    var i: nat :| i < k && Start(ts, i) <= k < Start(ts, i + 1);
    i
  }

  /** The record of value `i` of a layout. */
  ghost function RecordFor(ts: seq<Tree>, i: nat): Record
    requires Laid(ts) && i < |ts| < NONE
    requires ts[i].name < NONE
  {
    var t := ts[i];
    StartGrows(ts, i, |ts|);
    StartGrows(ts, i + 1, |ts|);
    var first := i > 0 && i == Start(ts, Holder(ts, i));
    var last := i > 0 && i + 1 == Start(ts, Holder(ts, i) + 1);
    Record(t.payload.bits, if i == 0 then NONE else Holder(ts, i), if t.kids == [] then NONE else Start(ts, i), |t.kids|, t.name,
           TagOf(t.payload.vtype), Pack(Encode(t.payload.meta), t.named, t.payload.suppress, first, last), 0)
  }

  ghost predicate NamesFit(ts: seq<Tree>) {
    |ts| < NONE && forall i :: 0 <= i < |ts| ==> ts[i].name < NONE
  }

  ghost function Records(ts: seq<Tree>): (rs: seq<Record>)
    requires Laid(ts) && NamesFit(ts)
    ensures |rs| == |ts|
  {
    seq(|ts|, i requires 0 <= i < |ts| => RecordFor(ts, i))
  }

  /** A value that a baked document can hold, given how many names and strings it has. */
  ghost predicate ValueFit(t: Tree, names: nat, strings: nat) {
    && !t.payload.vtype.EmptyValue? && PayloadValid(t.payload, strings) && NameValid(t.name, t.named, names)
    && (!IsContainer(t.payload.vtype) ==> t.kids == [])
    && (t.payload.vtype.Object? ==>
          && (forall i :: 0 <= i < |t.kids| ==> t.kids[i].named)
          && (forall i, j :: 0 <= i < j < |t.kids| ==> t.kids[i].name != t.kids[j].name))
  }

  ghost predicate RootFit(t: Tree) {
    IsContainer(t.payload.vtype) && !t.named
  }

  ghost predicate HasName(ts: seq<Tree>, n: nat) {
    exists i :: 0 <= i < |ts| && ts[i].name == n
  }

  ghost predicate HasString(ts: seq<Tree>, n: nat) {
    exists i :: 0 <= i < |ts| && ts[i].payload.vtype.Text? && ts[i].payload.bits == n
  }

  /** A tree a baked document can hold: every value fits, and every name and string is used. */
  ghost predicate Bakeable(t: Tree, names: nat, strings: nat) {
    var ts := BreadthOrder([t]);
    && |ts| < NONE && names < NONE && strings < NONE && RootFit(t)
    && (forall i :: 0 <= i < |ts| ==> ValueFit(ts[i], names, strings))
    && (forall n :: 0 < n <= names ==> HasName(ts, n)) && (forall n :: 0 < n <= strings ==> HasString(ts, n))
  }

  lemma BakeableFits(t: Tree, names: nat, strings: nat)
    requires Bakeable(t, names, strings)
    ensures Laid(BreadthOrder([t])) && BreadthOrder([t])[0] == t && NamesFit(BreadthOrder([t]))
  {
    OrderLaid(t);
    var ts := BreadthOrder([t]);
    forall i | 0 <= i < |ts| ensures ts[i].name < NONE { assert ValueFit(ts[i], names, strings); }
  }

  /** The breadth-first encoding of a tree. */
  ghost function Encoding(t: Tree, names: nat, strings: nat): seq<Record>
    requires Bakeable(t, names, strings)
  {
    BakeableFits(t, names, strings);
    Records(BreadthOrder([t]))
  }

  // ---------------------------------------------------------------------
  // What validation looks at, record by record

  predicate IsContainerTag(tag: nat) {
    tag == 6 || tag == 7
  }

  /** The encoding of one record, without its place in the tree (validate_record_encoding). */
  predicate RecordSound(r: Record, strings: U32) {
    && 1 <= r.tag <= 7 && Clean(r.flags) && (!Named(r.flags) ==> r.name == 0)
    && (Suppressed(r.flags) ==> r.tag == 5) && r.reserved == 0
    && var meta := Meta(r.flags);
    if IsContainerTag(r.tag) then
      r.bits == 0 && meta == 0 && (r.count == 0 <==> r.first == NONE)
    else
      && r.first == NONE && r.count == 0
      && (r.tag == 1 ==> r.bits == 0 && meta == 0)
      && (r.tag == 2 ==> r.bits <= 1 && meta == 0)
      && (r.tag == 3 ==> Decode(meta).Decoded? && IntegerValid(r.bits, Decode(meta).value))
      && (r.tag == 4 ==> meta == 0 && FiniteBits(r.bits))
      && (r.tag == 5 ==> meta == 0 && r.bits < 0x1_0000_0000 && r.bits < strings)
  }

  /** The first pass over record `i`. */
  predicate FirstPass(rs: seq<Record>, i: nat, names: U32, strings: U32)
    requires i < |rs|
  {
    var r := rs[i];
    && RecordSound(r, strings) && r.name < names
    && (if i == 0 then
          IsContainerTag(r.tag) && r.parent == NONE && r.name == 0 && !Named(r.flags) && Positioned(r.flags, false, false)
        else r.parent < i)
  }

  /** Where the children of record `i` must begin. */
  function RangeStart(rs: seq<Record>, i: nat): nat
    requires i <= |rs|
  {
    if i == 0 then 1 else RangeStart(rs, i - 1) + rs[i - 1].count
  }

  /** Child `k` of container `i`, whose children run from `start` to `end`. */
  predicate ChildSound(rs: seq<Record>, i: nat, k: nat, start: nat, end: nat)
    requires i < |rs| && k < |rs|
  {
    && rs[k].parent == i && Positioned(rs[k].flags, k == start, k + 1 == end)
    && (rs[i].tag == 7 ==>
          Named(rs[k].flags) && forall j :: start <= j < k < |rs| ==> rs[j].name != rs[k].name)
  }

  /** The second pass over record `i`. */
  predicate SecondPass(rs: seq<Record>, i: nat)
    requires i < |rs|
  {
    var start, end := RangeStart(rs, i), RangeStart(rs, i + 1);
    rs[i].count > 0 ==>
      && rs[i].first == start && end <= |rs|
      && forall k :: start <= k < end ==> ChildSound(rs, i, k, start, end)
  }

  ghost predicate NameUsed(rs: seq<Record>, n: nat) {
    exists i :: 0 <= i < |rs| && rs[i].name == n
  }

  ghost predicate StringUsed(rs: seq<Record>, n: nat) {
    exists i :: 0 <= i < |rs| && rs[i].tag == 5 && rs[i].bits == n
  }

  /** Everything validation asks of the records. */
  ghost predicate RecordsSound(rs: seq<Record>, names: U32, strings: U32) {
    && 0 < |rs| < NONE && names > 0 && strings > 0
    && (forall i :: 0 <= i < |rs| ==> FirstPass(rs, i, names, strings))
    && (forall n :: 0 < n < names ==> NameUsed(rs, n))
    && (forall i :: 0 <= i < |rs| ==> SecondPass(rs, i)) && RangeStart(rs, |rs|) == |rs|
    && (forall n :: 0 < n < strings ==> StringUsed(rs, n))
  }

  // ---------------------------------------------------------------------
  // From sound records to a tree

  lemma {:induction false} RangeGrows(rs: seq<Record>, i: nat, j: nat)
    requires i <= j <= |rs|
    ensures RangeStart(rs, i) <= RangeStart(rs, j)
    decreases j
  {
    if i < j { RangeGrows(rs, i, j - 1); }
  }

  lemma {:induction false} RangeOf(rs: seq<Record>, k: nat, n: nat) returns (i: nat)
    requires n <= |rs| && 1 <= k < RangeStart(rs, n)
    ensures i < n && RangeStart(rs, i) <= k < RangeStart(rs, i + 1)
  {
    if RangeStart(rs, n - 1) <= k { i := n - 1; } else { i := RangeOf(rs, k, n - 1); }
  }

  /** Each record but the root lies in the range of the record it names as its parent. */
  lemma {:induction false} ParentRange(rs: seq<Record>, names: U32, strings: U32, k: nat)
    requires RecordsSound(rs, names, strings) && 0 < k < |rs|
    ensures var p := rs[k].parent; p < k && RangeStart(rs, p) <= k < RangeStart(rs, p + 1) && ChildSound(rs, p, k, RangeStart(rs, p), RangeStart(rs, p + 1))
  {
    var i := RangeOf(rs, k, |rs|);
    assert SecondPass(rs, i) && FirstPass(rs, k, names, strings);
    assert ChildSound(rs, i, k, RangeStart(rs, i), RangeStart(rs, i + 1));
  }

  lemma RangeAhead(rs: seq<Record>, names: U32, strings: U32, i: nat)
    requires RecordsSound(rs, names, strings) && i < |rs|
    ensures i < RangeStart(rs, i) && RangeStart(rs, i + 1) <= |rs|
  {
    RangeGrows(rs, i + 1, |rs|);
    if i > 0 {
      ParentRange(rs, names, strings, i);
      RangeGrows(rs, rs[i].parent + 1, i);
    }
  }

  function PayloadOf(r: Record): Payload {
    var meta := Decode(Meta(r.flags));
    Payload(TypeOf(r.tag), r.bits, Suppressed(r.flags), if r.tag == 3 && meta.Decoded? then meta.value else PLAIN)
  }

  /** The tree below record `i`. */
  ghost function TreeAt(rs: seq<Record>, names: U32, strings: U32, i: nat): Tree
    requires RecordsSound(rs, names, strings) && i < |rs|
    decreases |rs| - i
  {
    RangeAhead(rs, names, strings, i);
    var start := RangeStart(rs, i);
    Tree(PayloadOf(rs[i]), rs[i].name, Named(rs[i].flags),
         seq(rs[i].count, j requires 0 <= j < rs[i].count => TreeAt(rs, names, strings, start + j)))
  }

  ghost function Trees(rs: seq<Record>, names: U32, strings: U32): (ts: seq<Tree>)
    requires RecordsSound(rs, names, strings)
    ensures |ts| == |rs| && forall i :: 0 <= i < |rs| ==> ts[i] == TreeAt(rs, names, strings, i)
  {
    seq(|rs|, i requires 0 <= i < |rs| => TreeAt(rs, names, strings, i))
  }

  lemma {:induction false} SameStarts(rs: seq<Record>, names: U32, strings: U32, i: nat)
    requires RecordsSound(rs, names, strings) && i <= |rs|
    ensures Start(Trees(rs, names, strings), i) == RangeStart(rs, i)
  {
    if i > 0 { SameStarts(rs, names, strings, i - 1); }
  }

  lemma {:induction false} SoundEnds(rs: seq<Record>, names: U32, strings: U32)
    requires RecordsSound(rs, names, strings)
    ensures RangeStart(rs, |rs|) == |rs|
  {
  }

  lemma KidsStart(rs: seq<Record>, names: U32, strings: U32, i: nat)
    requires RecordsSound(rs, names, strings) && i < |rs|
    ensures RangeStart(rs, i) + rs[i].count == RangeStart(rs, i + 1) <= |rs|
    ensures var t := TreeAt(rs, names, strings, i);
      |t.kids| == rs[i].count && forall j :: 0 <= j < |t.kids| ==> t.kids[j] == TreeAt(rs, names, strings, RangeStart(rs, i) + j)
  {
    RangeAhead(rs, names, strings, i);
    hide RecordsSound, PayloadOf, Named;
  }

  /** The trees below sound records are laid out breadth first. */
  lemma {:induction false} TreesLaid(rs: seq<Record>, names: U32, strings: U32)
    requires RecordsSound(rs, names, strings)
    ensures Laid(Trees(rs, names, strings)) && BreadthOrder([TreeAt(rs, names, strings, 0)]) == Trees(rs, names, strings)
  {
    hide RecordsSound, Start, RangeStart, BreadthOrder, PayloadOf, Named;
    var ts := Trees(rs, names, strings);
    SoundSize(rs, names, strings);
    SoundEnds(rs, names, strings);
    SameStarts(rs, names, strings, |rs|);
    forall i | 0 <= i < |ts| ensures KidsAt(ts, i) {
      SameStarts(rs, names, strings, i);
      SameStarts(rs, names, strings, i + 1);
      RangeAhead(rs, names, strings, i);
      KidsStart(rs, names, strings, i);
    }
    LaidOrder(ts);
  }

  // ---------------------------------------------------------------------
  // Sound records are exactly the encodings of trees

  lemma PayloadSound(r: Record, strings: U32)
    requires RecordSound(r, strings) && strings > 0
    ensures PayloadValid(PayloadOf(r), strings - 1) && !PayloadOf(r).vtype.EmptyValue?
    ensures TagOf(PayloadOf(r).vtype) == r.tag && PayloadOf(r).bits == r.bits && Encode(PayloadOf(r).meta) == Meta(r.flags)
    ensures IsContainer(PayloadOf(r).vtype) == IsContainerTag(r.tag) && PayloadOf(r).suppress == Suppressed(r.flags)
  {
    if r.tag == 3 { EncodeDecode(Meta(r.flags)); }
  }

  /** Record `i` of sound records, with its place among its siblings. */
  lemma PlaceOf(rs: seq<Record>, names: U32, strings: U32, i: nat)
    requires RecordsSound(rs, names, strings) && i < |rs|
    ensures i == 0 ==> rs[0].parent == NONE && Positioned(rs[0].flags, false, false)
    ensures i > 0 ==> var ts, p := Trees(rs, names, strings), rs[i].parent;
      Laid(ts) && p == Holder(ts, i) && p < i && Positioned(rs[i].flags, i == Start(ts, p), i + 1 == Start(ts, p + 1))
  {
    hide RecordSound, Positioned, Named;
    assert FirstPass(rs, i, names, strings);
    if i > 0 {
      var ts, p := Trees(rs, names, strings), rs[i].parent;
      TreesLaid(rs, names, strings);
      ParentRange(rs, names, strings, i);
      SameStarts(rs, names, strings, p);
      SameStarts(rs, names, strings, p + 1);
      hide RecordsSound, Trees, Laid, FirstPass;
      OneHolder(ts, i, p, Holder(ts, i));
    }
  }

  lemma {:induction false} RecordParts(rs: seq<Record>, names: U32, strings: U32, i: nat)
    requires RecordsSound(rs, names, strings) && i < |rs|
    ensures var r := rs[i];
      && RecordSound(r, strings) && r.name < names && r.reserved == 0
      && r.first == (if r.count == 0 then NONE else RangeStart(rs, i)) && (!IsContainerTag(r.tag) ==> r.count == 0)
      && Start(Trees(rs, names, strings), i) == RangeStart(rs, i)
  {
    assert FirstPass(rs, i, names, strings) && SecondPass(rs, i);
    SameStarts(rs, names, strings, i);
    hide Positioned, Named, Suppressed, Clean, Meta, Decode;
  }

  lemma TreeParts(rs: seq<Record>, names: U32, strings: U32, i: nat)
    requires RecordsSound(rs, names, strings) && i < |rs|
    ensures var t, r := Trees(rs, names, strings)[i], rs[i];
      t.payload == PayloadOf(r) && t.name == r.name && t.named == Named(r.flags) && |t.kids| == r.count
  {
    hide RecordsSound, PayloadOf, Named;
  }

  /** Record `i` is the encoding of the tree below it. */
  lemma RecordBack(rs: seq<Record>, names: U32, strings: U32, i: nat)
    requires RecordsSound(rs, names, strings) && i < |rs|
    ensures var ts := Trees(rs, names, strings); Laid(ts) && |ts| < NONE && ts[i].name < NONE && RecordFor(ts, i) == rs[i]
  {
    assert |rs| < NONE;
    hide RecordsSound, Laid, PayloadOf, Positioned, Named, Suppressed, Meta, Decode, Encode, Pack, Trees, Start, RangeStart, TagOf;
    var ts, r := Trees(rs, names, strings), rs[i];
    TreesLaid(rs, names, strings);
    TreeParts(rs, names, strings, i);
    RecordParts(rs, names, strings, i);
    PlaceOf(rs, names, strings, i);
    PayloadSound(r, strings);
    assert Clean(r.flags);
    hide RecordSound, Clean;
    PackWhole(r.flags, i > 0 && i == Start(ts, r.parent), i > 0 && i + 1 == Start(ts, r.parent + 1));
  }

  lemma {:induction false} KidsFit(rs: seq<Record>, names: U32, strings: U32, i: nat)
    requires RecordsSound(rs, names, strings) && i < |rs| && rs[i].tag == 7
    ensures var t := TreeAt(rs, names, strings, i);
      && (forall j :: 0 <= j < |t.kids| ==> t.kids[j].named)
      && (forall j, k :: 0 <= j < k < |t.kids| ==> t.kids[j].name != t.kids[k].name)
  {
    hide RecordSound, Positioned, Named, PayloadOf;
    var t := TreeAt(rs, names, strings, i);
    assert SecondPass(rs, i);
    RangeAhead(rs, names, strings, i);
    var start, end := RangeStart(rs, i), RangeStart(rs, i + 1);
    forall j | 0 <= j < |t.kids| ensures t.kids[j].named && t.kids[j].name == rs[start + j].name {
      assert ChildSound(rs, i, start + j, start, end);
      assert t.kids[j] == TreeAt(rs, names, strings, start + j);
    }
    forall j, k | 0 <= j < k < |t.kids| ensures t.kids[j].name != t.kids[k].name { assert ChildSound(rs, i, start + k, start, end); }
  }

  lemma {:induction false} TreeFits(rs: seq<Record>, names: U32, strings: U32, i: nat)
    requires RecordsSound(rs, names, strings) && i < |rs|
    ensures ValueFit(TreeAt(rs, names, strings, i), names - 1, strings - 1)
  {
    var r, t := rs[i], TreeAt(rs, names, strings, i);
    RecordParts(rs, names, strings, i);
    PayloadSound(r, strings);
    if r.tag == 7 { KidsFit(rs, names, strings, i); }
    hide RecordsSound, Positioned, Named, Suppressed, Clean, Meta, Decode, PayloadValid;
    assert t.payload == PayloadOf(r) && t.named == Named(r.flags) && |t.kids| == r.count && t.name == r.name;
    hide PayloadOf;
  }

  lemma {:induction false} RootFits(rs: seq<Record>, names: U32, strings: U32)
    requires RecordsSound(rs, names, strings)
    ensures RootFit(TreeAt(rs, names, strings, 0))
  {
    assert FirstPass(rs, 0, names, strings);
    PayloadSound(rs[0], strings);
    hide Named, Decode, PayloadOf;
  }

  lemma AllUsed(rs: seq<Record>, names: U32, strings: U32)
    requires RecordsSound(rs, names, strings)
    ensures var ts := Trees(rs, names, strings);
      (forall n :: 0 < n < names ==> HasName(ts, n)) && (forall n :: 0 < n < strings ==> HasString(ts, n))
  {
    hide Named, Decode, PayloadOf;
    var ts := Trees(rs, names, strings);
    forall n | 0 < n < names ensures HasName(ts, n) {
      assert NameUsed(rs, n);
      var i :| 0 <= i < |rs| && rs[i].name == n;
      assert ts[i].name == n;
    }
    forall n | 0 < n < strings ensures HasString(ts, n) {
      assert StringUsed(rs, n);
      var i :| 0 <= i < |rs| && rs[i].tag == 5 && rs[i].bits == n;
      assert ts[i].payload == PayloadOf(rs[i]);
      TextRecord(rs[i]);
    }
  }

  lemma TextRecord(r: Record)
    ensures PayloadOf(r).bits == r.bits && (r.tag == 5 <==> PayloadOf(r).vtype.Text?)
  {
  }

  lemma SoundSize(rs: seq<Record>, names: U32, strings: U32)
    requires RecordsSound(rs, names, strings)
    ensures 0 < |rs| < NONE && 0 < names && 0 < strings
  {
  }

  /** Records that pass validation are the breadth-first encoding of the tree below the first. */
  lemma {:induction false} SoundEncodes(rs: seq<Record>, names: U32, strings: U32)
    requires RecordsSound(rs, names, strings)
    ensures var t := TreeAt(rs, names, strings, 0); Bakeable(t, names - 1, strings - 1) && Encoding(t, names - 1, strings - 1) == rs
  {
    hide RecordsSound, ValueFit, RootFit, TreeAt, Laid, HasName, HasString, RecordFor, Holder, BreadthOrder, Start, PayloadOf, Named;
    SoundSize(rs, names, strings);
    var n, m := names - 1, strings - 1;
    var t, ts := TreeAt(rs, names, strings, 0), Trees(rs, names, strings);
    TreesLaid(rs, names, strings);
    RootFits(rs, names, strings);
    AllUsed(rs, names, strings);
    forall i | 0 <= i < |ts| ensures ValueFit(ts[i], names - 1, strings - 1) { TreeFits(rs, names, strings, i); }
    forall i | 0 <= i < |rs| ensures ts[i].name < NONE && RecordFor(ts, i) == rs[i] { RecordBack(rs, names, strings, i); }
    assert Bakeable(t, n, m);
    assert Encoding(t, n, m) == Records(ts);
  }

  // The other way.

  /** The parts of an encoded record. */
  lemma {:induction false} RecordForParts(ts: seq<Tree>, i: nat)
    requires Laid(ts) && NamesFit(ts) && i < |ts|
    ensures var r, t := Records(ts)[i], ts[i];
      && r == RecordFor(ts, i) && r.bits == t.payload.bits && r.count == |t.kids| && r.name == t.name && r.tag == TagOf(t.payload.vtype)
      && r.reserved == 0 && r.first == (if t.kids == [] then NONE else Start(ts, i))
      && Clean(r.flags) && Meta(r.flags) == Encode(t.payload.meta) && Named(r.flags) == t.named && Suppressed(r.flags) == t.payload.suppress
      && (i == 0 ==> r.parent == NONE && Positioned(r.flags, false, false))
      && (i > 0 ==> r.parent == Holder(ts, i) && Positioned(r.flags, i == Start(ts, Holder(ts, i)), i + 1 == Start(ts, Holder(ts, i) + 1)))
  {
    var t := ts[i];
    DecodeEncode(t.payload.meta);
    hide Encode, Decode, Pack, Clean, Meta, Named, Suppressed, Positioned, Laid;
    PackFields(Encode(t.payload.meta), t.named, t.payload.suppress,
               i > 0 && i == Start(ts, Holder(ts, i)), i > 0 && i + 1 == Start(ts, Holder(ts, i) + 1));
  }

  /** A valid payload, encoded, passes the tests on single records. */
  lemma PayloadEncodes(p: Payload, strings: nat, r: Record)
    requires PayloadValid(p, strings) && !p.vtype.EmptyValue? && strings + 1 < NONE
    requires r.tag == TagOf(p.vtype) && r.bits == p.bits && Clean(r.flags) && Meta(r.flags) == Encode(p.meta) && Suppressed(r.flags) == p.suppress
    requires !Named(r.flags) ==> r.name == 0
    requires r.reserved == 0 && (!IsContainer(p.vtype) ==> r.count == 0) && (r.count == 0 <==> r.first == NONE)
    ensures RecordSound(r, strings + 1) && PayloadOf(r) == p && IsContainerTag(r.tag) == IsContainer(p.vtype)
  {
    DecodeEncode(p.meta);
    assert Encode(PLAIN) == 0;
    hide Decode, Clean, Meta, Named, Suppressed;
  }

  /** The encoding of a value passes the first pass. */
  lemma EncodedFirst(ts: seq<Tree>, names: nat, strings: nat, i: nat)
    requires Laid(ts) && NamesFit(ts) && i < |ts| && names + 1 < NONE && strings + 1 < NONE
    requires ValueFit(ts[i], names, strings) && (i == 0 ==> RootFit(ts[0]))
    ensures FirstPass(Records(ts), i, names + 1, strings + 1)
  {
    RecordForParts(ts, i);
    StartGrows(ts, i, |ts|);
    hide Clean, Meta, Named, Suppressed, Positioned, Encode, Decode, PayloadValid, RecordFor, RecordSound, Records;
    PayloadEncodes(ts[i].payload, strings, Records(ts)[i]);
  }

  lemma {:induction false} EncodedStarts(ts: seq<Tree>, i: nat)
    requires Laid(ts) && NamesFit(ts) && i <= |ts|
    ensures RangeStart(Records(ts), i) == Start(ts, i)
  {
    hide Clean, Meta, Named, Suppressed, Positioned, Encode, RecordFor, Laid, Holder, KidsAt;
    if i > 0 {
      EncodedStarts(ts, i - 1);
      RecordForParts(ts, i - 1);
    }
  }

  lemma EncodedChild(ts: seq<Tree>, names: nat, strings: nat, i: nat, k: nat)
    requires Laid(ts) && NamesFit(ts) && i < |ts| && Start(ts, i) <= k < Start(ts, i + 1) && k < |ts|
    requires ValueFit(ts[i], names, strings) && KidsAt(ts, i)
    ensures ChildSound(Records(ts), i, k, Start(ts, i), Start(ts, i + 1))
  {
    hide Clean, Meta, Named, Suppressed, Positioned, Encode, RecordFor, Laid, Holder;
    StartGrows(ts, 0, i);
    RecordForParts(ts, i);
    RecordForParts(ts, k);
    var rs, kids, start, end := Records(ts), ts[i].kids, Start(ts, i), Start(ts, i + 1);
    OneHolder(ts, k, i, Holder(ts, k));
    forall j | start <= j <= k ensures ts[j] == kids[j - start] { assert ts[start..end][j - start] == ts[j]; }
    forall j | start <= j < k ensures rs[i].tag == 7 ==> rs[j].name != rs[k].name { RecordForParts(ts, j); }
  }

  lemma EncodedChildren(ts: seq<Tree>, names: nat, strings: nat, i: nat)
    requires Laid(ts) && NamesFit(ts) && i < |ts| && ValueFit(ts[i], names, strings)
    ensures Start(ts, i + 1) <= |ts|
    ensures var rs, start, end := Records(ts), Start(ts, i), Start(ts, i + 1);
      forall k :: start <= k < end ==> ChildSound(rs, i, k, start, end)
  {
    assert KidsAt(ts, i);
    hide Clean, Meta, Named, Suppressed, Positioned, Encode, RecordFor, Laid, ChildSound, ValueFit, Holder, NamesFit, KidsAt, Start, Records;
    var rs, start, end := Records(ts), Start(ts, i), Start(ts, i + 1);
    forall k | start <= k < end ensures ChildSound(rs, i, k, start, end) {
      EncodedChild(ts, names, strings, i, k);
    }
  }

  lemma EncodedSecond(ts: seq<Tree>, names: nat, strings: nat, i: nat)
    requires Laid(ts) && NamesFit(ts) && i < |ts| && ValueFit(ts[i], names, strings)
    ensures SecondPass(Records(ts), i)
  {
    hide Clean, Meta, Named, Suppressed, Positioned, Encode, RecordFor, Laid, ChildSound, ValueFit, Holder, NamesFit, KidsAt, Start, Records, RangeStart;
    EncodedStarts(ts, i);
    EncodedStarts(ts, i + 1);
    RecordForParts(ts, i);
    EncodedChildren(ts, names, strings, i);
  }

  lemma EncodedUsed(ts: seq<Tree>, names: nat, strings: nat)
    requires Laid(ts) && NamesFit(ts)
    requires (forall n :: 0 < n <= names ==> HasName(ts, n)) && (forall n :: 0 < n <= strings ==> HasString(ts, n))
    ensures (forall n :: 0 < n <= names ==> NameUsed(Records(ts), n)) && (forall n :: 0 < n <= strings ==> StringUsed(Records(ts), n))
  {
    var rs := Records(ts);
    hide Clean, Meta, Named, Suppressed, Positioned, Encode, RecordFor, Laid;
    forall n | 0 < n <= names ensures NameUsed(rs, n) {
      assert HasName(ts, n);
      var i :| 0 <= i < |ts| && ts[i].name == n;
      RecordForParts(ts, i);
    }
    forall n | 0 < n <= strings ensures StringUsed(rs, n) {
      assert HasString(ts, n);
      var i :| 0 <= i < |ts| && ts[i].payload.vtype.Text? && ts[i].payload.bits == n;
      RecordForParts(ts, i);
    }
  }

  lemma {:induction false} LaidEnds(ts: seq<Tree>)
    requires Laid(ts)
    ensures Start(ts, |ts|) == |ts| && |ts| > 0
  {
  }

  lemma LaidKids(ts: seq<Tree>, i: nat)
    requires Laid(ts) && i < |ts|
    ensures i < Start(ts, i) && Start(ts, i) + |ts[i].kids| <= |ts|
    ensures forall j :: 0 <= j < |ts[i].kids| ==> ts[Start(ts, i) + j] == ts[i].kids[j]
  {
    assert KidsAt(ts, i);
    var start := Start(ts, i);
    forall j | 0 <= j < |ts[i].kids| ensures ts[start + j] == ts[i].kids[j] { assert ts[start..Start(ts, i + 1)][j] == ts[start + j]; }
  }

  lemma EncodedPasses(ts: seq<Tree>, names: nat, strings: nat, n: U32, m: U32)
    requires Laid(ts) && NamesFit(ts) && n == names + 1 < NONE && m == strings + 1 < NONE && RootFit(ts[0])
    requires forall i :: 0 <= i < |ts| ==> ValueFit(ts[i], names, strings)
    ensures var rs := Records(ts); forall i :: 0 <= i < |rs| ==> FirstPass(rs, i, n, m) && SecondPass(rs, i)
  {
    hide Laid, ValueFit, RecordFor, FirstPass, SecondPass, Holder, Start, NamesFit, Records, RootFit;
    var rs := Records(ts);
    forall i | 0 <= i < |rs| ensures FirstPass(rs, i, n, m) && SecondPass(rs, i) {
      EncodedFirst(ts, names, strings, i);
      EncodedSecond(ts, names, strings, i);
    }
  }

  /** The encoding of a bakeable tree passes validation. */
  lemma EncodingSound(t: Tree, names: nat, strings: nat)
    requires Bakeable(t, names, strings) && names + 1 < NONE && strings + 1 < NONE
    ensures RecordsSound(Encoding(t, names, strings), names + 1, strings + 1)
  {
    hide Laid, ValueFit, RecordFor, FirstPass, SecondPass, Holder, Start, BreadthOrder, HasName, HasString, NameUsed, StringUsed, NamesFit, RootFit, Records, RangeStart;
    var ts := BreadthOrder([t]);
    BakeableFits(t, names, strings);
    LaidEnds(ts);
    FewValues(ts);
    var rs := Records(ts);
    EncodedPasses(ts, names, strings, names + 1, strings + 1);
    EncodedStarts(ts, |ts|);
    EncodedUsed(ts, names, strings);
    assert RecordsSound(rs, names + 1, strings + 1);
  }

  /** The tree of an encoding is the tree that was encoded. */
  lemma {:induction false} EncodingTree(t: Tree, names: nat, strings: nat)
    requires Bakeable(t, names, strings) && names + 1 < NONE && strings + 1 < NONE
    ensures RecordsSound(Encoding(t, names, strings), names + 1, strings + 1)
    ensures TreeAt(Encoding(t, names, strings), names + 1, strings + 1, 0) == t
  {
    EncodingSound(t, names, strings);
    BakeableFits(t, names, strings);
    EncodedTree(t, names, strings, 0);
  }

  lemma FewValues(ts: seq<Tree>)
    requires NamesFit(ts)
    ensures |ts| < NONE
  {
  }

  /** One level of the tree below an encoded record. */
  lemma {:induction false} EncodedLevel(ts: seq<Tree>, names: nat, strings: nat, i: nat)
    requires Laid(ts) && NamesFit(ts) && i < |ts| && names + 1 < NONE && strings + 1 < NONE && ValueFit(ts[i], names, strings)
    requires RecordsSound(Records(ts), names + 1, strings + 1)
    ensures var rs := Records(ts); var t := TreeAt(rs, names + 1, strings + 1, i); var start := Start(ts, i);
      && t.payload == ts[i].payload && t.name == ts[i].name && t.named == ts[i].named && |t.kids| == |ts[i].kids|
      && i < start && start + |t.kids| <= |ts|
      && forall j :: 0 <= j < |t.kids| ==> ts[start + j] == ts[i].kids[j] && t.kids[j] == TreeAt(rs, names + 1, strings + 1, start + j)
  {
    hide Clean, Meta, Named, Suppressed, Positioned, Encode, RecordFor, RecordsSound, RecordSound, PayloadValid, Holder, Records, NamesFit, Laid, Start, RangeStart, KidsAt;
    var rs := Records(ts);
    LaidKids(ts, i);
    RecordForParts(ts, i);
    EncodedStarts(ts, i);
    FewValues(ts);
    PayloadEncodes(ts[i].payload, strings, rs[i]);
    hide PayloadOf;
  }

  lemma {:induction false} EncodedTree(t: Tree, names: nat, strings: nat, i: nat)
    requires Bakeable(t, names, strings) && names + 1 < NONE && strings + 1 < NONE && i < |BreadthOrder([t])|
    requires RecordsSound(Encoding(t, names, strings), names + 1, strings + 1)
    ensures TreeAt(Encoding(t, names, strings), names + 1, strings + 1, i) == BreadthOrder([t])[i]
    decreases |BreadthOrder([t])| - i
  {
    hide RecordsSound, BreadthOrder, ValueFit, Laid, NamesFit, Start;
    var ts := BreadthOrder([t]);
    BakeableFits(t, names, strings);
    var rs := Records(ts);
    EncodedLevel(ts, names, strings, i);
    var below, start := TreeAt(rs, names + 1, strings + 1, i), Start(ts, i);
    forall j | 0 <= j < |below.kids| ensures below.kids[j] == ts[i].kids[j] { EncodedTree(t, names, strings, start + j); }
    assert below.kids == ts[i].kids;
  }
}
