/**
 The writer of document text (core/data_model/document_writer.cpp, CWriter, in
 Morphic mode): a walk over the records of a validated baked document that
 follows child, sibling and parent links and appends to its output.
 */
module TextWriter {
  import N = LiveNode
  import Q = Quotients
  import C = Content
  import F = ValueFlags
  import R = BakedRecords
  import B = BakedNavigation
  import L = TextLex
  import G = TextGrammar
  import V = TextValues
  import M = TextBuilding
  import T = TextRoundTrip
  import opened TextNumbers
  import opened TextStrings
  import opened TextPrinting
  import Requests
  import opened Sequences

  /** The decoded text of an identifier; zero is the empty one. */
  function TextIn(table: seq<string>, id: nat): string {
    if 0 < id <= |table| then table[id - 1] else ""
  }

  /** The value that a baked tree stands for. */
  function ValueOf(t: C.Tree, names: seq<string>, strings: seq<string>): V.Value
    decreases t, 0
  {
    var p := t.payload;
    match p.vtype
    case EmptyValue | NullValue => V.Null
    case Boolean => V.Truth(p.bits != 0)
    case Integer => V.Integer(p.bits, p.meta)
    case FloatingPoint => V.Floating(p.bits)
    case Text => V.Words(TextIn(strings, p.bits), p.suppress)
    case Array => V.List(EntriesOf(t.kids, names, strings))
    case Object => V.Object(EntriesOf(t.kids, names, strings))
  }

  function EntryOf(t: C.Tree, names: seq<string>, strings: seq<string>): V.Entry
    decreases t, 1
  {
    V.Entry(t.named, if t.named then TextIn(names, t.name) else "", ValueOf(t, names, strings))
  }

  function EntriesOf(ts: seq<C.Tree>, names: seq<string>, strings: seq<string>): (es: seq<V.Entry>)
    ensures |es| == |ts| && forall i :: 0 <= i < |ts| ==> es[i] == EntryOf(ts[i], names, strings)
    decreases ts, 0
  {
    seq(|ts|, i requires 0 <= i < |ts| => EntryOf(ts[i], names, strings))
  }

  /** A baked document with its decoded tables, and how to write it. */
  datatype Sheet = Sheet(rs: seq<R.Record>, nameCount: R.U32, stringCount: R.U32, names: seq<string>, strings: seq<string>, shortest: Shortest, o: Options)

  ghost predicate Sound(s: Sheet) {
    R.RecordsSound(s.rs, s.nameCount, s.stringCount)
  }

  ghost function TreeOf(s: Sheet, i: nat): C.Tree
    requires Sound(s) && i < |s.rs|
  {
    R.TreeAt(s.rs, s.nameCount, s.stringCount, i)
  }

  ghost function EntryAt(s: Sheet, i: nat): V.Entry
    requires Sound(s) && i < |s.rs|
  {
    EntryOf(TreeOf(s, i), s.names, s.strings)
  }

  // What the writer asks of a record.

  predicate Named(s: Sheet, i: nat)
    requires i < |s.rs|
  {
    F.Named(s.rs[i].flags)
  }

  predicate IsObject(s: Sheet, i: nat)
    requires i < |s.rs|
  {
    s.rs[i].tag == 7
  }

  predicate IsGroup(s: Sheet, i: nat)
    requires i < |s.rs|
  {
    R.IsContainerTag(s.rs[i].tag)
  }

  predicate InObject(s: Sheet, i: nat)
    requires i < |s.rs|
  {
    var p := B.Parent(s.rs, i);
    0 <= p < |s.rs| && IsObject(s, p)
  }

  /** A named element of an array needs an object around it. */
  predicate NeedsWrapper(s: Sheet, i: nat)
    requires i < |s.rs|
  {
    Named(s, i) && !InObject(s, i)
  }

  function Scalar(s: Sheet, i: nat): V.Value
    requires i < |s.rs|
  {
    ValueOf(C.Tree(R.PayloadOf(s.rs[i]), 0, false, []), s.names, s.strings)
  }

  // ---------------------------------------------------------------------
  // The text around a record

  /** The depth at which the entry of record `i` is written. */
  ghost function DepthAt(s: Sheet, i: nat): nat
    requires Sound(s) && i < |s.rs|
    decreases i
  {
    if i == 0 then 0 else
    B.Links(s.rs, s.nameCount, s.stringCount, i);
    DepthAt(s, s.rs[i].parent) + 1 + One(NeedsWrapper(s, s.rs[i].parent))
  }

  /** The comma and the line break before an entry; the root has neither. */
  function Lead(s: Sheet, i: nat, depth: nat): string
    requires i < |s.rs|
  {
    if i == 0 then "" else (if B.PreviousSibling(s.rs, i) != B.NOWHERE then "," else "") + Break(s.o, depth)
  }

  ghost function Item(s: Sheet, i: nat): string
    requires Sound(s) && i < |s.rs|
  {
    Lead(s, i, DepthAt(s, i)) + PrintEntry(s.shortest, s.o, InObject(s, i), EntryAt(s, i), DepthAt(s, i))
  }

  /** The comma and line break, the wrapper and the key before a value. */
  function Intro(s: Sheet, i: nat, depth: nat): string
    requires i < |s.rs|
  {
    Lead(s, i, depth) + (if NeedsWrapper(s, i) then "{" + Break(s.o, depth + 1) else "")
    + (if Named(s, i) then Key(s.o, TextIn(s.names, s.rs[i].name)) else "")
  }

  /** The value itself: an opening bracket, or a scalar in full. */
  function Own(s: Sheet, i: nat): string
    requires i < |s.rs|
  {
    if IsGroup(s, i) then if IsObject(s, i) then "{" else "[" else Print(s.shortest, s.o, Scalar(s, i), 0)
  }

  /** What is written on arriving at a record. */
  function Head(s: Sheet, i: nat, depth: nat): string
    requires i < |s.rs|
  {
    Intro(s, i, depth) + Own(s, i)
  }

  /** What is written on leaving it. */
  function Tail(s: Sheet, i: nat, depth: nat): string
    requires i < |s.rs|
  {
    (if IsGroup(s, i) then
       (if s.rs[i].count != 0 then Break(s.o, depth + One(NeedsWrapper(s, i))) else "") + (if IsObject(s, i) then "}" else "]")
     else "")
    + (if NeedsWrapper(s, i) then Break(s.o, depth) + "}" else "")
  }

  /** What follows the entry of record `i`. */
  ghost function After(s: Sheet, i: nat): string
    requires Sound(s) && i < |s.rs|
    decreases if i == 0 then 0 else s.rs[i].parent + 1, |s.rs| - i
  {
    if i == 0 then "" else
    B.Links(s.rs, s.nameCount, s.stringCount, i);
    var p := s.rs[i].parent;
    if i + 1 < B.To(s.rs, p) then Item(s, i + 1) + After(s, i + 1) else Tail(s, p, DepthAt(s, p)) + After(s, p)
  }

  // ---------------------------------------------------------------------
  // Records and the values they stand for

  /** The entries of the children of a record. */
  ghost function Entries(s: Sheet, i: nat): seq<V.Entry>
    requires Sound(s) && i < |s.rs|
  {
    EntriesOf(TreeOf(s, i).kids, s.names, s.strings)
  }

  lemma {:induction false} ValueParts(t: C.Tree, names: seq<string>, strings: seq<string>)
    ensures var v := ValueOf(t, names, strings);
      && (t.payload.vtype.Array? ==> v == V.List(EntriesOf(t.kids, names, strings)))
      && (t.payload.vtype.Object? ==> v == V.Object(EntriesOf(t.kids, names, strings)))
      && (!N.IsContainer(t.payload.vtype) ==> v == ValueOf(C.Tree(t.payload, 0, false, []), names, strings) && !v.List? && !v.Object?)
  {
  }

  lemma RecordSays(s: Sheet, i: nat)
    requires Sound(s) && i < |s.rs|
    ensures var e := EntryAt(s, i);
      && e.named == Named(s, i) && (e.named ==> e.name == TextIn(s.names, s.rs[i].name))
      && e.value == (if !IsGroup(s, i) then Scalar(s, i) else if IsObject(s, i) then V.Object(Entries(s, i)) else V.List(Entries(s, i)))
      && (!IsGroup(s, i) ==> !e.value.List? && !e.value.Object?)
  {
    hide R.RecordsSound, R.RecordSound, F.Named, R.PayloadOf, N.PayloadValid, R.TreeAt, ValueOf;
    R.SoundSize(s.rs, s.nameCount, s.stringCount);
    R.TreeParts(s.rs, s.nameCount, s.stringCount, i);
    R.RecordParts(s.rs, s.nameCount, s.stringCount, i);
    R.PayloadSound(s.rs[i], s.stringCount);
    TagSays(s.rs[i].tag, R.PayloadOf(s.rs[i]).vtype);
    ValueParts(TreeOf(s, i), s.names, s.strings);
  }

  lemma TagSays(tag: nat, t: N.ValueType)
    requires R.TagOf(t) == tag && N.IsContainer(t) == R.IsContainerTag(tag)
    ensures (tag == 7 <==> t.Object?) && (R.IsContainerTag(tag) && tag != 7 <==> t.Array?)
  {
  }

  /** The entries of a group are the entries of the records in its range. */
  lemma GroupSays(s: Sheet, i: nat)
    requires Sound(s) && i < |s.rs| && IsGroup(s, i)
    ensures var from, entries := B.From(s.rs, i), Entries(s, i);
      && i < from && from + |entries| == B.To(s.rs, i) <= |s.rs|
      && |entries| == s.rs[i].count && B.FirstChild(s.rs, i) == (if s.rs[i].count == 0 then B.NOWHERE else from)
      && forall j :: 0 <= j < |entries| ==> entries[j] == EntryAt(s, from + j)
  {
    hide R.RecordsSound, R.RecordSound, F.Named, R.PayloadOf, R.TreeAt;
    R.TreeParts(s.rs, s.nameCount, s.stringCount, i);
    B.DownwardSound(s.rs, s.nameCount, s.stringCount, i, 0);
    var t, from := TreeOf(s, i), B.From(s.rs, i);
    forall j | 0 <= j < |t.kids| ensures t.kids[j] == TreeOf(s, from + j) { B.DownwardSound(s.rs, s.nameCount, s.stringCount, i, j); }
  }

  lemma LeafSays(s: Sheet, i: nat)
    requires Sound(s) && i < |s.rs| && !IsGroup(s, i)
    ensures B.FirstChild(s.rs, i) == B.NOWHERE
  {
  }

  lemma {:induction false} RootSays(s: Sheet)
    requires Sound(s)
    ensures |s.rs| > 0 && !Named(s, 0) && DepthAt(s, 0) == 0 && After(s, 0) == "" && !NeedsWrapper(s, 0) && IsGroup(s, 0)
    ensures Item(s, 0) == Print(s.shortest, s.o, EntryAt(s, 0).value, 0)
  {
    assert R.FirstPass(s.rs, 0, s.nameCount, s.stringCount);
    RecordSays(s, 0);
    hide R.RecordsSound, Print;
    var text := Print(s.shortest, s.o, EntryAt(s, 0).value, 0);
    assert "" + text == text;
  }

  // ---------------------------------------------------------------------
  // An entry is its head, its children, its tail

  /** The text of the entries from child `j` on. */
  ghost function Children(s: Sheet, i: nat, j: nat): string
    requires Sound(s) && i < |s.rs| && B.From(s.rs, i) + j <= B.To(s.rs, i) <= |s.rs|
    decreases B.To(s.rs, i) - B.From(s.rs, i) - j
  {
    var k := B.From(s.rs, i) + j;
    if k == B.To(s.rs, i) then "" else Item(s, k) + Children(s, i, j + 1)
  }

  lemma ChildSays(s: Sheet, i: nat, j: nat)
    requires Sound(s) && i < |s.rs| && i < B.From(s.rs, i) && B.From(s.rs, i) + j < B.To(s.rs, i) <= |s.rs|
    ensures var k := B.From(s.rs, i) + j;
      && 0 < k && s.rs[k].parent == i == B.Parent(s.rs, k) && InObject(s, k) == IsObject(s, i)
      && DepthAt(s, k) == DepthAt(s, i) + 1 + One(NeedsWrapper(s, i))
      && (B.PreviousSibling(s.rs, k) != B.NOWHERE <==> j > 0)
  {
    hide R.RecordsSound, B.From, B.To;
    var k := B.From(s.rs, i) + j;
    B.ChildLinks(s.rs, s.nameCount, s.stringCount, i, k);
    B.SidewaysSound(s.rs, s.nameCount, s.stringCount, k);
  }

  lemma ChildrenStep(s: Sheet, i: nat, j: nat)
    requires Sound(s) && i < |s.rs| && B.From(s.rs, i) + j <= B.To(s.rs, i) <= |s.rs|
    ensures var k := B.From(s.rs, i) + j;
      Children(s, i, j) == if k == B.To(s.rs, i) then "" else Item(s, k) + Children(s, i, j + 1)
  {
    hide Item, B.From, B.To, Sound;
  }

  lemma {:induction false} AllFrom(shortest: Shortest, o: Options, inObject: bool, entries: seq<V.Entry>, depth: nat, j: nat)
    requires j <= |entries|
    ensures PrintAll(shortest, o, inObject, entries[j..], depth) ==
      if j == |entries| then ""
      else Break(o, depth) + PrintEntry(shortest, o, inObject, entries[j], depth) + (if j + 1 < |entries| then "," else "")
           + PrintAll(shortest, o, inObject, entries[j + 1..], depth)
  {
    hide Break, PrintEntry;
    if j < |entries| { assert entries[j..][1..] == entries[j + 1..]; }
  }

  /** A child is written as an entry of its group, after a comma unless it is the first. */
  lemma {:induction false} ChildItem(s: Sheet, i: nat, j: nat)
    requires Sound(s) && i < |s.rs| && IsGroup(s, i) && j < s.rs[i].count
    ensures var k, depth := B.From(s.rs, i) + j, DepthAt(s, i) + 1 + One(NeedsWrapper(s, i));
      && k < B.To(s.rs, i) <= |s.rs| && |Entries(s, i)| == s.rs[i].count
      && Item(s, k) == (if j > 0 then "," else "") + Break(s.o, depth) + PrintEntry(s.shortest, s.o, IsObject(s, i), Entries(s, i)[j], depth)
  {
    hide Sound, EntryAt, Entries, IsGroup, IsObject, NeedsWrapper, InObject, DepthAt, PrintEntry, Break, B.From, B.To, B.Parent, B.PreviousSibling, B.FirstChild;
    GroupSays(s, i);
    ChildSays(s, i, j);
  }

  lemma {:induction false} ChildrenPrint(s: Sheet, i: nat, j: nat)
    requires Sound(s) && i < |s.rs| && IsGroup(s, i) && j <= s.rs[i].count
    ensures B.From(s.rs, i) + s.rs[i].count == B.To(s.rs, i) <= |s.rs| && |Entries(s, i)| == s.rs[i].count
    ensures Children(s, i, j) == (if 0 < j < s.rs[i].count then "," else "")
      + PrintAll(s.shortest, s.o, IsObject(s, i), Entries(s, i)[j..], DepthAt(s, i) + 1 + One(NeedsWrapper(s, i)))
    decreases s.rs[i].count - j
  {
    hide Sound, EntryAt, Entries, IsGroup, IsObject, NeedsWrapper, InObject, DepthAt, PrintEntry, PrintAll, Break, Children, Item, B.From, B.To, B.FirstChild;
    GroupSays(s, i);
    var entries := Entries(s, i);
    var depth := DepthAt(s, i) + 1 + One(NeedsWrapper(s, i));
    AllFrom(s.shortest, s.o, IsObject(s, i), entries, depth, j);
    ChildrenStep(s, i, j);
    if j < s.rs[i].count {
      ChildItem(s, i, j);
      ChildrenPrint(s, i, j + 1);
      ItemThenRest(if j > 0 then "," else "", Break(s.o, depth), PrintEntry(s.shortest, s.o, IsObject(s, i), entries[j], depth),
                   if j + 1 < s.rs[i].count then "," else "", PrintAll(s.shortest, s.o, IsObject(s, i), entries[j + 1..], depth));
    }
  }

  lemma ItemThenRest(comma: string, break_: string, entry: string, comma': string, rest: string)
    ensures (comma + break_) + entry + (comma' + rest) == comma + (break_ + entry + comma' + rest)
  {
  }

  /** After a child come the later children, then the tail of its parent and what follows that. */
  lemma {:induction false} AfterChild(s: Sheet, i: nat, j: nat)
    requires Sound(s) && i < |s.rs| && i < B.From(s.rs, i) && B.From(s.rs, i) + j < B.To(s.rs, i) <= |s.rs|
    ensures After(s, B.From(s.rs, i) + j) == Children(s, i, j + 1) + (Tail(s, i, DepthAt(s, i)) + After(s, i))
    decreases B.To(s.rs, i) - B.From(s.rs, i) - j
  {
    hide Item, Tail, DepthAt, B.From, B.To, Sound, After, Children, InObject, NeedsWrapper, B.Parent, B.PreviousSibling;
    ChildSays(s, i, j);
    var k := B.From(s.rs, i) + j;
    AfterStep(s, k);
    ChildrenStep(s, i, j + 1);
    var rest := Tail(s, i, DepthAt(s, i)) + After(s, i);
    if k + 1 < B.To(s.rs, i) {
      AfterChild(s, i, j + 1);
      Join(Item(s, k + 1), Children(s, i, j + 2), rest);
    } else {
      assert "" + rest == rest;
    }
  }

  lemma Join(a: string, b: string, c: string)
    ensures a + (b + c) == a + b + c
  {
  }

  lemma AfterStep(s: Sheet, k: nat)
    requires Sound(s) && 0 < k < |s.rs|
    ensures var p := s.rs[k].parent;
      && p < |s.rs| && k < B.To(s.rs, p) <= |s.rs|
      && (k + 1 < B.To(s.rs, p) ==> After(s, k) == Item(s, k + 1) + After(s, k + 1))
      && (k + 1 == B.To(s.rs, p) ==> After(s, k) == Tail(s, p, DepthAt(s, p)) + After(s, p))
  {
    hide Item, Tail, DepthAt, B.From, B.To;
    B.Links(s.rs, s.nameCount, s.stringCount, k);
  }

  lemma {:induction false} GroupPrints(shortest: Shortest, o: Options, v: V.Value, depth: nat)
    requires v.List? || v.Object?
    ensures Print(shortest, o, v, depth) == (if v.Object? then "{" else "[") + PrintAll(shortest, o, v.Object?, v.entries, depth + 1)
      + ((if v.entries == [] then "" else Break(o, depth)) + (if v.Object? then "}" else "]"))
  {
    hide Break, PrintAll;
    var open, all := if v.Object? then "{" else "[", PrintAll(shortest, o, v.Object?, v.entries, depth + 1);
    var break_, close := if v.entries == [] then "" else Break(o, depth), if v.Object? then "}" else "]";
    assert open + all + (break_ + close) == open + all + break_ + close;
  }

  /** A scalar is written the same at every depth. */
  lemma {:induction false} ScalarDepth(shortest: Shortest, o: Options, v: V.Value, d: nat, d': nat)
    requires !v.List? && !v.Object?
    ensures Print(shortest, o, v, d) == Print(shortest, o, v, d')
  {
  }

  /** The entry around the text of its value. */
  lemma {:induction false} EntryAround(shortest: Shortest, o: Options, inObject: bool, e: V.Entry, depth: nat)
    ensures var wrapped := e.named && !inObject;
      PrintEntry(shortest, o, inObject, e, depth) ==
        (if wrapped then "{" + Break(o, depth + 1) else "") + (if e.named then Key(o, e.name) else "")
        + Print(shortest, o, e.value, depth + One(wrapped)) + (if wrapped then Break(o, depth) + "}" else "")
  {
    hide Break, Key, Print;
    var text := Print(shortest, o, e.value, depth);
    assert "" + "" + text + "" == text;
  }

  /** The entry of a record, with what stands around its value. */
  lemma {:induction false} ItemAround(s: Sheet, i: nat)
    requires Sound(s) && i < |s.rs|
    ensures var d, w := DepthAt(s, i), One(NeedsWrapper(s, i));
      Item(s, i) == Intro(s, i, d) + Print(s.shortest, s.o, EntryAt(s, i).value, d + w) + (if NeedsWrapper(s, i) then Break(s.o, d) + "}" else "")
  {
    hide Sound, EntryAt, Entries, IsGroup, IsObject, InObject, Named, DepthAt, PrintEntry, Break, Key, Lead, Print, PrintAll, Scalar, B.FirstChild, B.From, B.To;
    var d, e := DepthAt(s, i), EntryAt(s, i);
    RecordSays(s, i);
    EntryAround(s.shortest, s.o, InObject(s, i), e, d);
    Regroup(Lead(s, i, d), if NeedsWrapper(s, i) then "{" + Break(s.o, d + 1) else "", if Named(s, i) then Key(s.o, e.name) else "",
            Print(s.shortest, s.o, e.value, d + One(NeedsWrapper(s, i))), if NeedsWrapper(s, i) then Break(s.o, d) + "}" else "");
  }

  lemma Regroup(lead: string, open: string, key: string, text: string, shut: string)
    ensures lead + (open + key + text + shut) == (lead + open + key) + text + shut
  {
  }

  /** The text of a group, with what stands around it. */
  lemma {:induction false} GroupItem(s: Sheet, i: nat)
    requires Sound(s) && i < |s.rs| && IsGroup(s, i)
    ensures Item(s, i) == Head(s, i, DepthAt(s, i))
      + PrintAll(s.shortest, s.o, IsObject(s, i), Entries(s, i), DepthAt(s, i) + One(NeedsWrapper(s, i)) + 1) + Tail(s, i, DepthAt(s, i))
  {
    hide Sound, EntryAt, Entries, IsObject, InObject, Named, NeedsWrapper, DepthAt, Break, Intro, Item, Print, PrintAll, Scalar, B.FirstChild, B.From, B.To;
    var d, w := DepthAt(s, i), One(NeedsWrapper(s, i));
    RecordSays(s, i);
    GroupSays(s, i);
    ItemAround(s, i);
    GroupPrints(s.shortest, s.o, EntryAt(s, i).value, d + w);
    var close := (if Entries(s, i) == [] then "" else Break(s.o, d + w)) + (if IsObject(s, i) then "}" else "]");
    Nest(Intro(s, i, d), Own(s, i), PrintAll(s.shortest, s.o, IsObject(s, i), Entries(s, i), d + w + 1), close,
         if NeedsWrapper(s, i) then Break(s.o, d) + "}" else "");
  }

  lemma Nest(intro: string, bracket: string, all: string, close: string, shut: string)
    ensures intro + (bracket + all + close) + shut == (intro + bracket) + all + (close + shut)
  {
  }

  /** The text of a scalar, with what stands around it. */
  lemma {:induction false} ScalarItem(s: Sheet, i: nat)
    requires Sound(s) && i < |s.rs| && !IsGroup(s, i)
    ensures Item(s, i) == Head(s, i, DepthAt(s, i)) + Tail(s, i, DepthAt(s, i))
  {
    hide Sound, EntryAt, Entries, InObject, Named, NeedsWrapper, DepthAt, Break, Intro, Item, Print, Scalar;
    var d, w := DepthAt(s, i), One(NeedsWrapper(s, i));
    RecordSays(s, i);
    ItemAround(s, i);
    ScalarDepth(s.shortest, s.o, EntryAt(s, i).value, d + w, 0);
    var shut := if NeedsWrapper(s, i) then Break(s.o, d) + "}" else "";
    assert "" + shut == shut;
  }

  /** A record without children is its head and its tail; one with children has them in between. */
  lemma {:induction false} ItemParts(s: Sheet, i: nat)
    requires Sound(s) && i < |s.rs|
    ensures B.FirstChild(s.rs, i) == B.NOWHERE ==> Item(s, i) == Head(s, i, DepthAt(s, i)) + Tail(s, i, DepthAt(s, i))
    ensures B.FirstChild(s.rs, i) != B.NOWHERE ==>
      && i < B.From(s.rs, i) < B.To(s.rs, i) <= |s.rs| && B.FirstChild(s.rs, i) == B.From(s.rs, i)
      && Item(s, i) == Head(s, i, DepthAt(s, i)) + Children(s, i, 0) + Tail(s, i, DepthAt(s, i))
  {
    hide Sound, EntryAt, Entries, IsGroup, IsObject, InObject, Named, NeedsWrapper, DepthAt, PrintEntry, Head, Tail, Item, Break, Key, Lead, Print, PrintAll, Scalar, Children, B.FirstChild, B.From, B.To;
    if IsGroup(s, i) {
      GroupSays(s, i);
      GroupItem(s, i);
      ChildrenPrint(s, i, 0);
      var d := DepthAt(s, i) + One(NeedsWrapper(s, i)) + 1;
      assert Entries(s, i)[0..] == Entries(s, i);
      var all := PrintAll(s.shortest, s.o, IsObject(s, i), Entries(s, i), d);
      assert "" + all == all;
      if s.rs[i].count == 0 {
        NoChildren(s, i, d);
        var head := Head(s, i, DepthAt(s, i));
        assert head + "" == head;
      }
    } else {
      LeafSays(s, i);
      ScalarItem(s, i);
    }
  }

  lemma {:induction false} NoChildren(s: Sheet, i: nat, depth: nat)
    requires i < |s.rs|
    ensures PrintAll(s.shortest, s.o, IsObject(s, i), [], depth) == ""
  {
  }

  /** From a record on to its first child. */
  lemma {:induction false} Descends(s: Sheet, i: nat)
    requires Sound(s) && i < |s.rs| && B.FirstChild(s.rs, i) != B.NOWHERE
    ensures var c := B.FirstChild(s.rs, i);
      && 0 < c < |s.rs| && IsGroup(s, i) && DepthAt(s, c) == DepthAt(s, i) + 1 + One(NeedsWrapper(s, i))
      && Item(s, i) + After(s, i) == Head(s, i, DepthAt(s, i)) + (Item(s, c) + After(s, c))
  {
    hide Sound, Item, Head, Tail, After, Children, DepthAt, B.From, B.To, B.FirstChild, IsGroup, InObject, NeedsWrapper, B.Parent, B.PreviousSibling;
    if !IsGroup(s, i) { LeafSays(s, i); }
    ItemParts(s, i);
    ChildSays(s, i, 0);
    AfterChild(s, i, 0);
    ChildrenStep(s, i, 0);
    var d, c := DepthAt(s, i), B.From(s.rs, i);
    assert B.FirstChild(s.rs, i) == c && c + 0 == c;
    var head, item, first, later, tail, after := Head(s, i, d), Item(s, i), Item(s, c), Children(s, i, 1), Tail(s, i, d), After(s, i);
    assert item == head + (first + later) + tail;
    assert After(s, c) == later + (tail + after);
    Regroup2(head, first, later, tail, after);
  }

  lemma Regroup2(head: string, item: string, later: string, tail: string, after: string)
    ensures head + (item + later) + tail + after == head + (item + (later + (tail + after)))
  {
  }

  lemma {:induction false} Ascends(s: Sheet, i: nat)
    requires Sound(s) && 0 < i < |s.rs|
    ensures B.NextSibling(s.rs, i) != B.NOWHERE ==>
      var n := B.NextSibling(s.rs, i);
      0 < n < |s.rs| && n == i + 1 && DepthAt(s, n) == DepthAt(s, i) && After(s, i) == Item(s, n) + After(s, n) && s.rs[n].parent == s.rs[i].parent
    ensures B.NextSibling(s.rs, i) == B.NOWHERE ==>
      var p := B.Parent(s.rs, i);
      && 0 <= p < i && DepthAt(s, i) == DepthAt(s, p) + 1 + One(NeedsWrapper(s, p)) && IsGroup(s, p)
      && After(s, i) == Tail(s, p, DepthAt(s, p)) + After(s, p)
  {
    hide Item, Tail, After, B.From, B.To, NeedsWrapper, R.RecordsSound, B.NextSibling, B.Parent, B.FirstChild;
    B.Links(s.rs, s.nameCount, s.stringCount, i);
    B.SidewaysSound(s.rs, s.nameCount, s.stringCount, i);
    AfterStep(s, i);
    var p := s.rs[i].parent;
    ParentGroup(s, i);
    if i + 1 < B.To(s.rs, p) { SiblingDepth(s, i); }
  }

  lemma SiblingDepth(s: Sheet, i: nat)
    requires Sound(s) && 0 < i && i + 1 < |s.rs| && s.rs[i + 1].parent == s.rs[i].parent
    ensures DepthAt(s, i + 1) == DepthAt(s, i)
  {
    hide R.RecordsSound, NeedsWrapper;
    B.Links(s.rs, s.nameCount, s.stringCount, i);
  }

  lemma ParentGroup(s: Sheet, i: nat)
    requires Sound(s) && 0 < i < |s.rs|
    ensures s.rs[i].parent < i && IsGroup(s, s.rs[i].parent)
  {
    R.ParentRange(s.rs, s.nameCount, s.stringCount, i);
    var p := s.rs[i].parent;
    assert R.FirstPass(s.rs, p, s.nameCount, s.stringCount);
    hide R.RecordsSound, F.Clean, F.Positioned, F.Named;
  }

  // ---------------------------------------------------------------------
  // The writer

  datatype Status = Success | SizeLimit | AllocationFailed

  predicate Resource(status: Status) {
    status == SizeLimit || status == AllocationFailed
  }

  class Writer {
    const s: Sheet
    /** Whether memory is there whenever asked for, and the text not too large. */
    const granted: bool
    var output: string
    var depth: nat
    var status: Status

    /** A failure of resources, where they are not granted. */
    predicate Short(reason: Status) {
      !granted && Resource(reason)
    }

    constructor (s: Sheet, granted: bool)
      ensures this.s == s && this.granted == granted && output == "" && depth == 0 && status == Success
    {
      this.s, this.granted := s, granted;
      output, depth, status := "", 0, Success;
    }

    /** Keeps the first failure. */
    method Fail(reason: Status)
      modifies `status
      ensures status == if old(status) == Success then reason else old(status)
    {
      if status == Success { status := reason; }
    }

    /** Appends text, unless writing has failed; the output may be too large or memory short. */
    method Append(text: string)
      modifies `output, `status
      ensures status == Success ==> old(status) == Success && output == old(output) + text
      ensures status == old(status) || (old(status) == Success && Short(status))
    {
      if status != Success { return; }
      var small := Requests.Ask(granted);
      var met := Requests.Ask(granted);
      if !small { Fail(SizeLimit); } else if met { output := output + text; } else { Fail(AllocationFailed); }
    }

    method BreakLine()
      modifies `output, `status
      ensures status == Success ==> old(status) == Success && output == old(output) + Break(s.o, depth)
      ensures status == old(status) || (old(status) == Success && Short(status))
    {
      if s.o.pretty {
        Append("\n");
        Append(Spaces(Q.Times(depth, s.o.indent)));
        assert old(output) + "\n" + Spaces(Q.Times(depth, s.o.indent)) == old(output) + Break(s.o, depth);
      } else {
        assert old(output) + "" == old(output);
      }
    }

    method Begin(bracket: string)
      modifies this
      ensures status == Success ==> old(status) == Success && output == old(output) + bracket
      ensures status == old(status) || (old(status) == Success && Short(status))
      ensures depth == old(depth) + 1
    {
      Append(bracket);
      depth := depth + 1;
    }

    /** Closes a bracket; there is always one to close. */
    method End(bracket: string, nonempty: bool)
      requires depth > 0
      modifies this
      ensures depth == old(depth) - 1
      ensures status == Success ==> old(status) == Success && output == old(output) + ((if nonempty then Break(s.o, depth) else "") + bracket)
      ensures status == old(status) || (old(status) == Success && Short(status))
    {
      hide Break, Short;
      depth := depth - 1;
      ghost var start := output;
      if nonempty { BreakLine(); } else { assert start + "" == start; }
      Append(bracket);
      Join(start, if nonempty then Break(s.o, depth) else "", bracket);
    }

    /** The comma and line break, the wrapper and the key before a value. */
    method Introduce(i: nat)
      requires i < |s.rs| && (i == 0 ==> !NeedsWrapper(s, 0) && !Named(s, 0))
      modifies this
      ensures depth == old(depth) + One(NeedsWrapper(s, i))
      ensures status == Success ==> old(status) == Success && output == old(output) + Intro(s, i, old(depth))
      ensures status == old(status) || (old(status) == Success && Short(status))
    {
      hide Break, Key, NeedsWrapper, Named, B.PreviousSibling, Resource;
      ghost var start, d := output, depth;
      if i != 0 {
        if B.PreviousSibling(s.rs, i) != B.NOWHERE { Append(","); } else { assert start + "" == start; }
        BreakLine();
        Join(start, if B.PreviousSibling(s.rs, i) != B.NOWHERE then "," else "", Break(s.o, d));
      } else {
        assert start + "" == start;
      }
      assert status == Success ==> output == start + Lead(s, i, d);
      ghost var open := if NeedsWrapper(s, i) then "{" + Break(s.o, d + 1) else "";
      ghost var led := start + Lead(s, i, d);
      if NeedsWrapper(s, i) {
        Begin("{");
        BreakLine();
        Join(led, "{", Break(s.o, d + 1));
      } else {
        assert led + "" == led;
      }
      assert status == Success ==> output == led + open;
      ghost var key := if Named(s, i) then Key(s.o, TextIn(s.names, s.rs[i].name)) else "";
      if Named(s, i) { Append(Key(s.o, TextIn(s.names, s.rs[i].name))); } else { assert led + open + "" == led + open; }
      Gather(start, Lead(s, i, d), open, key);
    }

    lemma Gather(start: string, lead: string, open: string, key: string)
      ensures start + lead + open + key == start + (lead + open + key)
    {
    }

    /** The value itself: a bracket, or a scalar in full. */
    method Enter(i: nat)
      requires Sound(s) && i < |s.rs|
      modifies this
      ensures depth == old(depth) + One(IsGroup(s, i))
      ensures status == Success ==> old(status) == Success && output == old(output) + Own(s, i)
      ensures status == old(status) || (old(status) == Success && Short(status))
    {
      hide Print, Scalar, Sound, Resource;
      var tag := s.rs[i].tag;
      if tag == 6 {
        Begin("[");
      } else if tag == 7 {
        Begin("{");
      } else {
        Append(Print(s.shortest, s.o, Scalar(s, i), 0));
      }
    }

    /** What closes a value: its bracket, and that of its wrapper. */
    method Leave(i: nat)
      requires i < |s.rs| && depth >= One(IsGroup(s, i)) + One(NeedsWrapper(s, i))
      modifies this
      ensures depth == old(depth) - One(IsGroup(s, i)) - One(NeedsWrapper(s, i))
      ensures status == Success ==> old(status) == Success && output == old(output) + Tail(s, i, depth)
      ensures status == old(status) || (old(status) == Success && Short(status))
    {
      hide Break, NeedsWrapper, Resource;
      ghost var start := output;
      if IsGroup(s, i) { End(if IsObject(s, i) then "}" else "]", s.rs[i].count != 0); } else { assert start + "" == start; }
      ghost var closed := output;
      if NeedsWrapper(s, i) { End("}", true); } else { assert closed + "" == closed; }
      ghost var group := if IsGroup(s, i) then
        (if s.rs[i].count != 0 then Break(s.o, depth + One(NeedsWrapper(s, i))) else "") + (if IsObject(s, i) then "}" else "]") else "";
      ghost var shut := if NeedsWrapper(s, i) then Break(s.o, depth) + "}" else "";
      assert status == Success ==> closed == start + group && output == closed + shut;
      Join(start, group, shut);
    }

    /** Arrives at record `i`. */
    method Arrive(i: nat)
      requires Sound(s) && i < |s.rs| && (i == 0 ==> !NeedsWrapper(s, 0) && !Named(s, 0))
      modifies this
      ensures depth == old(depth) + One(NeedsWrapper(s, i)) + One(IsGroup(s, i))
      ensures status == Success ==> old(status) == Success && output == old(output) + Head(s, i, old(depth))
      ensures status == old(status) || (old(status) == Success && Short(status))
    {
      hide Named, NeedsWrapper, Sound, Intro, Own, Resource;
      ghost var start, d := output, depth;
      Introduce(i);
      Enter(i);
      Join(start, Intro(s, i, d), Own(s, i));
    }

    /** Climbs from a finished record to the next one to write, leaving the groups that are complete; 0 when all is. */
    method Climb(from: nat, ghost total: string) returns (node: nat)
      requires Sound(s) && from < |s.rs| && depth == DepthAt(s, from)
      requires status == Success ==> output + After(s, from) == total
      requires status == Success || Short(status)
      modifies this
      ensures status == Success || Short(status)
      ensures status == Success ==> old(status) == Success
      ensures status == Success ==> node < |s.rs| && depth == DepthAt(s, node) && |output| >= |old(output)|
      ensures status == Success && node != 0 ==> output + (Item(s, node) + After(s, node)) == total
      ensures status == Success && node == 0 ==> output == total && depth == 0
    {
      hide Sound, Item, After, Tail, DepthAt, IsGroup, NeedsWrapper, B.NextSibling, B.Parent, Resource;
      node := from;
      while status == Success && node != 0
        invariant node < |s.rs| && depth == DepthAt(s, node) && (status == Success || Short(status))
        invariant status == Success ==> old(status) == Success
        invariant status == Success ==> output + After(s, node) == total && |output| >= |old(output)|
        decreases node
      {
        Ascends(s, node);
        var next := B.NextSibling(s.rs, node);
        if next != B.NOWHERE {
          node := next;
          return;
        }
        var p: nat := B.Parent(s.rs, node);
        ghost var before := output;
        Leave(p);
        Join(before, Tail(s, p, DepthAt(s, p)), After(s, p));
        node := p;
      }
      RootSays(s);
    }

    /** Writes every record once, following links. */
    method Traverse(ghost total: string)
      requires Sound(s) && |s.rs| > 0 && output == "" && depth == 0 && status == Success && total == Item(s, 0)
      modifies this
      ensures if status == Success then output == total && depth == 0 else Short(status)
    {
      hide Sound, Item, After, Head, Tail, DepthAt, IsGroup, NeedsWrapper, Named, B.NextSibling, B.Parent, B.FirstChild, Resource;
      var node: nat := 0;
      RootSays(s);
      assert "" + (Item(s, 0) + "") == Item(s, 0);
      while status == Success
        invariant node < |s.rs| && (status == Success || Short(status)) && !NeedsWrapper(s, 0) && !Named(s, 0)
        invariant status == Success ==> depth == DepthAt(s, node) && output + (Item(s, node) + After(s, node)) == total
        decreases if status == Success then |total| - |output| + 1 else 0
      {
        ghost var before, d := output, depth;
        assert |output| <= |total|;
        Arrive(node);
        HeadSome(s, node, d);
        if status != Success { break; }
        assert |before| < |output|;
        var child := B.FirstChild(s.rs, node);
        if child != B.NOWHERE {
          Descends(s, node);
          Join(before, Head(s, node, d), Item(s, child) + After(s, child));
          node := child;
          continue;
        }
        ItemParts(s, node);
        ghost var headed := output;
        Leave(node);
        LeafJoins(before, Head(s, node, d), Tail(s, node, d), After(s, node));
        node := Climb(node, total);
        if status != Success || node == 0 { break; }
      }
    }

    lemma LeafJoins(before: string, head: string, tail: string, after: string)
      ensures before + head + tail + after == before + (head + tail + after)
    {
    }

    lemma HeadSome(s: Sheet, i: nat, depth: nat)
      requires i < |s.rs|
      ensures Head(s, i, depth) != ""
    {
      hide Intro;
      if !IsGroup(s, i) { ScalarSome(s, i); }
    }

    lemma ScalarSome(s: Sheet, i: nat)
      requires i < |s.rs| && !IsGroup(s, i)
      ensures Print(s.shortest, s.o, Scalar(s, i), 0) != ""
    {
      hide IntegerText;
      var v := Scalar(s, i);
      if v.Integer? { SpellingParts(v.bits, v.meta); }
    }

    /** Writes the whole document. */
    method Run()
      requires Sound(s) && |s.rs| > 0 && output == "" && depth == 0 && status == Success
      modifies this
      ensures if status == Success then output == PrintDocument(s.shortest, s.o, EntryAt(s, 0).value) else Short(status)
    {
      hide Sound, EntryAt, Print;
      RootSays(s);
      Traverse(Item(s, 0));
      if s.o.ending { Append("\n"); } else { assert output + "" == output; }
    }
  }

  // ---------------------------------------------------------------------
  // A written baked document parses back

  /** The decoded tables: as many texts as the document counts, names apart and without line breaks. */
  ghost predicate TablesRead(s: Sheet) {
    && |s.names| + 1 == s.nameCount && (forall i, j :: 0 <= i < j < |s.names| ==> s.names[i] != s.names[j])
    && (forall i :: 0 <= i < |s.names| ==> s.names[i] != "" && !HasBreak(s.names[i]))
  }

  lemma NamesRead(s: Sheet, a: nat, b: nat)
    requires TablesRead(s) && a < s.nameCount && b < s.nameCount
    ensures !HasBreak(TextIn(s.names, a)) && (a != b ==> TextIn(s.names, a) != TextIn(s.names, b))
  {
    hide HasBreak;
    NothingBroken();
    if 0 < a < b { assert s.names[a - 1] != s.names[b - 1]; }
    if 0 < b < a { assert s.names[b - 1] != s.names[a - 1]; }
  }

  lemma NothingBroken()
    ensures !HasBreak("")
  {
  }

  /** What a validated record holds can be written. */
  lemma {:induction false} ValueWritable(s: Sheet, i: nat)
    requires Sound(s) && TablesRead(s) && i < |s.rs|
    ensures Writable(EntryAt(s, i).value)
    decreases |s.rs| - i
  {
    hide Sound, EntryAt, Entries, TextIn, B.From, B.To, IsObject, TablesRead;
    RecordSays(s, i);
    if IsGroup(s, i) {
      GroupSays(s, i);
      var entries := Entries(s, i);
      forall j | 0 <= j < |entries| ensures WritableEntry(entries[j], IsObject(s, i)) {
        ValueWritable(s, B.From(s.rs, i) + j);
        ChildWritable(s, i, j);
      }
      if IsObject(s, i) {
        forall j, k | 0 <= j < k < |entries| ensures entries[j].name != entries[k].name { MembersApart(s, i, j, k); }
      }
    } else {
      ScalarWritable(s, i);
    }
  }

  lemma ScalarWritable(s: Sheet, i: nat)
    requires Sound(s) && i < |s.rs| && !IsGroup(s, i)
    ensures Writable(Scalar(s, i))
  {
    R.SoundSize(s.rs, s.nameCount, s.stringCount);
    R.RecordParts(s.rs, s.nameCount, s.stringCount, i);
    R.PayloadSound(s.rs[i], s.stringCount);
    hide R.RecordsSound, R.RecordSound, R.PayloadOf, N.IntegerValid, N.FiniteBits;
  }

  /** Whether an entry is named says whether it has a name; every name is one of the table. */
  lemma NameSays(s: Sheet, k: nat)
    requires Sound(s) && TablesRead(s) && k < |s.rs|
    ensures var e := EntryAt(s, k); (!e.named ==> e.name == "") && !HasBreak(e.name) && s.rs[k].name < s.nameCount
  {
    hide R.RecordsSound, HasBreak, R.TreeAt, ValueOf, TablesRead;
    RecordSays(s, k);
    R.RecordParts(s.rs, s.nameCount, s.stringCount, k);
    NamesRead(s, s.rs[k].name, s.rs[k].name);
    NothingBroken();
  }

  lemma ChildWritable(s: Sheet, i: nat, j: nat)
    requires Sound(s) && TablesRead(s) && i < |s.rs| && IsGroup(s, i) && j < |Entries(s, i)|
    requires B.From(s.rs, i) + j < |s.rs| && Entries(s, i)[j] == EntryAt(s, B.From(s.rs, i) + j)
    requires Writable(EntryAt(s, B.From(s.rs, i) + j).value)
    ensures WritableEntry(Entries(s, i)[j], IsObject(s, i))
  {
    hide Sound, EntryAt, Entries, HasBreak, TablesRead, Writable, B.From, B.To;
    NameSays(s, B.From(s.rs, i) + j);
    if IsObject(s, i) { MemberNamed(s, i, j); }
  }

  lemma MemberNamed(s: Sheet, i: nat, j: nat)
    requires Sound(s) && i < |s.rs| && IsObject(s, i) && j < |Entries(s, i)|
    ensures Entries(s, i)[j].named
  {
    hide R.RecordsSound, R.TreeAt, ValueOf;
    R.KidsFit(s.rs, s.nameCount, s.stringCount, i);
    var t := TreeOf(s, i);
    assert |Entries(s, i)| == |t.kids|;
    assert t == R.TreeAt(s.rs, s.nameCount, s.stringCount, i);
    assert R.TreeAt(s.rs, s.nameCount, s.stringCount, i).kids[j].named;
  }

  lemma MembersApart(s: Sheet, i: nat, j: nat, k: nat)
    requires Sound(s) && TablesRead(s) && i < |s.rs| && IsObject(s, i) && j < k < |Entries(s, i)|
    ensures Entries(s, i)[j].name != Entries(s, i)[k].name
  {
    hide R.RecordsSound, R.TreeAt, ValueOf, TextIn, TablesRead, HasBreak;
    GroupSays(s, i);
    R.KidsFit(s.rs, s.nameCount, s.stringCount, i);
    var from := B.From(s.rs, i);
    var t := TreeOf(s, i);
    assert |Entries(s, i)| == |t.kids|;
    assert t == R.TreeAt(s.rs, s.nameCount, s.stringCount, i);
    assert R.TreeAt(s.rs, s.nameCount, s.stringCount, i).kids[j].name != R.TreeAt(s.rs, s.nameCount, s.stringCount, i).kids[k].name;
    KidName(s, i, j);
    KidName(s, i, k);
    NameSays(s, from + j);
    NameSays(s, from + k);
    NamesRead(s, s.rs[from + j].name, s.rs[from + k].name);
  }

  lemma KidName(s: Sheet, i: nat, j: nat)
    requires Sound(s) && i < |s.rs| && IsObject(s, i) && j < |Entries(s, i)| && B.From(s.rs, i) + j < |s.rs|
    ensures TreeOf(s, i).kids[j].name == s.rs[B.From(s.rs, i) + j].name && Entries(s, i)[j].name == TextIn(s.names, s.rs[B.From(s.rs, i) + j].name)
  {
    hide R.RecordsSound, R.TreeAt, ValueOf, TextIn;
    MemberNamed(s, i, j);
    B.DownwardSound(s.rs, s.nameCount, s.stringCount, i, j);
    R.TreeParts(s.rs, s.nameCount, s.stringCount, B.From(s.rs, i) + j);
  }

  /** The text of any validated document is accepted, parses to the settled value, and is what that value is written as. */
  lemma BakedParses(s: Sheet, read: V.Reader)
    requires Sound(s) && |s.rs| > 0 && TablesRead(s) && Lawful(s.shortest, read)
    ensures var v := EntryAt(s, 0).value; var text := PrintDocument(s.shortest, s.o, v); var ts := L.Tokens(text);
      && (v.List? || v.Object?) && G.Stream(ts) && G.CheckDocument(ts) == G.Accepted && M.BuildDocument(read, ts) == V.Built(Settled(v))
      && PrintDocument(s.shortest, s.o, Settled(v)) == text
  {
    hide Sound, EntryAt, Lawful, Writable, TablesRead, PrintDocument, L.Tokens, G.Stream, G.CheckDocument, M.BuildDocument, Settled;
    ValueWritable(s, 0);
    RootSays(s);
    RecordSays(s, 0);
    T.WrittenParses(s.shortest, read, s.o, EntryAt(s, 0).value);
  }
}
