/**
 The part of the parser that writes to the document (core/data_model/document_parser.cpp,
 create, attach, complete): open containers are named by key, and every step is made of
 the live document's own operations.
 */
module DocumentBuilder {
  import opened LiveNode
  import opened Forest
  import opened Traversal
  import opened DocumentState
  import opened Content
  import opened Extending
  import opened LiveBuilding
  import opened Sequences
  import L = LiveDocument
  import M = Merging
  import V = TextValues
  import B = TextBuilding
  import G = TextGrammar
  import W = TextWriter

  /** A value that one record can hold: a scalar in range, or a container with nothing in it. */
  predicate Flat(v: V.Value) {
    match v
    case Integer(bits, meta) => IntegerValid(bits, meta)
    case Floating(bits) => FiniteBits(bits)
    case List(entries) => entries == []
    case Object(entries) => entries == []
    case _ => true
  }

  /** A record without children reads as this entry. */
  ghost predicate Says(payload: Payload, name: nat, named: bool, names: seq<string>, strings: seq<string>, e: V.Entry) {
    W.EntryOf(Tree(payload, name, named, []), names, strings) == e
  }

  lemma NameSays(payload: Payload, name: nat, named: bool, names: seq<string>, strings: seq<string>, v: V.Value)
    requires Says(payload, 0, false, names, strings, V.Entry(false, "", v))
    ensures W.EntryOf(Tree(payload, name, named, []), names, strings) == V.Entry(named, if named then W.TextIn(names, name) else "", v)
  {
    var t, u := Tree(payload, name, named, []), Tree(payload, 0, false, []);
    assert t.kids == u.kids && W.EntriesOf(t.kids, names, strings) == W.EntriesOf(u.kids, names, strings);
    assert W.ValueOf(t, names, strings) == W.ValueOf(u, names, strings);
  }

  /** The record of a value without text. */
  function PayloadOf(v: V.Value): Payload
    requires !v.Words?
  {
    match v
    case Null => Payload(NullValue, 0, false, PLAIN)
    case Truth(b) => Payload(Boolean, if b then 1 else 0, false, PLAIN)
    case Integer(bits, meta) => Payload(Integer, bits, false, meta)
    case Floating(bits) => Payload(FloatingPoint, bits, false, PLAIN)
    case List(_) => Payload(Array, 0, false, PLAIN)
    case Object(_) => Payload(ValueType.Object, 0, false, PLAIN)
  }

  lemma PayloadSays(v: V.Value, names: seq<string>, strings: seq<string>)
    requires Flat(v) && !v.Words?
    ensures PayloadValid(PayloadOf(v), |strings|) && Says(PayloadOf(v), 0, false, names, strings, V.Entry(false, "", v))
    ensures IsContainer(PayloadOf(v).vtype) <==> v.List? || v.Object?
  {
  }

  lemma TextSays(id: nat, suppress: bool, names: seq<string>, strings: seq<string>)
    requires id <= |strings| && id < 0xffff_ffff
    ensures var p := Payload(Text, id, suppress, PLAIN);
      PayloadValid(p, |strings|) && Says(p, 0, false, names, strings, V.Entry(false, "", V.Words(W.TextIn(strings, id), suppress)))
  {
  }

  /** A container as one that is still open. */
  function Opened(e: V.Entry): B.Open
    requires e.value.List? || e.value.Object?
  {
    B.Open(e.value.Object?, e.named, e.name, e.value.entries)
  }

  function Closed(o: B.Open): V.Entry {
    V.Entry(o.named, o.name, V.Container(o.isObject, o.entries))
  }

  /** What closing the top container puts into the one below it. */
  lemma Closes(opens: seq<B.Open>, e: V.Entry, singleton: bool)
    requires |opens| > 1 && e == Closed(G.Last(opens))
    requires singleton <==> e.value.Object? && !G.Last(G.Front(opens)).isObject && !e.named && |e.value.entries| == 1
    ensures B.Close(opens) == B.Going(G.Front(G.Front(opens)) + [B.Receive(G.Last(G.Front(opens)), if singleton then e.value.entries[0] else e)])
  {
  }

  lemma OpenSays(t: Tree, names: seq<string>, strings: seq<string>)
    requires IsContainer(t.payload.vtype)
    ensures var e, o := W.EntryOf(t, names, strings), OpenOf(t, names, strings);
      && (e.value.List? || e.value.Object?) && o == Opened(e) && e.value.entries == W.EntriesOf(t.kids, names, strings)
      && e == Closed(o)
      && o.isObject == t.payload.vtype.Object? && o.named == t.named
  {
  }

  /** One more container on the stack. */
  lemma StackGrows(f: Shape, slotOf: map<Key, Slot>, keys: seq<Key>, slots: seq<Slot>, key: Key, v: Slot, names: seq<string>, strings: seq<string>)
    requires Wf(f) && Stacked(f, slotOf, keys, slots) && Top(f, v) && v !in slots && key != NO_KEY && key in slotOf && slotOf[key] == v
    requires IsContainer(f.nodes[v].payload.vtype)
    requires slots != [] && f.nodes[slots[|slots| - 1]].payload.vtype.Object? ==> f.nodes[v].named
    ensures Stacked(f, slotOf, keys + [key], slots + [v])
    ensures OpensOf(f, slots + [v], names, strings) == OpensOf(f, slots, names, strings) + [OpenOf(ContentOf(f, v), names, strings)]
  {
    hide Wf;
  }

  /** One container fewer. */
  lemma StackShrinks(f: Shape, slotOf: map<Key, Slot>, keys: seq<Key>, slots: seq<Slot>, names: seq<string>, strings: seq<string>)
    requires Wf(f) && Stacked(f, slotOf, keys, slots) && slots != []
    ensures var n := |slots| - 1;
      && Stacked(f, slotOf, keys[..n], slots[..n]) && slots[n] !in slots[..n] && Top(f, slots[n]) && IsContainer(f.nodes[slots[n]].payload.vtype)
      && OpensOf(f, slots, names, strings) == OpensOf(f, slots[..n], names, strings) + [OpenOf(ContentOf(f, slots[n]), names, strings)]
      && (n > 0 && f.nodes[slots[n - 1]].payload.vtype.Object? ==> f.nodes[slots[n]].named)
  {
    hide Wf;
  }

  lemma NamedSays(f: Shape, v: Slot, names: seq<string>, strings: seq<string>)
    requires Wf(f) && IsValue(f.nodes, v)
    ensures W.EntryOf(ContentOf(f, v), names, strings).named == f.nodes[v].named
  {
  }

  /** The container at the top of the stack changes its children, and the others stay. */
  lemma TopChanged(f: Shape, f': Shape, slotOf: map<Key, Slot>, slotOf': map<Key, Slot>, c: Slot, keys: seq<Key>, slots: seq<Slot>,
                   names: seq<string>, strings: seq<string>)
    requires Wf(f) && Wf(f') && Stacked(f, slotOf, keys, slots) && slots != [] && c !in slots
    requires var d, k := slots[|slots| - 1], keys[|slots| - 1];
      && TopsKept(f, f', slotOf, slotOf', {d, c}) && k in slotOf' && slotOf'[k] == d && Top(f', d)
      && f'.nodes[d].payload == f.nodes[d].payload && f'.nodes[d].name == f.nodes[d].name && f'.nodes[d].named == f.nodes[d].named
    ensures Stacked(f', slotOf', keys, slots)
    ensures var d, opens := slots[|slots| - 1], OpensOf(f, slots, names, strings);
      OpensOf(f', slots, names, strings) == G.Front(opens) + [G.Last(opens).(entries := MembersOf(f', d, names, strings))]
  {
    hide Wf, W.EntryOf, W.EntriesOf, IsContainer, MembersOf, OpensOf, OpenOf, Unattached;
    var n := |slots| - 1;
    var d, k := slots[n], keys[n];
    StackShrinks(f, slotOf, keys, slots, names, strings);
    StackKept(f, f', slotOf, slotOf', {d, c}, keys[..n], slots[..n], names, strings);
    HeadSame(f, f', d, names, strings);
    assert slots == slots[..n] + [d] && keys == keys[..n] + [k];
    if n > 0 { assert TopsKept(f, f', slotOf, slotOf', {d, c}) && StaysTop(f, f', slotOf[keys[n - 1]]); }
    StackGrows(f', slotOf', keys[..n], slots[..n], k, d, names, strings);
  }

  /** The entries of the container at the top of the stack, with one placed among them. */
  ghost predicate Received(f: Shape, f': Shape, slotOf': map<Key, Slot>, c: Slot, keys: seq<Key>, slots: seq<Slot>, names: seq<string>, strings: seq<string>)
    requires Wf(f) && Wf(f') && slots != [] && IsValue(f.nodes, c)
    requires forall i :: 0 <= i < |slots| ==> IsValue(f.nodes, slots[i])
  {
    && Stacked(f', slotOf', keys, slots)
    && var opens := OpensOf(f, slots, names, strings);
      OpensOf(f', slots, names, strings) == G.Front(opens) + [B.Receive(G.Last(opens), W.EntryOf(ContentOf(f, c), names, strings))]
  }

  /** A loose value is linked under the container at the top. */
  lemma LinkReceives(f: Shape, f': Shape, slotOf: map<Key, Slot>, keys: seq<Key>, slots: seq<Slot>, c: Slot, names: seq<string>, strings: seq<string>)
    requires Wf(f) && Wf(f') && Stacked(f, slotOf, keys, slots) && slots != [] && Top(f, c) && c !in slots
    requires NamesDiffer(names) && "" !in names && f.nodes[c].name <= |names|
    requires var d := slots[|slots| - 1];
      && LinkedUnder(f.nodes, f.kids, f'.nodes, f'.kids, d, c, |KidsOf(f.nodes, f.kids, d)|)
      && (f.nodes[d].payload.vtype.Object? ==> f.nodes[c].named && M.MemberNamed(f, d, f.nodes[c].name) == NO_SLOT && Tabled(f, d, names))
    ensures Received(f, f', slotOf, c, keys, slots, names, strings)
  {
    var d := slots[|slots| - 1];
    LinkKeeps(f, f', slotOf, d, c);
    LinkedTop(f, f', d, c);
    DetachedInside(f, d, c);
    hide Wf, W.EntryOf, LinkedUnder, Tabled, NamesDiffer, MembersOf, Under, M.MemberNamed, TopsKept, V.Find, V.Merge;
    if f.nodes[d].payload.vtype.Object? { LinkPlaces(f, f', d, c, names, strings); } else { LinkAppends(f, f', d, c, names, strings); }
    TopChanged(f, f', slotOf, slotOf, c, keys, slots, names, strings);
    OpenMembers(f, d, names, strings);
  }

  lemma LinkedTop(f: Shape, f': Shape, d: Slot, c: Slot)
    requires Wf(f) && Top(f, d) && d != c && LinkedUnder(f.nodes, f.kids, f'.nodes, f'.kids, d, c, |KidsOf(f.nodes, f.kids, d)|)
    ensures Top(f', d) && f'.nodes[d].payload == f.nodes[d].payload && f'.nodes[d].name == f.nodes[d].name && f'.nodes[d].named == f.nodes[d].named
  {
    hide Wf, KidsOf;
    assert SameButLinks(f.nodes[d], f'.nodes[d]);
  }

  lemma OpenMembers(f: Shape, d: Slot, names: seq<string>, strings: seq<string>)
    requires Wf(f) && IsValue(f.nodes, d)
    ensures var o := OpenOf(ContentOf(f, d), names, strings);
      o.entries == MembersOf(f, d, names, strings) && o.isObject == f.nodes[d].payload.vtype.Object?
  {
  }

  lemma StackTop(f: Shape, slotOf: map<Key, Slot>, keys: seq<Key>, slots: seq<Slot>)
    requires Stacked(f, slotOf, keys, slots) && slots != []
    ensures |keys| == |slots| && Top(f, slots[|slots| - 1]) && keys[|slots| - 1] in slotOf && slotOf[keys[|slots| - 1]] == slots[|slots| - 1]
    ensures keys[|slots| - 1] != NO_KEY && forall i :: 0 <= i < |slots| ==> IsValue(f.nodes, slots[i])
    ensures IsContainer(f.nodes[slots[|slots| - 1]].payload.vtype)
  {
  }

  /** A loose value is merged into the member of its name. */
  lemma MergeReceives(f: Shape, f': Shape, slotOf: map<Key, Slot>, slotOf': map<Key, Slot>, keys: seq<Key>, slots: seq<Slot>, e: Slot, c: Slot,
                      names: seq<string>, strings: seq<string>)
    requires Wf(f) && Stacked(f, slotOf, keys, slots) && slots != [] && Top(f, c) && c !in slots
    requires NamesDiffer(names) && "" !in names && f.nodes[c].name <= |names|
    requires var d := slots[|slots| - 1];
      && f.nodes[d].payload.vtype.Object? && f.nodes[c].named && e == M.MemberNamed(f, d, f.nodes[c].name) && e != NO_SLOT
      && Tabled(f, d, names) && IsValue(f.nodes, e)
    requires M.Extended(f, f', e, c) && forall k :: k in slotOf && slotOf[k] != c ==> k in slotOf' && slotOf'[k] == slotOf[k]
    ensures Wf(f') && Received(f, f', slotOf', c, keys, slots, names, strings)
  {
    hide Wf, W.EntryOf, M.Extended, M.Colliding, Tabled, NamesDiffer, MembersOf, Under, M.MemberNamed, TopsKept, V.Find, V.Merge, Stacked, Distinct;
    var d := slots[|slots| - 1];
    StackTop(f, slotOf, keys, slots);
    assert d in slots;
    DetachedInside(f, d, c);
    NamesakeFacts(f, d, c, e);
    MergeKeeps(f, f', slotOf, slotOf', d, e, c);
    MergedTop(f, f', d, e, c);
    ExtensionPlaces(f, f', d, e, c, names, strings);
    TopChanged(f, f', slotOf, slotOf', c, keys, slots, names, strings);
    OpenMembers(f, d, names, strings);
  }

  lemma MergedTop(f: Shape, f': Shape, d: Slot, e: Slot, c: Slot)
    requires M.Colliding(f, d, e, c) && Top(f, d) && M.Extended(f, f', e, c)
    ensures Top(f', d) && f'.nodes[d].payload == f.nodes[d].payload && f'.nodes[d].name == f.nodes[d].name && f'.nodes[d].named == f.nodes[d].named
  {
    M.DistinctPlayers(f, d, e, c);
    hide Wf;
    assert SameNode(f, f', d);
  }

  /** The only child of a loose value, alone. */
  lemma ChildAlone(f: Shape, f1: Shape, f2: Shape, keyAt: map<Slot, Key>, keyAt': map<Slot, Key>, slotOf: map<Key, Slot>, slotOf': map<Key, Slot>,
                   p: Slot, c: Slot, child: Key, keys: seq<Key>, slots: seq<Slot>, names: seq<string>, strings: seq<string>)
    requires Wf(f) && Wf(f1) && Wf(f2) && Top(f, p) && IsValue(f.nodes, c) && Up(f.nodes, c) == p && child in slotOf && slotOf[child] == c
    requires LinkedOutOf(f.nodes, f.kids, f1.nodes, f1.kids, c) && TreeGone(f1, f2.nodes, f2.kids, keyAt, keyAt', slotOf, slotOf', p)
    requires Stacked(f, slotOf, keys, slots) && p !in slots
    ensures child in slotOf' && slotOf'[child] == c && Top(f2, c) && c !in slots && ContentOf(f2, c) == ContentOf(f, c)
    ensures Stacked(f2, slotOf', keys, slots) && OpensOf(f2, slots, names, strings) == OpensOf(f, slots, names, strings)
  {
    hide Wf, W.EntryOf, LinkedOutOf, TreeGone, TopsKept, OpensOf;
    ChildNotTop(f, p, c);
    DetachKeeps(f, f1, slotOf, p, c);
    StackKept(f, f1, slotOf, slotOf, {p}, keys, slots, names, strings);
    EraseKeeps(f1, f2, keyAt, keyAt', slotOf, slotOf', p);
    StackKept(f1, f2, slotOf, slotOf', {p}, keys, slots, names, strings);
    ChildKeeps(f1, f2, slotOf, slotOf', p, child);
  }

  lemma FewerRecords(f: Shape, f1: Shape, f2: Shape, keyAt: map<Slot, Key>, keyAt': map<Slot, Key>, slotOf: map<Key, Slot>, slotOf': map<Key, Slot>, p: Slot, c: Slot)
    requires Wf(f1) && Top(f1, p) && LinkedOutOf(f.nodes, f.kids, f1.nodes, f1.kids, c) && TreeGone(f1, f2.nodes, f2.kids, keyAt, keyAt', slotOf, slotOf', p)
    ensures f2.nodes.Keys <= f.nodes.Keys
  {
    assert NO_SLOT !in f1.nodes;
  }

  lemma ObjectMembers(f: Shape, v: Slot, names: seq<string>, strings: seq<string>)
    requires Wf(f) && IsValue(f.nodes, v)
    ensures var value := W.EntryOf(ContentOf(f, v), names, strings).value; value.Object? ==> value.entries == MembersOf(f, v, names, strings)
  {
  }

  lemma ChildNotTop(f: Shape, p: Slot, c: Slot)
    requires Wf(f) && Top(f, p) && IsValue(f.nodes, c) && Up(f.nodes, c) == p
    ensures c != p && !Top(f, c)
  {
    TopHasNoParent(f, p);
    assert NO_SLOT !in f.nodes;
    if Top(f, c) { TopHasNoParent(f, c); }
  }

  lemma ChildKeeps(f: Shape, f': Shape, slotOf: map<Key, Slot>, slotOf': map<Key, Slot>, p: Slot, child: Key)
    requires Wf(f) && Wf(f') && TopsKept(f, f', slotOf, slotOf', {p}) && child in slotOf && Top(f, slotOf[child]) && slotOf[child] != p
    ensures child in slotOf' && slotOf'[child] == slotOf[child] && StaysTop(f, f', slotOf[child])
  {
    hide Wf;
  }

  lemma HeadSame(f: Shape, f': Shape, d: Slot, names: seq<string>, strings: seq<string>)
    requires Wf(f) && Wf(f') && IsValue(f.nodes, d) && IsValue(f'.nodes, d)
    requires f'.nodes[d].payload == f.nodes[d].payload && f'.nodes[d].name == f.nodes[d].name && f'.nodes[d].named == f.nodes[d].named
    ensures OpenOf(ContentOf(f', d), names, strings) == OpenOf(ContentOf(f, d), names, strings).(entries := MembersOf(f', d, names, strings))
  {
  }

  lemma Childless(f: Shape, v: Slot)
    requires Wf(f) && IsValue(f.nodes, v) && KidsOf(f.nodes, f.kids, v) == []
    ensures ContentOf(f, v) == Tree(f.nodes[v].payload, f.nodes[v].name, f.nodes[v].named, [])
  {
  }

  /** The root of a sound document reads as this value. */
  ghost predicate Reads(doc: L.LiveDocument, encode: string -> Bytes, v: V.Value)
    reads doc
  {
    && doc.IsReady() && doc.Inv()
    && exists names, strings :: Keeps(encode, doc.names, names) && Keeps(encode, doc.strings, strings)
                             && W.ValueOf(ContentOf(doc.Shape(), doc.SlotOf(doc.root)), names, strings) == v
  }

  /** A document reads as one value only. */
  lemma ReadsOnce(doc: L.LiveDocument, encode: string -> Bytes, v: V.Value, v': V.Value)
    requires Coding(encode) && Reads(doc, encode, v) && Reads(doc, encode, v')
    ensures v == v'
  {
    hide W.ValueOf;
    var names, strings :| Keeps(encode, doc.names, names) && Keeps(encode, doc.strings, strings)
      && W.ValueOf(ContentOf(doc.Shape(), doc.SlotOf(doc.root)), names, strings) == v;
    var names', strings' :| Keeps(encode, doc.names, names') && Keeps(encode, doc.strings, strings')
      && W.ValueOf(ContentOf(doc.Shape(), doc.SlotOf(doc.root)), names', strings') == v';
    KeptOnce(encode, doc.names, names, names');
    KeptOnce(encode, doc.strings, strings, strings');
  }

  lemma KeptOnce(encode: string -> Bytes, table: seq<Bytes>, texts: seq<string>, texts': seq<string>)
    requires Coding(encode) && Keeps(encode, table, texts) && Keeps(encode, table, texts')
    ensures texts == texts'
  {
    forall i | 0 <= i < |texts| ensures texts[i] == texts'[i] { assert encode(texts[i]) == encode(texts'[i]); }
  }

  class Builder {
    const doc: L.LiveDocument
    /** The bytes of a text. */
    const encode: string -> Bytes

    /** The open containers, the root first. */
    var keys: seq<Key>
    ghost var slots: seq<Slot>
    /** The texts that the document's tables keep. */
    ghost var names: seq<string>
    ghost var strings: seq<string>

    ghost predicate Valid()
      reads this, doc
    {
      && doc.IsReady() && doc.Inv() && Coding(encode)
      && Keeps(encode, doc.names, names) && Keeps(encode, doc.strings, strings)
      && Stacked(doc.Shape(), doc.slotOf, keys, slots) && (keys != [] ==> keys[0] == doc.root)
    }

    /** The open containers as lists of entries. */
    ghost function Opens(): (opens: seq<B.Open>)
      reads this, doc
      requires Valid()
      ensures |opens| == |keys|
    {
      OpensOf(doc.Shape(), slots, names, strings)
    }

    /** What the root reads as. */
    ghost function Root(): V.Value
      reads this, doc
      requires Valid()
    {
      W.ValueOf(ContentOf(doc.Shape(), doc.SlotOf(doc.root)), names, strings)
    }

    /** A value that is in no container, and is not an open one. */
    ghost predicate Loose(key: Key)
      reads this, doc
    {
      key != NO_KEY && key != doc.root && key in doc.slotOf && Top(doc.Shape(), doc.slotOf[key]) && doc.slotOf[key] !in slots
    }

    ghost function EntryAt(key: Key): V.Entry
      reads this, doc
      requires Valid() && Loose(key)
    {
      W.EntryOf(ContentOf(doc.Shape(), doc.slotOf[key]), names, strings)
    }

    constructor (doc: L.LiveDocument, encode: string -> Bytes)
      requires doc.IsReady() && doc.Inv() && Coding(encode) && doc.names == [] && doc.strings == []
      ensures Valid() && this.doc == doc && this.encode == encode && keys == []
    {
      this.doc, this.encode := doc, encode;
      keys, slots, names, strings := [], [], [], [];
    }

    lemma Facts()
      requires Valid()
      ensures Wf(doc.Shape()) && PayloadsValid(doc.nodes, |names|, |strings|) && |names| == |doc.names| && |strings| == |doc.strings|
      ensures Stacked(doc.Shape(), doc.slotOf, keys, slots) && (forall i :: 0 <= i < |slots| ==> IsValue(doc.nodes, slots[i]))
      ensures encode("") == [] && NamesDiffer(names) && "" !in names && doc.root in doc.slotOf && NO_SLOT !in doc.nodes
    {
      doc.Tables();
      doc.Known();
      hide doc.Inv, IsForest, PayloadsValid;
      KeptApart(encode, doc.names, names);
    }

    // -------------------------------------------------------------------
    // Texts

    /** The identifier of a name. */
    method Intern(name: string) returns (ok: bool, id: nat)
      requires Valid()
      modifies `names, doc`names
      ensures Valid() && Opens() == old(Opens()) && |doc.names| <= |old(doc.names)| + 1
      ensures ok ==> id <= |names| && id < 0xffff_ffff && W.TextIn(names, id) == name && (name == "" ==> id == 0)
      ensures doc.granted && |old(doc.names)| + 1 < 0xffff_ffff && !doc.breaks(encode(name)) ==> ok
    {
      hide Stacked, doc.Inv, Coding, Keeps, W.TextIn, PayloadsValid;
      if doc.breaks(encode(name)) { return false, 0; }
      Facts();
      ghost var table := doc.names;
      ok, id := doc.InternName(encode(name));
      EnteredKept(encode, table, doc.names, names, name);
      StackReads(doc.Shape(), slots, names, strings, Entered(table, doc.names, names, name), strings);
      names := Entered(table, doc.names, names, name);
      if ok { KeptText(encode, doc.names, names, id, name); }
    }

    /** The record of a value; its text enters the table. */
    method Render(v: V.Value) returns (ok: bool, payload: Payload)
      requires Valid() && Flat(v)
      modifies `strings, doc`strings
      ensures Valid() && Opens() == old(Opens()) && |doc.strings| <= |old(doc.strings)| + 1
      ensures ok ==> PayloadValid(payload, |doc.strings|) && Says(payload, 0, false, names, strings, V.Entry(false, "", v))
      ensures ok ==> (IsContainer(payload.vtype) <==> v.List? || v.Object?)
      ensures doc.granted && |old(doc.strings)| + 1 < 0xffff_ffff ==> ok
    {
      hide Stacked, doc.Inv, Coding, Keeps, W.TextIn, PayloadsValid, PayloadValid, Says, Flat, PayloadOf;
      Facts();
      if !v.Words? {
        PayloadSays(v, names, strings);
        return true, PayloadOf(v);
      }
      ghost var table := doc.strings;
      var id;
      ok, id := doc.InternString(encode(v.chars));
      EnteredKept(encode, table, doc.strings, strings, v.chars);
      StackReads(doc.Shape(), slots, names, strings, names, Entered(table, doc.strings, strings, v.chars));
      strings := Entered(table, doc.strings, strings, v.chars);
      payload := Payload(Text, 0, false, PLAIN);
      if ok {
        Facts();
        KeptText(encode, doc.strings, strings, id, v.chars);
        TextSays(id, v.suppress, names, strings);
        payload := Payload(Text, id, v.suppress, PLAIN);
      }
    }

    /** Makes a value of a record. */
    method Make(payload: Payload, name: nat, named: bool) returns (key: Key)
      requires Valid() && PayloadValid(payload, |doc.strings|) && NameValid(name, named, |doc.names|)
      modifies doc`nodes, doc`keyAt, doc`slotOf, doc`nextKey, doc`kids, doc`rank, doc`bound
      ensures key != NO_KEY ==> Valid() && Loose(key) && Opens() == old(Opens())
      ensures key != NO_KEY ==> EntryAt(key) == W.EntryOf(Tree(payload, name, named, []), names, strings) && doc.nodes[doc.slotOf[key]].payload == payload
      ensures old(doc.Spare()) >= 2 ==> key != NO_KEY && doc.Spare() >= old(doc.Spare()) - 2
    {
      hide Stacked, doc.Inv, Coding, Keeps, W.TextIn, W.EntryOf, PayloadsValid, PayloadValid, NameValid, Advances, doc.Created, doc.Spare, Wf, OpensOf, Unattached, TopsKept;
      Facts();
      doc.Known();
      ghost var f, keyAt0, slotOf0 := doc.Shape(), doc.keyAt, doc.slotOf;
      key := doc.CreateValue(payload, name, named);
      if key == NO_KEY { return; }
      doc.Known();
      doc.CreatedFacts(f, keyAt0, slotOf0, key, payload, name, named);
      GrowthKeeps(f, doc.Shape(), keyAt0, doc.keyAt, slotOf0, doc.slotOf);
      StackKept(f, doc.Shape(), slotOf0, doc.slotOf, {}, keys, slots, names, strings);
      Childless(doc.Shape(), doc.slotOf[key]);
    }

    /** Makes a value that is in no container yet; only members of objects have names. */
    method Create(named: bool, name: string, v: V.Value) returns (key: Key)
      requires Valid() && Flat(v) && (!named ==> name == "")
      modifies `names, `strings, doc`names, doc`strings, doc`nodes, doc`keyAt, doc`slotOf, doc`nextKey, doc`kids, doc`rank, doc`bound
      ensures key != NO_KEY ==> Valid() && Loose(key) && Opens() == old(Opens()) && EntryAt(key) == V.Entry(named, name, v)
      ensures key != NO_KEY ==> (IsContainer(doc.nodes[doc.slotOf[key]].payload.vtype) <==> v.List? || v.Object?)
      ensures |doc.names| <= |old(doc.names)| + 1 && |doc.strings| <= |old(doc.strings)| + 1
      ensures doc.granted && |old(doc.names)| + 1 < 0xffff_ffff && |old(doc.strings)| + 1 < 0xffff_ffff && !doc.breaks(encode(name)) && old(doc.Spare()) >= 2 ==>
        key != NO_KEY && doc.Spare() >= old(doc.Spare()) - 2
    {
      hide Stacked, doc.Inv, Coding, Keeps, W.TextIn, W.EntryOf, PayloadsValid, PayloadValid, Advances, Wf, OpensOf, Says, Flat, IsContainer;
      key := NO_KEY;
      var interned, id := Intern(name);
      if !interned { return; }
      var rendered, payload := Render(v);
      if !rendered { return; }
      Facts();
      NameSays(payload, id, named, names, strings, v);
      key := Make(payload, id, named);
    }

    /** The root has the right type and nothing in it. */
    ghost predicate Blank(isObject: bool)
      reads doc
    {
      doc.Contains(doc.root) && doc.Children(doc.root) == [] && doc.nodes[doc.SlotOf(doc.root)].payload.vtype.Object? == isObject
    }

    /** Opens the root. */
    method Begin(ghost isObject: bool)
      requires Valid() && keys == [] && Blank(isObject)
      modifies `keys, `slots
      ensures Valid() && keys == [doc.root] && Opens() == [B.Open(isObject, false, "", [])]
    {
      Facts();
      RootTop();
      Childless(doc.Shape(), doc.slotOf[doc.root]);
      hide doc.Inv, Wf, Coding, Keeps, PayloadsValid;
      StackGrows(doc.Shape(), doc.slotOf, keys, slots, doc.root, doc.slotOf[doc.root], names, strings);
      keys, slots := keys + [doc.root], slots + [doc.slotOf[doc.root]];
    }

    lemma RootTop()
      requires doc.IsReady() && doc.Inv()
      ensures doc.root != NO_KEY && doc.root in doc.slotOf && doc.SlotOf(doc.root) == doc.slotOf[doc.root] && Top(doc.Shape(), doc.slotOf[doc.root])
      ensures IsContainer(doc.nodes[doc.slotOf[doc.root]].payload.vtype) && !doc.nodes[doc.slotOf[doc.root]].named && doc.nodes[doc.slotOf[doc.root]].name == 0
    {
    }

    /** Opens a container that is in no container yet. */
    method Push(key: Key)
      requires Valid() && keys != [] && Loose(key) && IsContainer(doc.nodes[doc.slotOf[key]].payload.vtype)
      requires G.Last(Opens()).isObject ==> EntryAt(key).named
      modifies `keys, `slots
      ensures Valid() && keys == old(keys) + [key]
      ensures old(EntryAt(key).value.List? || EntryAt(key).value.Object?) && Opens() == old(Opens()) + [Opened(old(EntryAt(key)))]
    {
      Facts();
      hide doc.Inv, Wf, Coding, Keeps, PayloadsValid, W.EntryOf;
      ghost var f, v := doc.Shape(), doc.slotOf[key];
      OpenSays(ContentOf(f, v), names, strings);
      TopSays();
      NamedSays(f, v, names, strings);
      StackGrows(f, doc.slotOf, keys, slots, key, v, names, strings);
      keys, slots := keys + [key], slots + [v];
    }

    /** The container at the top of the stack. */
    lemma TopSays()
      requires Valid() && keys != []
      ensures var top := slots[|slots| - 1];
        && IsValue(doc.nodes, top) && G.Last(Opens()).isObject == doc.nodes[top].payload.vtype.Object?
        && G.Last(Opens()) == OpenOf(ContentOf(doc.Shape(), top), names, strings) && doc.SlotOf(keys[|keys| - 1]) == top
    {
      Facts();
    }

    // -------------------------------------------------------------------
    // Attachment

    /** The stack with the value placed in the container at its top. */
    ghost predicate Took(f: Shape, c: Slot)
      reads this, doc
      requires Wf(f) && slots != [] && IsValue(f.nodes, c) && forall i :: 0 <= i < |slots| ==> IsValue(f.nodes, slots[i])
    {
      doc.IsReady() && doc.Inv() && Received(f, doc.Shape(), doc.slotOf, c, keys, slots, names, strings)
    }

    lemma TookSays(opens: seq<B.Open>, e: V.Entry, f: Shape, c: Slot)
      requires Wf(f) && slots != [] && IsValue(f.nodes, c) && (forall i :: 0 <= i < |slots| ==> IsValue(f.nodes, slots[i])) && Took(f, c)
      requires Coding(encode) && Keeps(encode, doc.names, names) && Keeps(encode, doc.strings, strings) && (keys != [] ==> keys[0] == doc.root)
      requires opens == OpensOf(f, slots, names, strings) && e == W.EntryOf(ContentOf(f, c), names, strings)
      ensures Valid() && Opens() == G.Front(opens) + [B.Receive(G.Last(opens), e)]
    {
      hide doc.Inv, Wf, Coding, Keeps, W.EntryOf, V.Place;
    }

    /** What is so of any sound stack. */
    lemma Sound(key: Key)
      requires Valid() && Loose(key)
      ensures doc.IsReady() && doc.Inv() && Coding(encode) && Keeps(encode, doc.names, names) && Keeps(encode, doc.strings, strings)
      ensures Stacked(doc.Shape(), doc.slotOf, keys, slots) && (keys != [] ==> keys[0] == doc.root) && NamesDiffer(names) && "" !in names
      ensures |keys| == |slots| && doc.slotOf[key] !in slots && key != doc.root && key != NO_KEY && key in doc.slotOf
    {
      Facts();
    }

    /** A loose value and the container that it is to go into. */
    lemma Ready(key: Key)
      requires Valid() && keys != [] && Loose(key) && (G.Last(Opens()).isObject ==> EntryAt(key).named)
      ensures var f, d, c := doc.Shape(), slots[|slots| - 1], doc.slotOf[key];
        && Wf(f) && Top(f, d) && Top(f, c) && d != c && !Under(f.nodes, d, c) && IsContainer(f.nodes[d].payload.vtype)
        && (f.nodes[d].payload.vtype.Object? ==> f.nodes[c].named) && f.nodes[c].name <= |names| && Tabled(f, d, names)
        && doc.SlotOf(keys[|keys| - 1]) == d && doc.SlotOf(key) == c && keys[|keys| - 1] in doc.slotOf && keys[|keys| - 1] != NO_KEY
      ensures forall i :: 0 <= i < |slots| ==> IsValue(doc.nodes, slots[i])
      ensures Opens() == OpensOf(doc.Shape(), slots, names, strings) && EntryAt(key) == W.EntryOf(ContentOf(doc.Shape(), doc.slotOf[key]), names, strings)
    {
      Facts();
      var f, d, c := doc.Shape(), slots[|slots| - 1], doc.slotOf[key];
      StackTop(f, doc.slotOf, keys, slots);
      assert d in slots;
      DetachedInside(f, d, c);
      NamesTabled(doc, d);
      NamesTabled(doc, c);
      TopSays();
      NamedSays(f, c, names, strings);
    }

    /** Appends a loose value to the container at the top. */
    method Append(key: Key) returns (ok: bool)
      requires Valid() && keys != [] && Loose(key) && (G.Last(Opens()).isObject ==> EntryAt(key).named)
      requires doc.nodes[slots[|slots| - 1]].payload.vtype.Object? ==>
        M.MemberNamed(doc.Shape(), slots[|slots| - 1], doc.nodes[doc.slotOf[key]].name) == NO_SLOT
      modifies doc`nodes, doc`kids, doc`rank, doc`bound, doc`bad
      ensures ok && Valid() && doc.Spare() == old(doc.Spare())
      ensures Opens() == G.Front(old(Opens())) + [B.Receive(G.Last(old(Opens())), old(EntryAt(key)))]
    {
      hide Valid, Loose, Opens, EntryAt, doc.Inv, Wf, Coding, Keeps, W.EntryOf, Stacked, PayloadsValid, NamesDiffer, Tabled, Under, M.MemberNamed, LinkedUnder, Received, B.Receive, OpensOf, doc.Spare, M.Extended, Advances, Unattached, IsContainer;
      Sound(key);
      Ready(key);
      ghost var f, d, c := doc.Shape(), slots[|slots| - 1], doc.slotOf[key];
      if f.nodes[d].payload.vtype.Object? { M.NoNamesake(f, d, c); }
      doc.SpareIs();
      doc.Admitted(keys[|keys| - 1], key);
      var r := doc.AppendChild(keys[|keys| - 1], key);
      doc.LinkSpares(f, d, c);
      doc.Known();
      LinkReceives(f, doc.Shape(), doc.slotOf, keys, slots, c, names, strings);
      TookSays(old(Opens()), old(EntryAt(key)), f, c);
      return r.Accepted?;
    }

    /** Merges a loose value into the member of its name. */
    method Extend(key: Key) returns (ok: bool)
      requires Valid() && keys != [] && Loose(key) && (G.Last(Opens()).isObject ==> EntryAt(key).named)
      requires doc.nodes[slots[|slots| - 1]].payload.vtype.Object?
      requires M.MemberNamed(doc.Shape(), slots[|slots| - 1], doc.nodes[doc.slotOf[key]].name) != NO_SLOT
      modifies doc`nodes, doc`keyAt, doc`slotOf, doc`nextKey, doc`kids, doc`rank, doc`bound, doc`bad
      ensures ok ==> Valid() && Opens() == G.Front(old(Opens())) + [B.Receive(G.Last(old(Opens())), old(EntryAt(key)))]
      ensures old(doc.Spare()) >= 4 ==> ok && doc.Spare() >= old(doc.Spare()) - 4
    {
      hide Valid, Loose, Opens, EntryAt, doc.Inv, Wf, Coding, Keeps, W.EntryOf, Stacked, PayloadsValid, NamesDiffer, Tabled, Under, M.MemberNamed, LinkedUnder, Received, B.Receive, OpensOf, doc.Spare, M.Extended, Advances, Unattached, IsContainer;
      Sound(key);
      Ready(key);
      ghost var f, slotOf0, d, c := doc.Shape(), doc.slotOf, slots[|slots| - 1], doc.slotOf[key];
      var extended := doc.ExtendObjectChild(keys[|keys| - 1], key);
      if extended == NO_KEY { return false; }
      doc.Known();
      MergeReceives(f, doc.Shape(), slotOf0, doc.slotOf, keys, slots, slotOf0[extended], c, names, strings);
      TookSays(old(Opens()), old(EntryAt(key)), f, c);
      return true;
    }

    /** Puts a loose value into the container at the top, extending the member of its name if there is one. */
    method Attach(key: Key) returns (ok: bool)
      requires Valid() && keys != [] && Loose(key) && (G.Last(Opens()).isObject ==> EntryAt(key).named)
      modifies doc`nodes, doc`keyAt, doc`slotOf, doc`nextKey, doc`kids, doc`rank, doc`bound, doc`bad
      ensures ok ==> Valid() && Opens() == G.Front(old(Opens())) + [B.Receive(G.Last(old(Opens())), old(EntryAt(key)))]
      ensures old(doc.Spare()) >= 4 ==> ok && doc.Spare() >= old(doc.Spare()) - 4
    {
      hide Valid, Loose, Opens, EntryAt, doc.Inv, Wf, Coding, Keeps, W.EntryOf, Stacked, PayloadsValid, NamesDiffer, Tabled, Under, M.MemberNamed, B.Receive,
        OpensOf, doc.Spare, Unattached, IsContainer;
      Sound(key);
      Ready(key);
      var existing := NO_KEY;
      if doc.nodes[doc.SlotOf(keys[|keys| - 1])].payload.vtype.Object? {
        existing := doc.ObjectChild(keys[|keys| - 1], doc.nodes[doc.SlotOf(key)].name);
      }
      if existing == NO_KEY { ok := Append(key); } else { ok := Extend(key); }
    }

    /** The only member of a loose object. */
    lemma OnlyOne(key: Key)
      requires Valid() && Loose(key) && EntryAt(key).value.Object? && |EntryAt(key).value.entries| == 1
      ensures var f, p := doc.Shape(), doc.slotOf[key];
        && Top(f, p) && doc.SlotOf(key) == p && |doc.Children(key)| == 1 && Wf(f) && p !in slots
        && var c, child := doc.Children(key)[0], doc.FirstChild(key);
        && IsValue(doc.nodes, c) && Up(doc.nodes, c) == p && doc.nodes[c].parent != NO_SLOT && W.EntryOf(ContentOf(f, c), names, strings) == EntryAt(key).value.entries[0]
        && child in doc.slotOf && doc.slotOf[child] == c && child != NO_KEY && child != doc.root
    {
      Facts();
      var f, p := doc.Shape(), doc.slotOf[key];
      ObjectMembers(f, p, names, strings);
      MembersSize(f, p, names, strings);
      hide doc.Inv, Wf, W.EntryOf, MembersOf, PayloadsValid, NamesDiffer, Stacked, Coding, Keeps;
      MemberAt(f, p, names, strings, 0);
      doc.ChildrenKnown(key);
    }

    /** The stack is as it was, and another value is loose. */
    lemma NowLoose(child: Key, opens: seq<B.Open>, e: V.Entry)
      requires doc.IsReady() && doc.Inv() && Coding(encode) && Keeps(encode, doc.names, names) && Keeps(encode, doc.strings, strings)
      requires Stacked(doc.Shape(), doc.slotOf, keys, slots) && (keys != [] ==> keys[0] == doc.root) && OpensOf(doc.Shape(), slots, names, strings) == opens
      requires child != NO_KEY && child != doc.root && child in doc.slotOf && Top(doc.Shape(), doc.slotOf[child]) && doc.slotOf[child] !in slots
      requires W.EntryOf(ContentOf(doc.Shape(), doc.slotOf[child]), names, strings) == e
      ensures Valid() && Loose(child) && Opens() == opens && EntryAt(child) == e
    {
      hide doc.Inv, Coding, Keeps, Stacked, OpensOf, W.EntryOf;
    }

    /** Takes the only member out of a loose object and erases the object. */
    method TakeOnly(key: Key) returns (ok: bool, child: Key)
      requires Valid() && Loose(key) && EntryAt(key).value.Object? && |EntryAt(key).value.entries| == 1
      modifies doc`nodes, doc`keyAt, doc`slotOf, doc`kids, doc`bad
      ensures ok && Valid() && Loose(child) && Opens() == old(Opens()) && doc.Spare() >= old(doc.Spare())
      ensures EntryAt(child) == old(EntryAt(key).value.entries[0])
    {
      hide Valid, Loose, Opens, EntryAt, doc.Inv, Wf, Coding, Keeps, W.EntryOf, Stacked, PayloadsValid, NamesDiffer, Under, LinkedOutOf, TreeGone, OpensOf, doc.Spare, L.SpareOf,
        Unattached, Up, Distinct;
      Sound(key);
      OnlyOne(key);
      OpensSays();
      doc.SpareIs();
      ghost var f, keyAt0, slotOf0, p := doc.Shape(), doc.keyAt, doc.slotOf, doc.slotOf[key];
      ghost var c, opens, e := doc.Children(key)[0], Opens(), EntryAt(key).value.entries[0];
      child := doc.FirstChild(key);
      ok := doc.Detach(child);
      doc.Known();
      ghost var f1 := doc.Shape();
      DetachKeeps(f, f1, slotOf0, p, c);
      var erased := doc.Erase(key);
      ok := ok && erased;
      doc.Known();
      ChildAlone(f, f1, doc.Shape(), keyAt0, doc.keyAt, slotOf0, doc.slotOf, p, c, child, keys, slots, names, strings);
      FewerRecords(f, f1, doc.Shape(), keyAt0, doc.keyAt, slotOf0, doc.slotOf, p, c);
      L.KeysCounted(f.nodes, doc.nodes);
      doc.SpareIs();
      L.SpareGrows(doc.granted, |f.nodes|, doc.nextKey, |doc.nodes|);
      NowLoose(child, opens, e);
    }

    lemma OpensSays()
      requires Valid()
      ensures Wf(doc.Shape()) && (forall i :: 0 <= i < |slots| ==> IsValue(doc.nodes, slots[i])) && Opens() == OpensOf(doc.Shape(), slots, names, strings)
    {
      Facts();
    }

    /** Whether the container at the top is an object. */
    method TopIsObject() returns (isObject: bool)
      requires Valid() && keys != []
      ensures isObject == G.Last(Opens()).isObject
    {
      TopSays();
      return doc.nodes[doc.SlotOf(keys[|keys| - 1])].payload.vtype.Object?;
    }

    lemma RootReads()
      requires Valid()
      ensures Reads(doc, encode, Root())
    {
    }

    /** The root when it is the one open container. */
    lemma RootOpen()
      requires Valid() && |keys| == 1
      ensures Root() == V.Container(Opens()[0].isObject, Opens()[0].entries)
    {
      Facts();
      StackTop(doc.Shape(), doc.slotOf, keys, slots);
      OpenSays(ContentOf(doc.Shape(), slots[0]), names, strings);
    }

    // -------------------------------------------------------------------
    // Completion

    /** Takes the container at the top off the stack; all but the root are in no container yet. */
    method Pop() returns (key: Key)
      requires Valid() && keys != []
      modifies `keys, `slots
      ensures Valid() && keys == G.Front(old(keys)) && Opens() == G.Front(old(Opens())) && key == G.Last(old(keys))
      ensures keys == [] ==> key == doc.root && Root() == V.Container(G.Last(old(Opens())).isObject, G.Last(old(Opens())).entries)
      ensures keys != [] ==> Loose(key) && EntryAt(key) == Closed(G.Last(old(Opens()))) && (G.Last(Opens()).isObject ==> EntryAt(key).named)
    {
      Facts();
      StackTop(doc.Shape(), doc.slotOf, keys, slots);
      StackShrinks(doc.Shape(), doc.slotOf, keys, slots, names, strings);
      ghost var v := slots[|slots| - 1];
      OpenSays(ContentOf(doc.Shape(), v), names, strings);
      hide doc.Inv, Wf, W.EntryOf, OpenOf, OpensOf, PayloadsValid, NamesDiffer, Coding, Keeps, IsContainer, Unattached;
      key := keys[|keys| - 1];
      keys, slots := keys[..|keys| - 1], slots[..|slots| - 1];
    }

    /** What a value reads as, by its record. */
    lemma RecordSays(key: Key)
      requires Valid() && Loose(key)
      ensures var e, v := EntryAt(key), doc.SlotOf(key);
        && IsValue(doc.nodes, v) && e.named == doc.nodes[v].named && (e.value.Object? <==> doc.nodes[v].payload.vtype.Object?)
        && (e.value.Object? ==> doc.ChildCount(key) == |e.value.entries|)
    {
      Facts();
      var f, v := doc.Shape(), doc.slotOf[key];
      ObjectMembers(f, v, names, strings);
      MembersSize(f, v, names, strings);
      doc.ChildrenKnown(key);
      hide doc.Inv, Wf, MembersOf, PayloadsValid, NamesDiffer, Stacked, Coding, Keeps;
    }

    /** Closes the container at the top into the one below it; in an array, an object of one member without a name gives way to that member. */
    method Complete() returns (ok: bool)
      requires Valid() && keys != []
      modifies `keys, `slots, doc`nodes, doc`keyAt, doc`slotOf, doc`nextKey, doc`kids, doc`rank, doc`bound, doc`bad
      ensures ok ==> Valid() && |keys| == |old(keys)| - 1
      ensures ok ==> var p := B.Close(old(Opens())); if p.Going? then Opens() == p.frames else keys == [] && p == B.Rooted(Root())
      ensures old(doc.Spare()) >= 4 ==> ok && doc.Spare() >= old(doc.Spare()) - 4
    {
      hide Valid, Loose, Opens, EntryAt, Root, doc.Inv, Wf, W.EntryOf, V.Place, doc.Spare, doc.ChildCount, V.Unwrap;
      ghost var opens := Opens();
      var node := Pop();
      if keys == [] { return true; }
      RecordSays(node);
      TopSays();
      var parent := keys[|keys| - 1];
      var singleton := && doc.nodes[doc.SlotOf(node)].payload.vtype.Object? && !doc.nodes[doc.SlotOf(parent)].payload.vtype.Object?
                       && !doc.nodes[doc.SlotOf(node)].named && doc.ChildCount(node) == 1;
      Closes(opens, EntryAt(node), singleton);
      if singleton { ok, node := TakeOnly(node); }
      ok := Attach(node);
    }
  }
}
