/**
 Writing and parsing: a written document parses to its settled value, and the
 settled value is written to the same text
 (core/data_model/document_writer.cpp, core/data_model/document_parser.cpp).
 */
module TextRoundTrip {
  import N = LiveNode
  import opened TextLex
  import opened TextGrammar
  import opened TextValues
  import opened TextBuilding
  import opened TextNumbers
  import opened TextStrings
  import opened TextPrinting

  // ---------------------------------------------------------------------
  // What is written means the settled value

  lemma {:induction false} SyntaxProper(shortest: Shortest, o: Options, v: Value)
    requires Writable(v)
    ensures Proper(SyntaxOf(shortest, o, v))
    decreases v, 0
  {
    hide HasBreak, Quoted, IntegerText, FloatText;
    if v.List? || v.Object? { ItemsProper(shortest, o, v.Object?, v.entries); }
  }

  lemma {:induction false} ItemsProper(shortest: Shortest, o: Options, inObject: bool, entries: seq<Entry>)
    requires forall i :: 0 <= i < |entries| ==> WritableEntry(entries[i], inObject)
    ensures forall i :: 0 <= i < |entries| ==> ProperItem(ItemsOf(shortest, o, inObject, entries)[i], inObject)
    decreases entries, 0
  {
    hide WritableEntry, ProperItem, ItemOf;
    if entries != [] {
      ItemProper(shortest, o, inObject, entries[0]);
      ItemsProper(shortest, o, inObject, entries[1..]);
    }
  }

  lemma {:induction false} ItemProper(shortest: Shortest, o: Options, inObject: bool, e: Entry)
    requires WritableEntry(e, inObject)
    ensures ProperItem(ItemOf(shortest, o, inObject, e), inObject)
    decreases e, 1
  {
    hide HasBreak, Quoted, SyntaxOf;
    SyntaxProper(shortest, o, e.value);
    var member := Member(NameToken(o, e.name), SyntaxOf(shortest, o, e.value));
    if !inObject && e.named { assert ProperItem(member, true) && ItemOf(shortest, o, inObject, e) == Element(Group(true, [member], false)); }
  }

  lemma {:induction false} ScalarMeans(shortest: Shortest, read: Reader, o: Options, v: Value)
    requires !v.List? && !v.Object? && Writable(v) && Lawful(shortest, read)
    ensures ScalarOf(read, ScalarToken(shortest, o, v)) == Built(Settled(v))
  {
    hide IntegerText, FloatText, IntegerOf, HasBreak, Quoted, TextOf, Reread, N.IntegerValid, NumberKind;
    match v {
      case Integer(bits, meta) => IntegerReads(bits, meta);
      case Floating(bits) => assert FloatLaw(shortest, read, bits);
      case Words(chars, suppress) => StringTokenReads(chars, suppress, o.escapeNonAscii);
      case _ =>
    }
  }

  lemma {:induction false} Means(shortest: Shortest, read: Reader, o: Options, v: Value)
    requires Writable(v) && Lawful(shortest, read)
    ensures Proper(SyntaxOf(shortest, o, v)) && Denote(read, SyntaxOf(shortest, o, v)) == Built(Settled(v))
    decreases v, 0
  {
    hide Lawful, WritableEntry;
    SyntaxProper(shortest, o, v);
    if v.List? || v.Object? {
      AllMean(shortest, read, o, v.Object?, v.entries, []);
      assert [] + SettledAll(v.Object?, v.entries) == SettledAll(v.Object?, v.entries);
    } else {
      ScalarMeans(shortest, read, o, v);
    }
  }

  /** No entry has the name of one before it. */
  ghost predicate Fresh(before: seq<Entry>, entries: seq<Entry>) {
    && (forall i, j :: 0 <= i < |before| && 0 <= j < |entries| ==> before[i].name != entries[j].name)
    && (forall i, j :: 0 <= i < j < |entries| ==> entries[i].name != entries[j].name)
  }

  lemma {:induction false} FreshNext(before: seq<Entry>, entries: seq<Entry>, e: Entry)
    requires Fresh(before, entries) && entries != [] && e.name == entries[0].name
    ensures Fresh(before + [e], entries[1..]) && Find(before, e.name) == |before|
  {
    forall i, j | 0 <= i < |before + [e]| && 0 <= j < |entries[1..]| ensures (before + [e])[i].name != entries[1..][j].name {
      assert entries[1..][j] == entries[j + 1];
    }
  }

  lemma {:induction false} AllMean(shortest: Shortest, read: Reader, o: Options, inObject: bool, entries: seq<Entry>, before: seq<Entry>)
    requires (forall i :: 0 <= i < |entries| ==> WritableEntry(entries[i], inObject)) && Lawful(shortest, read)
    requires inObject ==> Fresh(before, entries)
    ensures var items := ItemsOf(shortest, o, inObject, entries);
      && (forall i :: 0 <= i < |items| ==> ProperItem(items[i], inObject))
      && DenoteItems(read, inObject, items, before) == Listed(before + SettledAll(inObject, entries))
    decreases entries, 0
  {
    hide Lawful, WritableEntry, ProperItem, ItemOf, DenoteItem, SettledEntry, Fresh;
    ItemsProper(shortest, o, inObject, entries);
    if entries == [] {
      assert before + [] == before;
    } else {
      var items := ItemsOf(shortest, o, inObject, entries);
      var first := SettledEntry(inObject, entries[0]);
      EntryMeans(shortest, read, o, inObject, entries[0], before);
      SettledName(inObject, entries[0]);
      if inObject { FreshNext(before, entries, first); }
      AllMean(shortest, read, o, inObject, entries[1..], before + [first]);
      assert items[1..] == ItemsOf(shortest, o, inObject, entries[1..]);
      PlaceNew(inObject, before, first);
      assert before + [first] + SettledAll(inObject, entries[1..]) == before + SettledAll(inObject, entries);
    }
  }

  lemma {:induction false} SettledName(inObject: bool, e: Entry)
    ensures inObject ==> SettledEntry(inObject, e).name == e.name
  {
  }

  lemma {:induction false} PlaceNew(isObject: bool, before: seq<Entry>, e: Entry)
    requires isObject ==> Find(before, e.name) == |before|
    ensures Place(isObject, before, e) == before + [e]
  {
  }

  lemma NameMeans(o: Options, name: string)
    requires !HasBreak(name)
    ensures TextOf(NameToken(o, name)) == Decoded(name)
  {
    hide TextOf, HasBreak;
    StringTokenReads(name, false, o.escapeNonAscii);
    NoBreakSame(name);
  }

  lemma {:induction false} EntryMeans(shortest: Shortest, read: Reader, o: Options, inObject: bool, e: Entry, before: seq<Entry>)
    requires WritableEntry(e, inObject) && Lawful(shortest, read)
    ensures var item := ItemOf(shortest, o, inObject, e);
      ProperItem(item, inObject) && DenoteItem(read, inObject, item, before) == Listed(Place(inObject, before, SettledEntry(inObject, e)))
    decreases e, 1
  {
    hide Lawful, HasBreak, Place, TextOf, NameToken;
    ItemProper(shortest, o, inObject, e);
    Means(shortest, read, o, e.value);
    NameMeans(o, e.name);
    if !inObject && e.named { WrapperMeans(shortest, read, o, e); }
  }

  lemma {:induction false} WrapperMeans(shortest: Shortest, read: Reader, o: Options, e: Entry)
    requires WritableEntry(e, false) && e.named
    requires Proper(SyntaxOf(shortest, o, e.value)) && Denote(read, SyntaxOf(shortest, o, e.value)) == Built(Settled(e.value))
    requires TextOf(NameToken(o, e.name)) == Decoded(e.name)
    ensures var x := Group(true, [Member(NameToken(o, e.name), SyntaxOf(shortest, o, e.value))], false);
      Proper(x) && Denote(read, x) == Built(Object([Entry(true, e.name, Settled(e.value))]))
  {
    hide TextOf, SyntaxOf, Settled, Place, HasBreak, Quoted;
    var entry := Entry(true, e.name, Settled(e.value));
    var item := Member(NameToken(o, e.name), SyntaxOf(shortest, o, e.value));
    PlaceNew(true, [], entry);
    assert [] + [entry] == [entry];
    assert ProperItem(item, true);
    assert DenoteItem(read, true, item, []) == Listed([entry]);
    assert [item][1..] == [];
    assert DenoteItems(read, true, [item][1..], [entry]) == Listed([entry]);
    assert DenoteItems(read, true, [item], []) == Listed([entry]);
  }

  // ---------------------------------------------------------------------
  // The settled value is written the same way

  lemma {:induction false} EscapedUnbroken(s: string, suppress: bool, suppress': bool, escapeNonAscii: bool)
    requires !HasBreak(s)
    ensures Escaped(s, suppress, escapeNonAscii) == Escaped(s, suppress', escapeNonAscii)
    decreases |s|
  {
    hide SpelledChar, HasBreak, LineBreakSize;
    if s != "" {
      BreakTail(s);
      EscapedUnbroken(s[1..], suppress, suppress', escapeNonAscii);
    }
  }

  lemma {:induction false} WordsSettle(s: string, suppress: bool, escapeNonAscii: bool)
    ensures Quoted(LineFeeds(s), suppress && HasBreak(s), escapeNonAscii) == Quoted(s, suppress, escapeNonAscii)
  {
    hide Escaped, HasBreak;
    LineFeedsSettle(s, suppress && HasBreak(s), escapeNonAscii);
    if !HasBreak(s) { EscapedUnbroken(s, suppress, false, escapeNonAscii); }
  }

  lemma {:induction false} PrintSettles(shortest: Shortest, o: Options, v: Value, depth: nat)
    requires Writable(v)
    ensures Writable(Settled(v)) && Print(shortest, o, Settled(v), depth) == Print(shortest, o, v, depth)
    decreases v, 0
  {
    hide IntegerText, FloatText, Quoted, HasBreak, Reread, N.IntegerValid, Break, WritableEntry;
    match v {
      case Integer(bits, meta) => IntegerSettles(bits, meta);
      case Words(chars, suppress) => WordsSettle(chars, suppress, o.escapeNonAscii);
      case List(entries) => AllSettle(shortest, o, false, entries, depth + 1);
      case Object(entries) =>
        AllSettle(shortest, o, true, entries, depth + 1);
        NamesSettle(entries);
      case _ =>
    }
  }

  lemma {:induction false} NamesSettle(entries: seq<Entry>)
    ensures forall i :: 0 <= i < |entries| ==> SettledAll(true, entries)[i].name == entries[i].name
  {
    if entries != [] { NamesSettle(entries[1..]); }
  }

  lemma {:induction false} AllSettle(shortest: Shortest, o: Options, inObject: bool, entries: seq<Entry>, depth: nat)
    requires forall i :: 0 <= i < |entries| ==> WritableEntry(entries[i], inObject)
    ensures var es := SettledAll(inObject, entries);
      && (forall i :: 0 <= i < |es| ==> WritableEntry(es[i], inObject))
      && PrintAll(shortest, o, inObject, es, depth) == PrintAll(shortest, o, inObject, entries, depth)
    decreases entries, 0
  {
    hide WritableEntry, Break, PrintEntry, SettledEntry;
    if entries != [] {
      EntrySettles(shortest, o, inObject, entries[0], depth);
      AllSettle(shortest, o, inObject, entries[1..], depth);
      var es := SettledAll(inObject, entries);
      assert es[1..] == SettledAll(inObject, entries[1..]);
    }
  }

  lemma {:induction false} EntrySettles(shortest: Shortest, o: Options, inObject: bool, e: Entry, depth: nat)
    requires WritableEntry(e, inObject)
    ensures WritableEntry(SettledEntry(inObject, e), inObject)
    ensures PrintEntry(shortest, o, inObject, SettledEntry(inObject, e), depth) == PrintEntry(shortest, o, inObject, e, depth)
    decreases e, 1
  {
    hide HasBreak, Break, Key, Print, Settled;
    PrintSettles(shortest, o, e.value, depth);
    PrintSettles(shortest, o, e.value, depth + 1);
    var value := Settled(e.value);
    if !inObject && !e.named && value.Object? && |value.entries| == 1 {
      LoneMember(shortest, o, value.entries[0], depth);
      assert value == Object([value.entries[0]]);
      assert WritableEntry(value.entries[0], true);
    }
  }

  /** An object of one member is written like that member in an array. */
  lemma {:induction false} LoneMember(shortest: Shortest, o: Options, m: Entry, depth: nat)
    requires m.named
    ensures Print(shortest, o, Object([m]), depth) == PrintEntry(shortest, o, false, m, depth)
  {
    hide Break, Key;
    var rest := PrintAll(shortest, o, true, [m][1..], depth + 1);
    assert [m][1..] == [] && rest == "";
    var entry := PrintEntry(shortest, o, true, m, depth + 1);
    assert PrintAll(shortest, o, true, [m], depth + 1) == Break(o, depth + 1) + entry + "" + rest;
    assert Break(o, depth + 1) + entry + "" + rest == Break(o, depth + 1) + entry;
    assert "{" + (Break(o, depth + 1) + entry) + Break(o, depth) + "}"
        == "{" + Break(o, depth + 1) + Key(o, m.name) + Print(shortest, o, m.value, depth + 1) + Break(o, depth) + "}";
  }

  // ---------------------------------------------------------------------
  // The round trip

  /** The tokens of a written document are those of its syntax. */
  lemma {:induction false} DocumentScans(shortest: Shortest, read: Reader, o: Options, v: Value)
    requires (v.List? || v.Object?) && Writable(v) && Lawful(shortest, read)
    ensures Tokens(PrintDocument(shortest, o, v)) == Flatten(SyntaxOf(shortest, o, v)) + [Mark(End)]
  {
    hide Lawful, Print, SyntaxOf, Writable;
    var ending := if o.ending then "\n" else "";
    PrintScans(shortest, read, o, v, 0, ending);
    NothingScans();
    if o.ending {
      BlankScans('\n', "");
      assert ['\n'] + "" == "\n";
    }
  }

  lemma NothingScans()
    ensures Tokens("") == [Mark(End)]
  {
  }

  /** A written document is accepted by the structure check and parses to its settled value, which is written to the same text. */
  lemma {:induction false} WrittenParses(shortest: Shortest, read: Reader, o: Options, v: Value)
    requires (v.List? || v.Object?) && Writable(v) && Lawful(shortest, read)
    ensures var ts := Tokens(PrintDocument(shortest, o, v));
      Stream(ts) && CheckDocument(ts) == Accepted && BuildDocument(read, ts) == Built(Settled(v))
    ensures Writable(Settled(v)) && PrintDocument(shortest, o, Settled(v)) == PrintDocument(shortest, o, v)
  {
    hide Lawful, Tokens, Stream, CheckDocument, BuildDocument, Writable, ProperItem, Print;
    DocumentScans(shortest, read, o, v);
    PrintSettles(shortest, o, v, 0);
    var d := DocumentText(shortest, o, v);
    TextAccepted(d);
    BuildsText(read, d);
    Means(shortest, read, o, v);
  }

  lemma DocumentText(shortest: Shortest, o: Options, v: Value) returns (d: Text)
    requires (v.List? || v.Object?) && Writable(v)
    ensures IsText(d) && TextTokens(d) == Flatten(SyntaxOf(shortest, o, v)) + [Mark(End)] && !d.implied
    ensures SyntaxOf(shortest, o, v) == Group(d.isObject, d.items, d.trailing)
  {
    hide ProperItem, Body, WritableEntry;
    d := Text(v.Object?, false, ItemsOf(shortest, o, v.Object?, v.entries), false);
    ItemsProper(shortest, o, v.Object?, v.entries);
  }

  /** Parsing what was parsed and written once gives it back. */
  lemma {:induction false} ParsedReturns(shortest: Shortest, read: Reader, o: Options, v: Value)
    requires (v.List? || v.Object?) && Writable(v) && Lawful(shortest, read)
    ensures Settled(Settled(v)) == Settled(v)
  {
    hide Lawful, Tokens, Stream, CheckDocument, BuildDocument, Writable, PrintDocument;
    WrittenParses(shortest, read, o, v);
    SettledContainer(v);
    WrittenParses(shortest, read, o, Settled(v));
  }

  lemma {:induction false} SettledContainer(v: Value)
    ensures v.List? || v.Object? ==> Settled(v).List? || Settled(v).Object?
  {
  }
}
