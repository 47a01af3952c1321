/**
 Writing a baked document and parsing the text: the two methods one after the other.
 */
module TextCycle {
  import D = DocumentState
  import K = LiveBuilding
  import L = LiveDocument
  import DB = DocumentBuilder
  import opened TextLex
  import opened TextGrammar
  import opened TextValues
  import opened TextBuilding
  import opened TextStructure
  import opened TextParser
  import opened TextStrings
  import P = TextPrinting
  import T = TextRoundTrip
  import W = TextWriter

  // ---------------------------------------------------------------------
  // Names that are written can be kept

  /** The document's test for line breaks finds none where there is none. */
  ghost predicate BreaksAgree(encode: string -> D.Bytes, breaks: D.LineBreaks) {
    forall s :: breaks(encode(s)) ==> HasBreak(s)
  }

  /** A name that the document can keep. */
  predicate NameGood(encode: string -> D.Bytes, breaks: D.LineBreaks, name: Token) {
    !name.Bad? && TextOf(name).Decoded? ==> !breaks(encode(TextOf(name).chars))
  }

  predicate SyntaxGood(encode: string -> D.Bytes, breaks: D.LineBreaks, x: Syntax) {
    x.Group? ==> forall i :: 0 <= i < |x.items| ==> ItemGood(encode, breaks, x.items[i])
  }

  predicate ItemGood(encode: string -> D.Bytes, breaks: D.LineBreaks, item: Item) {
    SyntaxGood(encode, breaks, item.value) && (item.Member? ==> NameGood(encode, breaks, item.name))
  }

  /** No colon comes first. */
  predicate Uncolon(ts: seq<Token>) {
    ts != [] && !ts[0].Bad? ==> ts[0].kind != Colon
  }

  lemma JoinKept(encode: string -> D.Bytes, breaks: D.LineBreaks, a: seq<Token>, b: seq<Token>)
    requires NamesKept(encode, breaks, a) && NamesKept(encode, breaks, b) && Uncolon(b)
    ensures NamesKept(encode, breaks, a + b) && (a != [] && Uncolon(a) ==> Uncolon(a + b))
  {
    hide TextOf;
    var ts := a + b;
    forall i | 0 <= i && i + 1 < |ts| && !ts[i].Bad? && !ts[i + 1].Bad? && ts[i + 1].kind == Colon && TextOf(ts[i]).Decoded?
      ensures !breaks(encode(TextOf(ts[i]).chars)) {
      if i + 1 < |a| {
        assert a[i] == ts[i] && a[i + 1] == ts[i + 1];
      } else {
        assert i + 1 - |a| >= 0 && ts[i + 1] == b[i + 1 - |a|];
        if i >= |a| { assert b[i - |a|] == ts[i]; }
      }
    }
  }

  lemma MarkKept(encode: string -> D.Bytes, breaks: D.LineBreaks, k: Kind)
    requires k != Colon
    ensures NamesKept(encode, breaks, [Mark(k)]) && Uncolon([Mark(k)])
  {
  }

  lemma {:induction false} FlattenKept(encode: string -> D.Bytes, breaks: D.LineBreaks, x: Syntax)
    requires Proper(x) && SyntaxGood(encode, breaks, x)
    ensures NamesKept(encode, breaks, Flatten(x)) && Uncolon(Flatten(x))
    decreases x, 0
  {
    hide NamesKept, NameGood, Uncolon, Body;
    match x {
      case Leaf(word) => LeafKept(encode, breaks, word);
      case Group(isObject, items, trailing) =>
        BodyKept(encode, breaks, isObject, items, trailing);
        var open, close := if isObject then ObjectBegin else ArrayBegin, CloseOf(isObject);
        MarkKept(encode, breaks, open);
        MarkKept(encode, breaks, close);
        JoinKept(encode, breaks, [Mark(open)], Body(items, trailing));
        JoinKept(encode, breaks, [Mark(open)] + Body(items, trailing), [Mark(close)]);
    }
  }

  lemma LeafKept(encode: string -> D.Bytes, breaks: D.LineBreaks, word: Token)
    requires !word.Bad? && IsName(word.kind)
    ensures NamesKept(encode, breaks, [word]) && Uncolon([word])
  {
  }

  lemma {:induction false} BodyKept(encode: string -> D.Bytes, breaks: D.LineBreaks, isObject: bool, items: seq<Item>, trailing: bool)
    requires forall i :: 0 <= i < |items| ==> ProperItem(items[i], isObject) && ItemGood(encode, breaks, items[i])
    ensures NamesKept(encode, breaks, Body(items, trailing)) && Uncolon(Body(items, trailing))
    decreases items, 0
  {
    NoneKept(encode, breaks);
    hide NamesKept, ProperItem, ItemGood, FlatItem, Uncolon;
    if items != [] {
      ItemKept(encode, breaks, isObject, items[0]);
      BodyKept(encode, breaks, isObject, items[1..], trailing);
      var comma := if |items| > 1 || trailing then [Mark(Comma)] else [];
      MarkKept(encode, breaks, Comma);
      JoinKept(encode, breaks, FlatItem(items[0]), comma);
      JoinKept(encode, breaks, FlatItem(items[0]) + comma, Body(items[1..], trailing));
    }
  }

  lemma NoneKept(encode: string -> D.Bytes, breaks: D.LineBreaks)
    ensures NamesKept(encode, breaks, []) && Uncolon([])
  {
  }

  lemma {:induction false} ItemKept(encode: string -> D.Bytes, breaks: D.LineBreaks, isObject: bool, item: Item)
    requires ProperItem(item, isObject) && ItemGood(encode, breaks, item)
    ensures NamesKept(encode, breaks, FlatItem(item)) && Uncolon(FlatItem(item))
    decreases item, 1
  {
    FlattenKept(encode, breaks, item.value);
    if item.Member? {
      HeadKept(encode, breaks, item.name);
      hide NamesKept, Flatten, ProperItem, ItemGood;
      JoinKept(encode, breaks, [item.name] + [Mark(Colon)], Flatten(item.value));
    }
  }

  lemma HeadKept(encode: string -> D.Bytes, breaks: D.LineBreaks, name: Token)
    requires !name.Bad? && IsName(name.kind) && NameGood(encode, breaks, name)
    ensures NamesKept(encode, breaks, [name] + [Mark(Colon)]) && Uncolon([name] + [Mark(Colon)])
  {
    hide TextOf;
  }

  // ---------------------------------------------------------------------
  // What is written is good

  lemma {:induction false} WrittenGood(encode: string -> D.Bytes, breaks: D.LineBreaks, shortest: P.Shortest, o: P.Options, v: Value)
    requires BreaksAgree(encode, breaks) && P.Writable(v)
    ensures SyntaxGood(encode, breaks, P.SyntaxOf(shortest, o, v))
    decreases v, 0
  {
    hide BreaksAgree, HasBreak, P.FloatText, NameGood, P.NameToken;
    if v.List? || v.Object? { ItemsGood(encode, breaks, shortest, o, v.Object?, v.entries); }
  }

  lemma {:induction false} ItemsGood(encode: string -> D.Bytes, breaks: D.LineBreaks, shortest: P.Shortest, o: P.Options, inObject: bool, entries: seq<Entry>)
    requires BreaksAgree(encode, breaks) && forall i :: 0 <= i < |entries| ==> P.WritableEntry(entries[i], inObject)
    ensures forall i :: 0 <= i < |entries| ==> ItemGood(encode, breaks, P.ItemsOf(shortest, o, inObject, entries)[i])
    decreases entries, 0
  {
    hide BreaksAgree, P.WritableEntry, ItemGood, P.ItemOf;
    if entries != [] {
      EntryGood(encode, breaks, shortest, o, inObject, entries[0]);
      ItemsGood(encode, breaks, shortest, o, inObject, entries[1..]);
    }
  }

  lemma {:induction false} EntryGood(encode: string -> D.Bytes, breaks: D.LineBreaks, shortest: P.Shortest, o: P.Options, inObject: bool, e: Entry)
    requires BreaksAgree(encode, breaks) && P.WritableEntry(e, inObject)
    ensures ItemGood(encode, breaks, P.ItemOf(shortest, o, inObject, e))
    decreases e, 1
  {
    WrittenGood(encode, breaks, shortest, o, e.value);
    TokenGood(encode, breaks, o, e.name);
    hide BreaksAgree, HasBreak, NameGood, P.NameToken, P.SyntaxOf;
    var member := Member(P.NameToken(o, e.name), P.SyntaxOf(shortest, o, e.value));
    assert ItemGood(encode, breaks, member);
    if !inObject && e.named { assert SyntaxGood(encode, breaks, Group(true, [member], false)); }
  }

  lemma TokenGood(encode: string -> D.Bytes, breaks: D.LineBreaks, o: P.Options, name: string)
    requires BreaksAgree(encode, breaks) && !HasBreak(name)
    ensures NameGood(encode, breaks, P.NameToken(o, name))
  {
    T.NameMeans(o, name);
    hide TextOf, HasBreak;
  }

  /** The names of a written document can be kept. */
  lemma {:induction false} WrittenKept(encode: string -> D.Bytes, breaks: D.LineBreaks, shortest: P.Shortest, read: Reader, o: P.Options, v: Value)
    requires BreaksAgree(encode, breaks) && (v.List? || v.Object?) && P.Writable(v) && P.Lawful(shortest, read)
    ensures NamesKept(encode, breaks, Tokens(P.PrintDocument(shortest, o, v)))
  {
    hide BreaksAgree, P.Writable, P.Lawful, P.PrintDocument, Tokens, NamesKept, P.SyntaxOf, Flatten, Proper, SyntaxGood, Uncolon;
    T.DocumentScans(shortest, read, o, v);
    T.SyntaxProper(shortest, o, v);
    WrittenGood(encode, breaks, shortest, o, v);
    FlattenKept(encode, breaks, P.SyntaxOf(shortest, o, v));
    MarkKept(encode, breaks, End);
    JoinKept(encode, breaks, Flatten(P.SyntaxOf(shortest, o, v)), [Mark(End)]);
  }

  // ---------------------------------------------------------------------
  // The cycle

  /** What parses as a text has the value that building from its tokens gives. */
  lemma ParsedIs(read: Reader, source: string, outcome: Outcome, built: Outcome)
    requires Means(read, source, outcome) && Stream(Tokens(source)) && BuildDocument(read, Tokens(source)) == built
    ensures outcome == built
  {
    hide Tokens, Stream, TextTokens, DenoteText, BuildDocument;
    var d :| IsText(d) && TextTokens(d) == Tokens(source) && DenoteText(read, d) == outcome;
    BuildsText(read, d);
  }

  lemma Reasons(r: Reason)
    ensures TextError(r) || Resource(r) || r == InternalError || r == NumericOutOfRange
  {
  }

  /** Parses a text that is known to build to a value: a document that reads as that value, or a failure of resources. */
  method ParseKnown(source: string, read: Reader, maxFrames: nat, encode: string -> D.Bytes, breaks: D.LineBreaks, granted: bool, ghost value: Value)
    returns (report: Report, doc: L.LiveDocument?)
    requires K.Coding(encode) && Stream(Tokens(source)) && CheckDocument(Tokens(source)) == Accepted && BuildDocument(read, Tokens(source)) == Built(value)
    ensures report.Passed? ==> doc != null && fresh(doc) && DB.Reads(doc, encode, value)
    ensures report.Fails? ==> Resource(report.reason) && !Enough(granted, maxFrames, encode, breaks, source)
  {
    hide Tokens, Stream, IsText, TextTokens, DenoteText, CheckDocument, BuildDocument, Enough, Means, TextError, Resource, K.Coding, DB.Reads;
    report, doc := ParseText(source, read, maxFrames, encode, breaks, granted);
    if report.Passed? {
      ghost var root :| Means(read, source, Built(root)) && DB.Reads(doc, encode, root);
      ParsedIs(read, source, Built(root), Built(value));
    } else if report.reason == NumericOutOfRange {
      ParsedIs(read, source, Failed(NumericOutOfRange), Built(value));
    } else {
      AcceptedExactly(Tokens(source));
      Reasons(report.reason);
    }
  }

  /**
   Writes a validated baked document with any options and parses the text into a live document: with enough resources
   both succeed, and the live document reads as the baked one did, its integers in the notation they are spelled in and
   its line breaks settled.
   */
  method WriteThenParse(s: W.Sheet, read: Reader, maxFrames: nat, encode: string -> D.Bytes, breaks: D.LineBreaks, granted: bool)
    returns (written: bool, report: Report, doc: L.LiveDocument?)
    requires W.Sound(s) && |s.rs| > 0 && W.TablesRead(s) && P.Lawful(s.shortest, read) && K.Coding(encode) && BreaksAgree(encode, breaks)
    ensures written && report.Passed? ==> doc != null && fresh(doc) && DB.Reads(doc, encode, P.Settled(W.EntryAt(s, 0).value))
    ensures var size := |P.PrintDocument(s.shortest, s.o, W.EntryAt(s, 0).value)|;
      granted && size + 2 <= maxFrames && 6 * size + 8 <= D.SLOT_LIMIT ==> written && report.Passed?
  {
    hide W.Sound, W.TablesRead, P.Lawful, P.PrintDocument, W.EntryAt, P.Settled, P.Writable, Tokens, Stream, CheckDocument, BuildDocument, NamesKept, K.Coding, DB.Reads, BreaksAgree;
    W.BakedParses(s, read);
    W.ValueWritable(s, 0);
    WrittenKept(encode, breaks, s.shortest, read, s.o, W.EntryAt(s, 0).value);
    var writer := new W.Writer(s, granted);
    writer.Run();
    written, report, doc := writer.status == W.Success, Fails(AllocationFailed), null;
    if written { report, doc := ParseKnown(writer.output, read, maxFrames, encode, breaks, granted, P.Settled(W.EntryAt(s, 0).value)); }
  }
}
