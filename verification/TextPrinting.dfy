/**
 The text of a document (core/data_model/document_writer.cpp, Morphic mode) as a
 function of its value, and what parsing that text gives.
 */
module TextPrinting {
  import N = LiveNode
  import opened Quotients
  import opened TextLex
  import opened TextGrammar
  import opened TextValues
  import opened TextBuilding
  import opened TextNumbers
  import opened TextStrings

  datatype Options = Options(escapeNonAscii: bool, pretty: bool, indent: nat, ending: bool)

  const NEGATIVE_ZERO: N.Bits := 0x8000_0000_0000_0000

  /** The shortest spelling of a finite number that reads back as it (to_chars); taken as given. */
  type Shortest = N.Bits -> string

  /** A float keeps a point or an exponent, and zero keeps its sign. */
  function FloatText(shortest: Shortest, bits: N.Bits): string {
    if bits == 0 then "0.0"
    else if bits == NEGATIVE_ZERO then "-0.0"
    else if '.' in shortest(bits) || 'e' in shortest(bits) then shortest(bits)
    else shortest(bits) + ".0"
  }

  /** What is assumed of float conversion: a spelling is a float of the grammar without a plus sign and reads back as its number. */
  ghost predicate Lawful(shortest: Shortest, read: Reader) {
    forall bits: N.Bits :: N.FiniteBits(bits) ==> FloatLaw(shortest, read, bits)
  }

  ghost predicate FloatLaw(shortest: Shortest, read: Reader, bits: N.Bits) {
    var t := FloatText(shortest, bits);
    && t != "" && t[0] != '+' && t[0] != '\'' && t[0] != '/' && t[0] != ';' && (forall i :: 0 <= i < |t| ==> WordChar(t[i]))
    && WordKind(t) == FloatingNumber && read(t) == Finite(bits)
  }

  /** The law can be met: this conversion spells a number by the digits of its bits. */
  ghost function PlainShortest(bits: N.Bits): string {
    "9." + Digits(bits, 10)
  }

  ghost function PlainRead(s: string): Reading {
    if s == "0.0" then Finite(0)
    else if s == "-0.0" then Finite(NEGATIVE_ZERO)
    else if |s| > 2 && AllOf(s[2..], 10) && Magnitude(s[2..], 10) < TWO_TO_64 then Finite(Magnitude(s[2..], 10))
    else NotFinite
  }

  lemma LawMet()
    ensures Lawful(PlainShortest, PlainRead)
  {
    forall bits: N.Bits | N.FiniteBits(bits) ensures FloatLaw(PlainShortest, PlainRead, bits) { PlainLaw(bits); }
  }

  lemma PlainLaw(bits: N.Bits)
    ensures FloatLaw(PlainShortest, PlainRead, bits)
  {
    hide Magnitude, Digits, WordKind, WordChar, AllOf;
    if bits == 0 {
      ZeroDigits();
      PlainScans("0", "0");
      assert "0" + "." + "0" == "0.0";
    } else if bits == NEGATIVE_ZERO {
      NegativeScans();
    } else {
      DigitsMean(bits, 10);
      PlainScans("9", Digits(bits, 10));
      PlainParts(Digits(bits, 10));
      assert "9" + "." + Digits(bits, 10) == PlainShortest(bits);
    }
  }

  lemma ZeroDigits()
    ensures AllOf("0", 10)
  {
  }

  lemma PlainParts(digits: string)
    requires digits != ""
    ensures var t := "9." + digits; '.' in t && t[0] == '9' && t[2..] == digits && |t| > 2 && t != "0.0" && t != "-0.0"
  {
    var t := "9." + digits;
    assert t[1] == '.';
  }

  lemma PlainScans(whole: string, digits: string)
    requires (whole == "9" || whole == "0") && digits != "" && AllOf(digits, 10)
    ensures var t := whole + "." + digits; WordKind(t) == FloatingNumber && forall i :: 0 <= i < |t| ==> WordChar(t[i])
  {
    hide AllOf, DigitOf, AfterDigits, WordChar, WordKind;
    var t := whole + "." + digits;
    AllLeading(digits, 10);
    assert t[1..] == "." + digits && ("." + digits)[1..] == digits;
    PlainKind(t, digits);
    forall i | 0 <= i < |t| ensures WordChar(t[i]) {
      if i > 1 {
        assert t[i] == digits[i - 2];
        DigitWord(digits, i - 2);
      } else {
        FrameWord(t[i]);
      }
    }
  }

  lemma PlainKind(t: string, digits: string)
    requires |t| > 2 && (t[0] == '9' || t[0] == '0') && t[1..] == "." + digits && ("." + digits)[1..] == digits && digits != "" && AfterDigits(digits, 10) == ""
    ensures WordKind(t) == FloatingNumber
  {
    assert t[1] == '.' && AfterDigits("." + digits, 10) == "." + digits;
    hide AfterDigits;
    assert Fraction("." + digits) == Present("");
  }

  lemma DigitWord(digits: string, i: nat)
    requires AllOf(digits, 10) && i < |digits|
    ensures WordChar(digits[i])
  {
  }

  lemma FrameWord(c: char)
    requires c == '9' || c == '0' || c == '.' || c == '-'
    ensures WordChar(c)
  {
  }

  lemma NegativeScans()
    ensures var t := "-0.0"; WordKind(t) == FloatingNumber && forall i :: 0 <= i < |t| ==> WordChar(t[i])
  {
    hide WordChar;
    assert "-0.0"[1..] == "0.0" && "0.0"[1..] == ".0" && ".0"[1..] == "0";
    ZeroDigits();
    AllLeading("0", 10);
    FrameWord('-');
    FrameWord('0');
    FrameWord('.');
    NegativeKind();
  }

  lemma NegativeKind()
    requires "-0.0"[1..] == "0.0" && "0.0"[1..] == ".0" && ".0"[1..] == "0" && AfterDigits("0", 10) == ""
    ensures WordKind("-0.0") == FloatingNumber
  {
    hide AfterDigits;
    assert Fraction(".0") == Present("");
    assert DecimalKind("0.0") == FloatingNumber;
    assert Unsign("-0.0") == "0.0";
  }

  // ---------------------------------------------------------------------
  // Layout

  function Spaces(n: nat): string {
    seq(n, _ => ' ')
  }

  /** A line break and the indentation of a depth, when printing prettily. */
  function Break(o: Options, depth: nat): string {
    if o.pretty then "\n" + Spaces(Times(depth, o.indent)) else ""
  }

  function Key(o: Options, name: string): string {
    Quoted(name, false, o.escapeNonAscii) + ":" + (if o.pretty then " " else "")
  }

  function Print(shortest: Shortest, o: Options, v: Value, depth: nat): string
    decreases v, 0
  {
    match v
    case Null => "null"
    case Truth(b) => if b then "true" else "false"
    case Integer(bits, meta) => IntegerText(bits, meta)
    case Floating(bits) => FloatText(shortest, bits)
    case Words(chars, suppress) => Quoted(chars, suppress, o.escapeNonAscii)
    case List(entries) => "[" + PrintAll(shortest, o, false, entries, depth + 1) + (if entries == [] then "" else Break(o, depth)) + "]"
    case Object(entries) => "{" + PrintAll(shortest, o, true, entries, depth + 1) + (if entries == [] then "" else Break(o, depth)) + "}"
  }

  /** Entries in order, each on its own line, commas between them. */
  function PrintAll(shortest: Shortest, o: Options, inObject: bool, entries: seq<Entry>, depth: nat): string
    decreases entries, 0
  {
    if entries == [] then ""
    else Break(o, depth) + PrintEntry(shortest, o, inObject, entries[0], depth)
         + (if |entries| > 1 then "," else "") + PrintAll(shortest, o, inObject, entries[1..], depth)
  }

  /** A named element of an array is wrapped in an object of its own. */
  function PrintEntry(shortest: Shortest, o: Options, inObject: bool, e: Entry, depth: nat): string
    decreases e, 1
  {
    if !e.named then Print(shortest, o, e.value, depth)
    else if inObject then Key(o, e.name) + Print(shortest, o, e.value, depth)
    else "{" + Break(o, depth + 1) + Key(o, e.name) + Print(shortest, o, e.value, depth + 1) + Break(o, depth) + "}"
  }

  function PrintDocument(shortest: Shortest, o: Options, v: Value): string {
    Print(shortest, o, v, 0) + (if o.ending then "\n" else "")
  }

  // ---------------------------------------------------------------------
  // What can be written, and what it becomes

  ghost predicate Writable(v: Value) {
    match v
    case Integer(bits, meta) => N.IntegerValid(bits, meta)
    case Floating(bits) => N.FiniteBits(bits)
    case List(entries) => forall i :: 0 <= i < |entries| ==> WritableEntry(entries[i], false)
    case Object(entries) =>
      && (forall i :: 0 <= i < |entries| ==> WritableEntry(entries[i], true))
      && (forall i, j :: 0 <= i < j < |entries| ==> entries[i].name != entries[j].name)
    case _ => true
  }

  /** Members are named; no name holds a line break. */
  ghost predicate WritableEntry(e: Entry, inObject: bool) {
    Writable(e.value) && (inObject ==> e.named) && (!e.named ==> e.name == "") && !HasBreak(e.name)
  }

  /** The value as its text reads: integers with the notation of their digit counts, line feeds for line breaks,
      and anonymous objects of one member inside arrays unwrapped. */
  function Settled(v: Value): Value
    decreases v, 0
  {
    match v
    case Integer(bits, meta) => Integer(bits, Reread(bits, meta))
    case Words(chars, suppress) => Words(LineFeeds(chars), suppress && HasBreak(chars))
    case List(entries) => List(SettledAll(false, entries))
    case Object(entries) => Object(SettledAll(true, entries))
    case _ => v
  }

  function SettledAll(inObject: bool, entries: seq<Entry>): (es: seq<Entry>)
    ensures |es| == |entries|
    decreases entries, 0
  {
    if entries == [] then [] else [SettledEntry(inObject, entries[0])] + SettledAll(inObject, entries[1..])
  }

  function SettledEntry(inObject: bool, e: Entry): Entry
    decreases e, 1
  {
    Unwrap(inObject, e.(value := Settled(e.value)))
  }

  // ---------------------------------------------------------------------
  // The syntax of what is written

  function ScalarToken(shortest: Shortest, o: Options, v: Value): Token
    requires !v.List? && !v.Object?
  {
    match v
    case Null => Token(NullValue, "null", false, false)
    case Truth(b) => if b then Token(TrueValue, "true", false, false) else Token(FalseValue, "false", false, false)
    case Integer(bits, meta) => Token(IntegerNumber, IntegerText(bits, meta), false, false)
    case Floating(bits) => Token(FloatingNumber, FloatText(shortest, bits), false, false)
    case Words(chars, suppress) => StringToken(chars, suppress, o.escapeNonAscii)
  }

  function NameToken(o: Options, name: string): Token {
    StringToken(name, false, o.escapeNonAscii)
  }

  function SyntaxOf(shortest: Shortest, o: Options, v: Value): Syntax
    decreases v, 0
  {
    match v
    case List(entries) => Group(false, ItemsOf(shortest, o, false, entries), false)
    case Object(entries) => Group(true, ItemsOf(shortest, o, true, entries), false)
    case _ => Leaf(ScalarToken(shortest, o, v))
  }

  function ItemsOf(shortest: Shortest, o: Options, inObject: bool, entries: seq<Entry>): (items: seq<Item>)
    ensures |items| == |entries|
    decreases entries, 0
  {
    if entries == [] then [] else [ItemOf(shortest, o, inObject, entries[0])] + ItemsOf(shortest, o, inObject, entries[1..])
  }

  function ItemOf(shortest: Shortest, o: Options, inObject: bool, e: Entry): Item
    decreases e, 1
  {
    var x := SyntaxOf(shortest, o, e.value);
    if inObject then Member(NameToken(o, e.name), x)
    else if e.named then Element(Group(true, [Member(NameToken(o, e.name), x)], false))
    else Element(x)
  }

  // ---------------------------------------------------------------------
  // Scanning what is written

  /** Nothing that could run on into the next token. */
  predicate Fenced(rest: string) {
    rest == "" || Boundary(rest[0])
  }

  lemma {:induction false} TokensNext(s: string, t: Token, rest: string)
    requires NextToken(s) == Next(t, rest) && !Final(t)
    ensures Tokens(s) == [t] + Tokens(rest)
  {
  }

  lemma {:induction false} MarkScans(k: Kind, rest: string)
    requires k in {ObjectBegin, ObjectEnd, ArrayBegin, ArrayEnd, Colon, Comma}
    ensures Tokens(Letter(k) + rest) == [Mark(k)] + Tokens(rest)
  {
    var s := Letter(k) + rest;
    NoTrivia(s);
    hide SkipTrivia, QuotedSpan, WordSpan;
    assert s[1..] == rest && s[..1] == Letter(k);
    TokensNext(s, Mark(k), rest);
  }

  lemma {:induction false} StringScans(s: string, suppress: bool, escapeNonAscii: bool, rest: string)
    ensures Tokens(Quoted(s, suppress, escapeNonAscii) + rest) == [StringToken(s, suppress, escapeNonAscii)] + Tokens(rest)
  {
    hide NextToken, Quoted, HasBreak;
    QuotedScans(s, suppress, escapeNonAscii, rest);
    TokensNext(Quoted(s, suppress, escapeNonAscii) + rest, StringToken(s, suppress, escapeNonAscii), rest);
  }

  lemma {:induction false} WordScans(word: string, rest: string)
    requires (forall i :: 0 <= i < |word| ==> WordChar(word[i])) && Fenced(rest)
    ensures WordSpan(word + rest) == Span(rest, false, false)
  {
    var s := word + rest;
    if word == "" {
      assert s == rest;
    } else {
      WordScans(word[1..], rest);
      assert s[1..] == word[1..] + rest;
      assert WordChar(s[0]);
    }
  }

  /** A bare word before a fence scans as one token. */
  lemma {:induction false} BareScans(word: string, rest: string)
    requires word != "" && (forall i :: 0 <= i < |word| ==> WordChar(word[i])) && Fenced(rest)
    requires word[0] != '/' && word[0] != ';' && word[0] != '\''
    ensures Tokens(word + rest) == [Token(WordKind(word), word, false, false)] + Tokens(rest)
  {
    var s := word + rest;
    assert WordChar(s[0]);
    NoTrivia(s);
    WordScans(word, rest);
    hide SkipTrivia, QuotedSpan, WordSpan, WordKind;
    assert s[..|s| - |rest|] == word;
    WordKinds(word);
    TokensNext(s, Token(WordKind(word), word, false, false), rest);
  }

  lemma WordKinds(word: string)
    ensures IsName(WordKind(word))
  {
  }

  lemma {:induction false} BlankScans(c: char, rest: string)
    requires Whitespace(c)
    ensures Tokens([c] + rest) == Tokens(rest)
  {
    assert ([c] + rest)[1..] == rest;
    assert SkipTrivia([c] + rest) == SkipTrivia(rest);
  }

  lemma {:induction false} SpacesScan(n: nat, rest: string)
    ensures Tokens(Spaces(n) + rest) == Tokens(rest)
  {
    if n == 0 {
      assert Spaces(0) + rest == rest;
    } else {
      SpacesScan(n - 1, rest);
      BlankScans(' ', Spaces(n - 1) + rest);
      assert Spaces(n) + rest == [' '] + (Spaces(n - 1) + rest);
    }
  }

  lemma {:induction false} BreakScans(o: Options, depth: nat, rest: string)
    ensures Tokens(Break(o, depth) + rest) == Tokens(rest)
  {
    hide Tokens;
    if o.pretty {
      var n := Times(depth, o.indent);
      SpacesScan(n, rest);
      BlankScans('\n', Spaces(n) + rest);
      assert Break(o, depth) + rest == ['\n'] + (Spaces(n) + rest);
    } else {
      assert "" + rest == rest;
    }
  }

  lemma BreakFenced(o: Options, depth: nat, rest: string)
    requires Fenced(rest)
    ensures Fenced(Break(o, depth) + rest)
  {
  }

  lemma {:induction false} KeyScans(o: Options, name: string, rest: string)
    ensures Tokens(Key(o, name) + rest) == [NameToken(o, name)] + [Mark(Colon)] + Tokens(rest)
  {
    hide Tokens, Quoted, HasBreak;
    var blank := if o.pretty then " " else "";
    if o.pretty { BlankScans(' ', rest); } else { assert "" + rest == rest; }
    MarkScans(Colon, blank + rest);
    StringScans(name, false, o.escapeNonAscii, ":" + (blank + rest));
    assert Key(o, name) + rest == Quoted(name, false, o.escapeNonAscii) + (":" + (blank + rest));
  }

  lemma {:induction false} ScalarScans(shortest: Shortest, read: Reader, o: Options, v: Value, depth: nat, rest: string)
    requires !v.List? && !v.Object? && Writable(v) && Lawful(shortest, read) && Fenced(rest)
    ensures Tokens(Print(shortest, o, v, depth) + rest) == [ScalarToken(shortest, o, v)] + Tokens(rest)
  {
    hide Tokens, IntegerText, FloatText, NumberKind, Quoted, HasBreak, N.IntegerValid;
    match v {
      case Null => BareScans("null", rest);
      case Truth(b) => BareScans(if b then "true" else "false", rest);
      case Integer(bits, meta) =>
        IntegerChars(bits, meta);
        IntegerScans(bits, meta);
        IntegerStart(bits, meta);
        BareScans(IntegerText(bits, meta), rest);
      case Floating(bits) =>
        assert FloatLaw(shortest, read, bits);
        BareScans(FloatText(shortest, bits), rest);
      case Words(chars, suppress) => StringScans(chars, suppress, o.escapeNonAscii, rest);
    }
  }

  lemma IntegerStart(bits: N.Bits, m: N.Metadata)
    ensures var t := IntegerText(bits, m); t != "" && t[0] != '/' && t[0] != ';' && t[0] != '\''
  {
    hide IntegerText, BaseOf, Numeral;
    SpellingParts(bits, m);
  }

  /** A written value scans as its syntax. */
  lemma {:induction false} PrintScans(shortest: Shortest, read: Reader, o: Options, v: Value, depth: nat, rest: string)
    requires Writable(v) && Lawful(shortest, read) && Fenced(rest)
    ensures Tokens(Print(shortest, o, v, depth) + rest) == Flatten(SyntaxOf(shortest, o, v)) + Tokens(rest)
    decreases v, 0
  {
    hide Tokens, Lawful;
    if v.List? || v.Object? {
      GroupScans(shortest, read, o, v, depth, rest);
    } else {
      ScalarScans(shortest, read, o, v, depth, rest);
    }
  }

  /** The text of two pieces scans as the tokens of both. */
  lemma {:induction false} Compose(p: string, a: seq<Token>, q: string, b: seq<Token>, rest: string)
    requires Tokens(p + (q + rest)) == a + Tokens(q + rest) && Tokens(q + rest) == b + Tokens(rest)
    ensures Tokens(p + q + rest) == a + b + Tokens(rest)
  {
    hide Tokens;
    assert p + q + rest == p + (q + rest);
    assert a + (b + Tokens(rest)) == a + b + Tokens(rest);
  }

  lemma {:induction false} GroupParts(shortest: Shortest, o: Options, v: Value, depth: nat)
    requires (v.List? || v.Object?) && Writable(v)
    ensures Print(shortest, o, v, depth) == Letter(if v.Object? then ObjectBegin else ArrayBegin)
      + PrintAll(shortest, o, v.Object?, v.entries, depth + 1) + (if v.entries == [] then "" else Break(o, depth)) + Letter(CloseOf(v.Object?))
    ensures Flatten(SyntaxOf(shortest, o, v)) == [Mark(if v.Object? then ObjectBegin else ArrayBegin)]
      + Body(ItemsOf(shortest, o, v.Object?, v.entries), false) + [] + [Mark(CloseOf(v.Object?))]
    ensures forall i :: 0 <= i < |v.entries| ==> WritableEntry(v.entries[i], v.Object?)
  {
    hide Break, Body, WritableEntry;
  }

  lemma {:induction false} GroupScans(shortest: Shortest, read: Reader, o: Options, v: Value, depth: nat, rest: string)
    requires (v.List? || v.Object?) && Writable(v) && Lawful(shortest, read)
    ensures Tokens(Print(shortest, o, v, depth) + rest) == Flatten(SyntaxOf(shortest, o, v)) + Tokens(rest)
    decreases v.entries, 1
  {
    hide Tokens, Lawful, Break, Body, Print, PrintAll, SyntaxOf, Writable, WritableEntry, Flatten, Letter;
    GroupParts(shortest, o, v, depth);
    var open, close := if v.Object? then ObjectBegin else ArrayBegin, CloseOf(v.Object?);
    var break_ := if v.entries == [] then "" else Break(o, depth);
    var inner, body := PrintAll(shortest, o, v.Object?, v.entries, depth + 1), Body(ItemsOf(shortest, o, v.Object?, v.entries), false);
    var tail := Letter(close) + rest;
    MarkScans(close, rest);
    CloseFenced(close, rest);
    if v.entries == [] { assert break_ + tail == tail; } else {
      BreakScans(o, depth, tail);
      BreakFenced(o, depth, tail);
    }
    assert [] + Tokens(tail) == Tokens(tail);
    AllScan(shortest, read, o, v.Object?, v.entries, depth + 1, break_ + tail);
    MarkScans(open, inner + (break_ + tail));
    Compose(Letter(open), [Mark(open)], inner, body, break_ + tail);
    Compose(Letter(open) + inner, [Mark(open)] + body, break_, [], tail);
    Compose(Letter(open) + inner + break_, [Mark(open)] + body + [], Letter(close), [Mark(close)], rest);
  }

  lemma CloseFenced(k: Kind, rest: string)
    requires k == ObjectEnd || k == ArrayEnd || k == Comma
    ensures Fenced(Letter(k) + rest)
  {
  }

  lemma {:induction false} AllParts(shortest: Shortest, o: Options, inObject: bool, entries: seq<Entry>, depth: nat)
    requires entries != []
    ensures PrintAll(shortest, o, inObject, entries, depth) == Break(o, depth) + PrintEntry(shortest, o, inObject, entries[0], depth)
      + (if |entries| > 1 then Letter(Comma) + PrintAll(shortest, o, inObject, entries[1..], depth) else "")
    ensures Body(ItemsOf(shortest, o, inObject, entries), false) == [] + FlatItem(ItemOf(shortest, o, inObject, entries[0]))
      + (if |entries| > 1 then [Mark(Comma)] + Body(ItemsOf(shortest, o, inObject, entries[1..]), false) else [])
  {
    hide PrintEntry, ItemOf, Body, FlatItem, Break;
    var items := ItemsOf(shortest, o, inObject, entries);
    BodyParts(items, false);
    assert items[1..] == ItemsOf(shortest, o, inObject, entries[1..]);
  }

  lemma {:induction false} AllScan(shortest: Shortest, read: Reader, o: Options, inObject: bool, entries: seq<Entry>, depth: nat, rest: string)
    requires (forall i :: 0 <= i < |entries| ==> WritableEntry(entries[i], inObject)) && Lawful(shortest, read) && Fenced(rest)
    ensures Tokens(PrintAll(shortest, o, inObject, entries, depth) + rest) == Body(ItemsOf(shortest, o, inObject, entries), false) + Tokens(rest)
    decreases entries, 0
  {
    hide Tokens, Lawful, Break, WritableEntry, PrintEntry, ItemOf, ItemsOf, Body, FlatItem, PrintAll, Letter;
    if entries == [] {
      NoneScan(shortest, o, inObject, depth, rest);
    } else {
      AllParts(shortest, o, inObject, entries, depth);
      var entry, item := PrintEntry(shortest, o, inObject, entries[0], depth), FlatItem(ItemOf(shortest, o, inObject, entries[0]));
      var more, body := PrintAll(shortest, o, inObject, entries[1..], depth), Body(ItemsOf(shortest, o, inObject, entries[1..]), false);
      var tail, tailTokens := if |entries| > 1 then Letter(Comma) + more else "", if |entries| > 1 then [Mark(Comma)] + body else [];
      if |entries| > 1 {
        AllScan(shortest, read, o, inObject, entries[1..], depth, rest);
        MarkScans(Comma, more + rest);
        CloseFenced(Comma, more + rest);
        Compose(Letter(Comma), [Mark(Comma)], more, body, rest);
        assert Letter(Comma) + (more + rest) == tail + rest;
      } else {
        assert tail + rest == rest;
        assert [] + Tokens(rest) == Tokens(rest);
      }
      EntryScans(shortest, read, o, inObject, entries[0], depth, tail + rest);
      BreakScans(o, depth, entry + (tail + rest));
      assert [] + Tokens(entry + (tail + rest)) == Tokens(entry + (tail + rest));
      Compose(Break(o, depth), [], entry, item, tail + rest);
      Compose(Break(o, depth) + entry, [] + item, tail, tailTokens, rest);
    }
  }

  lemma {:induction false} NoneScan(shortest: Shortest, o: Options, inObject: bool, depth: nat, rest: string)
    ensures Tokens(PrintAll(shortest, o, inObject, [], depth) + rest) == Body(ItemsOf(shortest, o, inObject, []), false) + Tokens(rest)
  {
    hide Tokens;
    assert "" + rest == rest;
    assert [] + Tokens(rest) == Tokens(rest);
  }

  lemma {:induction false} EntryScans(shortest: Shortest, read: Reader, o: Options, inObject: bool, e: Entry, depth: nat, rest: string)
    requires WritableEntry(e, inObject) && Lawful(shortest, read) && Fenced(rest)
    ensures Tokens(PrintEntry(shortest, o, inObject, e, depth) + rest) == FlatItem(ItemOf(shortest, o, inObject, e)) + Tokens(rest)
    decreases e, 1
  {
    hide Tokens, Lawful, Break, Key, NameToken;
    if !e.named {
      PrintScans(shortest, read, o, e.value, depth, rest);
    } else if inObject {
      PrintScans(shortest, read, o, e.value, depth, rest);
      KeyScans(o, e.name, Print(shortest, o, e.value, depth) + rest);
      assert PrintEntry(shortest, o, inObject, e, depth) + rest == Key(o, e.name) + (Print(shortest, o, e.value, depth) + rest);
    } else {
      WrapperScans(shortest, read, o, e, depth, rest);
    }
  }

  lemma {:induction false} WrapperScans(shortest: Shortest, read: Reader, o: Options, e: Entry, depth: nat, rest: string)
    requires WritableEntry(e, false) && Lawful(shortest, read) && e.named
    ensures Tokens(PrintEntry(shortest, o, false, e, depth) + rest) == FlatItem(ItemOf(shortest, o, false, e)) + Tokens(rest)
    decreases e, 0
  {
    hide Tokens, Lawful, Break, Key, NameToken, Print, SyntaxOf, Body;
    var x, item := SyntaxOf(shortest, o, e.value), Member(NameToken(o, e.name), SyntaxOf(shortest, o, e.value));
    var close := Letter(ObjectEnd) + rest;
    var s1 := Break(o, depth) + close;
    MarkScans(ObjectEnd, rest);
    BreakScans(o, depth, close);
    BreakFenced(o, depth, close);
    PrintScans(shortest, read, o, e.value, depth + 1, s1);
    var s2 := Print(shortest, o, e.value, depth + 1) + s1;
    KeyScans(o, e.name, s2);
    var s3 := Key(o, e.name) + s2;
    BreakScans(o, depth + 1, s3);
    MarkScans(ObjectBegin, Break(o, depth + 1) + s3);
    assert PrintEntry(shortest, o, false, e, depth) + rest == Letter(ObjectBegin) + (Break(o, depth + 1) + s3);
    BodyParts([item], false);
    assert Flatten(Group(true, [item], false)) == [Mark(ObjectBegin)] + ([NameToken(o, e.name)] + [Mark(Colon)] + Flatten(x)) + [Mark(ObjectEnd)];
  }
}
