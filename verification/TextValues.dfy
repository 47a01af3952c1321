/**
 What document text means: decoded strings, numbers, collisions of names, and
 anonymous objects of one member inside arrays
 (core/data_model/document_parser.cpp, core/data_model/document_text_lex.cpp).
 */
module TextValues {
  import N = LiveNode
  import opened Quotients
  import opened TextLex
  import opened TextGrammar

  datatype Value =
    | Null | Truth(truth: bool) | Integer(bits: N.Bits, meta: N.Metadata) | Floating(bits: N.Bits)
    | Words(chars: string, suppress: bool) | List(entries: seq<Entry>) | Object(entries: seq<Entry>)

  /** A value with the name it carries: members always do, elements may. */
  datatype Entry = Entry(named: bool, name: string, value: Value)

  datatype Outcome = Built(value: Value) | Failed(reason: Reason)

  datatype Listing = Listed(entries: seq<Entry>) | Unlisted(reason: Reason)

  // ---------------------------------------------------------------------
  // Strings

  datatype Decoded = Decoded(chars: string) | Undecodable

  function Prepend(c: char, d: Decoded): Decoded {
    if d.Decoded? then Decoded([c] + d.chars) else d
  }

  /** The content of a string, its escapes read. */
  function Decode(s: string, quote: char): Decoded
    decreases |s|
  {
    if s == "" then Decoded("")
    else if s[0] == '\\' then
      var e := ReadEscape(s, quote);
      if e.BadEscape? then Undecodable else Prepend(e.scalar as char, Decode(s[e.size..], quote))
    else Prepend(s[0], Decode(s[1..], quote))
  }

  /** The content of a name or string token. */
  function TextOf(t: Token): Decoded
    requires !t.Bad?
  {
    if t.kind == QuotedString && |t.spelling| >= 2 then Decode(t.spelling[1..|t.spelling| - 1], t.spelling[0])
    else Decode(t.spelling, '"')
  }

  // ---------------------------------------------------------------------
  // Integers

  const TWO_TO_63: nat := 0x8000_0000_0000_0000
  const TWO_TO_64: nat := 0x1_0000_0000_0000_0000

  /** The value of a row of digits, the last digit counting one. */
  function Magnitude(digits: string, base: nat): nat
    requires forall i :: 0 <= i < |digits| ==> DigitOf(digits[i], base)
  {
    if digits == "" then 0
    else
      assert DigitOf(digits[|digits| - 1], base);
      Times(Magnitude(digits[..|digits| - 1], base), base) + HexDigit(digits[|digits| - 1])
  }

  datatype Conversion = Converted(magnitude: N.Bits, rest: string) | TooLarge | NoDigits

  function LeadingDigits(s: string, base: nat): (digits: string)
    ensures forall i :: 0 <= i < |digits| ==> DigitOf(digits[i], base)
  {
    if s != "" && DigitOf(s[0], base) then [s[0]] + LeadingDigits(s[1..], base) else ""
  }

  /** Reads an unsigned 64-bit number as far as its digits go (from_chars). */
  function FromChars(s: string, base: nat): Conversion {
    var digits := LeadingDigits(s, base);
    if digits == "" then NoDigits
    else if Magnitude(digits, base) >= TWO_TO_64 then TooLarge
    else Converted(Magnitude(digits, base), AfterDigits(s, base))
  }

  /** The notation that a number of digits stands for. */
  function NotationOf(base: nat, digits: nat): N.Notation {
    if base == 16 then
      if digits <= 2 then N.Hexadecimal2 else if digits <= 4 then N.Hexadecimal4 else if digits <= 8 then N.Hexadecimal8 else N.Hexadecimal16
    else if base == 2 then
      if digits <= 8 then N.Binary8 else if digits <= 16 then N.Binary16 else if digits <= 32 then N.Binary32 else N.Binary64
    else N.Decimal
  }

  datatype Number = Number(bits: N.Bits, meta: N.Metadata) | OutOfRange | Misspelled

  function SignedBits(x: int): N.Bits
    requires -(TWO_TO_63 as int) <= x < TWO_TO_63
  {
    if x < 0 then x + TWO_TO_64 else x
  }

  /** An integer token: its sign selects the domain, its prefix the base, its digit count the notation. */
  function IntegerOf(word: string): Number {
    var negative := word != "" && word[0] == '-';
    var signed := negative || (word != "" && word[0] == '+');
    var p := SpellingOf(Unsign(word));
    var notation := NotationOf(p.base, |p.digits|);
    var prefix := if p.alternate then N.Alternate else N.Standard;
    var c := FromChars(p.digits, p.base);
    if c.TooLarge? then OutOfRange
    else if c.NoDigits? || c.rest != "" then Misspelled
    else if !signed then Number(c.magnitude, N.Metadata(N.Unsigned, N.SmallestUnsignedWidth(c.magnitude), notation, prefix))
    else if c.magnitude > TWO_TO_63 - 1 + (if negative then 1 else 0) then OutOfRange
    else
      var value: int := if negative then 0 - c.magnitude else c.magnitude;
      Number(SignedBits(value), N.Metadata(N.Signed, N.SmallestSignedWidth(value), notation, prefix))
  }

  // ---------------------------------------------------------------------
  // Scalars

  /** Reading a floating-point spelling; conversion itself is taken as given. */
  datatype Reading = Finite(bits: N.Bits) | NotFinite

  type Reader = string -> Reading

  /** The value of a token that is no container. */
  function ScalarOf(read: Reader, t: Token): Outcome
    requires !t.Bad?
  {
    match t.kind
    case NullValue => Built(Null)
    case TrueValue => Built(Truth(true))
    case FalseValue => Built(Truth(false))
    case IntegerNumber =>
      (match IntegerOf(t.spelling)
       case Number(bits, meta) => Built(Integer(bits, meta))
       case OutOfRange => Failed(NumericOutOfRange)
       case Misspelled => Failed(InternalError))
    case FloatingNumber =>
      var r := read(if t.spelling != "" && t.spelling[0] == '+' then t.spelling[1..] else t.spelling);
      if r.Finite? && N.FiniteBits(r.bits) then Built(Floating(r.bits)) else Failed(NumericOutOfRange)
    case QuotedString | UnquotedString =>
      var text := TextOf(t);
      if text.Decoded? then Built(Words(text.chars, t.literal)) else Failed(InternalError)
    case _ => Failed(InternalError)
  }

  // ---------------------------------------------------------------------
  // Containers

  /** Where `name` stands among entries; their number when it is absent. */
  function Find(entries: seq<Entry>, name: string): (i: nat)
    ensures i <= |entries|
    ensures i < |entries| ==> entries[i].name == name
    ensures forall j :: 0 <= j < i ==> entries[j].name != name
  {
    if entries == [] then 0 else if entries[0].name == name then 0 else Find(entries[1..], name) + 1
  }

  /** Two values for one name: a list takes another value in, except a list; otherwise both make a new list. */
  function Merge(old_: Value, new_: Value): Value {
    if old_.List? && !new_.List? then List(old_.entries + [Entry(false, "", new_)])
    else List([Entry(false, "", old_), Entry(false, "", new_)])
  }

  /** Adds an entry; in an object a name that is there keeps its place and takes the new value in. */
  function Place(isObject: bool, entries: seq<Entry>, e: Entry): seq<Entry> {
    if !isObject then entries + [e]
    else
      var i := Find(entries, e.name);
      if i == |entries| then entries + [e] else entries[i := entries[i].(value := Merge(entries[i].value, e.value))]
  }

  /** Inside an array, an anonymous object of one member is that member. */
  function Unwrap(isObject: bool, e: Entry): Entry {
    if !isObject && !e.named && e.value.Object? && |e.value.entries| == 1 then e.value.entries[0] else e
  }

  function Container(isObject: bool, entries: seq<Entry>): Value {
    if isObject then Object(entries) else List(entries)
  }

  /** The value of a piece of syntax. */
  function Denote(read: Reader, x: Syntax): Outcome
    requires Proper(x)
    decreases x, 0
  {
    match x
    case Leaf(word) => ScalarOf(read, word)
    case Group(isObject, items, _) =>
      var listing := DenoteItems(read, isObject, items, []);
      if listing.Listed? then Built(Container(isObject, listing.entries)) else Failed(listing.reason)
  }

  /** Items in order, each placed among the entries before it. */
  function DenoteItems(read: Reader, isObject: bool, items: seq<Item>, entries: seq<Entry>): Listing
    requires forall i :: 0 <= i < |items| ==> ProperItem(items[i], isObject)
    decreases items, 0
  {
    if items == [] then Listed(entries)
    else
      var listing := DenoteItem(read, isObject, items[0], entries);
      if listing.Unlisted? then listing else DenoteItems(read, isObject, items[1..], listing.entries)
  }

  function DenoteItem(read: Reader, isObject: bool, item: Item, entries: seq<Entry>): Listing
    requires ProperItem(item, isObject)
    decreases item, 1
  {
    var name := if item.Member? then TextOf(item.name) else Decoded("");
    if name.Undecodable? then Unlisted(InternalError)
    else
      var outcome := Denote(read, item.value);
      if outcome.Failed? then Unlisted(outcome.reason)
      else Listed(Place(isObject, entries, Unwrap(isObject, Entry(isObject, name.chars, outcome.value))))
  }

  /** The root value of a text. */
  function DenoteText(read: Reader, d: Text): Outcome
    requires forall i :: 0 <= i < |d.items| ==> ProperItem(d.items[i], d.isObject)
  {
    var listing := DenoteItems(read, d.isObject, d.items, []);
    if listing.Listed? then Built(Container(d.isObject, listing.entries)) else Failed(listing.reason)
  }

  // ---------------------------------------------------------------------
  // Every scanned token decodes

  predicate WellSpelled(t: Token) {
    t.Bad? || (TextOf(t).Decoded? && (t.kind == IntegerNumber ==> IntegerOf(t.spelling) != Misspelled))
  }

  /** An escape reads the same from any prefix that holds it. */
  lemma EscapePrefix(s: string, p: string, quote: char)
    requires p <= s && ReadEscape(s, quote).Escape? && ReadEscape(s, quote).size <= |p|
    ensures ReadEscape(p, quote) == ReadEscape(s, quote)
  {
    forall i | 0 <= i < |p| ensures p[i] == s[i] {}
    var e := ReadEscape(s, quote);
    if s[1] == 'u' {
      assert forall i :: 0 <= i < 4 ==> p[2..][i] == s[2..][i];
      if e.size == 12 { assert forall i :: 0 <= i < 4 ==> p[8..][i] == s[8..][i]; }
    }
  }

  lemma {:induction false} QuotedDecodes(s: string, quote: char)
    requires QuotedSpan(s, quote).Span?
    ensures Decode(s[..|s| - |QuotedSpan(s, quote).rest| - 1], quote).Decoded?
    decreases |s|
  {
    hide ReadEscape;
    var rest := QuotedSpan(s, quote).rest;
    var content := s[..|s| - |rest| - 1];
    if s[0] == quote {
    } else if s[0] == '\\' {
      var e := ReadEscape(s, quote);
      QuotedDecodes(s[e.size..], quote);
      EscapePrefix(s, content, quote);
      PrefixTail(s, |s| - |rest| - 1, e.size);
    } else {
      QuotedDecodes(s[1..], quote);
      PrefixTail(s, |s| - |rest| - 1, 1);
    }
  }

  lemma {:induction false} WordDecodes(s: string)
    requires WordSpan(s).Span?
    ensures Decode(s[..|s| - |WordSpan(s).rest|], '"').Decoded?
    decreases |s|
  {
    hide ReadEscape, Boundary;
    var n := |s| - |WordSpan(s).rest|;
    if s != "" && s[0] == '\\' {
      var e := ReadEscape(s, '"');
      WordDecodes(s[e.size..]);
      EscapePrefix(s, s[..n], '"');
      PrefixTail(s, n, e.size);
    } else if s != "" && !Boundary(s[0]) {
      WordDecodes(s[1..]);
      PrefixTail(s, n, 1);
    }
  }

  lemma PrefixTail(s: string, n: nat, k: nat)
    requires k <= n <= |s|
    ensures s[..n][k..] == s[k..][..n - k]
  {
  }

  /** A word of decimal digits without point or exponent is read to its end. */
  lemma {:induction false} DecimalDigits(s: string)
    requires DecimalKind(s) == IntegerNumber
    ensures s != "" && DigitOf(s[0], 10) && AfterDigits(s, 10) == ""
  {
  }

  /** Whatever scans as an integer converts to its last character. */
  lemma IntegerSpelled(word: string)
    requires NumberKind(word) == IntegerNumber
    ensures IntegerOf(word) != Misspelled
  {
    var p := SpellingOf(Unsign(word));
    if p.base == 10 { DecimalDigits(p.digits); }
    assert AllDigits(p.digits, p.base);
    assert LeadingDigits(p.digits, p.base) != "";
  }

  lemma TokenSpelled(s: string)
    requires s != "" ==> !Whitespace(s[0])
    ensures WellSpelled(TokenAt(s).token)
  {
    if s != "" {
      if s[0] == '"' || s[0] == '\'' { QuotedSpelled(s); }
      else if Punctuation(s[0]) == End { WordSpelled(s); }
      else { MarkSpelled(s); }
    }
  }

  lemma QuotedSpelled(s: string)
    requires s != "" && (s[0] == '"' || s[0] == '\'')
    ensures WellSpelled(TokenAt(s).token)
  {
    hide Decode;
    var span := QuotedSpan(s[1..], s[0]);
    if span.Span? {
      QuotedDecodes(s[1..], s[0]);
      var spelling := TokenAt(s).token.spelling;
      assert spelling[1..|spelling| - 1] == s[1..][..|s[1..]| - |span.rest| - 1];
    }
  }

  lemma WordSpelled(s: string)
    requires s != "" && !Whitespace(s[0]) && s[0] != '"' && s[0] != '\'' && Punctuation(s[0]) == End
    ensures WellSpelled(TokenAt(s).token)
  {
    hide Decode, NumberKind, IntegerOf;
    var span := WordSpan(s);
    if span.Span? {
      WordDecodes(s);
      var word := s[..|s| - |span.rest|];
      if NumberKind(word) == IntegerNumber { IntegerSpelled(word); }
    }
  }

  lemma MarkSpelled(s: string)
    requires s != "" && s[0] != '"' && s[0] != '\'' && Punctuation(s[0]) != End
    ensures WellSpelled(TokenAt(s).token)
  {
    assert Decode(s[..1], '"') == Prepend(s[0], Decode(s[..1][1..], '"'));
  }

  lemma {:induction false} TokensSpelled(s: string)
    ensures forall i :: 0 <= i < |Tokens(s)| ==> WellSpelled(Tokens(s)[i])
    decreases |s|
  {
    var t := SkipTrivia(s);
    if t.Left? { TokenSpelled(t.rest); }
    var n := NextToken(s);
    hide NextToken, WellSpelled;
    if !Final(n.token) { TokensSpelled(n.rest); }
  }
}
