/**
 Tokens of document text (core/data_model/document_text_lex.cpp). Text is a
 sequence of Unicode scalars; each rule says what it reads from the front of
 the text that is left, and the scanner's loops are held to these rules.
 */
module TextLex {

  datatype Kind =
    | End | Error | ObjectBegin | ObjectEnd | ArrayBegin | ArrayEnd | Colon | Comma
    | QuotedString | UnquotedString | IntegerNumber | FloatingNumber | TrueValue | FalseValue | NullValue

  datatype Reason =
    | InvalidEscape | InvalidSurrogatePair | UnterminatedString | UnterminatedComment
    | MissingName | MissingColon | MissingValue | MissingSeparator | MismatchedDelimiter | UnexpectedEnd | NewlineInName
    | TrailingContent | InvalidInputView | NumericOutOfRange | ConstructionFailed | AllocationFailed | StorageLimit | InternalError

  /** `spelling` is the source of the token; `broken` a line break in its content; `literal` one not written as an escape. */
  datatype Token = Token(kind: Kind, spelling: string, broken: bool, literal: bool) | Bad(reason: Reason)

  function KindOf(t: Token): Kind {
    if t.Bad? then Error else t.kind
  }

  predicate Whitespace(c: char) {
    c == ' ' || c == '\t' || c == '\r' || c == '\n'
  }

  predicate IsDigit(c: char) {
    '0' <= c <= '9'
  }

  /** Line feed, carriage return, vertical tab, form feed, next line, line and paragraph separator. */
  predicate LineBreak(scalar: int) {
    scalar == 0x0a || scalar == 0x0d || scalar == 0x0b || scalar == 0x0c || scalar == 0x85 || scalar == 0x2028 || scalar == 0x2029
  }

  function HexDigit(c: char): (d: int)
    ensures -1 <= d < 16
  {
    if IsDigit(c) then c as int - 48
    else if 'a' <= c <= 'f' then c as int - 87
    else if 'A' <= c <= 'F' then c as int - 55
    else -1
  }

  predicate Boundary(c: char) {
    Whitespace(c) || c == '{' || c == '}' || c == '[' || c == ']' || c == ':' || c == ',' || c == '"'
  }

  /** The value of four hexadecimal digits; -1 when there are fewer. */
  function ReadUnit(s: string): (u: int)
    ensures -1 <= u < 0x10000
  {
    if |s| >= 4 && HexDigit(s[0]) >= 0 && HexDigit(s[1]) >= 0 && HexDigit(s[2]) >= 0 && HexDigit(s[3]) >= 0
    then ((HexDigit(s[0]) * 16 + HexDigit(s[1])) * 16 + HexDigit(s[2])) * 16 + HexDigit(s[3])
    else -1
  }

  predicate Scalar(x: int) {
    0 <= x < 0xd800 || 0xe000 <= x < 0x11_0000
  }

  datatype Escape = Escape(scalar: int, size: nat) | BadEscape(reason: Reason)

  /** The escape at the front of `s`, inside a string closed by `quote`. */
  function ReadEscape(s: string, quote: char): (e: Escape)
    ensures e.Escape? ==> Scalar(e.scalar) && 2 <= e.size <= |s|
  {
    if |s| < 2 || s[0] != '\\' then BadEscape(InvalidEscape)
    else if s[1] == '\\' || s[1] == '/' then Escape(s[1] as int, 2)
    else if s[1] == '"' || s[1] == '\'' then if quote == s[1] then Escape(s[1] as int, 2) else BadEscape(InvalidEscape)
    else if s[1] == 'b' then Escape(8, 2)
    else if s[1] == 'f' then Escape(12, 2)
    else if s[1] == 'n' then Escape(10, 2)
    else if s[1] == 'r' then Escape(13, 2)
    else if s[1] == 't' then Escape(9, 2)
    else if s[1] == 'u' then ReadScalar(s)
    else BadEscape(InvalidEscape)
  }

  /** A `\u` escape: one unit, or a high and a low surrogate written as two. */
  function ReadScalar(s: string): (e: Escape)
    requires |s| >= 2
    ensures e.Escape? ==> Scalar(e.scalar) && 2 <= e.size <= |s|
  {
    var unit := ReadUnit(s[2..]);
    if unit < 0 then BadEscape(InvalidEscape)
    else if 0xdc00 <= unit <= 0xdfff then BadEscape(InvalidSurrogatePair)
    else if !(0xd800 <= unit <= 0xdbff) then Escape(unit, 6)
    else if |s| < 8 || s[6] != '\\' || s[7] != 'u' then BadEscape(InvalidSurrogatePair)
    else
      var low := ReadUnit(s[8..]);
      if low < 0xdc00 || low > 0xdfff then BadEscape(InvalidSurrogatePair)
      else Escape(0x10000 + (unit - 0xd800) * 0x400 + (low - 0xdc00), 12)
  }

  // ---------------------------------------------------------------------
  // What lies between tokens

  datatype Trivia = Left(rest: string) | Unterminated

  function AfterLine(s: string): (rest: string)
    ensures |rest| <= |s|
  {
    if s == "" || s[0] == '\r' || s[0] == '\n' then s else AfterLine(s[1..])
  }

  function AfterBlock(s: string): (t: Trivia)
    ensures t.Left? ==> |t.rest| <= |s|
  {
    if |s| < 2 then Unterminated
    else if s[0] == '*' && s[1] == '/' then Left(s[2..])
    else AfterBlock(s[1..])
  }

  /** Skips white space, line comments and block comments. */
  function SkipTrivia(s: string): (t: Trivia)
    ensures t.Left? ==> |t.rest| <= |s| && (t.rest != "" ==> !Whitespace(t.rest[0]))
    decreases |s|
  {
    if s == "" then Left(s)
    else if Whitespace(s[0]) then SkipTrivia(s[1..])
    else if s[0] == ';' then SkipTrivia(AfterLine(s[1..]))
    else if s[0] == '/' && |s| >= 2 && s[1] == '/' then SkipTrivia(AfterLine(s[2..]))
    else if s[0] == '/' && |s| >= 2 && s[1] == '*' then
      var block := AfterBlock(s[2..]);
      if block.Unterminated? then Unterminated else SkipTrivia(block.rest)
    else Left(s)
  }

  // ---------------------------------------------------------------------
  // Strings and bare words

  /** Where a token ends: the text after it, and what its content holds. */
  datatype Span = Span(rest: string, broken: bool, literal: bool) | NoSpan(reason: Reason)

  function Also(span: Span, broken: bool, literal: bool): (r: Span)
    ensures r.Span? == span.Span? && (r.Span? ==> r.rest == span.rest)
  {
    if span.Span? then span.(broken := span.broken || broken, literal := span.literal || literal) else span
  }

  /** The rest of a string after its opening quote. */
  function QuotedSpan(s: string, quote: char): (span: Span)
    ensures span.Span? ==> |span.rest| < |s|
    decreases |s|
  {
    if s == "" then NoSpan(UnterminatedString)
    else if s[0] == quote then Span(s[1..], false, false)
    else if s[0] == '\\' then
      var e := ReadEscape(s, quote);
      if e.BadEscape? then NoSpan(e.reason) else Also(QuotedSpan(s[e.size..], quote), LineBreak(e.scalar), false)
    else Also(QuotedSpan(s[1..], quote), s[0] == '\n', s[0] == '\n')
  }

  /** A bare word: everything up to an unescaped boundary. */
  function WordSpan(s: string): (span: Span)
    ensures span.Span? ==> |span.rest| <= |s| && (s != "" && !Boundary(s[0]) ==> |span.rest| < |s|)
    decreases |s|
  {
    if s == "" then Span(s, false, false)
    else if s[0] == '\\' then
      var e := ReadEscape(s, '"');
      if e.BadEscape? then NoSpan(e.reason) else Also(WordSpan(s[e.size..]), LineBreak(e.scalar), false)
    else if Boundary(s[0]) then Span(s, false, false)
    else WordSpan(s[1..])
  }

  // ---------------------------------------------------------------------
  // Numbers

  predicate DigitOf(c: char, base: nat) {
    0 <= HexDigit(c) < base
  }

  function AfterDigits(s: string, base: nat): (rest: string)
    ensures |rest| <= |s|
  {
    if s != "" && DigitOf(s[0], base) then AfterDigits(s[1..], base) else s
  }

  predicate AllDigits(s: string, base: nat) {
    s != "" && AfterDigits(s, base) == ""
  }

  /** A fraction: a point with at least one digit. */
  datatype Part = Absent | Present(rest: string) | Broken

  function Fraction(s: string): (p: Part)
    ensures p.Present? ==> |p.rest| < |s|
  {
    if s == "" || s[0] != '.' then Absent
    else if AfterDigits(s[1..], 10) == s[1..] then Broken
    else Present(AfterDigits(s[1..], 10))
  }

  /** An exponent: a letter, a sign perhaps, at least one digit. */
  function Exponent(s: string): (p: Part)
    ensures p.Present? ==> |p.rest| < |s|
  {
    if s == "" || (s[0] != 'e' && s[0] != 'E') then Absent
    else
      var digits := if |s| > 1 && (s[1] == '+' || s[1] == '-') then s[2..] else s[1..];
      if AfterDigits(digits, 10) == digits then Broken else Present(AfterDigits(digits, 10))
  }

  function Unsign(s: string): string {
    if s != "" && (s[0] == '+' || s[0] == '-') then s[1..] else s
  }

  function DecimalKind(s: string): Kind {
    if s == "" || !IsDigit(s[0]) then UnquotedString
    else
      var whole := if s[0] == '0' then s[1..] else AfterDigits(s[1..], 10);
      var fraction := Fraction(whole);
      if fraction.Broken? then UnquotedString
      else
        var part := if fraction.Present? then fraction.rest else whole;
        var exponent := Exponent(part);
        if exponent.Broken? then UnquotedString
        else
          var rest := if exponent.Present? then exponent.rest else part;
          if rest != "" then UnquotedString
          else if fraction.Absent? && exponent.Absent? then IntegerNumber
          else FloatingNumber
  }

  /** The base an integer is spelled in, and its digits. */
  datatype Spelling = Spelling(base: nat, alternate: bool, digits: string)

  function SpellingOf(s: string): Spelling {
    if s != "" && s[0] == '#' then Spelling(16, true, s[1..])
    else if |s| >= 2 && s[0] == '0' && (s[1] == 'x' || s[1] == 'X') then Spelling(16, false, s[2..])
    else if |s| >= 2 && s[0] == '0' && (s[1] == 'b' || s[1] == 'B') then Spelling(2, false, s[2..])
    else Spelling(10, false, s)
  }

  /** Whether a whole word reads as a number. */
  function NumberKind(word: string): (k: Kind)
    ensures k == IntegerNumber || k == FloatingNumber || k == UnquotedString
  {
    var p := SpellingOf(Unsign(word));
    if p.base == 10 then DecimalKind(p.digits) else if AllDigits(p.digits, p.base) then IntegerNumber else UnquotedString
  }

  function WordKind(word: string): Kind {
    if word == "true" then TrueValue
    else if word == "false" then FalseValue
    else if word == "null" then NullValue
    else NumberKind(word)
  }

  // ---------------------------------------------------------------------
  // Tokens

  datatype Next = Next(token: Token, rest: string)

  function Punctuation(c: char): Kind {
    if c == '{' then ObjectBegin
    else if c == '}' then ObjectEnd
    else if c == '[' then ArrayBegin
    else if c == ']' then ArrayEnd
    else if c == ':' then Colon
    else if c == ',' then Comma
    else End
  }

  /** The token at the front of text that starts with no trivia. */
  function TokenAt(s: string): (n: Next)
    requires s != "" ==> !Whitespace(s[0])
    ensures !n.token.Bad? && n.token.kind != End ==> |n.rest| < |s|
  {
    if s == "" then Next(Token(End, "", false, false), "")
    else if s[0] == '"' || s[0] == '\'' then
      var span := QuotedSpan(s[1..], s[0]);
      if span.NoSpan? then Next(Bad(span.reason), "")
      else Next(Token(QuotedString, s[..|s| - |span.rest|], span.broken, span.literal), span.rest)
    else if Punctuation(s[0]) != End then Next(Token(Punctuation(s[0]), s[..1], false, false), s[1..])
    else
      var span := WordSpan(s);
      if span.NoSpan? then Next(Bad(span.reason), "")
      else
        var word := s[..|s| - |span.rest|];
        Next(Token(WordKind(word), word, span.broken, false), span.rest)
  }

  function NextToken(s: string): (n: Next)
    ensures !n.token.Bad? && n.token.kind != End ==> |n.rest| < |s|
  {
    var t := SkipTrivia(s);
    if t.Unterminated? then Next(Bad(UnterminatedComment), "") else TokenAt(t.rest)
  }

  /** All tokens of a text, up to its end or its first lexical error. */
  function Tokens(s: string): (ts: seq<Token>)
    ensures |ts| > 0
    decreases |s|
  {
    var n := NextToken(s);
    if n.token.Bad? || n.token.kind == End then [n.token] else [n.token] + Tokens(n.rest)
  }

  predicate IsName(k: Kind) {
    k in {QuotedString, UnquotedString, IntegerNumber, FloatingNumber, TrueValue, FalseValue, NullValue}
  }

  /** How the first tokens select the root: an object or an array, written out or implied. */
  datatype RootForm = RootForm(isObject: bool, implied: bool)

  function SelectRoot(ts: seq<Token>): RootForm
    requires |ts| > 0
  {
    var first := KindOf(ts[0]);
    if first == End then RootForm(true, true)
    else if first == ObjectBegin || first == ArrayBegin then RootForm(first == ObjectBegin, false)
    else RootForm(IsName(first) && |ts| > 1 && KindOf(ts[1]) == Colon, true)
  }
}
