/**
 The scanner of document text (core/data_model/document_text_lex.cpp, CScanner):
 an offset into the source, advanced in loops.
 */
module TextScanner {
  import opened TextLex
  import opened TextGrammar

  lemma Suffix(s: string, i: nat, n: nat)
    requires i + n <= |s|
    ensures s[i..][n..] == s[i + n..]
  {
  }

  /** One step of each rule, for the scanner's loops. */
  lemma {:induction false} TriviaStep(s: string)
    requires s != ""
    ensures Whitespace(s[0]) ==> SkipTrivia(s) == SkipTrivia(s[1..])
    ensures s[0] == ';' ==> SkipTrivia(s) == SkipTrivia(AfterLine(s[1..]))
    ensures |s| >= 2 && s[0] == '/' && s[1] == '/' ==> SkipTrivia(s) == SkipTrivia(AfterLine(s[2..]))
    ensures |s| >= 2 && s[0] == '/' && s[1] == '*' ==>
      SkipTrivia(s) == if AfterBlock(s[2..]).Left? then SkipTrivia(AfterBlock(s[2..]).rest) else Unterminated
    ensures !Whitespace(s[0]) && s[0] != ';' && !(s[0] == '/' && |s| >= 2 && (s[1] == '/' || s[1] == '*')) ==> SkipTrivia(s) == Left(s)
  {
  }

  lemma {:induction false} QuotedStep(s: string, quote: char)
    requires s != ""
    ensures s[0] == quote ==> QuotedSpan(s, quote) == Span(s[1..], false, false)
    ensures s[0] != quote && s[0] == '\\' ==> var e := ReadEscape(s, quote);
      QuotedSpan(s, quote) == if e.BadEscape? then NoSpan(e.reason) else Also(QuotedSpan(s[e.size..], quote), LineBreak(e.scalar), false)
    ensures s[0] != quote && s[0] != '\\' ==> QuotedSpan(s, quote) == Also(QuotedSpan(s[1..], quote), s[0] == '\n', s[0] == '\n')
  {
  }

  lemma {:induction false} QuotedEmpty(quote: char)
    ensures QuotedSpan("", quote) == NoSpan(UnterminatedString)
  {
  }

  lemma AlsoTwice(span: Span, broken: bool, literal: bool, broken': bool, literal': bool)
    ensures Also(Also(span, broken', literal'), broken, literal) == Also(span, broken || broken', literal || literal')
    ensures Also(NoSpan(UnterminatedString), broken, literal) == NoSpan(UnterminatedString)
  {
  }

  lemma {:induction false} WordProgress(s: string)
    requires s != "" && !Whitespace(s[0]) && s[0] != '"' && Punctuation(s[0]) == End
    ensures WordSpan(s).Span? ==> |WordSpan(s).rest| < |s|
  {
  }

  /** Bare words have no literal line breaks. */
  lemma {:induction false} WordLiteral(s: string)
    ensures WordSpan(s).Span? ==> !WordSpan(s).literal
    decreases |s|
  {
    if s != "" {
      if s[0] == '\\' {
        var e := ReadEscape(s, '"');
        if e.Escape? { WordLiteral(s[e.size..]); }
      } else if !Boundary(s[0]) {
        WordLiteral(s[1..]);
      }
    }
  }

  /** Whether a whole word reads as a number, found by walking over it. */
  method ClassifyNumber(word: string) returns (kind: Kind)
    requires word != ""
    ensures kind == NumberKind(word)
  {
    var offset := 0;
    if word[0] == '+' || word[0] == '-' { offset := 1; }
    assert Unsign(word) == word[offset..];
    if offset == |word| { return UnquotedString; }
    var base := 10;
    if word[offset] == '#' {
      base, offset := 16, offset + 1;
    } else if word[offset] == '0' && |word| - offset >= 2 {
      var prefix := word[offset + 1];
      if prefix == 'x' || prefix == 'X' { base := 16; }
      if prefix == 'b' || prefix == 'B' { base := 2; }
      if base != 10 { offset := offset + 2; }
    }
    assert SpellingOf(Unsign(word)).digits == word[offset..];
    if base != 10 {
      var digits := offset;
      offset := SkipDigits(word, offset, base);
      if offset == digits { return UnquotedString; }
      kind := if offset != |word| then UnquotedString else IntegerNumber;
    } else {
      kind := ClassifyDecimal(word, offset);
    }
  }

  method SkipDigits(word: string, from: nat, base: nat) returns (offset: nat)
    requires from <= |word|
    ensures from <= offset <= |word| && word[offset..] == AfterDigits(word[from..], base)
    ensures offset == from <==> AfterDigits(word[from..], base) == word[from..]
  {
    offset := from;
    while offset < |word| && DigitOf(word[offset], base)
      invariant from <= offset <= |word| && AfterDigits(word[offset..], base) == AfterDigits(word[from..], base)
    {
      Suffix(word, offset, 1);
      offset := offset + 1;
    }
  }

  /** A fraction, when there is a point. */
  method ScanFraction(word: string, from: nat) returns (ok: bool, offset: nat)
    requires from <= |word|
    ensures from <= offset <= |word| && ok == !Fraction(word[from..]).Broken?
    ensures ok ==> if offset == from then Fraction(word[from..]).Absent? else Fraction(word[from..]) == Present(word[offset..])
  {
    hide AfterDigits;
    offset := from;
    ok := true;
    if offset < |word| && word[offset] == '.' {
      Suffix(word, offset, 1);
      offset := SkipDigits(word, offset + 1, 10);
      ok := offset != from + 1;
    }
  }

  /** An exponent, when there is its letter. */
  method ScanExponent(word: string, from: nat) returns (ok: bool, offset: nat)
    requires from <= |word|
    ensures from <= offset <= |word| && ok == !Exponent(word[from..]).Broken?
    ensures ok ==> if offset == from then Exponent(word[from..]).Absent? else Exponent(word[from..]) == Present(word[offset..])
  {
    hide AfterDigits;
    offset := from;
    ok := true;
    if offset < |word| && (word[offset] == 'e' || word[offset] == 'E') {
      var digits := offset + 1;
      Suffix(word, offset, 1);
      if digits < |word| && (word[digits] == '+' || word[digits] == '-') {
        Suffix(word, offset, 2);
        digits := digits + 1;
      }
      offset := SkipDigits(word, digits, 10);
      ok := offset != digits;
    }
  }

  method ClassifyDecimal(word: string, from: nat) returns (kind: Kind)
    requires from <= |word|
    ensures kind == DecimalKind(word[from..])
  {
    hide AfterDigits, Fraction, Exponent;
    if from == |word| || !IsDigit(word[from]) { return UnquotedString; }
    var offset := from + 1;
    Suffix(word, from, 1);
    if word[from] != '0' { offset := SkipDigits(word, offset, 10); }
    var whole := offset;
    var ok;
    ok, offset := ScanFraction(word, offset);
    if !ok { return UnquotedString; }
    ok, offset := ScanExponent(word, offset);
    if !ok || offset != |word| { return UnquotedString; }
    kind := if offset == whole then IntegerNumber else FloatingNumber;
  }

  class Scanner {
    const source: string
    var offset: nat

    ghost predicate Valid()
      reads this
    {
      offset <= |source|
    }

    ghost function Rest(): string
      reads this
      requires Valid()
    {
      source[offset..]
    }

    /** A scanner at a place in the source; a copy of another scanner is one at its place. */
    constructor (source: string, offset: nat)
      requires offset <= |source|
      ensures Valid() && this.source == source && this.offset == offset
    {
      this.source := source;
      this.offset := offset;
    }

    method SkipLine()
      requires Valid()
      modifies this
      ensures Valid() && Rest() == AfterLine(old(Rest())) && offset >= old(offset)
    {
      while offset < |source| && source[offset] != '\r' && source[offset] != '\n'
        invariant Valid() && AfterLine(Rest()) == AfterLine(old(Rest())) && offset >= old(offset)
        decreases |source| - offset
      {
        Suffix(source, offset, 1);
        offset := offset + 1;
      }
    }

    method SkipBlock() returns (ok: bool)
      requires Valid()
      modifies this
      ensures Valid() && ok == AfterBlock(old(Rest())).Left? && (ok ==> Rest() == AfterBlock(old(Rest())).rest) && offset >= old(offset)
    {
      while |source| - offset >= 2 && !(source[offset] == '*' && source[offset + 1] == '/')
        invariant Valid() && AfterBlock(Rest()) == AfterBlock(old(Rest())) && offset >= old(offset)
        decreases |source| - offset
      {
        Suffix(source, offset, 1);
        offset := offset + 1;
      }
      if |source| - offset < 2 {
        offset := |source|;
        return false;
      }
      Suffix(source, offset, 2);
      offset := offset + 2;
      ok := true;
    }

    /** Skips white space and comments. */
    method SkipBlanks() returns (ok: bool)
      requires Valid()
      modifies this
      ensures Valid() && ok == SkipTrivia(old(Rest())).Left? && (ok ==> Rest() == SkipTrivia(old(Rest())).rest)
    {
      hide SkipTrivia, AfterLine, AfterBlock;
      while offset < |source|
        invariant Valid() && SkipTrivia(Rest()) == SkipTrivia(old(Rest()))
        decreases |source| - offset
      {
        var ch := source[offset];
        TriviaStep(Rest());
        Suffix(source, offset, 1);
        if Whitespace(ch) {
          offset := offset + 1;
        } else {
          var semicolon := ch == ';';
          if !semicolon && (ch != '/' || |source| - offset < 2) { break; }
          if !semicolon { Suffix(source, offset, 2); }
          var next := if semicolon then '/' else source[offset + 1];
          if next != '/' && next != '*' { break; }
          offset := offset + (if semicolon then 1 else 2);
          if next == '/' {
            SkipLine();
          } else {
            ok := SkipBlock();
            if !ok { return; }
          }
        }
      }
      ok := true;
      EmptyTrivia();
    }

    lemma EmptyTrivia()
      ensures SkipTrivia("") == Left("")
    {
    }

    /** Walks over the content of a string and its closing quote. */
    method QuotedContent(quote: char) returns (reached: Span)
      requires Valid()
      modifies this
      ensures Valid() && reached == QuotedSpan(old(Rest()), quote) && (reached.Span? ==> reached.rest == Rest() && offset > old(offset))
    {
      hide ReadEscape, LineBreak, QuotedSpan;
      var broken, literal := false, false;
      ghost var span := QuotedSpan(Rest(), quote);
      while offset < |source|
        invariant Valid() && old(offset) <= offset && Also(QuotedSpan(Rest(), quote), broken, literal) == span
        decreases |source| - offset
      {
        var ch := source[offset];
        Suffix(source, offset, 1);
        QuotedStep(Rest(), quote);
        if ch == quote {
          offset := offset + 1;
          return Span(source[offset..], broken, literal);
        }
        if ch == '\\' {
          var e := ReadEscape(source[offset..], quote);
          if e.BadEscape? { return NoSpan(e.reason); }
          Suffix(source, offset, e.size);
          AlsoTwice(QuotedSpan(Rest()[e.size..], quote), broken, literal, LineBreak(e.scalar), false);
          if LineBreak(e.scalar) { broken := true; }
          offset := offset + e.size;
        } else {
          AlsoTwice(QuotedSpan(Rest()[1..], quote), broken, literal, ch == '\n', ch == '\n');
          if ch == '\n' { broken, literal := true, true; }
          offset := offset + 1;
        }
      }
      QuotedEmpty(quote);
      reached := NoSpan(UnterminatedString);
    }

    /** Scans a string from its opening quote. */
    method Quoted() returns (token: Token)
      requires Valid() && offset < |source| && (source[offset] == '"' || source[offset] == '\'')
      modifies this
      ensures Valid() && token == TokenAt(old(Rest())).token && (!token.Bad? ==> Rest() == TokenAt(old(Rest())).rest)
    {
      hide QuotedSpan, WordSpan;
      var start, quote := offset, source[offset];
      Suffix(source, offset, 1);
      offset := offset + 1;
      var reached := QuotedContent(quote);
      if reached.NoSpan? { return Bad(reached.reason); }
      assert source[start..][..|source[start..]| - |reached.rest|] == source[start..offset];
      token := Token(QuotedString, source[start..offset], reached.broken, reached.literal);
    }

    /** Walks over a bare word. */
    method WordContent() returns (reached: Span)
      requires Valid()
      modifies this
      ensures Valid() && reached == WordSpan(old(Rest())) && (reached.Span? ==> reached.rest == Rest() && offset >= old(offset))
    {
      hide ReadEscape, LineBreak, Boundary, WordSpan, Also;
      var broken := false;
      ghost var span := WordSpan(Rest());
      NothingAlso(span);
      while offset < |source|
        invariant Valid() && old(offset) <= offset && Also(WordSpan(Rest()), broken, false) == span
        decreases |source| - offset
      {
        var ch := source[offset];
        if ch == '\\' {
          var e := ReadEscape(source[offset..], '"');
          WordEscape(Rest(), broken);
          if e.BadEscape? { return NoSpan(e.reason); }
          Suffix(source, offset, e.size);
          if LineBreak(e.scalar) { broken := true; }
          offset := offset + e.size;
        } else {
          if Boundary(ch) { break; }
          WordChar(Rest());
          Suffix(source, offset, 1);
          offset := offset + 1;
        }
      }
      WordStop(Rest(), broken);
      reached := Span(source[offset..], broken, false);
    }

    lemma NothingAlso(span: Span)
      ensures Also(span, false, false) == span
    {
    }

    lemma {:induction false} WordEscape(s: string, broken: bool)
      requires s != "" && s[0] == '\\'
      ensures var e := ReadEscape(s, '"');
        Also(WordSpan(s), broken, false) ==
        if e.BadEscape? then NoSpan(e.reason) else Also(WordSpan(s[e.size..]), broken || LineBreak(e.scalar), false)
    {
      hide ReadEscape, LineBreak;
    }

    lemma {:induction false} WordChar(s: string)
      requires s != "" && s[0] != '\\' && !Boundary(s[0])
      ensures WordSpan(s) == WordSpan(s[1..])
    {
    }

    lemma {:induction false} WordStop(s: string, broken: bool)
      requires s == "" || (s[0] != '\\' && Boundary(s[0]))
      ensures Also(WordSpan(s), broken, false) == Span(s, broken, false)
    {
    }

    /** Scans a bare word and says what it is. */
    method Unquoted() returns (token: Token)
      requires Valid() && offset < |source| && !Whitespace(source[offset])
      requires source[offset] != '"' && source[offset] != '\'' && Punctuation(source[offset]) == End
      modifies this
      ensures Valid() && token == TokenAt(old(Rest())).token && (!token.Bad? ==> Rest() == TokenAt(old(Rest())).rest)
    {
      hide QuotedSpan, WordSpan, NumberKind;
      var start := offset;
      WordProgress(Rest());
      var reached := WordContent();
      if reached.NoSpan? { return Bad(reached.reason); }
      WordLiteral(old(Rest()));
      var word := source[start..offset];
      assert source[start..][..|source[start..]| - |reached.rest|] == word;
      var kind := TrueValue;
      if word == "true" {
      } else if word == "false" {
        kind := FalseValue;
      } else if word == "null" {
        kind := NullValue;
      } else {
        kind := ClassifyNumber(word);
      }
      token := Token(kind, word, reached.broken, false);
    }

    /** The next token. */
    method Next() returns (token: Token)
      requires Valid()
      modifies this
      ensures Valid() && token == NextToken(old(Rest())).token && (!token.Bad? ==> Rest() == NextToken(old(Rest())).rest)
    {
      hide QuotedSpan, WordSpan, SkipTrivia;
      var ok := SkipBlanks();
      if !ok { return Bad(UnterminatedComment); }
      if offset == |source| { return Token(End, "", false, false); }
      var ch := source[offset];
      if ch == '"' || ch == '\'' {
        token := Quoted();
        return;
      }
      var kind := Punctuation(ch);
      if kind == End {
        token := Unquoted();
        return;
      }
      Suffix(source, offset, 1);
      assert Rest()[..1] == [ch];
      offset := offset + 1;
      token := Token(kind, [ch], false, false);
    }
  }

  /** The tokens from `first` on, when the scanner stands after it. */
  ghost function From(first: Token, rest: string): (ts: seq<Token>)
    ensures |ts| > 0 && ts[0] == first
  {
    if Final(first) then [first] else [first] + Tokens(rest)
  }

  lemma FromStream(first: Token, rest: string)
    requires Canonical(first)
    ensures Stream(From(first, rest))
  {
    TokensStream(rest);
    hide Tokens;
  }

  lemma {:induction false} FromNext(s: string)
    ensures From(NextToken(s).token, NextToken(s).rest) == Tokens(s)
  {
  }

  /** Chooses the root form, probing one token ahead with a copy of the scanner. */
  method ChooseRoot(first: Token, scanner: Scanner) returns (root: RootForm)
    requires scanner.Valid()
    ensures root == SelectRoot(From(first, scanner.Rest()))
  {
    hide NextToken;
    var kind := KindOf(first);
    if kind == End { return RootForm(true, true); }
    if kind == ObjectBegin || kind == ArrayBegin { return RootForm(kind == ObjectBegin, false); }
    if !IsName(kind) { return RootForm(false, true); }
    var copy := new Scanner(scanner.source, scanner.offset);
    var next := copy.Next();
    root := RootForm(KindOf(next) == Colon, true);
  }
}
