/**
 The spelling of strings (core/data_model/document_writer.cpp, CWriter::quoted)
 and its reading back: the same text with every line break a line feed.
 */
module TextStrings {
  import opened TextLex
  import opened TextGrammar
  import opened TextValues

  predicate LineEnd(c: char) {
    c == '\r' || c == '\n'
  }

  /** The size of the line break at the front of a text; zero when there is none. Unequal carriage return and line feed pair up. */
  function LineBreakSize(s: string): (n: nat)
    ensures n <= |s|
  {
    if s == "" then 0
    else if LineEnd(s[0]) then if |s| > 1 && s[1] != s[0] && LineEnd(s[1]) then 2 else 1
    else if LineBreak(s[0] as int) then 1
    else 0
  }

  lemma BreakStarts(s: string)
    ensures LineBreakSize(s) > 0 <==> s != "" && LineBreak(s[0] as int)
  {
  }

  predicate HasBreak(s: string) {
    exists i :: 0 <= i < |s| && LineBreak(s[i] as int)
  }

  /** The text with every line break written as one line feed. */
  function LineFeeds(s: string): string
    decreases |s|
  {
    if s == "" then ""
    else
      var n := LineBreakSize(s);
      if n > 0 then "\n" + LineFeeds(s[n..]) else [s[0]] + LineFeeds(s[1..])
  }

  function HexChar(d: nat): (c: char)
    requires d < 16
    ensures HexDigit(c) == d && c != '"' && c != '\\' && c != '\n'
  {
    if d < 10 then (48 + d) as char else (87 + d) as char
  }

  /** Four hexadecimal digits after `\u`. */
  function HexEscape(unit: nat): (s: string)
    requires unit < 0x10000
    ensures |s| == 6
  {
    "\\u" + [HexChar(unit / 0x1000), HexChar(unit / 0x100 % 16), HexChar(unit / 16 % 16), HexChar(unit % 16)]
  }

  lemma {:induction false} HexReads(unit: nat, rest: string)
    requires unit < 0x10000
    ensures ReadUnit(HexEscape(unit)[2..] + rest) == unit
  {
    hide HexDigit, HexChar;
    var a, b, c, d := unit / 0x1000, unit / 0x100 % 16, unit / 16 % 16, unit % 16;
    HexPlaces(unit);
    HexSpelled(HexChar(a), HexChar(b), HexChar(c), HexChar(d), rest);
    assert HexEscape(unit) == "\\u" + [HexChar(a), HexChar(b), HexChar(c), HexChar(d)];
    assert HexEscape(unit)[2..] == [HexChar(a), HexChar(b), HexChar(c), HexChar(d)];
  }

  lemma HexPlaces(unit: nat)
    requires unit < 0x10000
    ensures ((unit / 0x1000 * 16 + unit / 0x100 % 16) * 16 + unit / 16 % 16) * 16 + unit % 16 == unit
  {
  }

  lemma HexSpelled(a: char, b: char, c: char, d: char, rest: string)
    requires HexDigit(a) >= 0 && HexDigit(b) >= 0 && HexDigit(c) >= 0 && HexDigit(d) >= 0
    ensures ReadUnit([a, b, c, d] + rest) == ((HexDigit(a) * 16 + HexDigit(b)) * 16 + HexDigit(c)) * 16 + HexDigit(d)
  {
    hide HexDigit;
    var s := [a, b, c, d] + rest;
    assert s[0] == a && s[1] == b && s[2] == c && s[3] == d;
  }

  /** A character of a string that starts no line break. */
  function SpelledChar(c: char, escapeNonAscii: bool): string {
    if c == '"' then "\\\""
    else if c == '\\' then "\\\\"
    else if c as int == 8 then "\\b"
    else if c as int == 12 then "\\f"
    else if c == '\n' then "\\n"
    else if c == '\r' then "\\r"
    else if c == '\t' then "\\t"
    else if c as int < 0x20 then HexEscape(c as int)
    else if escapeNonAscii && c as int > 0x7f then
      if c as int <= 0xffff then HexEscape(c as int)
      else
        var supplementary := c as int - 0x10000;
        HexEscape(0xd800 + supplementary / 0x400) + HexEscape(0xdc00 + supplementary % 0x400)
    else [c]
  }

  /** The content between the quotes. */
  function Escaped(s: string, suppress: bool, escapeNonAscii: bool): string
    decreases |s|
  {
    if s == "" then ""
    else
      var n := LineBreakSize(s);
      if n > 0 then (if suppress then "\n" else "\\n") + Escaped(s[n..], suppress, escapeNonAscii)
      else SpelledChar(s[0], escapeNonAscii) + Escaped(s[1..], suppress, escapeNonAscii)
  }

  function Quoted(s: string, suppress: bool, escapeNonAscii: bool): string {
    "\"" + Escaped(s, suppress, escapeNonAscii) + "\""
  }

  // ---------------------------------------------------------------------
  // Reading one character back

  lemma EscapeReads(c: char, rest: string)
    requires 0 <= c as int < 0x10000
    ensures ReadEscape(HexEscape(c as int) + rest, '"') == Escape(c as int, 6)
  {
    hide HexEscape, ReadUnit;
    var unit := c as int;
    var s := HexEscape(unit) + rest;
    HexReads(unit, rest);
    HexStart(unit);
    assert s[2..] == HexEscape(unit)[2..] + rest;
  }

  lemma HexStart(unit: nat)
    requires unit < 0x10000
    ensures HexEscape(unit)[..2] == "\\u" && HexEscape(unit)[0] == '\\' && HexEscape(unit)[1] == 'u'
  {
  }

  lemma PairReads(c: char, rest: string)
    requires c as int > 0xffff
    ensures var x := c as int - 0x10000;
      && 0xd800 + x / 0x400 <= 0xdbff && 0xdc00 + x % 0x400 <= 0xdfff
      && ReadEscape(HexEscape(0xd800 + x / 0x400) + HexEscape(0xdc00 + x % 0x400) + rest, '"') == Escape(c as int, 12)
  {
    hide HexEscape, ReadUnit;
    var x := c as int - 0x10000;
    assert x < 0x100000;
    var high, low := 0xd800 + x / 0x400, 0xdc00 + x % 0x400;
    var tail := HexEscape(low) + rest;
    var s := HexEscape(high) + HexEscape(low) + rest;
    HexReads(high, tail);
    HexReads(low, rest);
    HexStart(high);
    HexStart(low);
    assert s[2..] == HexEscape(high)[2..] + tail;
    assert s[8..] == HexEscape(low)[2..] + rest;
    assert s[6] == HexEscape(low)[0] && s[7] == HexEscape(low)[1];
  }

  /** How a spelled character reads: as an escape of its whole spelling, or as itself. */
  ghost predicate ReadsAs(spelling: string, rest: string, c: char) {
    var s := spelling + rest;
    if spelling == [c] then c != '"' && c != '\\' && c != '\n'
    else spelling != "" && s[0] == '\\' && ReadEscape(s, '"') == Escape(c as int, |spelling|)
  }

  lemma SpelledReads(c: char, escapeNonAscii: bool, rest: string)
    requires !LineBreak(c as int)
    ensures ReadsAs(SpelledChar(c, escapeNonAscii), rest, c)
  {
    hide HexEscape, ReadUnit;
    var spelling := SpelledChar(c, escapeNonAscii);
    if c as int < 0x10000 { HexStart(c as int); }
    if spelling != [c] {
      if c as int > 0xffff {
        PairReads(c, rest);
        HexStart(0xd800 + (c as int - 0x10000) / 0x400);
      } else {
        EscapeReads(c, rest);
      }
    }
  }

  lemma BreakReads(rest: string)
    ensures ReadEscape("\\n" + rest, '"') == Escape(10, 2)
  {
  }

  /** Reading a character and what follows it. */
  lemma {:induction false} StepReads(spelling: string, rest: string, c: char)
    requires ReadsAs(spelling, rest, c) && !LineBreak(c as int)
    ensures QuotedSpan(spelling + rest, '"') == Also(QuotedSpan(rest, '"'), false, false)
    ensures Decode(spelling + rest, '"') == Prepend(c, Decode(rest, '"'))
  {
    hide ReadEscape;
    var s := spelling + rest;
    assert s[|spelling|..] == rest;
  }

  lemma FeedReads(suppress: bool, rest: string)
    ensures var s := (if suppress then "\n" else "\\n") + rest;
      QuotedSpan(s, '"') == Also(QuotedSpan(rest, '"'), true, suppress) && Decode(s, '"') == Prepend('\n', Decode(rest, '"'))
  {
    BreakReads(rest);
    hide ReadEscape;
    var s := (if suppress then "\n" else "\\n") + rest;
    if suppress { assert s[1..] == rest; } else { assert s[2..] == rest; }
  }

  // ---------------------------------------------------------------------
  // Reading a whole string back

  lemma BreakTail(s: string)
    requires s != ""
    ensures LineBreakSize(s) > 0 ==> HasBreak(s)
    ensures LineBreakSize(s) == 0 ==> (HasBreak(s) <==> HasBreak(s[1..]))
  {
    BreakStarts(s);
    if LineBreakSize(s) > 0 {
      assert LineBreak(s[0] as int);
    } else {
      if HasBreak(s) {
        var i :| 0 <= i < |s| && LineBreak(s[i] as int);
        assert s[1..][i - 1] == s[i];
      }
      if HasBreak(s[1..]) {
        var i :| 0 <= i < |s[1..]| && LineBreak(s[1..][i] as int);
        assert s[i + 1] == s[1..][i];
      }
    }
  }

  /** The content scans to its closing quote. */
  lemma {:induction false} EscapedScans(s: string, suppress: bool, escapeNonAscii: bool, rest: string)
    ensures QuotedSpan(Escaped(s, suppress, escapeNonAscii) + ("\"" + rest), '"') == Span(rest, HasBreak(s), suppress && HasBreak(s))
    decreases |s|
  {
    hide QuotedSpan, HasBreak, LineBreak, LineBreakSize, SpelledChar, ReadsAs;
    var tail := "\"" + rest;
    if s == "" {
      assert "" + tail == tail;
      ClosingScans(rest);
    } else {
      var n := LineBreakSize(s);
      BreakTail(s);
      BreakStarts(s);
      if n > 0 {
        var more := Escaped(s[n..], suppress, escapeNonAscii);
        EscapedScans(s[n..], suppress, escapeNonAscii, rest);
        FeedReads(suppress, more + tail);
        assert (if suppress then "\n" else "\\n") + more + tail == (if suppress then "\n" else "\\n") + (more + tail);
      } else {
        var more := Escaped(s[1..], suppress, escapeNonAscii);
        EscapedScans(s[1..], suppress, escapeNonAscii, rest);
        SpelledReads(s[0], escapeNonAscii, more + tail);
        StepReads(SpelledChar(s[0], escapeNonAscii), more + tail, s[0]);
        assert SpelledChar(s[0], escapeNonAscii) + more + tail == SpelledChar(s[0], escapeNonAscii) + (more + tail);
      }
    }
  }

  lemma {:induction false} ClosingScans(rest: string)
    ensures QuotedSpan("\"" + rest, '"') == Span(rest, false, false) && !HasBreak("")
  {
    assert ("\"" + rest)[1..] == rest;
  }

  /** The content decodes to the text with its line breaks as line feeds. */
  lemma {:induction false} EscapedDecodes(s: string, suppress: bool, escapeNonAscii: bool)
    ensures Decode(Escaped(s, suppress, escapeNonAscii), '"') == Decoded(LineFeeds(s))
    decreases |s|
  {
    hide Decode, LineBreakSize, SpelledChar, ReadsAs;
    if s == "" {
      NothingDecodes();
    } else {
      var n := LineBreakSize(s);
      BreakStarts(s);
      if n > 0 {
        EscapedDecodes(s[n..], suppress, escapeNonAscii);
        FeedReads(suppress, Escaped(s[n..], suppress, escapeNonAscii));
      } else {
        EscapedDecodes(s[1..], suppress, escapeNonAscii);
        SpelledReads(s[0], escapeNonAscii, Escaped(s[1..], suppress, escapeNonAscii));
        StepReads(SpelledChar(s[0], escapeNonAscii), Escaped(s[1..], suppress, escapeNonAscii), s[0]);
      }
    }
  }

  lemma NothingDecodes()
    ensures Decode("", '"') == Decoded("")
  {
  }

  /** The token of a written string. */
  function StringToken(s: string, suppress: bool, escapeNonAscii: bool): Token {
    Token(QuotedString, Quoted(s, suppress, escapeNonAscii), HasBreak(s), suppress && HasBreak(s))
  }

  /** A written string scans as one token, whatever follows. */
  lemma QuotedScans(s: string, suppress: bool, escapeNonAscii: bool, rest: string)
    ensures NextToken(Quoted(s, suppress, escapeNonAscii) + rest) == Next(StringToken(s, suppress, escapeNonAscii), rest)
  {
    hide Escaped, HasBreak, QuotedSpan, WordSpan;
    EscapedScans(s, suppress, escapeNonAscii, rest);
    var text := Quoted(s, suppress, escapeNonAscii) + rest;
    assert text[1..] == Escaped(s, suppress, escapeNonAscii) + ("\"" + rest);
    assert text[..|text| - |rest|] == Quoted(s, suppress, escapeNonAscii);
    NoTrivia(text);
  }

  lemma {:induction false} NoTrivia(s: string)
    requires s != "" && !Whitespace(s[0]) && s[0] != '/' && s[0] != ';'
    ensures SkipTrivia(s) == Left(s)
  {
  }

  lemma {:induction false} StringTokenReads(s: string, suppress: bool, escapeNonAscii: bool)
    ensures TextOf(StringToken(s, suppress, escapeNonAscii)) == Decoded(LineFeeds(s))
  {
    hide Escaped, Decode, HasBreak;
    EscapedDecodes(s, suppress, escapeNonAscii);
    var t := StringToken(s, suppress, escapeNonAscii).spelling;
    assert t[1..|t| - 1] == Escaped(s, suppress, escapeNonAscii);
  }

  // ---------------------------------------------------------------------
  // Line feeds settle

  lemma {:induction false} LineFeedsBreak(s: string)
    ensures HasBreak(LineFeeds(s)) == HasBreak(s)
    ensures LineFeeds(s) != "" ==> LineFeeds(s)[0] != '\r'
    decreases |s|
  {
    hide HasBreak;
    if s != "" {
      var n := LineBreakSize(s);
      BreakTail(s);
      BreakTail(LineFeeds(s));
      BreakStarts(s);
      BreakStarts(LineFeeds(s));
      if n > 0 { LineFeedsBreak(s[n..]); } else {
        LineFeedsBreak(s[1..]);
        assert LineFeeds(s)[1..] == LineFeeds(s[1..]);
      }
    }
  }

  /** Text whose line breaks are line feeds is written like the text it came from. */
  lemma {:induction false} LineFeedsSettle(s: string, suppress: bool, escapeNonAscii: bool)
    ensures Escaped(LineFeeds(s), suppress, escapeNonAscii) == Escaped(s, suppress, escapeNonAscii)
    decreases |s|
  {
    hide SpelledChar;
    if s != "" {
      var n := LineBreakSize(s);
      var t := LineFeeds(s);
      if n > 0 {
        LineFeedsSettle(s[n..], suppress, escapeNonAscii);
        LineFeedsBreak(s[n..]);
        assert t[1..] == LineFeeds(s[n..]);
        assert LineBreakSize(t) == 1;
      } else {
        LineFeedsSettle(s[1..], suppress, escapeNonAscii);
        assert t[1..] == LineFeeds(s[1..]);
        assert LineBreakSize(t) == 0;
      }
    }
  }

  lemma {:induction false} NoBreakSame(s: string)
    requires !HasBreak(s)
    ensures LineFeeds(s) == s
    decreases |s|
  {
    if s != "" {
      BreakTail(s);
      NoBreakSame(s[1..]);
      assert [s[0]] + s[1..] == s;
    }
  }
}
