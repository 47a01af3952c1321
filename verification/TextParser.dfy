/**
 The parser of document text (core/data_model/document_parser.cpp, CParser): it
 builds a live document, driven by tokens whose order the structure check has
 established. Allocation may fail at every step.
 */
module TextParser {
  import opened TextLex
  import opened TextGrammar
  import opened TextValues
  import opened TextBuilding
  import opened TextScanner
  import opened TextStructure
  import Requests
  import N = LiveNode
  import D = DocumentState
  import C = Content
  import W = TextWriter
  import K = LiveBuilding
  import L = LiveDocument
  import DB = DocumentBuilder

  function PrependAll(prefix: string, d: Decoded): Decoded {
    if d.Decoded? then Decoded(prefix + d.chars) else d
  }

  lemma {:induction false} DecodePlain(s: string, quote: char)
    requires forall i :: 0 <= i < |s| ==> s[i] != '\\'
    ensures Decode(s, quote) == Decoded(s)
  {
    if s != "" {
      DecodePlain(s[1..], quote);
      assert [s[0]] + s[1..] == s;
    }
  }

  lemma {:induction false} DecodeStep(s: string, quote: char, prefix: string)
    requires s != ""
    ensures s[0] != '\\' ==> PrependAll(prefix, Decode(s, quote)) == PrependAll(prefix + [s[0]], Decode(s[1..], quote))
    ensures s[0] == '\\' ==> var e := ReadEscape(s, quote);
      PrependAll(prefix, Decode(s, quote)) ==
        if e.BadEscape? then Undecodable else PrependAll(prefix + [e.scalar as char], Decode(s[e.size..], quote))
  {
    hide ReadEscape;
    if s[0] != '\\' {
      var d := Decode(s[1..], quote);
      if d.Decoded? { assert prefix + ([s[0]] + d.chars) == prefix + [s[0]] + d.chars; }
    } else {
      var e := ReadEscape(s, quote);
      if e.Escape? {
        var d := Decode(s[e.size..], quote);
        if d.Decoded? { assert prefix + ([e.scalar as char] + d.chars) == prefix + [e.scalar as char] + d.chars; }
      }
    }
  }

  /** The outcome of growing a buffer. */
  datatype Grown = Grown | Refused(reason: Reason)

  method Grow(granted: bool) returns (g: Grown)
    ensures g.Refused? ==> Spent(g.reason, granted)
  {
    var small := Requests.Ask(granted);
    var met := Requests.Ask(granted);
    g := if !small then Grown.Refused(StorageLimit) else if met then Grown.Grown else Grown.Refused(AllocationFailed);
  }

  lemma {:induction false} DecodeRun(s: string, n: nat, quote: char, prefix: string)
    requires n <= |s| && forall i :: 0 <= i < n ==> s[i] != '\\'
    ensures PrependAll(prefix, Decode(s, quote)) == PrependAll(prefix + s[..n], Decode(s[n..], quote))
    decreases n
  {
    hide Decode;
    if n == 0 {
      assert prefix + s[..0] == prefix && s[0..] == s;
    } else {
      DecodeStep(s, quote, prefix);
      DecodeRun(s[1..], n - 1, quote, prefix + [s[0]]);
      assert prefix + [s[0]] + s[1..][..n - 1] == prefix + s[..n];
      Suffix(s, 1, n - 1);
    }
  }

  /** Skips to the next escape. */
  method SkipPlain(content: string, from: nat) returns (offset: nat)
    requires from <= |content|
    ensures from <= offset <= |content| && (forall i :: from <= i < offset ==> content[i] != '\\')
    ensures offset < |content| ==> content[offset] == '\\'
  {
    offset := from;
    while offset < |content| && content[offset] != '\\'
      invariant from <= offset <= |content| && forall i :: from <= i < offset ==> content[i] != '\\'
    {
      offset := offset + 1;
    }
  }

  lemma {:induction false} DecodeSlice(content: string, start: nat, offset: nat, quote: char, prefix: string)
    requires start <= offset <= |content| && forall i :: start <= i < offset ==> content[i] != '\\'
    ensures PrependAll(prefix, Decode(content[start..], quote)) == PrependAll(prefix + content[start..offset], Decode(content[offset..], quote))
  {
    DecodeRun(content[start..], offset - start, quote, prefix);
    assert content[start..][..offset - start] == content[start..offset];
    Suffix(content, start, offset - start);
  }

  /** The decoded content of a token, stretch by stretch; an escape that does not read is an internal error. */
  method ReadText(token: Token, granted: bool) returns (report: Report, text: string)
    requires !token.Bad?
    ensures report.Passed? ==> TextOf(token) == Decoded(text)
    ensures report.Fails? ==> Spent(report.reason, granted) || (report.reason == InternalError && TextOf(token).Undecodable?)
  {
    hide ReadEscape, Decode;
    var quoted := token.kind == QuotedString && |token.spelling| >= 2;
    var content := if quoted then token.spelling[1..|token.spelling| - 1] else token.spelling;
    var quote := if quoted then token.spelling[0] else '"';
    if '\\' !in content {
      DecodePlain(content, quote);
      return Passed, content;
    }
    report, text := ReadEscaped(content, quote, granted);
  }

  method ReadEscaped(content: string, quote: char, granted: bool) returns (report: Report, text: string)
    ensures report.Passed? ==> Decode(content, quote) == Decoded(text)
    ensures report.Fails? ==> Spent(report.reason, granted) || (report.reason == InternalError && Decode(content, quote).Undecodable?)
  {
    hide ReadEscape, Decode;
    text := "";
    var offset := 0;
    ghost var decoded := Decode(content, quote);
    while offset < |content|
      invariant offset <= |content| && decoded == PrependAll(text, Decode(content[offset..], quote))
      decreases |content| - offset
    {
      var start := offset;
      offset := SkipPlain(content, start);
      DecodeSlice(content, start, offset, quote, text);
      var grown := Grow(granted);
      if grown.Refused? { return Fails(grown.reason), text; }
      text := text + content[start..offset];
      if offset < |content| {
        DecodeStep(content[offset..], quote, text);
        var e := ReadEscape(content[offset..], quote);
        if e.BadEscape? { return Fails(InternalError), text; }
        Suffix(content, offset, e.size);
        grown := Grow(granted);
        if grown.Refused? { return Fails(grown.reason), text; }
        text := text + [e.scalar as char];
        offset := offset + e.size;
      }
    }
    DecodePlain("", quote);
    assert content[offset..] == "" && text + "" == text;
    report := Passed;
  }

  /** What building gives when these frames are open, or the root is complete. */
  ghost function Remaining(read: Reader, implied: bool, frames: seq<Open>, root: Value, ts: seq<Token>): Outcome
    requires Stream(ts)
  {
    if ts[0].Bad? then Failed(InternalError)
    else if frames != [] then Build(read, implied, frames, ts)
    else if !implied && ts[0] == Mark(End) then Built(root)
    else Failed(InternalError)
  }

  lemma {:induction false} StillBuilds(read: Reader, implied: bool, frames: seq<Open>, root: Value, ts: seq<Token>)
    requires frames != [] && Stream(ts)
    ensures Remaining(read, implied, frames, root, ts) == Build(read, implied, frames, ts)
  {
  }

  lemma {:induction false} CloseStep(read: Reader, implied: bool, frames: seq<Open>, root: Value, ts: seq<Token>)
    requires frames != [] && Stream(ts) && !ts[0].Bad? && (ts[0].kind == ObjectEnd || ts[0].kind == ArrayEnd)
    ensures !Final(ts[0]) && |ts| > 1 && Stream(ts[1..])
    ensures var p := Close(frames);
      && (p.Going? ==> Build(read, implied, frames, ts) == Remaining(read, implied, p.frames, root, ts[1..]) && p.frames != [])
      && (p.Rooted? ==> Build(read, implied, frames, ts) == Remaining(read, implied, [], p.root, ts[1..])) && !p.Halted?
  {
    StreamTail(ts);
  }

  lemma {:induction false} CommaStep(read: Reader, implied: bool, frames: seq<Open>, ts: seq<Token>)
    requires frames != [] && Stream(ts) && !ts[0].Bad? && ts[0].kind == Comma
    ensures !Final(ts[0]) && |ts| > 1 && Stream(ts[1..])
    ensures forall root :: Build(read, implied, frames, ts) == Remaining(read, implied, frames, root, ts[1..])
  {
    StreamTail(ts);
  }

  lemma {:induction false} EntryStep(read: Reader, implied: bool, frames: seq<Open>, ts: seq<Token>)
    requires frames != [] && Stream(ts) && !ts[0].Bad? && !Closing(ts[0].kind) && ts[0].kind != Comma
    ensures !Final(ts[0]) && |ts| > 1 && Stream(ts[1..])
    ensures !Last(frames).isObject ==> Build(read, implied, frames, ts) == BuildValue(read, implied, frames, "", ts)
    ensures Last(frames).isObject && (TextOf(ts[0]).Undecodable? || ts[1].Bad? || ts[1].kind != Colon) ==>
      Build(read, implied, frames, ts) == Failed(InternalError)
    ensures Last(frames).isObject && TextOf(ts[0]).Decoded? && !ts[1].Bad? && ts[1].kind == Colon ==>
      && |ts| > 2 && !Final(ts[1]) && ts[1..][1..] == ts[2..] && Stream(ts[2..]) && (ts[2].Bad? ==> Build(read, implied, frames, ts) == Failed(InternalError))
      && Build(read, implied, frames, ts) == BuildValue(read, implied, frames, TextOf(ts[0]).chars, ts[2..])
  {
    hide TextOf;
    StreamTail(ts);
    var rest := ts[1..];
    assert ts[1] == rest[0];
    if !rest[0].Bad? && rest[0].kind == Colon {
      StreamTail(rest);
      assert rest[1..] == ts[2..];
    }
  }

  lemma {:induction false} ValueStep(read: Reader, implied: bool, frames: seq<Open>, name: string, root: Value, ts: seq<Token>)
    requires frames != [] && Stream(ts) && !ts[0].Bad?
    ensures var p := Create(read, frames, name, ts[0]);
      && !p.Rooted? && (p.Halted? ==> BuildValue(read, implied, frames, name, ts) == Failed(p.reason))
      && (p.Going? ==> p.frames != [] && !Final(ts[0]) && |ts| > 1 && Stream(ts[1..])
                       && BuildValue(read, implied, frames, name, ts) == Remaining(read, implied, p.frames, root, ts[1..]))
    ensures ts[0].kind == End ==> ScalarOf(read, ts[0]) == Failed(InternalError)
  {
    hide Receive;
    if !Final(ts[0]) { StreamTail(ts); }
  }

  /** Numbers are read with the notation and width that a record of them must have. */
  lemma NumberValid(word: string)
    ensures var n := IntegerOf(word); n.Number? ==> N.IntegerValid(n.bits, n.meta)
  {
  }

  lemma ScalarFlat(read: Reader, t: Token)
    requires !t.Bad?
    ensures var outcome := ScalarOf(read, t); outcome.Built? ==> DB.Flat(outcome.value) && !outcome.value.List? && !outcome.value.Object?
  {
    hide IntegerOf, TextOf, N.IntegerValid, N.FiniteBits;
    NumberValid(t.spelling);
  }

  /** Every name that the tokens give a member can be kept: its text breaks no line. */
  ghost predicate NamesKept(encode: string -> D.Bytes, breaks: D.LineBreaks, ts: seq<Token>) {
    forall i :: 0 <= i && i + 1 < |ts| && !ts[i].Bad? && !ts[i + 1].Bad? && ts[i + 1].kind == Colon && TextOf(ts[i]).Decoded? ==>
      !breaks(encode(TextOf(ts[i]).chars))
  }

  lemma NamesKeptOn(encode: string -> D.Bytes, breaks: D.LineBreaks, ts: seq<Token>)
    requires NamesKept(encode, breaks, ts) && ts != []
    ensures NamesKept(encode, breaks, ts[1..])
  {
    hide TextOf;
    forall i | 0 <= i && i + 1 < |ts[1..]| && !ts[1..][i].Bad? && !ts[1..][i + 1].Bad? && ts[1..][i + 1].kind == Colon && TextOf(ts[1..][i]).Decoded?
      ensures !breaks(encode(TextOf(ts[1..][i]).chars)) {
      assert ts[1..][i] == ts[i + 1] && ts[1..][i + 1] == ts[i + 2];
    }
  }

  lemma NameKept(encode: string -> D.Bytes, breaks: D.LineBreaks, ts: seq<Token>)
    requires NamesKept(encode, breaks, ts) && |ts| > 1
    ensures NamesKept(encode, breaks, ts[1..][1..])
    ensures !ts[0].Bad? && !ts[1].Bad? && ts[1].kind == Colon && TextOf(ts[0]).Decoded? ==> !breaks(encode(TextOf(ts[0]).chars))
  {
    hide TextOf;
    NamesKeptOn(encode, breaks, ts);
    NamesKeptOn(encode, breaks, ts[1..]);
  }

  class Parser {
    const scanner: Scanner
    const read: Reader
    const maxFrames: nat
    const granted: bool
    const implied: bool
    const builder: DB.Builder
    /** Resources are ample for the text. */
    ghost const ample: bool
    var token: Token
    var report: Report

    ghost predicate Valid()
      reads this, scanner, builder, builder.doc
    {
      scanner.Valid() && Canonical(token) && (token.Bad? ==> report.Fails?) && (report.Passed? ==> builder.Valid())
    }

    ghost function Ahead(): (ts: seq<Token>)
      reads this, scanner
      requires scanner.Valid() && Canonical(token)
      ensures Stream(ts) && ts[0] == token
    {
      FromStream(token, scanner.Rest());
      From(token, scanner.Rest())
    }

    /** Where resources are ample, they last for the tokens that are left. */
    ghost predicate Fitting()
      reads this, scanner, builder, builder.doc
      requires scanner.Valid() && Canonical(token)
    {
      ample ==> granted && |builder.keys| + |Ahead()| <= maxFrames && Room(|Ahead()|) && NamesKept(builder.encode, builder.doc.breaks, Ahead())
    }

    /** The document can take `n` tokens more. */
    ghost predicate Room(n: nat)
      reads builder, builder.doc
    {
      && builder.doc.granted && builder.doc.Spare() >= 6 * n
      && |builder.doc.names| + n + 1 < 0xffff_ffff && |builder.doc.strings| + n + 1 < 0xffff_ffff
    }

    /** What building from here gives. */
    ghost function Result(): Outcome
      reads this, scanner, builder, builder.doc
      requires Valid() && report.Passed?
    {
      Remaining(read, implied, builder.Opens(), builder.Root(), Ahead())
    }

    /** A parser whose scanner stands behind the first token, which has selected the root. */
    constructor (scanner: Scanner, read: Reader, maxFrames: nat, granted: bool, token: Token, form: RootForm, builder: DB.Builder, ghost ample: bool)
      requires scanner.Valid() && Canonical(token) && !token.Bad? && builder.Valid()
      ensures Valid() && this.scanner == scanner && this.read == read && implied == form.implied && report == Passed && this.token == token
      ensures this.maxFrames == maxFrames && this.granted == granted && this.ample == ample && this.builder == builder
    {
      this.scanner, this.read, this.maxFrames, this.granted := scanner, read, maxFrames, granted;
      this.ample, this.builder := ample, builder;
      implied := form.implied;
      this.token := token;
      report := Passed;
    }

    method Fail(reason: Reason)
      modifies `report
      ensures report == if old(report).Passed? then Fails(reason) else old(report)
    {
      if report.Passed? { report := Fails(reason); }
    }

    /** The next token; an error that was not there before is an internal one. */
    method Advance()
      requires Valid() && report.Passed? && !Final(token)
      modifies `token, `report, scanner
      ensures Valid() && Ahead() == old(Ahead()[1..])
      ensures report == if token.Bad? then Fails(InternalError) else Passed
    {
      hide Tokens, Stream, builder.Valid;
      FromNext(scanner.Rest());
      NextCanonical(scanner.Rest());
      assert Ahead()[1..] == Tokens(scanner.Rest());
      token := scanner.Next();
      if token.Bad? { Fail(InternalError); }
    }

    /** Goes on to the next token, towards a result. */
    method Turn(ghost goal: Outcome)
      requires Valid() && report.Passed? && !Final(token) && Stream(Ahead()[1..])
      requires Remaining(read, implied, builder.Opens(), builder.Root(), Ahead()[1..]) == goal
      modifies `token, `report, scanner
      ensures Valid() && Ahead() == old(Ahead()[1..])
      ensures if report.Passed? then Result() == goal else report == Fails(InternalError) && goal == Failed(InternalError)
    {
      hide Tokens, Stream, builder.Valid, builder.Opens, builder.Root;
      Advance();
    }

    /** Makes room for one more open container. */
    method GrowStack()
      requires report.Passed? && (ample ==> granted && |builder.keys| < maxFrames)
      modifies `report
      ensures report.Fails? ==> Spent(report.reason, ample)
    {
      if |builder.keys| == maxFrames {
        Fail(StorageLimit);
        return;
      }
      var met := Requests.Ask(granted);
      if !met { Fail(AllocationFailed); }
    }

    /** Makes a value for an entry of the top container; the document does not say why it refuses one. */
    method Create(named: bool, name: string, v: Value) returns (key: D.Key)
      requires Valid() && report.Passed? && DB.Flat(v) && (!named ==> name == "")
      requires ample ==> Room(1) && !builder.doc.breaks(builder.encode(name))
      modifies `report, builder, builder.doc
      ensures report.Passed? ==>
        builder.Valid() && builder.Loose(key) && builder.Opens() == old(builder.Opens()) && builder.EntryAt(key) == Entry(named, name, v) && builder.keys == old(builder.keys)
      ensures report.Passed? ==> (N.IsContainer(builder.doc.nodes[builder.doc.slotOf[key]].payload.vtype) <==> v.List? || v.Object?)
      ensures ample ==> Spends(old(builder.doc.Spare()), old(|builder.doc.names|), old(|builder.doc.strings|), 2)
      ensures report.Fails? ==> Spent(report.reason, ample)
    {
      hide builder.Valid, builder.Loose, builder.Opens, builder.EntryAt, builder.doc.Spare, DB.Flat, N.IsContainer;
      key := builder.Create(named, name, v);
      if key == D.NO_KEY { Fail(ConstructionFailed); }
    }

    /** At most this much of the document's room has been used. */
    ghost predicate Spends(spare: int, names: nat, strings: nat, cost: nat)
      reads builder, builder.doc
    {
      builder.doc.Spare() >= spare - cost && |builder.doc.names| <= names + 1 && |builder.doc.strings| <= strings + 1
    }

    /** The value of a scalar token. */
    method Scalar() returns (v: Value)
      requires report.Passed? && !token.Bad? && !Opens(token.kind) && (ample ==> granted)
      modifies `report
      ensures report.Passed? ==> ScalarOf(read, token) == Built(v)
      ensures report.Fails? ==> Spent(report.reason, ample) || ScalarOf(read, token) == Failed(report.reason)
    {
      hide TextOf, IntegerOf;
      v := Null;
      if token.kind == QuotedString || token.kind == UnquotedString {
        var text;
        report, text := ReadText(token, granted);
        if report.Passed? { v := Words(text, token.literal); }
      } else {
        var outcome := ScalarOf(read, token);
        if outcome.Failed? { Fail(outcome.reason); } else { v := outcome.value; }
      }
    }

    /** Takes a scalar into the top container. */
    method TakeScalar(named: bool, name: string)
      requires Valid() && report.Passed? && builder.keys != [] && !token.Bad? && !Opens(token.kind)
      requires named == Last(builder.Opens()).isObject && (!named ==> name == "")
      requires ample ==> granted && Room(1) && !builder.doc.breaks(builder.encode(name))
      modifies `report, builder, builder.doc
      ensures report.Passed? ==> builder.Valid() && builder.keys == old(builder.keys)
      ensures report.Passed? ==> var outcome := ScalarOf(read, token);
        outcome.Built? && builder.Opens() == Front(old(builder.Opens())) + [Receive(Last(old(builder.Opens())), Entry(named, name, outcome.value))]
      ensures report.Passed? && ample ==> Spends(old(builder.doc.Spare()), old(|builder.doc.names|), old(|builder.doc.strings|), 6)
      ensures report.Fails? ==> Spent(report.reason, ample) || ScalarOf(read, token) == Failed(report.reason)
    {
      hide builder.Valid, builder.Loose, builder.Opens, builder.EntryAt, builder.doc.Spare, DB.Flat, N.IsContainer, ScalarOf, Receive;
      ScalarFlat(read, token);
      var v := Scalar();
      if report.Fails? { return; }
      var key := Create(named, name, v);
      if report.Fails? { return; }
      var attached := builder.Attach(key);
      if !attached { Fail(ConstructionFailed); }
    }

    /** Opens a container in the top one. */
    method TakeContainer(named: bool, name: string, isObject: bool)
      requires Valid() && report.Passed? && builder.keys != []
      requires named == Last(builder.Opens()).isObject && (!named ==> name == "")
      requires ample ==> granted && |builder.keys| < maxFrames && Room(1) && !builder.doc.breaks(builder.encode(name))
      modifies `report, builder, builder.doc
      ensures report.Passed? ==> builder.Valid() && |builder.keys| == |old(builder.keys)| + 1
      ensures report.Passed? ==> builder.Opens() == old(builder.Opens()) + [Open(isObject, named, name, [])]
      ensures report.Passed? && ample ==> Spends(old(builder.doc.Spare()), old(|builder.doc.names|), old(|builder.doc.strings|), 6)
      ensures report.Fails? ==> Spent(report.reason, ample)
    {
      hide builder.Valid, builder.Loose, builder.Opens, builder.EntryAt, builder.doc.Spare, N.IsContainer;
      var v := if isObject then Object([]) else List([]);
      var key := Create(named, name, v);
      if report.Fails? { return; }
      GrowStack();
      if report.Fails? { return; }
      builder.Push(key);
    }

    /** Takes the value at the current token into the top container. */
    method Value(name: string)
      requires Valid() && Fitting() && report.Passed? && builder.keys != []
      requires !Last(builder.Opens()).isObject ==> name == ""
      requires ample ==> !builder.doc.breaks(builder.encode(name))
      modifies this, scanner, builder, builder.doc
      ensures Valid() && (report.Passed? ==> Fitting())
      ensures report.Passed? ==> Result() == old(BuildValue(read, implied, builder.Opens(), name, Ahead())) && Ahead() == old(Ahead()[1..])
      ensures report.Fails? ==> Spent(report.reason, ample) || old(BuildValue(read, implied, builder.Opens(), name, Ahead())) == Failed(report.reason)
    {
      hide Stream, Tokens, Build, BuildValue, Place, ScalarOf, NamesKept, builder.Valid, builder.Opens, builder.Root, builder.doc.Spare;
      ghost var ts, opens := Ahead(), builder.Opens();
      ghost var goal := BuildValue(read, implied, opens, name, ts);
      ValueStep(read, implied, opens, name, Null, ts);
      if ample { NamesKeptOn(builder.encode, builder.doc.breaks, ts); }
      var named := builder.TopIsObject();
      if Opens(token.kind) {
        TakeContainer(named, name, token.kind == ObjectBegin);
      } else {
        TakeScalar(named, name);
      }
      if report.Passed? { Turn(goal); }
    }

    /** Reads the name of a member and its colon. */
    method TakeName() returns (name: string)
      requires Valid() && Fitting() && report.Passed? && builder.keys != [] && Last(builder.Opens()).isObject && !Closing(token.kind) && token.kind != Comma
      modifies `token, `report, scanner
      ensures Valid() && (report.Passed? ==> Fitting() && (ample ==> !builder.doc.breaks(builder.encode(name))))
      ensures report.Passed? ==> BuildValue(read, implied, builder.Opens(), name, Ahead()) == old(Result()) && |Ahead()| < |old(Ahead())|
      ensures report.Fails? ==> Spent(report.reason, ample) || old(Result()) == Failed(report.reason)
    {
      hide Stream, Tokens, TextOf, Build, BuildValue, Closing, builder.Valid, builder.Opens, builder.Root, builder.doc.Spare, NamesKept;
      ghost var ts := Ahead();
      EntryStep(read, implied, builder.Opens(), ts);
      report, name := ReadText(token, granted);
      if report.Fails? { return; }
      Advance();
      if report.Fails? { return; }
      if token.kind != Colon {
        Fail(InternalError);
        return;
      }
      if ample { NameKept(builder.encode, builder.doc.breaks, ts); }
      Advance();
    }

    /** Reads an entry: in an object, a name and a colon first. */
    method Entries()
      requires Valid() && Fitting() && report.Passed? && builder.keys != [] && !Closing(token.kind) && token.kind != Comma
      modifies this, scanner, builder, builder.doc
      ensures Valid() && (report.Passed? ==> Fitting())
      ensures report.Passed? ==> Result() == old(Result()) && |Ahead()| < |old(Ahead())|
      ensures report.Fails? ==> Spent(report.reason, ample) || old(Result()) == Failed(report.reason)
    {
      hide Stream, Tokens, TextOf, Build, BuildValue, Closing, builder.Valid, builder.Opens, builder.Root, builder.doc.Spare, NamesKept, Fitting;
      ghost var ts := Ahead();
      EntryStep(read, implied, builder.Opens(), ts);
      builder.Facts();
      var name := "";
      var isObject := builder.TopIsObject();
      if isObject {
        name := TakeName();
        if report.Fails? { return; }
      }
      Value(name);
    }

    /** One turn: an end of a container, a comma, or an entry. */
    method Step()
      requires Valid() && Fitting() && report.Passed? && token.kind != End
      modifies this, scanner, builder, builder.doc
      ensures Valid() && (report.Passed? ==> Fitting())
      ensures report.Passed? ==> Result() == old(Result()) && |Ahead()| < |old(Ahead())|
      ensures report.Fails? ==> Spent(report.reason, ample) || old(Result()) == Failed(report.reason)
    {
      hide Stream, Tokens, Build, Place, NamesKept, builder.Valid, builder.Opens, builder.Root, builder.doc.Spare;
      ghost var ts, goal := Ahead(), Result();
      StreamTail(ts);
      if ample { NamesKeptOn(builder.encode, builder.doc.breaks, ts); }
      if builder.keys == [] {
        Fail(InternalError);
      } else if token.kind == ObjectEnd || token.kind == ArrayEnd {
        CloseStep(read, implied, builder.Opens(), builder.Root(), ts);
        Complete();
        if report.Passed? { Turn(goal); }
      } else if token.kind == Comma {
        CommaStep(read, implied, builder.Opens(), ts);
        Turn(goal);
      } else {
        Entries();
      }
    }

    /** Closes the top container. */
    method Complete()
      requires Valid() && report.Passed? && builder.keys != [] && (ample ==> Room(1))
      modifies `report, builder, builder.doc
      ensures report.Passed? ==> builder.Valid() && |builder.keys| < |old(builder.keys)|
      ensures report.Passed? ==> var p := Close(old(builder.Opens()));
        if p.Going? then builder.Opens() == p.frames else builder.keys == [] && p == Rooted(builder.Root())
      ensures report.Passed? && ample ==> Spends(old(builder.doc.Spare()), old(|builder.doc.names|), old(|builder.doc.strings|), 6)
      ensures report.Fails? ==> Spent(report.reason, ample)
    {
      hide builder.Valid, builder.Opens, builder.Root, builder.doc.Spare;
      var closed := builder.Complete();
      if !closed { Fail(ConstructionFailed); }
    }

    /** Opens the root and steps behind its bracket, if it has one. */
    method Start(isObject: bool, ghost goal: Outcome)
      requires Valid() && report.Passed? && builder.keys == [] && builder.Blank(isObject) && (!implied ==> !Final(token) && Stream(Ahead()[1..]))
      requires ample ==> granted && |Ahead()| < maxFrames && Room(|Ahead()|) && NamesKept(builder.encode, builder.doc.breaks, Ahead())
      requires goal == Build(read, implied, [Open(isObject, false, "", [])], if implied then Ahead() else Ahead()[1..])
      modifies this, scanner, builder
      ensures Valid()
      ensures if report.Passed? then Fitting() && Result() == goal else Spent(report.reason, ample) || goal == Failed(report.reason)
    {
      hide Stream, Tokens, Build, builder.Valid, builder.Opens, builder.Root, builder.doc.Spare, NamesKept;
      if ample { NamesKeptOn(builder.encode, builder.doc.breaks, Ahead()); }
      GrowStack();
      if report.Fails? { return; }
      builder.Begin(isObject);
      if !implied {
        StillBuilds(read, implied, builder.Opens(), builder.Root(), Ahead()[1..]);
        Turn(goal);
      } else {
        StillBuilds(read, implied, builder.Opens(), builder.Root(), Ahead());
      }
    }

    /** Builds the document, whose root is ready. */
    method Run(isObject: bool, ghost goal: Outcome)
      requires Valid() && report.Passed? && builder.keys == [] && builder.Blank(isObject) && (!implied ==> !Final(token) && Stream(Ahead()[1..]))
      requires ample ==> granted && |Ahead()| < maxFrames && Room(|Ahead()|) && NamesKept(builder.encode, builder.doc.breaks, Ahead())
      requires goal == Build(read, implied, [Open(isObject, false, "", [])], if implied then Ahead() else Ahead()[1..])
      modifies this, scanner, builder, builder.doc
      ensures report.Passed? ==> builder.Valid() && goal == Built(builder.Root())
      ensures report.Fails? ==> Spent(report.reason, ample) || goal == Failed(report.reason)
    {
      hide Stream, Tokens, builder.Valid, builder.Opens, builder.Root, builder.doc.Spare, NamesKept, Remaining, Build, Fitting;
      Start(isObject, goal);
      while report.Passed? && token.kind != End
        invariant Valid()
        invariant if report.Passed? then Fitting() && Result() == goal else Spent(report.reason, ample) || goal == Failed(report.reason)
        decreases report.Passed?, |Ahead()|
      {
        Step();
      }
      if report.Passed? {
        AtEnd();
        if |builder.keys| != (if implied then 1 else 0) { Fail(InternalError); }
      }
    }

    lemma AtEnd()
      requires Valid() && report.Passed? && token.kind == End
      ensures Result() == if |builder.keys| == (if implied then 1 else 0) then Built(builder.Root()) else Failed(InternalError)
    {
      MarkOf(Ahead());
      if |builder.keys| == 1 { builder.RootOpen(); }
      hide builder.Valid, builder.Opens, builder.Root;
    }
  }
  // ---------------------------------------------------------------------
  // Parsing a text

  /** Errors in the text itself; the structure check knows no internal ones. */
  predicate TextError(r: Reason) {
    !Resource(r) && r != InternalError && r != NumericOutOfRange
  }

  ghost predicate TextErrors(ts: seq<Token>) {
    forall i :: 0 <= i < |ts| ==> ts[i].Bad? ==> TextError(ts[i].reason)
  }

  lemma EscapeError(s: string, quote: char)
    ensures ReadEscape(s, quote).BadEscape? ==> TextError(ReadEscape(s, quote).reason)
  {
  }

  lemma {:induction false} SpanError(s: string, quote: char)
    ensures QuotedSpan(s, quote).NoSpan? ==> TextError(QuotedSpan(s, quote).reason)
    ensures WordSpan(s).NoSpan? ==> TextError(WordSpan(s).reason)
    decreases |s|
  {
    hide ReadEscape, LineBreak, Boundary;
    if s != "" {
      SpanError(s[1..], quote);
      EscapeError(s, quote);
      EscapeError(s, '"');
      var e, e' := ReadEscape(s, quote), ReadEscape(s, '"');
      if e.Escape? { SpanError(s[e.size..], quote); }
      if e'.Escape? { SpanError(s[e'.size..], quote); }
    }
  }

  lemma TokenError(s: string)
    ensures NextToken(s).token.Bad? ==> TextError(NextToken(s).token.reason)
  {
    hide ReadEscape, QuotedSpan, WordSpan;
    var t := SkipTrivia(s);
    if t.Left? && t.rest != "" {
      SpanError(t.rest[1..], t.rest[0]);
      SpanError(t.rest, '"');
    }
  }

  lemma {:induction false} TokenErrors(s: string)
    ensures TextErrors(Tokens(s))
    decreases |s|
  {
    TokenError(s);
    var n := NextToken(s);
    hide NextToken;
    if !Final(n.token) { TokenErrors(n.rest); }
  }

  lemma {:induction false} CheckError(frames: seq<Frame>, ts: seq<Token>)
    requires Stream(ts) && TextErrors(ts)
    ensures Check(frames, ts).Refused? ==> TextError(Check(frames, ts).reason)
    decreases |ts|, |frames|
  {
    if !ts[0].Bad? && frames != [] {
      var step := Move(Front(frames), Last(frames), ts[0]);
      if step.Moved? {
        if ts[0].kind == End {
          CheckError(Front(frames), ts);
        } else {
          StreamTail(ts);
          CheckError(step.frames, ts[1..]);
        }
      }
    }
  }

  lemma DocumentError(ts: seq<Token>)
    requires Stream(ts) && TextErrors(ts)
    ensures CheckDocument(ts).Refused? ==> TextError(CheckDocument(ts).reason)
  {
    hide Check;
    var root := SelectRoot(ts);
    var top := Frame(root.isObject, root.implied, First);
    CheckError([top], ts);
    if !Final(ts[0]) {
      StreamTail(ts);
      CheckError([top], ts[1..]);
    }
  }

  /** The first token of an accepted text, and what building from it gives. */
  lemma {:induction false} Started(read: Reader, ts: seq<Token>)
    requires Stream(ts) && CheckDocument(ts) == Accepted
    ensures !ts[0].Bad? && (!SelectRoot(ts).implied ==> !Final(ts[0]) && |ts| > 1 && Stream(ts[1..]))
    ensures var form := SelectRoot(ts);
      BuildDocument(read, ts) == Build(read, form.implied, [Open(form.isObject, false, "", [])], if form.implied then ts else ts[1..])
  {
    if !SelectRoot(ts).implied { StreamTail(ts); }
  }

  /** Resources are ample, the document can hold what a text of this size needs, and its names can be kept. */
  ghost predicate Enough(granted: bool, maxFrames: nat, encode: string -> D.Bytes, breaks: D.LineBreaks, source: string) {
    Ample(granted, maxFrames, |source|) && 6 * |source| + 8 <= D.SLOT_LIMIT && NamesKept(encode, breaks, Tokens(source))
  }

  /** A document whose root is empty, for a text of this form. */
  method BeginDocument(isObject: bool, breaks: D.LineBreaks, encode: string -> D.Bytes, granted: bool) returns (ok: bool, builder: DB.Builder?)
    requires K.Coding(encode)
    ensures ok ==> builder != null && fresh(builder) && fresh(builder.doc) && builder.Valid() && builder.Blank(isObject) && builder.keys == [] && builder.encode == encode
    ensures ok ==> builder.doc.breaks == breaks && builder.doc.granted == granted && builder.doc.names == [] && builder.doc.strings == []
    ensures granted ==> ok && builder.doc.Spare() >= D.SLOT_LIMIT - 2
  {
    hide L.LiveDocument.Inv;
    var doc := new L.LiveDocument(breaks, granted);
    if !doc.IsReady() { return false, null; }
    ghost var nodes := doc.nodes;
    var typed := doc.SetRootType(if isObject then N.Object else N.Array);
    if !typed { return false, null; }
    L.KeysCounted(nodes, doc.nodes);
    ok := true;
    builder := new DB.Builder(doc, encode);
    builder.RootTop();
  }

  /** Builds from a text that passed the structure check. */
  method BuildText(source: string, read: Reader, maxFrames: nat, encode: string -> D.Bytes, breaks: D.LineBreaks, granted: bool)
    returns (report: Report, doc: L.LiveDocument?, ghost root: Value)
    requires K.Coding(encode) && Stream(Tokens(source)) && CheckDocument(Tokens(source)) == Accepted
    ensures report.Passed? ==> doc != null && fresh(doc) && DB.Reads(doc, encode, root) && BuildDocument(read, Tokens(source)) == Built(root)
    ensures report.Fails? ==> Spent(report.reason, Enough(granted, maxFrames, encode, breaks, source)) || BuildDocument(read, Tokens(source)) == Failed(report.reason)
  {
    hide Tokens, Stream, SelectRoot, BuildDocument, CheckDocument, NamesKept, K.Coding, DB.Reads, L.LiveDocument.Inv, DB.Builder.Valid, DB.Builder.Root, DB.Builder.Opens;
    doc, root := null, Null;
    var scanner := new Scanner(source, 0);
    FromNext(source);
    NextCanonical(source);
    assert source[0..] == source;
    Started(read, Tokens(source));
    TokensFew(source);
    var token := scanner.Next();
    var form := ChooseRoot(token, scanner);
    var ok, builder := BeginDocument(form.isObject, breaks, encode, granted);
    if !ok { return Fails(ConstructionFailed), null, Null; }
    var parser := new Parser(scanner, read, maxFrames, granted, token, form, builder, Enough(granted, maxFrames, encode, breaks, source));
    parser.Run(form.isObject, BuildDocument(read, Tokens(source)));
    report := parser.report;
    if report.Passed? {
      builder.RootReads();
      doc, root := builder.doc, builder.Root();
    }
  }

  /** The meaning of a text, which is that of any way to read it as a text of the grammar. */
  ghost predicate Means(read: Reader, source: string, outcome: Outcome) {
    exists d :: IsText(d) && TextTokens(d) == Tokens(source) && DenoteText(read, d) == outcome
  }

  ghost predicate InGrammar(source: string) {
    exists d :: IsText(d) && TextTokens(d) == Tokens(source)
  }

  /**
   Parses a text into a live document. With enough resources a text of the grammar gives a document that reads as the
   text's meaning, unless a number is out of range, and any other text an error of the text; however resources are, what
   is given is the meaning, and nothing ends in an internal error.
   */
  method ParseText(source: string, read: Reader, maxFrames: nat, encode: string -> D.Bytes, breaks: D.LineBreaks, granted: bool)
    returns (report: Report, doc: L.LiveDocument?)
    requires K.Coding(encode)
    ensures report.Passed? ==> doc != null && fresh(doc) && exists root :: Means(read, source, Built(root)) && DB.Reads(doc, encode, root)
    ensures report.Fails? ==> report.reason != InternalError
    ensures report.Fails? && TextError(report.reason) ==> !InGrammar(source)
    ensures report == Fails(NumericOutOfRange) ==> Means(read, source, Failed(NumericOutOfRange))
    ensures report.Fails? && Resource(report.reason) ==> !Enough(granted, maxFrames, encode, breaks, source)
  {
    hide Tokens, Stream, IsText, TextTokens, DenoteText, CheckDocument, BuildDocument, Ample, NamesKept, K.Coding, DB.Reads;
    doc := null;
    report := CheckText(source, maxFrames, granted);
    TokenErrors(source);
    DocumentError(Tokens(source));
    AcceptedExactly(Tokens(source));
    if report.Fails? { return; }
    Lockstep(read, source);
    ghost var root;
    report, doc, root := BuildText(source, read, maxFrames, encode, breaks, granted);
    BuildErrors(read, source);
    if report.Passed? { assert Means(read, source, Built(root)); }
  }

  /** Building an accepted text fails on numbers only. */
  lemma {:induction false} BuildErrors(read: Reader, s: string)
    requires Stream(Tokens(s)) && CheckDocument(Tokens(s)) == Accepted
    ensures BuildDocument(read, Tokens(s)).Failed? ==> BuildDocument(read, Tokens(s)).reason == NumericOutOfRange
  {
    hide Tokens, Stream, CheckDocument, BuildDocument, DenoteText;
    Lockstep(read, s);
    var d :| IsText(d) && TextTokens(d) == Tokens(s) && BuildDocument(read, Tokens(s)) == DenoteText(read, d);
    TextReasons(read, d);
  }

  lemma TextReasons(read: Reader, d: Text)
    requires IsText(d)
    ensures DenoteText(read, d).Failed? ==> DenoteText(read, d).reason in {NumericOutOfRange, InternalError}
  {
    ListReasons(read, d.isObject, d.items, []);
  }

  lemma {:induction false} ListReasons(read: Reader, isObject: bool, items: seq<Item>, entries: seq<Entry>)
    requires forall i :: 0 <= i < |items| ==> ProperItem(items[i], isObject)
    ensures var listing := DenoteItems(read, isObject, items, entries); listing.Unlisted? ==> listing.reason in {NumericOutOfRange, InternalError}
    decreases items, 0
  {
    hide TextOf, IntegerOf;
    if items != [] {
      ItemReasons(read, items[0]);
      var listing := DenoteItem(read, isObject, items[0], entries);
      if listing.Listed? { ListReasons(read, isObject, items[1..], listing.entries); }
    }
  }

  lemma ItemReasons(read: Reader, item: Item)
    requires Proper(item.value)
    ensures Denote(read, item.value).Failed? ==> Denote(read, item.value).reason in {NumericOutOfRange, InternalError}
    decreases item, 1
  {
    ValueReasons(read, item.value);
  }

  lemma {:induction false} ValueReasons(read: Reader, x: Syntax)
    requires Proper(x)
    ensures Denote(read, x).Failed? ==> Denote(read, x).reason in {NumericOutOfRange, InternalError}
    decreases x, 0
  {
    hide TextOf, IntegerOf;
    if x.Group? { ListReasons(read, x.isObject, x.items, []); }
  }
}
