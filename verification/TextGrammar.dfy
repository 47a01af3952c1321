/**
 The structure check of document text (core/data_model/document_structure.cpp)
 as a pushdown machine over tokens, and the grammar it accepts.
 */
module TextGrammar {
  import opened TextLex

  function Last<T>(s: seq<T>): T
    requires s != []
  {
    s[|s| - 1]
  }

  function Front<T>(s: seq<T>): seq<T>
    requires s != []
  {
    s[..|s| - 1]
  }

  lemma Ends<T>(s: seq<T>, x: T)
    ensures Last(s + [x]) == x && Front(s + [x]) == s
  {
  }

  // ---------------------------------------------------------------------
  // Token streams

  function Letter(k: Kind): string {
    match k
    case ObjectBegin => "{"
    case ObjectEnd => "}"
    case ArrayBegin => "["
    case ArrayEnd => "]"
    case Colon => ":"
    case Comma => ","
    case _ => ""
  }

  /** The token of a punctuation mark, or of the end of the text. */
  function Mark(k: Kind): Token {
    Token(k, Letter(k), false, false)
  }

  predicate Canonical(t: Token) {
    t.Bad? || (t.kind != Error && (IsName(t.kind) || t == Mark(t.kind)))
  }

  predicate Final(t: Token) {
    t.Bad? || t.kind == End
  }

  /** What scanning yields: tokens up to an end or an error, and no further. */
  ghost predicate Stream(ts: seq<Token>) {
    && |ts| > 0 && Final(Last(ts)) && (forall i :: 0 <= i < |ts| - 1 ==> !Final(ts[i])) && (forall i :: 0 <= i < |ts| ==> Canonical(ts[i]))
  }

  lemma StreamTail(ts: seq<Token>)
    requires Stream(ts) && !Final(ts[0])
    ensures |ts| > 1 && Stream(ts[1..])
  {
  }

  lemma StreamEnd(ts: seq<Token>)
    requires Stream(ts) && Final(ts[0])
    ensures ts == [ts[0]]
  {
  }

  lemma NextCanonical(s: string)
    ensures Canonical(NextToken(s).token)
  {
  }

  lemma {:induction false} TokensStream(s: string)
    ensures Stream(Tokens(s))
    decreases |s|
  {
    NextCanonical(s);
    var n := NextToken(s);
    if !Final(n.token) {
      TokensStream(n.rest);
      hide NextToken;
      var rest := Tokens(n.rest);
      assert Tokens(s) == [n.token] + rest;
    }
  }

  // ---------------------------------------------------------------------
  // The machine

  datatype State = First | AfterComma | NeedColon | NeedValue | Separated

  datatype Frame = Frame(isObject: bool, implied: bool, state: State)

  datatype Step = Moved(frames: seq<Frame>) | Stopped(reason: Reason)

  datatype Verdict = Accepted | Refused(reason: Reason)

  predicate Closing(k: Kind) {
    k == End || k == ObjectEnd || k == ArrayEnd
  }

  function CloseOf(isObject: bool): Kind {
    if isObject then ObjectEnd else ArrayEnd
  }

  predicate Closes(f: Frame, k: Kind) {
    if f.implied then k == End else k == CloseOf(f.isObject)
  }

  predicate Opens(k: Kind) {
    k == ObjectBegin || k == ArrayBegin
  }

  function TakeValue(below: seq<Frame>, top: Frame, k: Kind): Step {
    if Opens(k) then Moved(below + [top.(state := Separated)] + [Frame(k == ObjectBegin, false, First)])
    else if IsName(k) then Moved(below + [top.(state := Separated)])
    else Stopped(MissingValue)
  }

  /** What one token does to the stack. */
  function Move(below: seq<Frame>, top: Frame, t: Token): Step
    requires !t.Bad?
  {
    if Closing(t.kind) then
      if !Closes(top, t.kind) then Stopped(if t.kind == End then UnexpectedEnd else MismatchedDelimiter)
      else if top.state == NeedColon then Stopped(MissingColon)
      else if top.state == NeedValue then Stopped(MissingValue)
      else Moved(below)
    else
      match top.state
      case First | AfterComma =>
        if !top.isObject then TakeValue(below, top, t.kind)
        else if !IsName(t.kind) then Stopped(MissingName)
        else if t.broken then Stopped(NewlineInName)
        else Moved(below + [top.(state := NeedColon)])
      case NeedColon => if t.kind == Colon then Moved(below + [top.(state := NeedValue)]) else Stopped(MissingColon)
      case NeedValue => TakeValue(below, top, t.kind)
      case Separated => if t.kind == Comma then Moved(below + [top.(state := AfterComma)]) else Stopped(MissingSeparator)
  }

  /** The verdict on the tokens that are left. The end closes an implied frame but stays in place. */
  ghost function Check(frames: seq<Frame>, ts: seq<Token>): Verdict
    requires Stream(ts)
    decreases |ts|, |frames|
  {
    if ts[0].Bad? then Refused(ts[0].reason)
    else if frames == [] then if ts[0].kind == End then Accepted else Refused(TrailingContent)
    else
      var step := Move(Front(frames), Last(frames), ts[0]);
      if step.Stopped? then Refused(step.reason)
      else if ts[0].kind == End then Check(Front(frames), ts)
      else StreamTail(ts); Check(step.frames, ts[1..])
  }

  ghost function CheckDocument(ts: seq<Token>): Verdict
    requires Stream(ts)
  {
    if ts[0].Bad? then Refused(ts[0].reason)
    else
      var root := SelectRoot(ts);
      if root.implied then Check([Frame(root.isObject, true, First)], ts)
      else StreamTail(ts); Check([Frame(root.isObject, false, First)], ts[1..])
  }

  // ---------------------------------------------------------------------
  // The grammar

  datatype Syntax = Leaf(word: Token) | Group(isObject: bool, items: seq<Item>, trailing: bool)

  datatype Item = Element(value: Syntax) | Member(name: Token, value: Syntax)

  function Flatten(x: Syntax): (ts: seq<Token>)
    ensures |ts| > 0
    decreases x, 0
  {
    match x
    case Leaf(word) => [word]
    case Group(isObject, items, trailing) =>
      [Mark(if isObject then ObjectBegin else ArrayBegin)] + Body(items, trailing) + [Mark(CloseOf(isObject))]
  }

  /** Items with commas between them, and perhaps one after the last. */
  function Body(items: seq<Item>, trailing: bool): seq<Token>
    decreases items, 0
  {
    if items == [] then []
    else FlatItem(items[0]) + (if |items| > 1 || trailing then [Mark(Comma)] else []) + Body(items[1..], trailing)
  }

  function FlatItem(item: Item): (ts: seq<Token>)
    ensures |ts| > 0
    decreases item, 1
  {
    match item
    case Element(value) => Flatten(value)
    case Member(name, value) => [name] + [Mark(Colon)] + Flatten(value)
  }

  predicate Proper(x: Syntax) {
    match x
    case Leaf(word) => !word.Bad? && IsName(word.kind)
    case Group(isObject, items, trailing) => forall i :: 0 <= i < |items| ==> ProperItem(items[i], isObject)
  }

  /** Members carry names without line breaks; elements carry none. */
  predicate ProperItem(item: Item, isObject: bool) {
    && item.Member? == isObject && Proper(item.value)
    && (item.Member? ==> !item.name.Bad? && IsName(item.name.kind) && !item.name.broken)
  }

  datatype Text = Text(isObject: bool, implied: bool, items: seq<Item>, trailing: bool)

  function TextTokens(d: Text): seq<Token> {
    (if d.implied then Body(d.items, d.trailing) else Flatten(Group(d.isObject, d.items, d.trailing))) + [Mark(End)]
  }

  /** A document: its items are proper, and its first tokens select the root it has. */
  ghost predicate IsText(d: Text) {
    && (forall i :: 0 <= i < |d.items| ==> ProperItem(d.items[i], d.isObject))
    && SelectRoot(TextTokens(d)) == RootForm(d.isObject, d.implied)
  }

  // ---------------------------------------------------------------------
  // What is accepted belongs to the grammar

  predicate AwaitsValue(top: Frame) {
    if top.isObject then top.state == NeedValue else top.state == First || top.state == AfterComma
  }

  predicate AwaitsItem(top: Frame) {
    top.state == First || top.state == AfterComma
  }

  /** Only the root may be implied. */
  ghost predicate RootOnly(below: seq<Frame>, top: Frame) {
    (below != [] ==> !top.implied) && forall i :: 0 < i < |below| ==> !below[i].implied
  }

  lemma {:induction false} CheckMoves(below: seq<Frame>, top: Frame, ts: seq<Token>)
    requires Stream(ts) && !Final(ts[0]) && Move(below, top, ts[0]).Moved?
    ensures |ts| > 1 && Stream(ts[1..]) && Check(below + [top], ts) == Check(Move(below, top, ts[0]).frames, ts[1..])
  {
    StreamTail(ts);
    Ends(below, top);
  }

  lemma {:induction false} CheckStops(below: seq<Frame>, top: Frame, ts: seq<Token>)
    requires Stream(ts) && !ts[0].Bad? && Move(below, top, ts[0]).Stopped?
    ensures Check(below + [top], ts) == Refused(Move(below, top, ts[0]).reason)
  {
    Ends(below, top);
  }

  /** The end closes a frame and stays in place. */
  lemma {:induction false} CheckEnds(below: seq<Frame>, top: Frame, ts: seq<Token>)
    requires Stream(ts) && !ts[0].Bad? && ts[0].kind == End && Move(below, top, ts[0]).Moved?
    ensures Check(below + [top], ts) == Check(below, ts)
  {
    Ends(below, top);
  }

  lemma {:induction false} ReadValue(below: seq<Frame>, top: Frame, ts: seq<Token>) returns (x: Syntax, rest: seq<Token>)
    requires Stream(ts) && RootOnly(below, top) && AwaitsValue(top) && !ts[0].Bad? && !Closing(ts[0].kind)
    requires Check(below + [top], ts) == Accepted
    ensures Proper(x) && ts == Flatten(x) + rest && Stream(rest) && |rest| < |ts|
    ensures Check(below + [top.(state := Separated)], rest) == Accepted
    decreases |ts|, 0
  {
    hide Check, Stream;
    AcceptedNotBad(below, top, ts);
    var top' := top.(state := Separated);
    if Move(below, top, ts[0]).Stopped? { CheckStops(below, top, ts); }
    CheckMoves(below, top, ts);
    var t := ts[0];
    if Opens(t.kind) {
      var inner := Frame(t.kind == ObjectBegin, false, First);
      InnerRootOnly(below, top', inner);
      var items, trailing, rest' := ReadItems(below + [top'], inner, ts[1..]);
      x := Group(inner.isObject, items, trailing && items != []);
      BodyTrailing(items, trailing);
      MarkOf(ts);
      MarkOf(rest');
      StreamTail(rest');
      rest := rest'[1..];
      assert ts == [t] + ts[1..];
      assert rest' == [rest'[0]] + rest;
    } else {
      x := Leaf(t);
      rest := ts[1..];
    }
  }

  lemma InnerRootOnly(below: seq<Frame>, top: Frame, inner: Frame)
    requires RootOnly(below, top) && !inner.implied
    ensures RootOnly(below + [top], inner)
  {
  }

  lemma MarkOf(ts: seq<Token>)
    requires Stream(ts) && !ts[0].Bad? && !IsName(ts[0].kind)
    ensures ts[0] == Mark(ts[0].kind)
  {
    assert Canonical(ts[0]);
  }

  lemma BodyTrailing(items: seq<Item>, trailing: bool)
    ensures Body(items, trailing && items != []) == Body(items, trailing)
  {
  }

  lemma {:induction false} BodyParts(items: seq<Item>, trailing: bool)
    requires items != []
    ensures Body(items, trailing) ==
      if |items| > 1 || trailing then FlatItem(items[0]) + [Mark(Comma)] + Body(items[1..], trailing) else FlatItem(items[0])
  {
    assert |items| == 1 && !trailing ==> Body(items[1..], trailing) == [];
  }

  lemma {:induction false} BodyNone(trailing: bool)
    ensures Body([], trailing) == []
  {
  }

  /** The items up to the token that closes the frame. */
  lemma {:induction false} ReadItems(below: seq<Frame>, top: Frame, ts: seq<Token>) returns (items: seq<Item>, trailing: bool, rest: seq<Token>)
    requires Stream(ts) && RootOnly(below, top) && AwaitsItem(top) && Check(below + [top], ts) == Accepted
    ensures forall i :: 0 <= i < |items| ==> ProperItem(items[i], top.isObject)
    ensures Stream(rest) && |rest| <= |ts| && !rest[0].Bad? && Closing(rest[0].kind) && Closes(top, rest[0].kind)
    ensures ts == Body(items, trailing) + rest && (items == [] ==> trailing == top.state.AfterComma?)
    ensures if top.implied then rest == [Mark(End)] else !Final(rest[0]) && |rest| > 1 && Stream(rest[1..]) && Check(below, rest[1..]) == Accepted
    decreases |ts|, 2
  {
    hide Stream, Check, Body, FlatItem, ProperItem;
    AcceptedNotBad(below, top, ts);
    if Closing(ts[0].kind) {
      items, trailing, rest := [], top.state.AfterComma?, ts;
      BodyNone(trailing);
      ReadClose(below, top, ts);
    } else {
      var item, after := ReadItem(below, top, ts);
      var top' := top.(state := Separated);
      AcceptedNotBad(below, top', after);
      if Closing(after[0].kind) {
        items, trailing, rest := [item], false, after;
        ReadClose(below, top', after);
        BodyParts(items, trailing);
      } else {
        if Move(below, top', after[0]).Stopped? { CheckStops(below, top', after); }
        CheckMoves(below, top', after);
        MarkOf(after);
        var items';
        items', trailing, rest := ReadItems(below, top'.(state := AfterComma), after[1..]);
        items := [item] + items';
        assert items[1..] == items';
        BodyParts(items, trailing);
        assert after == [after[0]] + after[1..];
      }
    }
  }

  lemma {:induction false} AcceptedNotBad(below: seq<Frame>, top: Frame, ts: seq<Token>)
    requires Stream(ts) && Check(below + [top], ts) == Accepted
    ensures |ts| > 0 && !ts[0].Bad?
  {
  }

  lemma {:induction false} ReadClose(below: seq<Frame>, top: Frame, ts: seq<Token>)
    requires Stream(ts) && RootOnly(below, top) && Check(below + [top], ts) == Accepted && !ts[0].Bad? && Closing(ts[0].kind)
    ensures Closes(top, ts[0].kind)
    ensures if top.implied then ts == [Mark(End)] else !Final(ts[0]) && |ts| > 1 && Stream(ts[1..]) && Check(below, ts[1..]) == Accepted
  {
    Ends(below, top);
    if Move(below, top, ts[0]).Stopped? { CheckStops(below, top, ts); }
    if top.implied {
      StreamEnd(ts);
      MarkOf(ts);
    } else {
      CheckMoves(below, top, ts);
    }
  }

  lemma ReadItem(below: seq<Frame>, top: Frame, ts: seq<Token>) returns (item: Item, rest: seq<Token>)
    requires Stream(ts) && RootOnly(below, top) && AwaitsItem(top) && !ts[0].Bad? && !Closing(ts[0].kind)
    requires Check(below + [top], ts) == Accepted
    ensures ProperItem(item, top.isObject) && ts == FlatItem(item) + rest && Stream(rest) && |rest| < |ts|
    ensures Check(below + [top.(state := Separated)], rest) == Accepted
    decreases |ts|, 1
  {
    hide Stream, Check, Move;
    AcceptedNotBad(below, top, ts);
    var x;
    if top.isObject {
      MemberName(below, top, ts);
      MemberColon(below, top.(state := NeedColon), ts[1..]);
      x, rest := ReadValue(below, top.(state := NeedValue), ts[1..][1..]);
      item := Member(ts[0], x);
      assert ts == [ts[0]] + ([ts[1]] + ts[1..][1..]);
    } else {
      x, rest := ReadValue(below, top, ts);
      item := Element(x);
    }
  }

  /** An accepted member begins with a name without line breaks. */
  lemma {:induction false} MemberName(below: seq<Frame>, top: Frame, ts: seq<Token>)
    requires Stream(ts) && top.isObject && AwaitsItem(top) && !ts[0].Bad? && !Closing(ts[0].kind)
    requires Check(below + [top], ts) == Accepted
    ensures IsName(ts[0].kind) && !ts[0].broken
    ensures |ts| > 1 && Stream(ts[1..]) && Check(below + [top.(state := NeedColon)], ts[1..]) == Accepted
  {
    hide Stream, Check;
    AcceptedNotBad(below, top, ts);
    if Move(below, top, ts[0]).Stopped? { CheckStops(below, top, ts); }
    CheckMoves(below, top, ts);
  }

  /** After the name of an accepted member come a colon and a value. */
  lemma {:induction false} MemberColon(below: seq<Frame>, top: Frame, ts: seq<Token>)
    requires Stream(ts) && top.isObject && top.state == NeedColon && Check(below + [top], ts) == Accepted
    ensures ts[0] == Mark(Colon) && |ts| > 1 && Stream(ts[1..]) && !ts[1].Bad? && !Closing(ts[1].kind)
    ensures Check(below + [top.(state := NeedValue)], ts[1..]) == Accepted
  {
    hide Stream, Check;
    AcceptedNotBad(below, top, ts);
    if Closing(ts[0].kind) { NoClose(below, top, ts); }
    if Move(below, top, ts[0]).Stopped? { CheckStops(below, top, ts); }
    CheckMoves(below, top, ts);
    MarkOf(ts);
    var valued := top.(state := NeedValue);
    AcceptedNotBad(below, valued, ts[1..]);
    if Closing(ts[1..][0].kind) { NoClose(below, valued, ts[1..]); }
  }

  lemma {:induction false} NoClose(below: seq<Frame>, top: Frame, ts: seq<Token>)
    requires Stream(ts) && !ts[0].Bad? && Closing(ts[0].kind) && (top.state == NeedColon || top.state == NeedValue)
    ensures Check(below + [top], ts) != Accepted
  {
    CheckStops(below, top, ts);
  }

  /** What the structure check accepts is a text of the grammar. */
  lemma AcceptedIsText(ts: seq<Token>) returns (d: Text)
    requires Stream(ts) && CheckDocument(ts) == Accepted
    ensures IsText(d) && TextTokens(d) == ts
  {
    var root := SelectRoot(ts);
    var top := Frame(root.isObject, root.implied, First);
    assert [] + [top] == [top];
    if root.implied {
      d := ReadImplied(top, ts);
    } else {
      StreamTail(ts);
      d := ReadExplicit(top, ts);
    }
  }

  lemma ReadImplied(top: Frame, ts: seq<Token>) returns (d: Text)
    requires Stream(ts) && top.implied && AwaitsItem(top) && Check([] + [top], ts) == Accepted
    ensures d.implied && d.isObject == top.isObject && TextTokens(d) == ts
    ensures forall i :: 0 <= i < |d.items| ==> ProperItem(d.items[i], d.isObject)
  {
    hide Stream, Check, Body, Proper;
    var items, trailing, rest := ReadItems([], top, ts);
    d := Text(top.isObject, true, items, trailing);
  }

  lemma ReadExplicit(top: Frame, ts: seq<Token>) returns (d: Text)
    requires Stream(ts) && !ts[0].Bad? && ts[0].kind == (if top.isObject then ObjectBegin else ArrayBegin) && |ts| > 1 && Stream(ts[1..])
    requires !top.implied && AwaitsItem(top) && Check([] + [top], ts[1..]) == Accepted
    ensures !d.implied && d.isObject == top.isObject && TextTokens(d) == ts
    ensures forall i :: 0 <= i < |d.items| ==> ProperItem(d.items[i], d.isObject)
  {
    hide Stream, Check, Body, Proper;
    MarkOf(ts);
    var items, trailing, rest := ReadItems([], top, ts[1..]);
    d := Text(top.isObject, false, items, trailing);
    AfterRoot(rest[1..]);
    MarkOf(rest);
    assert ts == [ts[0]] + ts[1..];
    assert rest == [rest[0]] + rest[1..];
  }

  lemma {:induction false} AfterRoot(ts: seq<Token>)
    requires Stream(ts) && Check([], ts) == Accepted
    ensures ts == [Mark(End)]
  {
    StreamEnd(ts);
    MarkOf(ts);
  }

  // ---------------------------------------------------------------------
  // What belongs to the grammar is accepted

  /** Proper syntax in front of a stream makes a stream. */
  lemma StreamJoin(ts: seq<Token>, rest: seq<Token>)
    requires Stream(rest) && forall i :: 0 <= i < |ts| ==> !Final(ts[i]) && Canonical(ts[i])
    ensures Stream(ts + rest)
  {
  }

  ghost predicate Inner(ts: seq<Token>) {
    forall i :: 0 <= i < |ts| ==> !Final(ts[i]) && Canonical(ts[i])
  }

  lemma {:induction false} FlattenInner(x: Syntax)
    requires Proper(x)
    ensures Inner(Flatten(x))
    decreases x, 0
  {
    if x.Group? { BodyInner(x.items, x.trailing, x.isObject); }
  }

  lemma {:induction false} BodyInner(items: seq<Item>, trailing: bool, isObject: bool)
    requires forall i :: 0 <= i < |items| ==> ProperItem(items[i], isObject)
    ensures Inner(Body(items, trailing))
    decreases items, 0
  {
    if items != [] {
      ItemInner(items[0], isObject);
      BodyInner(items[1..], trailing, isObject);
    }
  }

  lemma {:induction false} ItemInner(item: Item, isObject: bool)
    requires ProperItem(item, isObject)
    ensures Inner(FlatItem(item))
    decreases item, 1
  {
    FlattenInner(item.value);
  }

  /** A value in value position leaves the machine past it. */
  lemma {:induction false} RunValue(below: seq<Frame>, top: Frame, x: Syntax, rest: seq<Token>)
    requires Proper(x) && AwaitsValue(top) && Stream(rest)
    ensures Stream(Flatten(x) + rest) && Check(below + [top], Flatten(x) + rest) == Check(below + [top.(state := Separated)], rest)
    decreases x, 0
  {
    hide Check, Stream, Flatten;
    FlattenInner(x);
    StreamJoin(Flatten(x), rest);
    var ts := Flatten(x) + rest;
    if x.Group? {
      hide Proper, Move;
      GroupTokens(x, rest);
      var inner, close := Frame(x.isObject, false, First), [Mark(CloseOf(x.isObject))] + rest;
      var below' := below + [top.(state := Separated)];
      StreamJoin([Mark(CloseOf(x.isObject))], rest);
      ProperItems(x);
      RunBody(below', inner, x.items, x.trailing, close);
      RunOpen(below, top, x.isObject, Body(x.items, x.trailing) + close);
      RunClose(below', inner.(state := StateAfter(inner, x.items, x.trailing)), rest);
    } else {
      LeafTokens(x, rest);
      CheckMoves(below, top, ts);
    }
  }

  lemma {:induction false} ProperItems(x: Syntax)
    requires Proper(x) && x.Group?
    ensures forall i :: 0 <= i < |x.items| ==> ProperItem(x.items[i], x.isObject)
  {
  }

  lemma {:induction false} GroupTokens(x: Syntax, rest: seq<Token>)
    requires x.Group?
    ensures Flatten(x) + rest == [OpenMark(x.isObject)] + (Body(x.items, x.trailing) + ([Mark(CloseOf(x.isObject))] + rest))
  {
    var open, body, close := [OpenMark(x.isObject)], Body(x.items, x.trailing), [Mark(CloseOf(x.isObject))];
    assert open + body + close + rest == open + (body + (close + rest));
  }

  function OpenMark(isObject: bool): Token {
    Mark(if isObject then ObjectBegin else ArrayBegin)
  }

  lemma {:induction false} LeafTokens(x: Syntax, rest: seq<Token>)
    requires x.Leaf?
    ensures (Flatten(x) + rest)[0] == x.word && (Flatten(x) + rest)[1..] == rest
  {
  }

  lemma {:induction false} RunOpen(below: seq<Frame>, top: Frame, isObject: bool, rest: seq<Token>)
    requires AwaitsValue(top) && Stream(rest) && Stream([OpenMark(isObject)] + rest)
    ensures Check(below + [top], [OpenMark(isObject)] + rest) == Check(below + [top.(state := Separated)] + [Frame(isObject, false, First)], rest)
  {
    hide Check, Stream;
    var ts := [OpenMark(isObject)] + rest;
    assert ts[0] == OpenMark(isObject) && ts[1..] == rest;
    CheckMoves(below, top, ts);
  }

  lemma {:induction false} RunClose(below: seq<Frame>, top: Frame, rest: seq<Token>)
    requires Stream(rest) && Stream([Mark(CloseOf(top.isObject))] + rest) && !top.implied && top.state != NeedColon && top.state != NeedValue
    ensures Check(below + [top], [Mark(CloseOf(top.isObject))] + rest) == Check(below, rest)
  {
    hide Check, Stream;
    var ts := [Mark(CloseOf(top.isObject))] + rest;
    assert ts[0] == Mark(CloseOf(top.isObject)) && ts[1..] == rest;
    CheckMoves(below, top, ts);
  }

  function StateAfter(top: Frame, items: seq<Item>, trailing: bool): State {
    if items == [] then top.state else if trailing then AfterComma else Separated
  }

  lemma {:induction false} RunBody(below: seq<Frame>, top: Frame, items: seq<Item>, trailing: bool, rest: seq<Token>)
    requires AwaitsItem(top) && Stream(rest) && forall i :: 0 <= i < |items| ==> ProperItem(items[i], top.isObject)
    ensures Stream(Body(items, trailing) + rest)
    ensures Check(below + [top], Body(items, trailing) + rest) == Check(below + [top.(state := StateAfter(top, items, trailing))], rest)
    decreases items, 0
  {
    hide Check, Stream, ProperItem, Body, FlatItem;
    if items == [] {
      BodyNone(trailing);
      assert [] + rest == rest;
    } else {
      BodyParts(items, trailing);
      if |items| > 1 || trailing {
        var top' := top.(state := AfterComma);
        RunBody(below, top', items[1..], trailing, rest);
        RunComma(below, top.(state := Separated), Body(items[1..], trailing) + rest);
        RunItem(below, top, items[0], [Mark(Comma)] + (Body(items[1..], trailing) + rest));
        assert FlatItem(items[0]) + [Mark(Comma)] + Body(items[1..], trailing) + rest
            == FlatItem(items[0]) + ([Mark(Comma)] + (Body(items[1..], trailing) + rest));
      } else {
        RunItem(below, top, items[0], rest);
      }
    }
  }

  lemma {:induction false} RunComma(below: seq<Frame>, top: Frame, rest: seq<Token>)
    requires Stream(rest) && top.state == Separated
    ensures Stream([Mark(Comma)] + rest) && Check(below + [top], [Mark(Comma)] + rest) == Check(below + [top.(state := AfterComma)], rest)
  {
    hide Check, Stream;
    StreamJoin([Mark(Comma)], rest);
    var ts := [Mark(Comma)] + rest;
    CheckMoves(below, top, ts);
    assert ts[1..] == rest;
  }

  lemma {:induction false} RunItem(below: seq<Frame>, top: Frame, item: Item, rest: seq<Token>)
    requires AwaitsItem(top) && Stream(rest) && ProperItem(item, top.isObject)
    ensures Stream(FlatItem(item) + rest)
    ensures Check(below + [top], FlatItem(item) + rest) == Check(below + [top.(state := Separated)], rest)
    decreases item, 1
  {
    hide Check, Stream;
    if item.Element? {
      RunValue(below, top, item.value, rest);
    } else {
      var named, valued := top.(state := NeedColon), top.(state := NeedValue);
      RunValue(below, valued, item.value, rest);
      var value := Flatten(item.value) + rest;
      var colon := [Mark(Colon)] + value;
      StreamJoin([Mark(Colon)], value);
      var all := [item.name] + colon;
      StreamJoin([item.name], colon);
      assert FlatItem(item) + rest == all;
      CheckMoves(below, top, all);
      assert all[1..] == colon;
      CheckMoves(below, named, colon);
      assert colon[1..] == value;
    }
  }

  lemma EndStream()
    ensures Stream([Mark(End)])
  {
  }

  /** A text of the grammar is accepted. */
  lemma TextAccepted(d: Text)
    requires IsText(d)
    ensures Stream(TextTokens(d)) && CheckDocument(TextTokens(d)) == Accepted
  {
    hide Stream, Check, Body, Flatten;
    EndStream();
    if d.implied { ImpliedAccepted(d); } else { ExplicitAccepted(d); }
  }

  lemma ImpliedAccepted(d: Text)
    requires IsText(d) && d.implied
    ensures Stream(TextTokens(d)) && CheckDocument(TextTokens(d)) == Accepted
  {
    hide Stream, Check, Body, Flatten, SelectRoot, ProperItem;
    var top, end := Frame(d.isObject, true, First), [Mark(End)];
    EndStream();
    RunBody([], top, d.items, d.trailing, end);
    assert [] + [top] == [top];
    FirstNotBad(d);
    ClosesImplied(top, d, end);
  }

  lemma ExplicitAccepted(d: Text)
    requires IsText(d) && !d.implied
    ensures Stream(TextTokens(d)) && CheckDocument(TextTokens(d)) == Accepted
  {
    hide Stream, Check, Body, SelectRoot, ProperItem;
    var top, end := Frame(d.isObject, false, First), [Mark(End)];
    EndStream();
    var close := [Mark(CloseOf(d.isObject))] + end;
    StreamJoin([Mark(CloseOf(d.isObject))], end);
    RunBody([], top, d.items, d.trailing, close);
    var body := Body(d.items, d.trailing) + close;
    var open := [Mark(if d.isObject then ObjectBegin else ArrayBegin)];
    StreamJoin(open, body);
    assert TextTokens(d) == open + body;
    assert (open + body)[1..] == body;
    assert [] + [top] == [top];
    ClosesExplicit(top, d, close);
  }

  lemma FirstNotBad(d: Text)
    requires Stream(TextTokens(d)) && d.implied && forall i :: 0 <= i < |d.items| ==> ProperItem(d.items[i], d.isObject)
    ensures !TextTokens(d)[0].Bad?
  {
    BodyInner(d.items, d.trailing, d.isObject);
  }

  lemma {:induction false} ClosesImplied(top: Frame, d: Text, end: seq<Token>)
    requires end == [Mark(End)] && top == Frame(d.isObject, true, First) && Stream(end)
    ensures Check([] + [top.(state := StateAfter(top, d.items, d.trailing))], end) == Accepted
  {
    var top' := top.(state := StateAfter(top, d.items, d.trailing));
    Ends<Frame>([], top');
  }

  lemma {:induction false} ClosesExplicit(top: Frame, d: Text, close: seq<Token>)
    requires close == [Mark(CloseOf(d.isObject)), Mark(End)] && top == Frame(d.isObject, false, First) && Stream(close)
    ensures Check([] + [top.(state := StateAfter(top, d.items, d.trailing))], close) == Accepted
  {
    var top' := top.(state := StateAfter(top, d.items, d.trailing));
    CheckMoves([], top', close);
    assert close[1..] == [Mark(End)];
  }

  /** The structure check accepts exactly the texts of the grammar. */
  lemma AcceptedExactly(ts: seq<Token>)
    requires Stream(ts)
    ensures CheckDocument(ts) == Accepted <==> exists d :: IsText(d) && TextTokens(d) == ts
  {
    if CheckDocument(ts) == Accepted { var d := AcceptedIsText(ts); }
    if d :| IsText(d) && TextTokens(d) == ts { TextAccepted(d); }
  }
}
