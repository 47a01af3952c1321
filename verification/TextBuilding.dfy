/**
 The construction of a document from tokens that passed the structure check
 (core/data_model/document_parser.cpp, CParser): a second machine, which trusts
 the first and keeps no grammar state of its own.
 */
module TextBuilding {
  import opened TextLex
  import opened TextGrammar
  import opened TextValues

  /** A container under construction, with the name that its value will carry. */
  datatype Open = Open(isObject: bool, named: bool, name: string, entries: seq<Entry>)

  function Receive(top: Open, e: Entry): Open {
    top.(entries := Place(top.isObject, top.entries, e))
  }

  /** Closes the container at the top into the one below it. */
  function Complete(below: Open, top: Open): Open {
    Receive(below, Unwrap(below.isObject, Entry(top.named, top.name, Container(top.isObject, top.entries))))
  }

  /** The stack, or the finished root, or a failure. */
  datatype Progress = Going(frames: seq<Open>) | Rooted(root: Value) | Halted(reason: Reason)

  /** Takes the value token `t` for an entry of the top container. */
  function Create(read: Reader, frames: seq<Open>, name: string, t: Token): Progress
    requires frames != []
  {
    if t.Bad? then Halted(InternalError)
    else
      var top := Last(frames);
      if Opens(t.kind) then Going(frames + [Open(t.kind == ObjectBegin, top.isObject, name, [])])
      else
        var outcome := ScalarOf(read, t);
        if outcome.Failed? then Halted(outcome.reason)
        else Going(Front(frames) + [Receive(top, Entry(top.isObject, name, outcome.value))])
  }

  /** Closes the top container, which may be the root. */
  function Close(frames: seq<Open>): Progress
    requires frames != []
  {
    var top := Last(frames);
    if |frames| == 1 then Rooted(Container(top.isObject, top.entries))
    else
      var below := Front(frames);
      Going(Front(below) + [Complete(Last(below), top)])
  }

  /** The result of building from the tokens left. */
  ghost function Build(read: Reader, implied: bool, frames: seq<Open>, ts: seq<Token>): Outcome
    requires frames != [] && Stream(ts)
    decreases |ts|
  {
    var t := ts[0];
    if t.Bad? then Failed(InternalError)
    else if t.kind == End then
      if implied && |frames| == 1 then Built(Container(frames[0].isObject, frames[0].entries)) else Failed(InternalError)
    else
      StreamTail(ts);
      var rest := ts[1..];
      if t.kind == ObjectEnd || t.kind == ArrayEnd then
        var p := Close(frames);
        if p.Going? then Build(read, implied, p.frames, rest)
        else if !implied && p.Rooted? && rest[0] == Mark(End) then Built(p.root)
        else Failed(InternalError)
      else if t.kind == Comma then Build(read, implied, frames, rest)
      else if !Last(frames).isObject then BuildValue(read, implied, frames, "", ts)
      else if TextOf(t).Undecodable? || rest[0].Bad? || rest[0].kind != Colon then Failed(InternalError)
      else
        StreamTail(rest);
        BuildValue(read, implied, frames, TextOf(t).chars, rest[1..])
  }

  ghost function BuildValue(read: Reader, implied: bool, frames: seq<Open>, name: string, ts: seq<Token>): Outcome
    requires frames != [] && Stream(ts)
    decreases |ts|, 0
  {
    var p := Create(read, frames, name, ts[0]);
    if p.Halted? then Failed(p.reason)
    else if p.Rooted? || Final(ts[0]) then Failed(InternalError)
    else
      StreamTail(ts);
      Build(read, implied, p.frames, ts[1..])
  }

  ghost function BuildDocument(read: Reader, ts: seq<Token>): Outcome
    requires Stream(ts)
  {
    if ts[0].Bad? then Failed(InternalError)
    else
      var root := SelectRoot(ts);
      var frames := [Open(root.isObject, false, "", [])];
      if root.implied then Build(read, true, frames, ts)
      else
        StreamTail(ts);
        Build(read, false, frames, ts[1..])
  }

  // ---------------------------------------------------------------------
  // The machine builds what the grammar means

  lemma {:induction false} BuildClose(read: Reader, implied: bool, below: seq<Open>, under: Open, top: Open, ts: seq<Token>)
    requires Stream(ts) && !ts[0].Bad? && (ts[0].kind == ObjectEnd || ts[0].kind == ArrayEnd)
    ensures |ts| > 1 && Stream(ts[1..])
    ensures Build(read, implied, below + [under] + [top], ts) == Build(read, implied, below + [Complete(under, top)], ts[1..])
  {
    StreamTail(ts);
    Ends(below + [under], top);
    Ends(below, under);
  }

  lemma {:induction false} BuildComma(read: Reader, implied: bool, frames: seq<Open>, rest: seq<Token>)
    requires frames != [] && Stream(rest)
    ensures Stream([Mark(Comma)] + rest) && Build(read, implied, frames, [Mark(Comma)] + rest) == Build(read, implied, frames, rest)
  {
    StreamJoin([Mark(Comma)], rest);
    assert ([Mark(Comma)] + rest)[1..] == rest;
  }

  /** The result of building on after an item with this outcome. */
  ghost function Onward(read: Reader, implied: bool, below: seq<Open>, top: Open, listing: Listing, rest: seq<Token>): Outcome
    requires Stream(rest)
  {
    if listing.Unlisted? then Failed(listing.reason) else Build(read, implied, below + [top.(entries := listing.entries)], rest)
  }

  ghost function OnwardValue(read: Reader, implied: bool, below: seq<Open>, top: Open, name: string, outcome: Outcome, rest: seq<Token>): Outcome
    requires Stream(rest)
  {
    if outcome.Failed? then Failed(outcome.reason)
    else Build(read, implied, below + [Receive(top, Unwrap(top.isObject, Entry(top.isObject, name, outcome.value)))], rest)
  }

  lemma {:induction false} RunBuildValue(read: Reader, implied: bool, below: seq<Open>, top: Open, name: string, x: Syntax, rest: seq<Token>)
    requires Proper(x) && Stream(rest)
    ensures Stream(Flatten(x) + rest)
    ensures BuildValue(read, implied, below + [top], name, Flatten(x) + rest)
         == OnwardValue(read, implied, below, top, name, Denote(read, x), rest)
    decreases x, 0
  {
    hide Stream, Build, Place, Unwrap;
    FlattenInner(x);
    StreamJoin(Flatten(x), rest);
    var ts := Flatten(x) + rest;
    assert ts[0] == Flatten(x)[0];
    Ends(below, top);
    if x.Leaf? {
      ScalarUnwraps(read, x.word, top.isObject, name);
      assert ts[1..] == rest;
    } else {
      RunBuildGroup(read, implied, below, top, name, x, rest);
    }
  }

  lemma ScalarUnwraps(read: Reader, t: Token, isObject: bool, name: string)
    requires !t.Bad? && IsName(t.kind)
    ensures var outcome := ScalarOf(read, t);
      !Opens(t.kind) && !Final(t) && (outcome.Built? ==> var e := Entry(isObject, name, outcome.value); Unwrap(isObject, e) == e)
  {
  }

  lemma {:induction false} RunBuildGroup(read: Reader, implied: bool, below: seq<Open>, top: Open, name: string, x: Syntax, rest: seq<Token>)
    requires Proper(x) && x.Group? && Stream(rest) && Stream(Flatten(x) + rest)
    ensures BuildValue(read, implied, below + [top], name, Flatten(x) + rest)
         == OnwardValue(read, implied, below, top, name, Denote(read, x), rest)
    decreases x.items, 1
  {
    hide Stream, Build, Place, Unwrap, Body, ProperItem, DenoteItems;
    var open, close := Mark(if x.isObject then ObjectBegin else ArrayBegin), Mark(CloseOf(x.isObject));
    var inner := Open(x.isObject, top.isObject, name, []);
    var after := [close] + rest;
    StreamJoin([close], rest);
    var ts := Flatten(x) + rest;
    assert ts == [open] + (Body(x.items, x.trailing) + after);
    assert ts[1..] == Body(x.items, x.trailing) + after;
    Ends(below, top);
    RunBuildBody(read, implied, below + [top], inner, x.items, x.trailing, after);
    var listing := DenoteItems(read, x.isObject, x.items, []);
    if listing.Listed? {
      var inner' := inner.(entries := listing.entries);
      BuildClose(read, implied, below, top, inner', after);
      assert after[1..] == rest;
    }
  }

  lemma {:induction false} RunBuildBody(read: Reader, implied: bool, below: seq<Open>, top: Open, items: seq<Item>, trailing: bool, rest: seq<Token>)
    requires Stream(rest) && forall i :: 0 <= i < |items| ==> ProperItem(items[i], top.isObject)
    ensures Stream(Body(items, trailing) + rest)
    ensures Build(read, implied, below + [top], Body(items, trailing) + rest)
         == Onward(read, implied, below, top, DenoteItems(read, top.isObject, items, top.entries), rest)
    decreases items, 0
  {
    hide Stream, Build, ProperItem, Body, FlatItem, DenoteItem, Inner;
    if items == [] {
      BodyNone(trailing);
      assert [] + rest == rest;
      assert top.(entries := top.entries) == top;
    } else {
      BodyInner(items[1..], trailing, top.isObject);
      StreamJoin(Body(items[1..], trailing), rest);
      var more := Body(items[1..], trailing) + rest;
      BodyParts(items, trailing);
      var listing := DenoteItem(read, top.isObject, items[0], top.entries);
      if |items| > 1 || trailing {
        BuildComma(read, implied, below + [top], more);
        var tail := [Mark(Comma)] + more;
        assert Body(items, trailing) + rest == FlatItem(items[0]) + tail;
        RunBuildItem(read, implied, below, top, items[0], tail);
        if listing.Listed? {
          var top' := top.(entries := listing.entries);
          BuildComma(read, implied, below + [top'], more);
          RunBuildBody(read, implied, below, top', items[1..], trailing, rest);
        }
      } else {
        RunBuildItem(read, implied, below, top, items[0], rest);
        NoMore(read, top.isObject, listing);
      }
    }
  }

  lemma {:induction false} NoMore(read: Reader, isObject: bool, listing: Listing)
    ensures listing.Listed? ==> DenoteItems(read, isObject, [], listing.entries) == listing
  {
  }

  lemma {:induction false} RunBuildItem(read: Reader, implied: bool, below: seq<Open>, top: Open, item: Item, rest: seq<Token>)
    requires Stream(rest) && ProperItem(item, top.isObject)
    ensures Stream(FlatItem(item) + rest)
    ensures Build(read, implied, below + [top], FlatItem(item) + rest)
         == Onward(read, implied, below, top, DenoteItem(read, top.isObject, item, top.entries), rest)
    decreases item, 1
  {
    if item.Element? {
      RunBuildValue(read, implied, below, top, "", item.value, rest);
      BuildElement(read, implied, below, top, item.value, rest);
    } else {
      var value := Flatten(item.value) + rest;
      FlattenInner(item.value);
      StreamJoin(Flatten(item.value), rest);
      if TextOf(item.name).Decoded? {
        RunBuildValue(read, implied, below, top, TextOf(item.name).chars, item.value, rest);
      }
      BuildMember(read, implied, below, top, item.name, item.value, rest);
    }
  }

  /** An element goes straight to its value. */
  lemma {:induction false} BuildElement(read: Reader, implied: bool, below: seq<Open>, top: Open, x: Syntax, rest: seq<Token>)
    requires !top.isObject && Proper(x) && Stream(rest) && Stream(Flatten(x) + rest)
    ensures Build(read, implied, below + [top], Flatten(x) + rest) == BuildValue(read, implied, below + [top], "", Flatten(x) + rest)
  {
    hide Stream, BuildValue;
    Ends(below, top);
    StreamTailOf(x, rest);
  }

  lemma {:induction false} StreamTailOf(x: Syntax, rest: seq<Token>)
    requires Proper(x) && Stream(rest) && Stream(Flatten(x) + rest)
    ensures var t := (Flatten(x) + rest)[0]; !Final(t) && (Opens(t.kind) || IsName(t.kind))
  {
  }

  /** A member reads its name and its colon first. */
  lemma {:induction false} BuildMember(read: Reader, implied: bool, below: seq<Open>, top: Open, name: Token, x: Syntax, rest: seq<Token>)
    requires top.isObject && !name.Bad? && IsName(name.kind) && Proper(x) && Stream(rest) && Stream(Flatten(x) + rest)
    ensures var ts := FlatItem(Member(name, x)) + rest;
      && Stream(ts)
      && Build(read, implied, below + [top], ts) ==
         if TextOf(name).Undecodable? then Failed(InternalError)
         else BuildValue(read, implied, below + [top], TextOf(name).chars, Flatten(x) + rest)
  {
    hide Build, BuildValue, TextOf, Flatten, Proper, Stream;
    var value := Flatten(x) + rest;
    MemberTokens(name, x, rest);
    StreamJoin([Mark(Colon)], value);
    StreamJoin([name], [Mark(Colon)] + value);
    BuildNamed(read, implied, below, top, name, value);
  }

  lemma {:induction false} MemberTokens(name: Token, x: Syntax, rest: seq<Token>)
    ensures FlatItem(Member(name, x)) + rest == [name] + ([Mark(Colon)] + (Flatten(x) + rest))
  {
    hide Flatten;
    assert [name] + [Mark(Colon)] + Flatten(x) + rest == [name] + ([Mark(Colon)] + (Flatten(x) + rest));
  }

  /** The tokens of a member, past its name and its colon. */
  lemma {:induction false} BuildNamed(read: Reader, implied: bool, below: seq<Open>, top: Open, name: Token, value: seq<Token>)
    requires top.isObject && !name.Bad? && IsName(name.kind) && Stream(value) && Stream([Mark(Colon)] + value)
    requires Stream([name] + ([Mark(Colon)] + value))
    ensures Build(read, implied, below + [top], [name] + ([Mark(Colon)] + value)) ==
            if TextOf(name).Undecodable? then Failed(InternalError) else BuildValue(read, implied, below + [top], TextOf(name).chars, value)
  {
    hide BuildValue, TextOf, Stream;
    var colon := [Mark(Colon)] + value;
    var ts := [name] + colon;
    assert ts[0] == name && ts[1..] == colon && colon[0] == Mark(Colon) && colon[1..] == value;
    Ends(below, top);
  }

  /** Building from the tokens of a text gives what the text means. */
  lemma BuildsText(read: Reader, d: Text)
    requires IsText(d)
    ensures Stream(TextTokens(d)) && BuildDocument(read, TextTokens(d)) == DenoteText(read, d)
  {
    TextAccepted(d);
    if d.implied { BuildsImplied(read, d); } else { BuildsExplicit(read, d); }
  }

  lemma BuildsImplied(read: Reader, d: Text)
    requires IsText(d) && d.implied && Stream(TextTokens(d))
    ensures BuildDocument(read, TextTokens(d)) == DenoteText(read, d)
  {
    hide Stream, Body, SelectRoot, ProperItem, DenoteItems;
    var top, end := Open(d.isObject, false, "", []), [Mark(End)];
    EndStream();
    RunBuildBody(read, true, [], top, d.items, d.trailing, end);
    assert [] + [top] == [top];
    FirstNotBad(d);
    var listing := DenoteItems(read, d.isObject, d.items, []);
    if listing.Listed? { assert [] + [top.(entries := listing.entries)] == [top.(entries := listing.entries)]; }
  }

  lemma BuildsExplicit(read: Reader, d: Text)
    requires IsText(d) && !d.implied && Stream(TextTokens(d))
    ensures BuildDocument(read, TextTokens(d)) == DenoteText(read, d)
  {
    hide Stream, Body, SelectRoot, ProperItem, DenoteItems;
    var top, end := Open(d.isObject, false, "", []), [Mark(End)];
    EndStream();
    var close := [Mark(CloseOf(d.isObject))] + end;
    StreamJoin([Mark(CloseOf(d.isObject))], end);
    RunBuildBody(read, false, [], top, d.items, d.trailing, close);
    var body := Body(d.items, d.trailing) + close;
    var open := [Mark(if d.isObject then ObjectBegin else ArrayBegin)];
    assert TextTokens(d) == open + body;
    assert (open + body)[1..] == body;
    assert [] + [top] == [top];
    var listing := DenoteItems(read, d.isObject, d.items, []);
    if listing.Listed? {
      var top' := top.(entries := listing.entries);
      assert [] + [top'] == [top'];
      assert close[1..] == end;
      BuildsRoot(read, top', close);
    }
  }

  lemma {:induction false} BuildsRoot(read: Reader, top: Open, close: seq<Token>)
    requires Stream(close) && close == [Mark(CloseOf(top.isObject)), Mark(End)]
    ensures Build(read, false, [top], close) == Built(Container(top.isObject, top.entries))
  {
    assert close[1..] == [Mark(End)];
  }

  // ---------------------------------------------------------------------
  // The builder never finds what the structure check let through unusable

  ghost predicate Spelled(ts: seq<Token>) {
    forall i :: 0 <= i < |ts| ==> WellSpelled(ts[i])
  }

  lemma {:induction false} DenoteInternal(read: Reader, x: Syntax)
    requires Proper(x) && Spelled(Flatten(x))
    ensures Denote(read, x) != Failed(InternalError)
    decreases x, 0
  {
    hide TextOf, IntegerOf;
    if x.Group? {
      var ts := Flatten(x);
      SpelledPart(ts, 1, |ts| - 1);
      assert ts[1..|ts| - 1] == Body(x.items, x.trailing);
      DenoteItemsInternal(read, x.isObject, x.items, x.trailing, []);
    } else {
      assert WellSpelled(Flatten(x)[0]);
    }
  }

  lemma SpelledPart(ts: seq<Token>, i: nat, j: nat)
    requires Spelled(ts) && i <= j <= |ts|
    ensures Spelled(ts[i..j])
  {
  }

  lemma {:induction false} DenoteItemsInternal(read: Reader, isObject: bool, items: seq<Item>, trailing: bool, entries: seq<Entry>)
    requires (forall i :: 0 <= i < |items| ==> ProperItem(items[i], isObject)) && Spelled(Body(items, trailing))
    ensures DenoteItems(read, isObject, items, entries) != Unlisted(InternalError)
    decreases items, 0
  {
    hide TextOf, IntegerOf, Denote, WellSpelled;
    if items != [] {
      var ts, n := Body(items, trailing), |FlatItem(items[0])|;
      var m := |ts| - |Body(items[1..], trailing)|;
      SpelledPart(ts, 0, n);
      SpelledPart(ts, m, |ts|);
      assert ts[0..n] == FlatItem(items[0]);
      assert ts[m..|ts|] == Body(items[1..], trailing);
      DenoteItemInternal(read, isObject, items[0], entries);
      var listing := DenoteItem(read, isObject, items[0], entries);
      if listing.Listed? { DenoteItemsInternal(read, isObject, items[1..], trailing, listing.entries); }
    }
  }

  lemma {:induction false} DenoteItemInternal(read: Reader, isObject: bool, item: Item, entries: seq<Entry>)
    requires ProperItem(item, isObject) && Spelled(FlatItem(item))
    ensures DenoteItem(read, isObject, item, entries) != Unlisted(InternalError)
    decreases item, 1
  {
    hide IntegerOf;
    var ts := FlatItem(item);
    if item.Member? {
      assert WellSpelled(ts[0]);
      SpelledPart(ts, 2, |ts|);
      assert ts[2..|ts|] == Flatten(item.value);
    }
    DenoteInternal(read, item.value);
  }

  /** A text that the structure check accepts is built without an internal error, into what its grammar means. */
  lemma {:induction false} Lockstep(read: Reader, s: string)
    requires Stream(Tokens(s)) && CheckDocument(Tokens(s)) == Accepted
    ensures BuildDocument(read, Tokens(s)) != Failed(InternalError)
    ensures exists d :: IsText(d) && TextTokens(d) == Tokens(s) && BuildDocument(read, Tokens(s)) == DenoteText(read, d)
  {
    var ts := Tokens(s);
    var d := AcceptedIsText(ts);
    BuildsText(read, d);
    TokensSpelled(s);
    TextInternal(read, d);
  }

  lemma TextInternal(read: Reader, d: Text)
    requires IsText(d) && Spelled(TextTokens(d))
    ensures DenoteText(read, d) != Failed(InternalError)
  {
    hide WellSpelled, SelectRoot;
    var ts := TextTokens(d);
    if d.implied {
      SpelledPart(ts, 0, |ts| - 1);
      assert ts[0..|ts| - 1] == Body(d.items, d.trailing);
    } else {
      SpelledPart(ts, 1, |ts| - 2);
      assert ts[1..|ts| - 2] == Body(d.items, d.trailing);
    }
    DenoteItemsInternal(read, d.isObject, d.items, d.trailing, []);
  }
}
