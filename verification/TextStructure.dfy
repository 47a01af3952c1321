/**
 The structure check of document text (core/data_model/document_structure.cpp,
 CCheck): the pushdown machine over the scanner, frame by frame and token by
 token. Allocation may fail at every push.
 */
module TextStructure {
  import opened TextLex
  import opened TextGrammar
  import opened TextScanner
  import Requests

  datatype Report = Passed | Fails(reason: Reason)

  /** Failures that do not depend on the text. */
  predicate Resource(r: Reason) {
    r == AllocationFailed || r == StorageLimit || r == ConstructionFailed
  }

  /** A report on the text that agrees with a verdict; only where resources are not ample may it be a failure of them. */
  predicate Agrees(report: Report, verdict: Verdict, ample: bool) {
    match report
    case Passed => verdict == Accepted
    case Fails(reason) => Spent(reason, ample) || verdict == Refused(reason)
  }

  predicate Spent(r: Reason, ample: bool) {
    !ample && Resource(r)
  }

  /** Resources are ample when memory is granted whenever asked for and no stack that a text of this size needs is too deep. */
  predicate Ample(granted: bool, maxFrames: nat, size: nat) {
    granted && size + 2 <= maxFrames
  }

  /** A text has no more tokens than characters, and an end. */
  lemma {:induction false} TokensFew(s: string)
    ensures |Tokens(s)| <= |s| + 1
    decreases |s|
  {
    hide NextToken;
    var n := NextToken(s);
    if !Final(n.token) { TokensFew(n.rest); }
  }

  class StructureChecker {
    const scanner: Scanner
    const maxFrames: nat
    const granted: bool
    /** Resources are ample for the text. */
    ghost const ample: bool
    var token: Token
    var frames: seq<Frame>
    var report: Report

    ghost predicate Valid()
      reads this, scanner
    {
      scanner.Valid() && Canonical(token) && (token.Bad? ==> report.Fails?)
    }

    /** The tokens from the current one on. */
    ghost function Ahead(): (ts: seq<Token>)
      reads this, scanner
      requires Valid()
      ensures Stream(ts) && ts[0] == token
    {
      FromStream(token, scanner.Rest());
      From(token, scanner.Rest())
    }

    /** Where resources are ample, the stack can take the tokens that are left. */
    ghost predicate Fitting()
      reads this, scanner
      requires Valid()
    {
      ample ==> granted && |frames| + |Ahead()| <= maxFrames
    }

    ghost function Verdict(): Verdict
      reads this, scanner
      requires Valid()
    {
      Check(frames, Ahead())
    }

    constructor (source: string, maxFrames: nat, granted: bool)
      ensures this.granted == granted && ample == Ample(granted, maxFrames, |source|)
      ensures Valid() && fresh(scanner) && scanner.Rest() == source && report == Passed && token == Mark(End) && frames == []
      ensures this.maxFrames == maxFrames
    {
      scanner := new Scanner(source, 0);
      this.maxFrames, this.granted := maxFrames, granted;
      ample := Ample(granted, maxFrames, |source|);
      token, frames, report := Mark(End), [], Passed;
    }

    /** Records the first failure. */
    method Fail(reason: Reason)
      modifies `report
      ensures report == if old(report).Passed? then Fails(reason) else old(report)
    {
      if report.Passed? { report := Fails(reason); }
    }

    method Advance()
      requires scanner.Valid() && report.Passed?
      modifies `token, `report, scanner
      ensures Valid() && Ahead() == Tokens(old(scanner.Rest()))
      ensures report == if token.Bad? then Fails(token.reason) else Passed
    {
      FromNext(scanner.Rest());
      NextCanonical(scanner.Rest());
      token := scanner.Next();
      if token.Bad? { Fail(token.reason); }
    }

    lemma AheadTail()
      requires Valid() && !Final(token)
      ensures Ahead()[1..] == Tokens(scanner.Rest())
    {
    }

    method Push(isObject: bool, implied: bool)
      requires report.Passed? && (ample ==> granted && |frames| < maxFrames)
      modifies `frames, `report
      ensures report.Passed? ==> frames == old(frames) + [Frame(isObject, implied, First)]
      ensures report.Fails? ==> Spent(report.reason, ample)
    {
      if |frames| == maxFrames {
        Fail(StorageLimit);
        return;
      }
      var met := Requests.Ask(granted);
      if !met {
        Fail(AllocationFailed);
        return;
      }
      frames := frames + [Frame(isObject, implied, First)];
    }

    /** Goes on to the next token; a lexical error is the verdict. */
    method Turn(ghost goal: Verdict)
      requires Valid() && report.Passed? && !Final(token) && Stream(Ahead()[1..]) && Check(frames, Ahead()[1..]) == goal
      modifies `token, `report, scanner
      ensures Valid() && Ahead() == old(Ahead()[1..])
      ensures if report.Passed? then Verdict() == goal else goal == Refused(report.reason)
    {
      hide Stream, Tokens;
      AheadTail();
      Advance();
    }

    /** Takes the current token for a value of the top frame. */
    method Value()
      requires Valid() && Fitting() && report.Passed? && frames != [] && !Final(token)
      requires Move(Front(frames), Last(frames), token) == TakeValue(Front(frames), Last(frames), token.kind)
      modifies this, scanner
      ensures Valid() && (report.Passed? ==> Fitting())
      ensures report.Passed? ==> Verdict() == old(Verdict()) && Ahead() == old(Ahead()[1..])
      ensures report.Fails? ==> Spent(report.reason, ample) || old(Verdict()) == Refused(report.reason)
    {
      hide Check, Stream, Tokens;
      ghost var below, top, ts := Front(frames), Last(frames), Ahead();
      assert frames == below + [top];
      var previous := Last(frames).state;
      frames := Front(frames) + [Last(frames).(state := Separated)];
      if Opens(token.kind) {
        Push(token.kind == ObjectBegin, false);
        if report.Fails? { return; }
      } else if !IsName(token.kind) {
        CheckStops(below, top, ts);
        frames := Front(frames) + [Last(frames).(state := previous)];
        Fail(MissingValue);
        return;
      }
      CheckMoves(below, top, ts);
      Turn(old(Verdict()));
    }

    /** One turn of the machine. */
    method Step()
      requires Valid() && Fitting() && report.Passed? && frames != []
      modifies this, scanner
      ensures Valid() && (report.Passed? ==> Fitting())
      ensures report.Passed? ==> Verdict() == old(Verdict())
      ensures report.Passed? ==> |Ahead()| < |old(Ahead())| || (Ahead() == old(Ahead()) && |frames| < |old(frames)|)
      ensures report.Fails? ==> Spent(report.reason, ample) || old(Verdict()) == Refused(report.reason)
    {
      hide Check, Stream, Tokens;
      var frame := Last(frames);
      ghost var below, ts := Front(frames), Ahead();
      assert frames == below + [frame];
      if Move(below, frame, token).Stopped? { CheckStops(below, frame, ts); } else if token.kind != End { CheckMoves(below, frame, ts); }
      var end := token.kind == End;
      var closing := token.kind == ObjectEnd || token.kind == ArrayEnd;
      if end || closing {
        var matches := if frame.implied then end else token.kind == (if frame.isObject then ObjectEnd else ArrayEnd);
        if !matches {
          Fail(if end then UnexpectedEnd else MismatchedDelimiter);
          return;
        }
        if frame.state == NeedColon {
          Fail(MissingColon);
          return;
        }
        if frame.state == NeedValue {
          Fail(MissingValue);
          return;
        }
        frames := Front(frames);
        if end { CheckEnds(below, frame, ts); } else { Turn(old(Verdict())); }
        return;
      }
      match frame.state {
        case First | AfterComma =>
          if !frame.isObject {
            Value();
            return;
          }
          if !IsName(token.kind) {
            Fail(MissingName);
            return;
          }
          if token.broken {
            Fail(NewlineInName);
            return;
          }
          frames := Front(frames) + [frame.(state := NeedColon)];
          Turn(old(Verdict()));
        case NeedColon =>
          if token.kind != Colon {
            Fail(MissingColon);
            return;
          }
          frames := Front(frames) + [frame.(state := NeedValue)];
          Turn(old(Verdict()));
        case NeedValue =>
          Value();
        case Separated =>
          if token.kind != Comma {
            Fail(MissingSeparator);
            return;
          }
          frames := Front(frames) + [frame.(state := AfterComma)];
          Turn(old(Verdict()));
      }
    }

    /** Checks a whole text. */
    method Run()
      requires Valid() && report.Passed? && frames == [] && ample == Ample(granted, maxFrames, |scanner.Rest()|)
      modifies this, scanner
      ensures Stream(Tokens(old(scanner.Rest()))) && Agrees(report, CheckDocument(Tokens(old(scanner.Rest()))), ample)
    {
      hide Check, Tokens;
      ghost var all := Tokens(scanner.Rest());
      TokensStream(scanner.Rest());
      TokensFew(scanner.Rest());
      Advance();
      if report.Fails? { return; }
      var root := ChooseRoot(token, scanner);
      assert root == SelectRoot(all);
      Push(root.isObject, root.implied);
      if report.Fails? { return; }
      assert frames == [Frame(root.isObject, root.implied, First)];
      if !root.implied {
        StreamTail(all);
        Turn(CheckDocument(all));
      }
      Drain(CheckDocument(all));
    }

    /** Turns until nothing is left to close. */
    method Drain(ghost goal: Verdict)
      requires Valid() && (if report.Passed? then Fitting() && Verdict() == goal else goal == Refused(report.reason))
      modifies this, scanner
      ensures Valid() && Agrees(report, goal, ample)
    {
      hide Stream, Tokens, Check;
      while report.Passed? && frames != []
        invariant Valid()
        invariant if report.Passed? then Fitting() && Verdict() == goal else Spent(report.reason, ample) || goal == Refused(report.reason)
        decreases report.Passed?, |Ahead()|, |frames|
      {
        Step();
      }
      if report.Passed? {
        Settle();
        if token.kind != End { Fail(TrailingContent); }
      }
    }

    lemma Settle()
      requires Valid() && report.Passed? && frames == []
      ensures Verdict() == if token.kind == End then Accepted else Refused(TrailingContent)
    {
    }
  }

  /** Whether a text passes the structure check; with ample resources, exactly the texts of the grammar pass. */
  method CheckText(source: string, maxFrames: nat, granted: bool) returns (report: Report)
    ensures Stream(Tokens(source)) && Agrees(report, CheckDocument(Tokens(source)), Ample(granted, maxFrames, |source|))
    ensures report.Passed? ==> exists d :: IsText(d) && TextTokens(d) == Tokens(source)
    ensures report.Fails? && !Resource(report.reason) ==> !exists d :: IsText(d) && TextTokens(d) == Tokens(source)
    ensures Ample(granted, maxFrames, |source|) ==> (report.Passed? <==> exists d :: IsText(d) && TextTokens(d) == Tokens(source))
  {
    hide Check, Tokens, SelectRoot, IsText, CheckDocument;
    var checker := new StructureChecker(source, maxFrames, granted);
    checker.Run();
    report := checker.report;
    AcceptedExactly(Tokens(source));
  }
}
