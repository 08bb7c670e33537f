/** What a session's application hears of, over every run. */
module Hearing {
  import opened Ids
  import opened Time
  import opened Messages
  import opened Ledger
  import opened Session
  import opened SessionRuns
  import opened History
  import opened Doings
  import Registry
  import RegistryRuns
  import RmEngine
  import CemEngine

  // -------------------------------------------------------------------------
  // What the application hears of
  // -------------------------------------------------------------------------

  /** The instructions the application is given. */
  function InstructionsIn(events: seq<Event>): seq<Message> {
    if events == [] then []
    else
      InstructionsIn(events[..|events| - 1])
      + match events[|events| - 1] case Instructed(m) => [m] case _ => []
  }

  predicate IsArrival(event: Event) {
    event.ResourceDescribed? || event.DescriptionArrived? || event.StatusArrived? || event.Measured? || event.Forecast?
    || event.InstructionStatusChanged? || event.TimerReported?
  }

  /** What the application is told a resource said. */
  function ArrivalsIn(events: seq<Event>): seq<Event> {
    if events == [] then []
    else
      ArrivalsIn(events[..|events| - 1]) + if IsArrival(events[|events| - 1]) then [events[|events| - 1]] else []
  }

  /** The frame is a message the session takes up, and so answers `Ok` in its own name. */
  predicate IsTakenUp(s: Side, move: Move) {
    && move.Do? && move.i.FeedText? && !s.Engine().IsClosed() && IsLegible(s.Engine(), move.i.frame)
    && TakesUp(s.Engine(), move.i.frame.message, move.i.v)
  }

  /** The instructions a resource takes up along a run, and can explain. */
  function InstructionsTaken(l: Log, moves: seq<Move>): seq<Message> {
    if moves == [] then []
    else
      var n, s := |moves| - 1, After(l, moves[..|moves| - 1]).side;
      InstructionsTaken(l, moves[..n])
      + if s.RmSide? && IsTakenUp(s, moves[n]) && moves[n].i.frame.message.Instruction? && moves[n].i.v.explained
        then [moves[n].i.frame.message] else []
  }

  /** The manager records this and tells its application of it, rather than acting on it itself. */
  predicate IsReport(m: Message) { !m.Handshake? && !m.SessionRequest? && !m.RevokeObject? }

  /** What a resource said that the manager took up along a run. */
  function ReportsTaken(l: Log, moves: seq<Move>): seq<Event> {
    if moves == [] then []
    else
      var n, s := |moves| - 1, After(l, moves[..|moves| - 1]).side;
      ReportsTaken(l, moves[..n])
      + if s.CemSide? && IsTakenUp(s, moves[n]) && IsReport(moves[n].i.frame.message)
        then [Arrival(moves[n].i.frame.message)] else []
  }

  lemma {:induction false} InstructionsAppend(a: seq<Event>, b: seq<Event>)
    ensures InstructionsIn(a + b) == InstructionsIn(a) + InstructionsIn(b)
  {
    if b == [] {
      assert a + b == a;
    } else {
      assert (a + b)[..|a + b| - 1] == a + b[..|b| - 1];
      InstructionsAppend(a, b[..|b| - 1]);
    }
  }

  lemma {:induction false} ArrivalsAppend(a: seq<Event>, b: seq<Event>)
    ensures ArrivalsIn(a + b) == ArrivalsIn(a) + ArrivalsIn(b)
  {
    if b == [] {
      assert a + b == a;
    } else {
      assert (a + b)[..|a + b| - 1] == a + b[..|b| - 1];
      ArrivalsAppend(a, b[..|b| - 1]);
    }
  }

  /** Nothing of it is an instruction handed on or a report passed on. */
  predicate IsAside(d: Doing) { forall x <- d.told :: !x.Instructed? && !IsArrival(x) }

  lemma {:induction false} AsidesAreNotHandedOn(events: seq<Event>)
    requires forall x <- events :: !x.Instructed? && !IsArrival(x)
    ensures InstructionsIn(events) == [] && ArrivalsIn(events) == []
  {
    if events != [] {
      assert events[|events| - 1] in events && forall x <- events[..|events| - 1] :: x in events;
      AsidesAreNotHandedOn(events[..|events| - 1]);
    }
  }

  lemma {:induction false} AsidesJoin(a: Doing, b: Doing)
    requires IsAside(a)
    ensures InstructionsIn(Then(a, b).told) == InstructionsIn(b.told) &&
      ArrivalsIn(Then(a, b).told) == ArrivalsIn(b.told)
    ensures IsAside(b) ==> IsAside(Then(a, b))
  {
    AsidesAreNotHandedOn(a.told);
    InstructionsAppend(a.told, b.told);
    ArrivalsAppend(a.told, b.told);
  }

  /** The pieces everything done is made of are asides, but for the events handed or passed on. */
  lemma {:induction false} AsidesAreMadeOfAsides()
    ensures forall a, b :: IsAside(a) && IsAside(b) ==> IsAside(Then(a, b))
    ensures forall x: Event :: !x.Instructed? && !IsArrival(x) ==> IsAside(Telling(x))
    ensures forall subject, status :: IsAside(Answering(subject, status))
    ensures forall e, m, now :: IsAside(Sending(e, m, now))
    ensures forall e, reason :: IsAside(Ending(e, reason))
    ensures forall op :: IsAside(Recording(op))
    ensures forall op :: IsAside(Booking(op))
    ensures IsAside(STILL)
  {
  }

  lemma {:induction false} OneIsHandedOn(event: Event)
    ensures InstructionsIn([event]) == match event case Instructed(m) => [m] case _ => []
    ensures ArrivalsIn([event]) == if IsArrival(event) then [event] else []
  {
    assert [event][..0] == [];
    assert InstructionsIn([event][..0]) == [] && ArrivalsIn([event][..0]) == [];
  }

  lemma {:induction false} SendingIsAside(e: Engine, m: Message, request: SessionRequestType, now: Timestamp,
                                          v: Verdict)
    ensures IsAside(OnSend(e, m, now, v)) && IsAside(OnRequest(e, request, now, v))
  {
    AsidesAreMadeOfAsides();
    hide IsAside, Then, Telling, Sending, Ending, LetsOut;
  }

  lemma {:induction false} TimeIsAside(e: Engine, now: Timestamp)
    ensures IsAside(OnTime(e, now))
  {
    TimeIsTold(e.core.acks.pending, e.core.registry.scheduled, now);
    hide DueHandles, Registry.DueMessages, Expired, CameIntoForce;
  }

  lemma {:induction false} AnsweringIsAside(e: Engine, subject: Id, status: Status, now: Timestamp, confirmed: Doing)
    requires IsAside(confirmed)
    ensures IsAside(OnAnswer(e, subject, status, now, confirmed))
  {
    AsidesAreMadeOfAsides();
    hide IsAside, Then, Telling, Booking, Ending, Position;
  }

  lemma {:induction false} ScreeningIsAside(e: Engine, m: Message, v: Verdict)
    requires !m.ReceptionStatus?
    ensures IsAside(OnMessage(e, m, v, STILL))
  {
    AsidesAreMadeOfAsides();
    hide IsAside, Then, Telling, Answering, Ending, LatestAnswer, MayReceive;
  }

  /** A message is an aside but for what comes of taking it up. */
  lemma {:induction false} OnlyWhatIsTakenIsHandedOn(e: Engine, m: Message, v: Verdict, taken: Doing)
    requires !m.ReceptionStatus?
    ensures var d := OnMessage(e, m, v, taken);
      && InstructionsIn(d.told) == (if TakesUp(e, m, v) then InstructionsIn(taken.told) else [])
      && ArrivalsIn(d.told) == (if TakesUp(e, m, v) then ArrivalsIn(taken.told) else [])
  {
    hide OnMessage, Screen, TakesUp;
    AcceptedIsTakenUp(e, m, v);
    OnMessageTaken(e, m, v, taken);
    ScreeningIsAside(e, m, v);
    AsidesJoin(OnMessage(e, m, v, STILL), taken);
    AsidesAreNotHandedOn(OnMessage(e, m, v, STILL).told);
  }

  lemma {:induction false} InstructionsAreHandedOn(s: RmEngine.State, m: Message, now: Timestamp, v: Verdict)
    requires !m.ReceptionStatus?
    ensures var d := TakenByResource(s, m, now, v);
      InstructionsIn(d.told) == (if m.Instruction? && v.explained then [m] else []) && ArrivalsIn(d.told) == []
  {
    var d := TakenByResource(s, m, now, v);
    if m.Instruction? && v.explained {
      OneIsHandedOn(Instructed(m));
      assert d.told == [Instructed(m)];
    } else {
      AsidesAreMadeOfAsides();
      assert IsAside(d) by { hide IsAside, Then, Telling, Sending, Ending, Recording, ProfileOf; }
      AsidesAreNotHandedOn(d.told);
    }
  }

  lemma {:induction false} ArrivalIsArrival(m: Message)
    ensures IsArrival(Arrival(m)) && !Arrival(m).Instructed?
  {
  }

  lemma {:induction false} ReportsArePassedOn(s: CemEngine.State, m: Message, now: Timestamp)
    requires !m.ReceptionStatus?
    ensures var d := TakenByManager(s, m, now);
      ArrivalsIn(d.told) == (if IsReport(m) then [Arrival(m)] else []) && InstructionsIn(d.told) == []
  {
    var d := TakenByManager(s, m, now);
    if IsReport(m) {
      OneIsHandedOn(Arrival(m));
      ArrivalIsArrival(m);
      assert d.told == [Arrival(m)] by { hide Arrival; }
      hide TakenByManager, Arrival, IsArrival;
    } else {
      AsidesAreMadeOfAsides();
      assert IsAside(d) by { hide IsAside, Then, Telling, Sending, Ending, Recording, ProfileOf, CemEngine.Choose; }
      AsidesAreNotHandedOn(d.told);
    }
  }

  lemma {:induction false} WhatAReadingHandsOn(s: Side, m: Message, now: Timestamp, v: Verdict)
    ensures var d := OnRead(s, m, now, v);
      && InstructionsIn(d.told) ==
         (if s.RmSide? && TakesUp(s.Engine(), m, v) && m.Instruction? && v.explained then [m] else [])
      && ArrivalsIn(d.told) == (if s.CemSide? && TakesUp(s.Engine(), m, v) && IsReport(m) then [Arrival(m)] else [])
  {
    hide OnMessage, OnAnswer, TakenByResource, TakenByManager;
    if m.ReceptionStatus? {
      var confirmed := if s.RmSide? then STILL else Confirmed(s.cem, m.subject);
      AnsweringIsAside(s.Engine(), m.subject, m.status, now, confirmed);
      AsidesAreNotHandedOn(OnRead(s, m, now, v).told);
    } else {
      var taken := if s.RmSide? then TakenByResource(s.rm, m, now, v) else TakenByManager(s.cem, m, now);
      OnlyWhatIsTakenIsHandedOn(s.Engine(), m, v, taken);
      if s.RmSide? { InstructionsAreHandedOn(s.rm, m, now, v); } else { ReportsArePassedOn(s.cem, m, now); }
    }
  }

  lemma {:induction false} WhatAFrameHandsOn(s: Side, f: Frame, now: Timestamp, v: Verdict)
    ensures var d, e := OnFrame(s, f, now, v), s.Engine();
      && InstructionsIn(d.told) ==
         (if !e.IsClosed() && IsLegible(e, f) then InstructionsIn(OnRead(s, f.message, now, v).told) else [])
      && ArrivalsIn(d.told) ==
         (if !e.IsClosed() && IsLegible(e, f) then ArrivalsIn(OnRead(s, f.message, now, v).told) else [])
  {
    hide OnRead;
    var e, d := s.Engine(), OnFrame(s, f, now, v);
    if !e.IsClosed() && IsLegible(e, f) {
      AsidesJoin(if f.pruned then Telling(Warnings(f.message.Kind())) else STILL, OnRead(s, f.message, now, v));
    } else {
      AsidesAreNotHandedOn(d.told);
    }
  }

  lemma {:induction false} OtherInputsAreAsides(s: Side, i: Input)
    requires !i.FeedText?
    ensures IsAside(Brings(s, i))
  {
    hide IsAside, OnSend, OnRequest, OnTime, LetsOut, Then, Telling, Sending, Ending, Recording;
    var e := s.Engine();
    var id := Minted(e.core.role, e.core.minted + 1);
    AsidesAreMadeOfAsides();
    match i
    case SendMessage(m, now, v) => SendingIsAside(e, m, Terminate, now, v);
    case AskToEnd(request, now, v) => SendingIsAside(e, SessionRequest(id, request), request, now, v);
    case LetTimePass(now) => TimeIsAside(e, now);
    case ReportStatus(instruction, update, now, v) =>
      SendingIsAside(e, InstructionStatusUpdate(id, instruction, update), Terminate, now, v);
    case SelectType(c, now, v) => SendingIsAside(e, SelectControlType(id, c), Terminate, now, v);
    case SendInstruction(m, blocked, now, v) => SendingIsAside(e, m, Terminate, now, v);
    case WithdrawObject(target, now, v) => SendingIsAside(e, RevokeObject(id, target), Terminate, now, v);
    case _ =>
  }

  lemma {:induction false} WhatAMoveHandsOn(s: Side, move: Move)
    requires move.Do?
    ensures var d := Brings(s, move.i);
      && InstructionsIn(d.told) ==
         (if s.RmSide? && IsTakenUp(s, move) && move.i.frame.message.Instruction? && move.i.v.explained
          then [move.i.frame.message] else [])
      && ArrivalsIn(d.told) ==
         (if s.CemSide? && IsTakenUp(s, move) && IsReport(move.i.frame.message) then [Arrival(move.i.frame.message)]
           else [])
  {
    var i := move.i;
    if i.FeedText? {
      WhatAFrameHandsOn(s, i.frame, i.now, i.v);
      if i.frame.Wire? { WhatAReadingHandsOn(s, i.frame.message, i.now, i.v); }
      hide OnFrame, OnRead, TakesUp;
    } else {
      hide Brings;
      OtherInputsAreAsides(s, i);
      AsidesAreNotHandedOn(Brings(s, i).told);
    }
  }

  lemma {:induction false} WhatARunHandsOn(l: Log, moves: seq<Move>)
    ensures InstructionsIn(AllDone(l, moves).told) == InstructionsTaken(l, moves)
    ensures ArrivalsIn(AllDone(l, moves).told) == ReportsTaken(l, moves)
  {
    if moves != [] {
      var n := |moves| - 1;
      WhatARunHandsOn(l, moves[..n]);
      if moves[n].Do? {
        var s, done := After(l, moves[..n]).side, AllDone(l, moves[..n]);
        WhatAMoveHandsOn(s, moves[n]);
        InstructionsAppend(done.told, Brings(s, moves[n].i).told);
        ArrivalsAppend(done.told, Brings(s, moves[n].i).told);
      }
      hide Brings, After, TakesUp, IsLegible, Arrival;
    }
  }

  /** Over every run of a resource, the instructions its application is given are exactly those it takes
      up and can explain, in the order they come; a manager is given none. */
  lemma {:induction false} InstructionsReachTheApplication(l: Log, moves: seq<Move>)
    requires JustMade(l)
    ensures InstructionsIn(After(l, moves).side.Engine().events) == InstructionsTaken(l, moves)
  {
    NothingElseIsDone(l, moves);
    WhatARunHandsOn(l, moves);
    hide JustMade, InstructionsIn, InstructionsTaken, RegistryRuns.Run, Booked;
  }

  /** Over every run of a manager, its application is told of exactly the reports it takes up, each in
      its own terms and in the order they come; a resource's is told of none. */
  lemma {:induction false} ReportsReachTheApplication(l: Log, moves: seq<Move>)
    requires JustMade(l)
    ensures ArrivalsIn(After(l, moves).side.Engine().events) == ReportsTaken(l, moves)
  {
    NothingElseIsDone(l, moves);
    WhatARunHandsOn(l, moves);
    hide JustMade, ArrivalsIn, ReportsTaken, RegistryRuns.Run, Booked;
  }

  /** What is taken up was not answered before, as far as is remembered, and is answered `Ok`. */
  lemma {:induction false} WhatIsTakenUpIsAnsweredOk(s: Side, f: Frame, now: Timestamp, v: Verdict)
    requires IsTakenUp(s, Do(FeedText(f, now, v)))
    ensures var queued := Brings(s, FeedText(f, now, v)).queued;
      queued != [] && queued[0] == ReceptionStatus(f.message.id, Ok)
  {
    LatestAnswerIsTheLatest(s.Engine().core.acks.answered, f.message.id);
    hide LatestAnswer, MayReceive, TakenByResource, TakenByManager;
  }

  // -------------------------------------------------------------------------
  // What each side knows of the other
  // -------------------------------------------------------------------------

  /** The input is a handshake the session takes up. */
  predicate IsGreeting(s: Side, i: Input) { IsTakenUp(s, Do(i)) && i.frame.message.Handshake? }

  /** The versions a peer has offered last, when it has. */
  function OffersKnown(before: seq<Version>, s: Side, i: Input): seq<Version> {
    if IsGreeting(s, i) && i.frame.message.versions.Some? then i.frame.message.versions.value else before
  }

  lemma {:induction false} TheResourceKnows(s: RmEngine.State, i: Input)
    ensures var s' := RmStep(s, i);
      && s'.details == s.details && s'.peerVersions == OffersKnown(s.peerVersions, RmSide(s), i)
      && s'.handshakeSeen == (s.handshakeSeen || IsGreeting(RmSide(s), i))
  {
    hide SendOn, RequestSession, Elapse, CloseWith, RmEngine.SendDetails, RmEngine.Offered, ProfileOf, Dispatch,
      Reported, AfterReceived, Undecodable,
      Registry.Recorded, Registry.Withdrawn, Screen, TakesUp;
    if i.FeedText? && i.frame.Wire? && !i.frame.message.ReceptionStatus? {
      var m, e := i.frame.message, s.engine;
      AcceptedIsTakenUp(e, m, i.v);
      AcceptedIsTakenUp(Emit(e, Warnings(m.Kind())), m, i.v);
      TakesUpAlike(e, Warnings(m.Kind()), m, i.v);
    }
  }

  lemma {:induction false} TakesUpAlike(e: Engine, x: Event, m: Message, v: Verdict)
    ensures TakesUp(Emit(e, x), m, v) == TakesUp(e, m, v)
  {
    MayReceiveAlike(e, x, m);
    hide MayReceive;
  }

  lemma {:induction false} TheManagerKnows(s: CemEngine.State, i: Input)
    ensures var s' := CemStep(s, i);
      && s'.peerVersions == OffersKnown(s.peerVersions, CemSide(s), i)
      && s'.handshakeSent ==
         (s.handshakeSent || (i.OpenIt? && s.engine.core.state.Idle? && s.engine.config.negotiation.ByHandshake?))
  {
    hide SendOn, RequestSession, Elapse, CloseWith, Dispatch, CemEngine.Choose, Reported, AfterReceived, Undecodable,
      Registry.Recorded, Registry.Withdrawn, Screen, TakesUp, CemEngine.PendingAmong;
    if i.FeedText? && i.frame.Wire? && !i.frame.message.ReceptionStatus? {
      var m, e := i.frame.message, s.engine;
      AcceptedIsTakenUp(e, m, i.v);
      AcceptedIsTakenUp(Emit(e, Warnings(m.Kind())), m, i.v);
      TakesUpAlike(e, Warnings(m.Kind()), m, i.v);
    }
  }
}
