/** What every run of one session keeps true, whichever side it plays. */
module SessionRuns {
  import opened Ids
  import opened Time
  import opened Messages
  import opened Ledger
  import opened Session
  import RmEngine
  import CemEngine

  datatype Side = RmSide(rm: RmEngine.State) | CemSide(cem: CemEngine.State) {
    function Engine(): Session.Engine {
      match this case RmSide(s) => s.engine case CemSide(s) => s.engine
    }
  }

  /** Everything a driver can do to a session. */
  datatype Input =
    | OpenIt(now: Timestamp)
    | FeedText(frame: Frame, now: Timestamp, v: Verdict)
    | SendMessage(m: Message, now: Timestamp, v: Verdict)
    | SelectType(controlType: ControlType, now: Timestamp, v: Verdict)
    | SendInstruction(m: Message, blocked: bool, now: Timestamp, v: Verdict)
    | WithdrawObject(target: Revokable, now: Timestamp, v: Verdict)
    | ReportStatus(instruction: Id, update: InstructionStatus, now: Timestamp, v: Verdict)
    | AskToEnd(request: SessionRequestType, now: Timestamp, v: Verdict)
    | LetTimePass(now: Timestamp)
    | CloseIt
    | LoseTransport

  function RmStep(s: RmEngine.State, i: Input): RmEngine.State {
    match i
    case OpenIt(now) => RmEngine.Open(s, now)
    case FeedText(f, now, v) => RmEngine.HandleFrame(s, f, now, v)
    case SendMessage(m, now, v) => RmEngine.Send(s, m, now, v).0
    case ReportStatus(id, update, now, v) => RmEngine.ReportInstruction(s, id, update, now, v).0
    case AskToEnd(r, now, v) => s.(engine := RequestSession(s.engine, r, now, v).0)
    case LetTimePass(now) => s.(engine := Elapse(s.engine, now))
    case CloseIt => s.(engine := CloseWith(s.engine, Local))
    case LoseTransport => s.(engine := CloseWith(s.engine, TransportClosed))
    case _ => s
  }

  function CemStep(s: CemEngine.State, i: Input): CemEngine.State {
    match i
    case OpenIt(now) => CemEngine.Open(s, now)
    case FeedText(f, now, v) => CemEngine.HandleFrame(s, f, now, v)
    case SendMessage(m, now, v) => CemEngine.Send(s, m, now, v).0
    case SelectType(c, now, v) => CemEngine.Select(s, c, now, v).0
    case SendInstruction(m, blocked, now, v) => CemEngine.Instruct(s, m, blocked, now, v).0
    case WithdrawObject(target, now, v) => CemEngine.Revoke(s, target, now, v).0
    case AskToEnd(r, now, v) => s.(engine := RequestSession(s.engine, r, now, v).0)
    case LetTimePass(now) => CemEngine.HandleTimeout(s, now)
    case CloseIt => s.(engine := CloseWith(s.engine, Local))
    case LoseTransport => s.(engine := CloseWith(s.engine, TransportClosed))
    case _ => s
  }

  function Step(s: Side, i: Input): Side {
    match s case RmSide(rm) => RmSide(RmStep(rm, i)) case CemSide(cem) => CemSide(CemStep(cem, i))
  }

  // -------------------------------------------------------------------------
  // One step extends what was queued, answered and told
  // -------------------------------------------------------------------------

  /** The answers among the messages, in order. */
  function AnswersIn(ms: seq<Message>): seq<Answer> {
    if ms == [] then []
    else
      var m := ms[|ms| - 1];
      AnswersIn(ms[..|ms| - 1]) + (if m.ReceptionStatus? then [Answer(m.subject, m.status)] else [])
  }

  /** How many times the session's end was reported. */
  function Endings(events: seq<Event>): nat {
    if events == [] then 0
    else Endings(events[..|events| - 1]) + (if events[|events| - 1].Ended? then 1 else 0)
  }

  lemma {:induction false} AnswersAppend(a: seq<Message>, b: seq<Message>)
    ensures AnswersIn(a + b) == AnswersIn(a) + AnswersIn(b)
  {
    if b == [] {
      assert a + b == a;
    } else {
      assert (a + b)[..|a + b| - 1] == a + b[..|b| - 1];
      AnswersAppend(a, b[..|b| - 1]);
    }
  }

  lemma {:induction false} EndingsAppend(a: seq<Event>, b: seq<Event>)
    ensures Endings(a + b) == Endings(a) + Endings(b)
  {
    if b == [] {
      assert a + b == a;
    } else {
      assert (a + b)[..|a + b| - 1] == a + b[..|b| - 1];
      EndingsAppend(a, b[..|b| - 1]);
    }
  }

  function Push(ring: seq<Answer>, a: Answer): seq<Answer> {
    Last(ring + [a], ANSWERS_REMEMBERED)
  }

  function PushAll(ring: seq<Answer>, answers: seq<Answer>): seq<Answer> {
    if answers == [] then ring else Push(PushAll(ring, answers[..|answers| - 1]), answers[|answers| - 1])
  }

  ghost predicate RingSized(e: Engine) {
    e.core.acks.maxAnswered == ANSWERS_REMEMBERED && |e.core.acks.answered| <= ANSWERS_REMEMBERED
  }

  /** `e'` follows `e`, having given the listed answers and nothing else away. */
  ghost predicate Extends(e: Engine, e': Engine, answers: seq<Answer>) {
    && RingSized(e) && RingSized(e')
    && e'.config == e.config && e'.core.role == e.core.role
    && e.core.outbox <= e'.core.outbox
    && AnswersIn(e'.core.outbox) == AnswersIn(e.core.outbox) + answers
    && e'.core.acks.answered == PushAll(e.core.acks.answered, answers)
    && (e.IsClosed() ==> e'.core.state == e.core.state && e'.core.outbox == e.core.outbox)
    && Endings(e'.events) == Endings(e.events) + (if e'.IsClosed() && !e.IsClosed() then 1 else 0)
  }

  lemma {:induction false} ExtendsQuietly(e: Engine, e': Engine)
    requires RingSized(e) && e'.config == e.config && e'.core.role == e.core.role
    requires e'.core.outbox == e.core.outbox && e'.core.acks.answered == e.core.acks.answered
    requires e'.core.acks.maxAnswered == e.core.acks.maxAnswered
    requires e'.events == e.events && e'.IsClosed() == e.IsClosed() && (e.IsClosed() ==> e'.core.state == e.core.state)
    ensures Extends(e, e', [])
  {
    assert AnswersIn(e.core.outbox) + [] == AnswersIn(e.core.outbox);
  }

  lemma {:induction false} ExtendsThenQuietly(a: Engine, b: Engine, c: Engine, answers: seq<Answer>)
    requires Extends(a, b, answers) && Extends(b, c, [])
    ensures Extends(a, c, answers)
  {
    assert AnswersIn(b.core.outbox) + [] == AnswersIn(b.core.outbox);
  }

  lemma {:induction false} QuietlyThenExtends(a: Engine, b: Engine, c: Engine, answers: seq<Answer>)
    requires Extends(a, b, []) && Extends(b, c, answers)
    ensures Extends(a, c, answers)
  {
    assert AnswersIn(a.core.outbox) + [] == AnswersIn(a.core.outbox);
  }

  lemma {:induction false} EmitExtends(e: Engine, event: Event)
    requires RingSized(e) && !event.Ended?
    ensures Extends(e, Emit(e, event), [])
  {
    assert AnswersIn(e.core.outbox) + [] == AnswersIn(e.core.outbox);
    assert (e.events + [event])[..|e.events|] == e.events;
  }

  lemma {:induction false} AckExtends(e: Engine, subject: Id, status: Status)
    requires RingSized(e) && !e.IsClosed()
    ensures Extends(e, Ack(e, subject, status), [Answer(subject, status)])
  {
    var out := e.core.outbox;
    assert (out + [ReceptionStatus(subject, status)])[..|out|] == out;
    assert PushAll(e.core.acks.answered, [Answer(subject, status)][..0]) == e.core.acks.answered;
  }

  lemma {:induction false} DispatchExtends(e: Engine, m: Message, now: Timestamp)
    requires RingSized(e) && !e.IsClosed() && !m.ReceptionStatus?
    ensures Extends(e, Dispatch(e, m, now), [])
    ensures Dispatch(e, m, now).core.state == e.core.state && Dispatch(e, m, now).events == e.events
  {
    hide Registry.Recorded;
    var out := e.core.outbox;
    assert (out + [m])[..|out|] == out;
    assert AnswersIn(out) + [] == AnswersIn(out);
  }

  lemma {:induction false} CloseExtends(e: Engine, reason: CloseReason)
    requires RingSized(e)
    ensures Extends(e, CloseWith(e, reason), [])
  {
    hide ReconnectAfter;
    assert AnswersIn(e.core.outbox) + [] == AnswersIn(e.core.outbox);
    if !e.IsClosed() {
      var told := e.events + [Ended(reason, ReconnectAfter(reason, e.config.reconnectAttempt))];
      assert told[..|e.events|] == e.events;
    }
  }

  lemma {:induction false} EmitAndCloseExtend(e: Engine, event: Event, reason: CloseReason)
    requires RingSized(e) && !event.Ended?
    ensures Extends(e, CloseWith(Emit(e, event), reason), [])
  {
    hide Emit, CloseWith, Extends;
    EmitExtends(e, event);
    assert RingSized(Emit(e, event)) by { RingOf(e, Emit(e, event), []); }
    CloseExtends(Emit(e, event), reason);
    QuietlyThenExtends(e, Emit(e, event), CloseWith(Emit(e, event), reason), []);
  }

  lemma {:induction false} RingOf(e: Engine, e': Engine, answers: seq<Answer>)
    requires Extends(e, e', answers)
    ensures RingSized(e')
  {
  }

  lemma {:induction false} EmptyExtends(e: Engine)
    requires RingSized(e)
    ensures Extends(e, e, [])
  {
    ExtendsQuietly(e, e);
  }

  // -------------------------------------------------------------------------
  // The shared parts
  // -------------------------------------------------------------------------

  /** The reception status a screened message gets. */
  function AnswerTo(e: Engine, m: Message, v: Verdict): Answer
    requires !m.ReceptionStatus?
  {
    match LatestAnswer(e.core.acks.answered, m.id)
    case Some(previous) => Answer(m.id, previous)
    case None =>
      if v.errors || !MayReceive(e, m) then Answer(m.id, InvalidContent)
      else if v.policy.Some? then Answer(m.id, v.policy.value)
      else Answer(m.id, Ok)
  }

  lemma {:induction false} ScreenExtends(e: Engine, m: Message, v: Verdict)
    requires RingSized(e) && !e.IsClosed() && !m.ReceptionStatus?
    ensures Extends(e, Screen(e, m, v).0, [AnswerTo(e, m, v)])
    ensures Screen(e, m, v).1 ==> !Screen(e, m, v).0.IsClosed()
  {
    hide Extends, LatestAnswer, MayReceive;
    var a := AnswerTo(e, m, v);
    var acked := Ack(e, a.id, a.status);
    AckExtends(e, a.id, a.status);
    RingOf(e, acked, [a]);
    var event := if Screen(e, m, v).1 || LatestAnswer(e.core.acks.answered, m.id).Some? then Warnings(m.Kind())
      else Refused(Some(m.Kind()), a.status);
    EmitExtends(acked, event);
    ExtendsThenQuietly(e, acked, Emit(acked, event), [a]);
    RingOf(acked, Emit(acked, event), []);
    CloseExtends(Emit(acked, event), ProtocolViolation);
    ExtendsThenQuietly(e, Emit(acked, event), CloseWith(Emit(acked, event), ProtocolViolation), [a]);
  }

  lemma {:induction false} SendExtends(e: Engine, m: Message, now: Timestamp, v: Verdict)
    requires RingSized(e) && !m.ReceptionStatus?
    ensures Extends(e, SendOn(e, m, now, v).0, [])
    ensures SendOn(e, m, now, v).1.Accepted? ==> !SendOn(e, m, now, v).0.IsClosed()
  {
    hide Extends, Dispatch;
    EmptyExtends(e);
    if !e.IsClosed() {
      DispatchExtends(e, m, now);
      var told := Emit(e, OutboundWarnings(m.Kind()));
      EmitExtends(e, OutboundWarnings(m.Kind()));
      RingOf(e, told, []);
      DispatchExtends(told, m, now);
      QuietlyThenExtends(e, told, Dispatch(told, m, now), []);
    }
  }

  lemma {:induction false} MintedSendExtends(e: Engine, m: Message, now: Timestamp, v: Verdict)
    requires RingSized(e) && !m.ReceptionStatus?
    ensures Extends(e, SendOn(MintOn(e), m, now, v).0, [])
  {
    ExtendsQuietly(e, MintOn(e));
    hide Extends, SendOn;
    RingOf(e, MintOn(e), []);
    SendExtends(MintOn(e), m, now, v);
    QuietlyThenExtends(e, MintOn(e), SendOn(MintOn(e), m, now, v).0, []);
  }

  lemma {:induction false} RequestExtends(e: Engine, request: SessionRequestType, now: Timestamp, v: Verdict)
    requires RingSized(e)
    ensures Extends(e, RequestSession(e, request, now, v).0, [])
  {
    hide Extends, SendOn, CloseWith;
    var sent := SendOn(MintOn(e), SessionRequest(MintedId(e.core), request), now, v).0;
    MintedSendExtends(e, SessionRequest(MintedId(e.core), request), now, v);
    RingOf(e, sent, []);
    CloseExtends(sent, LocallyRequested(request));
    QuietlyThenExtends(e, sent, CloseWith(sent, LocallyRequested(request)), []);
  }

  lemma {:induction false} NoEndings(events: seq<Event>)
    requires forall x <- events :: !x.Ended?
    ensures Endings(events) == 0
  {
    if events != [] {
      assert forall x <- events[..|events| - 1] :: x in events;
      assert events[|events| - 1] in events;
      NoEndings(events[..|events| - 1]);
    }
  }

  lemma {:induction false} ElapseExtends(e: Engine, now: Timestamp)
    requires RingSized(e)
    ensures Extends(e, Elapse(e, now), [])
  {
    hide Registry.AfterActivation, DueHandles, Waiting, Registry.DueMessages;
    var a := TimeoutEvents(AfterExpire(e.core.acks, now).1);
    var b := ActivationEvents(Registry.DueMessages(e.core.registry.scheduled, now));
    NoEndings(a);
    NoEndings(b);
    EndingsAppend(e.events, a);
    EndingsAppend(e.events + a, b);
    assert AnswersIn(e.core.outbox) + [] == AnswersIn(e.core.outbox);
  }

  lemma {:induction false} UndecodableExtends(e: Engine, kind: Option<MessageKind>, subject: Id, status: Status)
    requires RingSized(e) && !e.IsClosed()
    ensures Extends(e, Undecodable(e, kind, subject, status),
                    if kind == Some(KReceptionStatus) then [] else [Answer(subject, status)])
  {
    hide Extends;
    var refused := Refused(kind, status);
    EmitExtends(e, refused);
    AckExtends(e, subject, status);
    RingOf(e, Ack(e, subject, status), [Answer(subject, status)]);
    EmitExtends(Ack(e, subject, status), refused);
    ExtendsThenQuietly(e, Ack(e, subject, status), Emit(Ack(e, subject, status), refused), [Answer(subject, status)]);
  }

  /** A change of state, profile, registry, pending messages or minted identifiers alone. */
  lemma {:induction false} ChangeExtends(e: Engine, e': Engine, event: Event)
    requires RingSized(e) && !e.IsClosed() && !e'.IsClosed() && !event.Ended?
    requires e'.config == e.config && e'.core.role == e.core.role && e'.events == e.events
    requires e'.core.outbox == e.core.outbox && e'.core.acks.answered == e.core.acks.answered
    requires e'.core.acks.maxAnswered == e.core.acks.maxAnswered
    ensures Extends(e, e', []) && Extends(e, Emit(e', event), [])
  {
    ExtendsQuietly(e, e');
    hide Extends;
    RingOf(e, e', []);
    EmitExtends(e', event);
    QuietlyThenExtends(e, e', Emit(e', event), []);
  }

  // -------------------------------------------------------------------------
  // The Resource Manager
  // -------------------------------------------------------------------------

  lemma {:induction false} RmDetailsExtend(e: Engine, details: Body, now: Timestamp)
    requires RingSized(e) && !e.IsClosed()
    ensures Extends(e, RmEngine.SendDetails(e, details, now), [])
  {
    ExtendsQuietly(e, MintOn(e));
    hide Extends, Dispatch;
    RingOf(e, MintOn(e), []);
    DispatchExtends(MintOn(e), Details(MintedId(e.core), details), now);
    QuietlyThenExtends(e, MintOn(e), RmEngine.SendDetails(e, details, now), []);
  }

  lemma {:induction false} RmAgreeExtends(s: RmEngine.State, selected: Version, now: Timestamp)
    requires RingSized(s.engine) && !s.engine.IsClosed()
    ensures Extends(s.engine, RmEngine.AgreeOn(s, selected, now).engine, [])
  {
    var e := s.engine;
    if RmEngine.Offered(e.config.versions, selected) && ProfileOf(selected).Some? {
      var p := ProfileOf(selected).value;
      var connected := e.(core := e.core.(profile := p, state := Connected));
      ChangeExtends(e, connected, Negotiated(selected, p));
      var told := Emit(connected, Negotiated(selected, p));
      hide Extends, RmEngine.SendDetails;
      RingOf(e, told, []);
      RmDetailsExtend(told, s.details, now);
      QuietlyThenExtends(e, told, RmEngine.SendDetails(told, s.details, now), []);
    } else {
      CloseExtends(e, UnsupportedVersion(selected));
    }
  }

  lemma {:induction false} RmOpenExtends(s: RmEngine.State, now: Timestamp)
    requires RingSized(s.engine)
    ensures Extends(s.engine, RmEngine.Open(s, now).engine, [])
  {
    var e := s.engine;
    EmptyExtends(e);
    if e.core.state.Idle? {
      match e.config.negotiation
      case ByHandshake =>
        var shaking := MintOn(e).(core := MintOn(e).core.(state := Handshaking));
        ExtendsQuietly(e, shaking);
        hide Extends, Dispatch;
        RingOf(e, shaking, []);
        var m := Handshake(MintedId(e.core), Rm, Some(e.config.versions));
        DispatchExtends(shaking, m, now);
        QuietlyThenExtends(e, shaking, Dispatch(shaking, m, now), []);
      case PreNegotiated(p) =>
        var connected := e.(core := e.core.(profile := p, state := Connected));
        ChangeExtends(e, connected, Negotiated(VersionOf(p), p));
        var told := Emit(connected, Negotiated(VersionOf(p), p));
        hide Extends, RmEngine.SendDetails;
        RingOf(e, told, []);
        RmDetailsExtend(told, s.details, now);
        QuietlyThenExtends(e, told, RmEngine.SendDetails(told, s.details, now), []);
    }
  }

  lemma {:induction false} RmProcessExtends(s: RmEngine.State, m: Message, now: Timestamp, v: Verdict)
    requires RingSized(s.engine) && !s.engine.IsClosed() && !m.ReceptionStatus?
    ensures Extends(s.engine, RmEngine.Process(s, m, now, v).engine, [])
  {
    hide Extends, Registry.Recorded, Registry.Withdrawn, RmEngine.AgreeOn, CloseWith;
    var e := s.engine;
    EmptyExtends(e);
    match m
    case Handshake(_, _, versions) =>
    case HandshakeResponse(_, selected) => RmAgreeExtends(s, selected, now);
    case SelectControlType(_, c) => ActivatedExtends(e, c);
    case SessionRequest(_, request) => EmitAndCloseExtend(e, SessionRequested(request), PeerRequested(request));
    case RevokeObject(_, target) =>
      ChangeExtends(e, e.(core := e.core.(registry := Registry.Withdrawn(e.core.registry, target))), Withdrew(target));
    case _ => ChangeExtends(e, RmEngine.Registered(e, m, now), Instructed(m));
  }

  lemma {:induction false} ActivatedExtends(e: Engine, c: ControlType)
    requires RingSized(e) && !e.IsClosed()
    ensures Extends(e, Activated(e, c), []) && !Activated(e, c).IsClosed()
  {
    ChangeExtends(e, e.(core := e.core.(state := AfterSelection(c))), if c.NoSelection? then Deselected else Ready(c));
    hide Extends;
  }

  lemma {:induction false} MatchedExtends(e: Engine, subject: Id, status: Status, now: Timestamp)
    requires RingSized(e) && !e.IsClosed()
    ensures Extends(e, Matched(e, subject, status, now), []) && !Matched(e, subject, status, now).IsClosed()
  {
    ExtendsQuietly(e, Matched(e, subject, status, now));
    hide Extends;
  }

  lemma {:induction false} ReportedExtends(e: Engine, outcome: Outcome)
    requires RingSized(e) && !e.IsClosed()
    ensures Extends(e, Reported(e, outcome), [])
  {
    hide Extends, CloseWith, Emit, RingSized;
    match outcome
    case AckAccepted(h, _) => EmitExtends(e, Acked(h));
    case AckRefused(h, status, consequence, _) =>
      EmitExtends(e, Nacked(h, status, consequence));
      EmitAndCloseExtend(e, Nacked(h, status, consequence), PeerPermanentError);
    case AckTimedOut(h) => EmitExtends(e, TimedOut(h));
    case AckUnmatched(id, status) => EmitExtends(e, UnmatchedAck(id, status));
  }

  lemma {:induction false} RmStatusExtends(s: RmEngine.State, subject: Id, status: Status, now: Timestamp)
    requires RingSized(s.engine) && !s.engine.IsClosed()
    ensures Extends(s.engine, RmEngine.OnStatus(s, subject, status, now).engine, [])
  {
    var e, outcome := Matched(s.engine, subject, status, now),
      AfterReceived(s.engine.core.acks, subject, status, now).1;
    hide Extends, Matched, Reported, AfterReceived;
    MatchedExtends(s.engine, subject, status, now);
    RingOf(s.engine, e, []);
    ReportedExtends(e, outcome);
    QuietlyThenExtends(s.engine, e, Reported(e, outcome), []);
  }

  lemma {:induction false} RmMessageExtends(s: RmEngine.State, m: Message, now: Timestamp, v: Verdict)
    returns (answers: seq<Answer>)
    requires RingSized(s.engine) && !s.engine.IsClosed()
    ensures Extends(s.engine, RmEngine.HandleMessage(s, m, now, v).engine, answers)
    ensures answers == if m.ReceptionStatus? then [] else [AnswerTo(s.engine, m, v)]
  {
    hide Extends, Screen, RmEngine.Process, RmEngine.OnStatus, AnswerTo;
    if m.ReceptionStatus? {
      answers := [];
      RmStatusExtends(s, m.subject, m.status, now);
    } else {
      answers := [AnswerTo(s.engine, m, v)];
      var (e, accepted) := Screen(s.engine, m, v);
      ScreenExtends(s.engine, m, v);
      RingOf(s.engine, e, answers);
      if accepted {
        RmProcessExtends(s.(engine := e), m, now, v);
        ExtendsThenQuietly(s.engine, e, RmEngine.Process(s.(engine := e), m, now, v).engine, answers);
      }
    }
  }

  /** The identifier an answer to this frame names, if the frame is to be answered. */
  function OwedTo(e: Engine, f: Frame): seq<Id> {
    if e.IsClosed() then []
    else
      match f
      case Garbage(kind, subject, _) => if kind == Some(KReceptionStatus) then [] else [subject]
      case Wire(m, _) => if m.ReceptionStatus? then [] else [m.id]
  }

  function Subjects(answers: seq<Answer>): (ids: seq<Id>)
    ensures |ids| == |answers|
    ensures forall k :: 0 <= k < |answers| ==> ids[k] == answers[k].id
  {
    seq(|answers|, k requires 0 <= k < |answers| => answers[k].id)
  }

  lemma {:induction false} RmFrameExtends(s: RmEngine.State, f: Frame, now: Timestamp, v: Verdict)
    returns (answers: seq<Answer>)
    requires RingSized(s.engine)
    ensures Extends(s.engine, RmEngine.HandleFrame(s, f, now, v).engine, answers)
    ensures Subjects(answers) == OwedTo(s.engine, f)
  {
    hide Extends, RmEngine.HandleMessage, Undecodable;
    var e := s.engine;
    if e.IsClosed() {
      answers := [];
      EmptyExtends(e);
    } else if f.Garbage? {
      answers := if f.kind == Some(KReceptionStatus) then [] else [Answer(f.subject, f.status)];
      UndecodableExtends(e, f.kind, f.subject, f.status);
    } else if !f.message.Kind().ExistsIn(e.core.profile) {
      answers := [Answer(SubjectOf(f.message), InvalidMessage)];
      UndecodableExtends(e, Some(f.message.Kind()), SubjectOf(f.message), InvalidMessage);
    } else {
      var s' := if f.pruned then s.(engine := Emit(e, Warnings(f.message.Kind()))) else s;
      EmptyExtends(e);
      EmitExtends(e, Warnings(f.message.Kind()));
      RingOf(e, s'.engine, []);
      answers := RmMessageExtends(s', f.message, now, v);
      QuietlyThenExtends(e, s'.engine, RmEngine.HandleMessage(s', f.message, now, v).engine, answers);
    }
  }

  // -------------------------------------------------------------------------
  // The Customer Energy Manager
  // -------------------------------------------------------------------------

  lemma {:induction false} CemOpenExtends(s: CemEngine.State, now: Timestamp)
    requires RingSized(s.engine)
    ensures Extends(s.engine, CemEngine.Open(s, now).engine, [])
  {
    var e := s.engine;
    EmptyExtends(e);
    if e.core.state.Idle? {
      match e.config.negotiation
      case ByHandshake =>
        var shaking := MintOn(e).(core := MintOn(e).core.(state := Handshaking));
        ExtendsQuietly(e, shaking);
        hide Extends, Dispatch;
        RingOf(e, shaking, []);
        var m := Handshake(MintedId(e.core), Cem, Some(e.config.versions));
        DispatchExtends(shaking, m, now);
        QuietlyThenExtends(e, shaking, Dispatch(shaking, m, now), []);
      case PreNegotiated(p) =>
        ChangeExtends(e, e.(core := e.core.(profile := p, state := Connected)), Negotiated(VersionOf(p), p));
    }
  }

  lemma {:induction false} CemHandshakeExtends(s: CemEngine.State, now: Timestamp)
    requires RingSized(s.engine) && !s.engine.IsClosed()
    ensures Extends(s.engine, CemEngine.AnswerHandshake(s, now).engine, [])
  {
    var e := s.engine;
    var chosen := CemEngine.Choose(e.config.versions, s.peerVersions);
    if chosen.None? || ProfileOf(chosen.value).None? {
      CloseExtends(e, NoCommonVersion);
    } else {
      var p := ProfileOf(chosen.value).value;
      var e1 := MintOn(e.(core := e.core.(profile := p, state := Connected)));
      ChangeExtends(e, e1, Deselected);
      hide Extends, Dispatch;
      RingOf(e, e1, []);
      var m := HandshakeResponse(MintedId(e.core), chosen.value);
      DispatchExtends(e1, m, now);
      var e2 := Dispatch(e1, m, now);
      RingOf(e1, e2, []);
      EmitExtends(e2, Negotiated(chosen.value, p));
      QuietlyThenExtends(e1, e2, Emit(e2, Negotiated(chosen.value, p)), []);
      QuietlyThenExtends(e, e1, Emit(e2, Negotiated(chosen.value, p)), []);
    }
  }

  lemma {:induction false} CemProcessExtends(s: CemEngine.State, m: Message, now: Timestamp)
    requires RingSized(s.engine) && !s.engine.IsClosed() && !m.ReceptionStatus?
    ensures Extends(s.engine, CemEngine.Process(s, m, now).engine, [])
  {
    hide Extends, Registry.Recorded, Registry.Withdrawn, CemEngine.AnswerHandshake, CloseWith;
    var e := s.engine;
    match m
    case Handshake(_, _, versions) =>
      CemHandshakeExtends(s.(peerVersions := if versions.Some? then versions.value else s.peerVersions), now);
    case SessionRequest(_, request) => EmitAndCloseExtend(e, SessionRequested(request), PeerRequested(request));
    case RevokeObject(_, target) =>
      ChangeExtends(e, e.(core := e.core.(registry := Registry.Withdrawn(e.core.registry, target))), Withdrew(target));
    case _ =>
      ChangeExtends(e, e.(core := e.core.(registry := Registry.Recorded(e.core.registry, m, now))),
        CemEngine.ArrivalEvent(m));
  }

  lemma {:induction false} CemStatusExtends(s: CemEngine.State, subject: Id, status: Status, now: Timestamp)
    requires RingSized(s.engine) && !s.engine.IsClosed()
    ensures Extends(s.engine, CemEngine.OnStatus(s, subject, status, now).engine, [])
  {
    var e, outcome := Matched(s.engine, subject, status, now),
      AfterReceived(s.engine.core.acks, subject, status, now).1;
    hide Extends, Matched, Reported, AfterReceived, Activated;
    MatchedExtends(s.engine, subject, status, now);
    RingOf(s.engine, e, []);
    if CemEngine.Decides(s, outcome) && outcome.AckAccepted? {
      var confirmed := Activated(e, s.pendingSelection.value.controlType);
      ActivatedExtends(e, s.pendingSelection.value.controlType);
      RingOf(e, confirmed, []);
      ReportedExtends(confirmed, outcome);
      QuietlyThenExtends(e, confirmed, Reported(confirmed, outcome), []);
      QuietlyThenExtends(s.engine, e, Reported(confirmed, outcome), []);
    } else {
      ReportedExtends(e, outcome);
      QuietlyThenExtends(s.engine, e, Reported(e, outcome), []);
    }
  }

  lemma {:induction false} CemMessageExtends(s: CemEngine.State, m: Message, now: Timestamp, v: Verdict)
    returns (answers: seq<Answer>)
    requires RingSized(s.engine) && !s.engine.IsClosed()
    ensures Extends(s.engine, CemEngine.HandleMessage(s, m, now, v).engine, answers)
    ensures answers == if m.ReceptionStatus? then [] else [AnswerTo(s.engine, m, v)]
  {
    hide Extends, Screen, CemEngine.Process, CemEngine.OnStatus, AnswerTo;
    if m.ReceptionStatus? {
      answers := [];
      CemStatusExtends(s, m.subject, m.status, now);
    } else {
      answers := [AnswerTo(s.engine, m, v)];
      var (e, accepted) := Screen(s.engine, m, v);
      ScreenExtends(s.engine, m, v);
      RingOf(s.engine, e, answers);
      if accepted {
        CemProcessExtends(s.(engine := e), m, now);
        ExtendsThenQuietly(s.engine, e, CemEngine.Process(s.(engine := e), m, now).engine, answers);
      }
    }
  }

  lemma {:induction false} CemFrameExtends(s: CemEngine.State, f: Frame, now: Timestamp, v: Verdict)
    returns (answers: seq<Answer>)
    requires RingSized(s.engine)
    ensures Extends(s.engine, CemEngine.HandleFrame(s, f, now, v).engine, answers)
    ensures Subjects(answers) == OwedTo(s.engine, f)
  {
    hide Extends, CemEngine.HandleMessage, Undecodable;
    var e := s.engine;
    if e.IsClosed() {
      answers := [];
      EmptyExtends(e);
    } else if f.Garbage? {
      answers := if f.kind == Some(KReceptionStatus) then [] else [Answer(f.subject, f.status)];
      UndecodableExtends(e, f.kind, f.subject, f.status);
    } else if !f.message.Kind().ExistsIn(e.core.profile) {
      answers := [Answer(SubjectOf(f.message), InvalidMessage)];
      UndecodableExtends(e, Some(f.message.Kind()), SubjectOf(f.message), InvalidMessage);
    } else {
      var s' := if f.pruned then s.(engine := Emit(e, Warnings(f.message.Kind()))) else s;
      EmptyExtends(e);
      EmitExtends(e, Warnings(f.message.Kind()));
      RingOf(e, s'.engine, []);
      answers := CemMessageExtends(s', f.message, now, v);
      QuietlyThenExtends(e, s'.engine, CemEngine.HandleMessage(s', f.message, now, v).engine, answers);
    }
  }

  // -------------------------------------------------------------------------
  // One step of either side
  // -------------------------------------------------------------------------

  /** The application leaves answering to the engine: it sends no `ReceptionStatus` itself. */
  predicate LeavesAnswering(i: Input) {
    (i.SendMessage? || i.SendInstruction?) ==> !i.m.ReceptionStatus?
  }

  function Owed(s: Side, i: Input): seq<Id> {
    if i.FeedText? then OwedTo(s.Engine(), i.frame) else []
  }

  lemma {:induction false} RmStepExtends(s: RmEngine.State, i: Input) returns (answers: seq<Answer>)
    requires RingSized(s.engine) && LeavesAnswering(i)
    ensures Extends(s.engine, RmStep(s, i).engine, answers)
    ensures Subjects(answers) == Owed(RmSide(s), i)
  {
    hide Extends, RmEngine.Open, RmEngine.HandleFrame, SendOn, RequestSession, Elapse, CloseWith;
    answers := [];
    EmptyExtends(s.engine);
    match i
    case OpenIt(now) => RmOpenExtends(s, now);
    case FeedText(f, now, v) => answers := RmFrameExtends(s, f, now, v);
    case SendMessage(m, now, v) => SendExtends(s.engine, m, now, v);
    case ReportStatus(id, update, now, v) =>
      MintedSendExtends(s.engine, InstructionStatusUpdate(MintedId(s.engine.core), id, update), now, v);
    case AskToEnd(r, now, v) => RequestExtends(s.engine, r, now, v);
    case LetTimePass(now) => ElapseExtends(s.engine, now);
    case CloseIt => CloseExtends(s.engine, Local);
    case LoseTransport => CloseExtends(s.engine, TransportClosed);
    case _ =>
  }

  lemma {:induction false} CemRevokeExtends(s: CemEngine.State, target: Revokable, now: Timestamp, v: Verdict)
    requires RingSized(s.engine)
    ensures Extends(s.engine, CemEngine.Revoke(s, target, now, v).0.engine, [])
  {
    var sent := SendOn(MintOn(s.engine), RevokeObject(MintedId(s.engine.core), target), now, v);
    MintedSendExtends(s.engine, RevokeObject(MintedId(s.engine.core), target), now, v);
    hide SendOn, Registry.Withdrawn;
    RingOf(s.engine, sent.0, []);
    ExtendsQuietly(sent.0, sent.0.(core := sent.0.core.(registry := Registry.Withdrawn(sent.0.core.registry, target))));
    hide Extends;
    if sent.1.Accepted? {
      QuietlyThenExtends(s.engine, sent.0, CemEngine.Revoke(s, target, now, v).0.engine, []);
    }
  }

  lemma {:induction false} CemStepExtends(s: CemEngine.State, i: Input) returns (answers: seq<Answer>)
    requires RingSized(s.engine) && LeavesAnswering(i)
    ensures Extends(s.engine, CemStep(s, i).engine, answers)
    ensures Subjects(answers) == Owed(CemSide(s), i)
  {
    hide Extends, CemEngine.Open, CemEngine.HandleFrame, SendOn, RequestSession, Elapse, CloseWith, CemEngine.Revoke;
    answers := [];
    EmptyExtends(s.engine);
    match i
    case OpenIt(now) => CemOpenExtends(s, now);
    case FeedText(f, now, v) => answers := CemFrameExtends(s, f, now, v);
    case SendMessage(m, now, v) => SendExtends(s.engine, m, now, v);
    case SendInstruction(m, blocked, now, v) => SendExtends(s.engine, m, now, v);
    case SelectType(c, now, v) => MintedSendExtends(s.engine, SelectControlType(MintedId(s.engine.core), c), now, v);
    case WithdrawObject(target, now, v) => CemRevokeExtends(s, target, now, v);
    case AskToEnd(r, now, v) => RequestExtends(s.engine, r, now, v);
    case LetTimePass(now) => ElapseExtends(s.engine, now);
    case CloseIt => CloseExtends(s.engine, Local);
    case LoseTransport => CloseExtends(s.engine, TransportClosed);
    case _ =>
  }

  lemma {:induction false} StepExtends(s: Side, i: Input) returns (answers: seq<Answer>)
    requires RingSized(s.Engine()) && LeavesAnswering(i)
    ensures Extends(s.Engine(), Step(s, i).Engine(), answers)
    ensures Subjects(answers) == Owed(s, i)
  {
    hide Extends, RmStep, CemStep;
    match s
    case RmSide(rm) => answers := RmStepExtends(rm, i);
    case CemSide(cem) => answers := CemStepExtends(cem, i);
  }
}
