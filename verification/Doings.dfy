/** Everything a session does that can be seen from outside it, input by input: what it tells its
    application, what it queues, what its registry records and what its ledger books. */
module Doings {
  import opened Ids
  import opened Time
  import opened Messages
  import opened Ledger
  import opened Session
  import opened SessionRuns
  import opened History
  import Registry
  import RegistryRuns
  import RmEngine
  import CemEngine
  import StateTable

  datatype Doing = Doing(told: seq<Event>, queued: seq<Message>, recorded: seq<RegistryRuns.Op>, booked: seq<Ledger.Op>)

  const STILL := Doing([], [], [], [])

  function Then(a: Doing, b: Doing): Doing {
    Doing(a.told + b.told, a.queued + b.queued, a.recorded + b.recorded, a.booked + b.booked)
  }

  function Telling(event: Event): Doing { STILL.(told := [event]) }

  function Recording(op: RegistryRuns.Op): Doing { STILL.(recorded := [op]) }

  function Booking(op: Ledger.Op): Doing { STILL.(booked := [op]) }

  function Answering(subject: Id, status: Status): Doing {
    STILL.(queued := [ReceptionStatus(subject, status)], booked := [OpAnswered(subject, status)])
  }

  /** A message goes out: queued, recorded and, unless it is a status, awaiting its answer. */
  function Sending(e: Engine, m: Message, now: Timestamp): Doing {
    Doing([], [m], [RegistryRuns.DoRecord(m, now)],
          if m.ReceptionStatus? then []
          else [OpSent(Handle(m.id, m.Kind()), now, DeadlineAfter(now, e.config.ackTimeout))])
  }

  function Ending(e: Engine, reason: CloseReason): Doing {
    Telling(Ended(reason, ReconnectAfter(reason, e.config.reconnectAttempt)))
  }

  // -------------------------------------------------------------------------
  // What each input brings about
  // -------------------------------------------------------------------------

  /** A message is taken up: not answered before, in order, and with nothing said against it. */
  predicate TakesUp(e: Engine, m: Message, v: Verdict) {
    && !m.ReceptionStatus? && (forall a <- e.core.acks.answered :: a.id != m.id)
    && !v.errors && v.policy.None? && MayReceive(e, m)
  }

  /** The answer a message that is not a status gets, and what is said of it; `taken` if it is taken up. */
  function OnMessage(e: Engine, m: Message, v: Verdict, taken: Doing): Doing
    requires !m.ReceptionStatus?
  {
    var before, kind := LatestAnswer(e.core.acks.answered, m.id), m.Kind();
    if before.Some? then Then(Answering(m.id, before.value), Telling(Warnings(kind)))
    else if v.errors || !MayReceive(e, m) then
      Then(Refusing(m, InvalidContent),
           if e.config.outOfOrder.CloseSession? && !MayReceive(e, m) then Ending(e, ProtocolViolation) else STILL)
    else if v.policy.Some? then Refusing(m, v.policy.value)
    else
      Then(Then(Answering(m.id, Ok),
                if v.warned || (e.config.s2Connect && (m.Handshake? || m.HandshakeResponse?))
                  then Telling(Warnings(kind))
                else STILL),
           taken)
  }

  function Refusing(m: Message, status: Status): Doing
    requires !m.ReceptionStatus?
  {
    Then(Answering(m.id, status), Telling(Refused(Some(m.Kind()), status)))
  }

  /** The oldest message under the identifier is settled; `confirmed` if it is accepted. */
  function OnAnswer(e: Engine, subject: Id, status: Status, now: Timestamp, confirmed: Doing): Doing {
    var p := Position(e.core.acks.pending, subject);
    Then(Booking(OpReceived(subject, status, now)),
         if p == |e.core.acks.pending| then Telling(UnmatchedAck(subject, status))
         else
           var handle := e.core.acks.pending[p].handle;
           if status == Ok then Then(confirmed, Telling(Acked(handle)))
           else
             Then(Telling(Nacked(handle, status, ConsequenceOf(status))),
                  if status == PermanentError then Ending(e, PeerPermanentError) else STILL))
  }

  function Choosing(c: ControlType): Doing { Telling(if c == NoSelection then Deselected else Ready(c)) }

  /** What the resource does about a message it has taken up. */
  function TakenByResource(s: RmEngine.State, m: Message, now: Timestamp, v: Verdict): Doing
    requires !m.ReceptionStatus?
  {
    var e := s.engine;
    match m
    case Handshake(_, _, _) => STILL
    case HandshakeResponse(_, selected) =>
      if (exists o <- e.config.versions :: Matches(o, selected)) && ProfileOf(selected).Some? then
        Then(Telling(Negotiated(selected, ProfileOf(selected).value)),
             Sending(e, Details(Minted(e.core.role, e.core.minted + 1), s.details), now))
      else Ending(e, UnsupportedVersion(selected))
    case SelectControlType(_, c) => Choosing(c)
    case SessionRequest(_, request) => Then(Telling(SessionRequested(request)), Ending(e, PeerRequested(request)))
    case RevokeObject(_, target) => Then(Recording(RegistryRuns.DoRevoke(target)), Telling(Withdrew(target)))
    case Instruction(_, _, _, _) =>
      Then(Recording(RegistryRuns.DoRecord(m, now)), if v.explained then Telling(Instructed(m)) else STILL)
    case _ => Recording(RegistryRuns.DoRecord(m, now))
  }

  /** How the manager's application hears of what a resource says. */
  function Arrival(m: Message): Event {
    match m
    case Details(_, details) => ResourceDescribed(details)
    case Plain(_, plain, _) =>
      (match plain
       case PowerMeasurement => Measured(m)
       case PowerForecast => Forecast(m)
       case PpbcPowerProfileStatus | DdbcPresentDemandStatus => StatusArrived(m)
       case _ => DescriptionArrived(m))
    case InstructionStatusUpdate(_, _, _) => InstructionStatusChanged(m)
    case TimerStatus(_, _, _, _, _) => TimerReported(m)
    case SystemDescription(_, _, _, _) => DescriptionArrived(m)
    case Publish(_, _, _, _) => DescriptionArrived(m)
    case _ => StatusArrived(m)
  }

  /** What the manager does about a message it has taken up. */
  function TakenByManager(s: CemEngine.State, m: Message, now: Timestamp): Doing
    requires !m.ReceptionStatus?
  {
    var e := s.engine;
    match m
    case Handshake(_, _, versions) =>
      var chosen := CemEngine.Choose(e.config.versions, if versions.Some? then versions.value else s.peerVersions);
      if chosen.Some? && ProfileOf(chosen.value).Some? then
        Then(Sending(e, HandshakeResponse(Minted(e.core.role, e.core.minted + 1), chosen.value), now),
             Telling(Negotiated(chosen.value, ProfileOf(chosen.value).value)))
      else Ending(e, NoCommonVersion)
    case SessionRequest(_, request) => Then(Telling(SessionRequested(request)), Ending(e, PeerRequested(request)))
    case RevokeObject(_, target) => Then(Recording(RegistryRuns.DoRevoke(target)), Telling(Withdrew(target)))
    case _ => Then(Recording(RegistryRuns.DoRecord(m, now)), Telling(Arrival(m)))
  }

  /** The manager goes over to the selection it is waiting to hear of. */
  function Confirmed(s: CemEngine.State, subject: Id): Doing {
    if s.pendingSelection.Some? && s.pendingSelection.value.id == subject
    then Choosing(s.pendingSelection.value.controlType) else STILL
  }

  function OnRead(s: Side, m: Message, now: Timestamp, v: Verdict): Doing {
    match s
    case RmSide(rm) =>
      if m.ReceptionStatus? then OnAnswer(rm.engine, m.subject, m.status, now, STILL)
      else OnMessage(rm.engine, m, v, TakenByResource(rm, m, now, v))
    case CemSide(cem) =>
      if m.ReceptionStatus? then OnAnswer(cem.engine, m.subject, m.status, now, Confirmed(cem, m.subject))
      else OnMessage(cem.engine, m, v, TakenByManager(cem, m, now))
  }

  /** The message of a frame that decodes, in the wire agreed on. */
  predicate IsLegible(e: Engine, f: Frame) { f.Wire? && f.message.Kind().ExistsIn(e.core.profile) }

  function OnFrame(s: Side, f: Frame, now: Timestamp, v: Verdict): Doing {
    var e := s.Engine();
    if e.IsClosed() then STILL
    else if IsLegible(e, f) then
      Then(if f.pruned then Telling(Warnings(f.message.Kind())) else STILL, OnRead(s, f.message, now, v))
    else
      var (kind, subject, status) :=
        if f.Garbage? then (f.kind, f.subject, f.status)
        else (Some(f.message.Kind()), if f.message.ReceptionStatus? then Nil else f.message.id, InvalidMessage);
      Then(if kind == Some(KReceptionStatus) then STILL
        else Answering(subject, status), Telling(Refused(kind, status)))
  }

  /** A session lets a message out: it is open, the message exists in its wire and is allowed to its role
      now, and no validator stands in the way. */
  predicate LetsOut(e: Engine, m: Message, v: Verdict) {
    && !e.IsClosed() && m.Kind().ExistsIn(e.core.profile)
    && StateTable.MaySend(e.core.state.Phase(), e.core.role, m.Kind())
    && !(e.config.validateOutbound && v.errors)
  }

  function OnSend(e: Engine, m: Message, now: Timestamp, v: Verdict): Doing {
    if LetsOut(e, m, v) then
      Then(if e.config.validateOutbound && v.warned then Telling(OutboundWarnings(m.Kind()))
        else STILL, Sending(e, m, now))
    else STILL
  }

  function OnRequest(e: Engine, request: SessionRequestType, now: Timestamp, v: Verdict): Doing {
    var m := SessionRequest(Minted(e.core.role, e.core.minted + 1), request);
    Then(OnSend(e, m, now, v), if LetsOut(e, m, v) then Ending(e, LocallyRequested(request)) else STILL)
  }

  /** Every message that has run out of time, in the order they were sent. */
  function Expired(pending: seq<Outstanding>, now: Timestamp): (told: seq<Event>) {
    if pending == [] then []
    else
      var n := |pending| - 1;
      Expired(pending[..n], now) + if pending[n].deadline.AtMost(now) then [TimedOut(pending[n].handle)] else []
  }

  /** Every description whose time has come, in the order of the queue. */
  function CameIntoForce(q: seq<Registry.Queued>, now: Timestamp): (told: seq<Event>) {
    if q == [] then []
    else
      var n := |q| - 1;
      CameIntoForce(q[..n], now) + if q[n].at.AtMost(now) then [DescriptionActivated(q[n].message.Kind())] else []
  }

  lemma {:induction false} TimeIsTold(pending: seq<Outstanding>, q: seq<Registry.Queued>, now: Timestamp)
    ensures Expired(pending, now) == TimeoutEvents(DueHandles(pending, now))
    ensures CameIntoForce(q, now) == ActivationEvents(Registry.DueMessages(q, now))
    decreases |pending| + |q|
  {
    if pending != [] { TimeIsTold(pending[..|pending| - 1], [], now); }
    if q != [] { TimeIsTold([], q[..|q| - 1], now); }
  }

  function OnTime(e: Engine, now: Timestamp): Doing {
    Doing(Expired(e.core.acks.pending, now) + CameIntoForce(e.core.registry.scheduled, now),
          [], [RegistryRuns.DoActivate(now)], [OpExpire(now)])
  }

  function OnOpening(s: Side, now: Timestamp): Doing {
    var e := s.Engine();
    var id := Minted(e.core.role, e.core.minted + 1);
    if !e.core.state.Idle? then STILL
    else
      match e.config.negotiation
      case ByHandshake => Sending(e, Handshake(id, if s.RmSide? then Rm else Cem, Some(e.config.versions)), now)
      case PreNegotiated(p) =>
        Then(Telling(Negotiated(VersionOf(p), p)), if s.RmSide? then Sending(e, Details(id, s.rm.details), now)
          else STILL)
  }

  function OnEnd(e: Engine, reason: CloseReason): Doing { if e.IsClosed() then STILL else Ending(e, reason) }

  /** What one input brings about. An input that only the other side takes brings about nothing. */
  function Brings(s: Side, i: Input): Doing {
    var e := s.Engine();
    var id := Minted(e.core.role, e.core.minted + 1);
    match i
    case OpenIt(now) => OnOpening(s, now)
    case FeedText(f, now, v) => OnFrame(s, f, now, v)
    case SendMessage(m, now, v) => OnSend(e, m, now, v)
    case AskToEnd(request, now, v) => OnRequest(e, request, now, v)
    case LetTimePass(now) => OnTime(e, now)
    case CloseIt => OnEnd(e, Local)
    case LoseTransport => OnEnd(e, TransportClosed)
    case ReportStatus(instruction, update, now, v) =>
      if s.RmSide? then OnSend(e, InstructionStatusUpdate(id, instruction, update), now, v) else STILL
    case SelectType(c, now, v) => if s.CemSide? then OnSend(e, SelectControlType(id, c), now, v) else STILL
    case SendInstruction(m, blocked, now, v) =>
      if s.CemSide? && !(e.config.enforceTransitions && blocked) then OnSend(e, m, now, v) else STILL
    case WithdrawObject(target, now, v) =>
      if s.CemSide? then
        Then(OnSend(e, RevokeObject(id, target), now, v),
             if LetsOut(e, RevokeObject(id, target), v) then Recording(RegistryRuns.DoRevoke(target)) else STILL)
      else STILL
  }

  // -------------------------------------------------------------------------
  // It is just what each step does
  // -------------------------------------------------------------------------

  function Booked(l: LedgerState, ops: seq<Ledger.Op>): LedgerState { Ledger.Run(l, ops).0 }

  /** From `e` to `e'` just this is done. */
  ghost predicate Does(e: Engine, e': Engine, d: Doing) {
    && e'.events == e.events + d.told && e'.core.outbox == e.core.outbox + d.queued
    && e'.core.registry == RegistryRuns.Run(e.core.registry, d.recorded)
    && e'.core.acks == Booked(e.core.acks, d.booked) && e'.core.role == e.core.role
  }

  lemma {:induction false} RecordingOn(r: Registry.RegistryState, a: seq<RegistryRuns.Op>, b: seq<RegistryRuns.Op>)
    ensures RegistryRuns.Run(r, a + b) == RegistryRuns.Run(RegistryRuns.Run(r, a), b)
  {
    hide RegistryRuns.Step;
    if b == [] {
      assert a + b == a;
    } else {
      assert (a + b)[..|a + b| - 1] == a + b[..|b| - 1];
      RecordingOn(r, a, b[..|b| - 1]);
    }
  }

  lemma {:induction false} BookingOn(l: LedgerState, a: seq<Ledger.Op>, b: seq<Ledger.Op>)
    ensures Booked(l, a + b) == Booked(Booked(l, a), b)
  {
    hide Ledger.Apply, Ledger.Count;
    if b == [] {
      assert a + b == a;
    } else {
      assert (a + b)[..|a + b| - 1] == a + b[..|b| - 1];
      BookingOn(l, a, b[..|b| - 1]);
    }
  }

  lemma {:induction false} OneAfterAnother(a: Engine, b: Engine, c: Engine, x: Doing, y: Doing)
    requires Does(a, b, x) && Does(b, c, y)
    ensures Does(a, c, Then(x, y))
  {
    RecordingOn(a.core.registry, x.recorded, y.recorded);
    BookingOn(a.core.acks, x.booked, y.booked);
    hide RegistryRuns.Run, Booked;
  }

  /** What is not to be seen: the state, the wire and the numbering. */
  predicate LooksAlike(e: Engine, e': Engine) {
    && e'.events == e.events && e'.core.outbox == e.core.outbox && e'.core.registry == e.core.registry
    && e'.core.acks == e.core.acks && e'.core.role == e.core.role
  }

  lemma {:induction false} AlikeDoesNothing(e: Engine, e': Engine)
    requires LooksAlike(e, e')
    ensures Does(e, e', STILL)
  {
  }

  /** Changing what is not to be seen before or after changes nothing of what is done. */
  lemma {:induction false} DoingIsSeen(a: Engine, a': Engine, b: Engine, b': Engine, d: Doing)
    requires Does(a', b, d) && LooksAlike(a, a') && LooksAlike(b, b')
    ensures Does(a, b', d)
  {
    hide RegistryRuns.Run, Booked;
  }

  lemma {:induction false} OneOp(r: Registry.RegistryState, op: RegistryRuns.Op)
    ensures RegistryRuns.Run(r, [op]) == RegistryRuns.Step(r, op)
  {
    hide RegistryRuns.Step;
    assert [op][..0] == [];
    assert RegistryRuns.Run(r, [op][..0]) == r;
  }

  lemma {:induction false} OneBooking(l: LedgerState, op: Ledger.Op)
    ensures Booked(l, [op]) == Ledger.Apply(l, op)
  {
    hide Ledger.Apply, Ledger.Count;
    assert [op][..0] == [];
    assert Booked(l, [op][..0]) == l;
  }

  lemma {:induction false} EmitTells(e: Engine, event: Event)
    ensures Does(e, Emit(e, event), Telling(event))
  {
  }

  lemma {:induction false} AckAnswers(e: Engine, subject: Id, status: Status)
    ensures Does(e, Ack(e, subject, status), Answering(subject, status))
  {
    OneBooking(e.core.acks, OpAnswered(subject, status));
    hide AfterAnswered;
  }

  lemma {:induction false} DispatchSends(e: Engine, m: Message, now: Timestamp)
    ensures Does(e, Dispatch(e, m, now), Sending(e, m, now))
  {
    OneOp(e.core.registry, RegistryRuns.DoRecord(m, now));
    if !m.ReceptionStatus? {
      OneBooking(e.core.acks, OpSent(Handle(m.id, m.Kind()), now, DeadlineAfter(now, e.config.ackTimeout)));
    }
    hide Registry.Recorded, DeadlineAfter;
  }

  lemma {:induction false} CloseEnds(e: Engine, reason: CloseReason)
    requires !e.IsClosed()
    ensures Does(e, CloseWith(e, reason), Ending(e, reason))
  {
    hide ReconnectAfter;
  }

  lemma {:induction false} TellAndEnd(e: Engine, event: Event, reason: CloseReason)
    requires !e.IsClosed()
    ensures Does(e, CloseWith(Emit(e, event), reason), Then(Telling(event), Ending(e, reason)))
  {
    EmitTells(e, event);
    CloseEnds(Emit(e, event), reason);
    OneAfterAnother(e, Emit(e, event), CloseWith(Emit(e, event), reason), Telling(event), Ending(e, reason));
  }

  lemma {:induction false} NothingMore(d: Doing)
    ensures Then(d, STILL) == d && Then(STILL, d) == d
  {
  }

  lemma {:induction false} AnsweringTells(e: Engine, subject: Id, status: Status, event: Event)
    ensures Does(e, Emit(Ack(e, subject, status), event), Then(Answering(subject, status), Telling(event)))
  {
    AckAnswers(e, subject, status);
    EmitTells(Ack(e, subject, status), event);
    OneAfterAnother(e, Ack(e, subject, status), Emit(Ack(e, subject, status), event), Answering(subject, status),
      Telling(event));
  }

  lemma {:induction false} RefusingEnds(e: Engine, m: Message, status: Status, reason: CloseReason)
    requires !m.ReceptionStatus? && !e.IsClosed()
    ensures var refused := Emit(Ack(e, m.id, status), Refused(Some(m.Kind()), status));
      Does(e, refused, Refusing(m, status)) &&
        Does(e, CloseWith(refused, reason), Then(Refusing(m, status), Ending(e, reason)))
  {
    var refused := Emit(Ack(e, m.id, status), Refused(Some(m.Kind()), status));
    AnsweringTells(e, m.id, status, Refused(Some(m.Kind()), status));
    CloseEnds(refused, reason);
    OneAfterAnother(e, refused, CloseWith(refused, reason), Refusing(m, status), Ending(e, reason));
  }

  lemma {:induction false} ScreenAccepts(e: Engine, m: Message, v: Verdict)
    requires !m.ReceptionStatus? && !e.IsClosed() && Screen(e, m, v).1
    ensures Does(e, Screen(e, m, v).0, OnMessage(e, m, v, STILL))
    ensures LooksLikeAnswered(e, Screen(e, m, v).0)
  {
    AckAnswers(e, m.id, Ok);
    AnsweringTells(e, m.id, Ok, Warnings(m.Kind()));
    NothingMore(Answering(m.id, Ok));
    NothingMore(Then(Answering(m.id, Ok), Telling(Warnings(m.Kind()))));
    AcceptedLooks(e, m, v);
    hide LatestAnswer, Does, MayReceive, Ack, Emit, Answering, Then, Telling, LooksLikeAnswered;
  }

  lemma {:induction false} AcceptedLooks(e: Engine, m: Message, v: Verdict)
    requires !m.ReceptionStatus? && Screen(e, m, v).1
    ensures LooksLikeAnswered(e, Screen(e, m, v).0)
  {
    hide LatestAnswer, MayReceive, AfterAnswered;
  }

  lemma {:induction false} ScreenDoes(e: Engine, m: Message, v: Verdict)
    requires !m.ReceptionStatus? && !e.IsClosed()
    ensures Does(e, Screen(e, m, v).0, OnMessage(e, m, v, STILL))
  {
    var before := LatestAnswer(e.core.acks.answered, m.id);
    hide LatestAnswer, Does, MayReceive, Acknowledged, Answering, Then, Telling;
    if before.Some? {
      AnsweringTells(e, m.id, before.value, Warnings(m.Kind()));
    } else if v.errors || !MayReceive(e, m) {
      RefusingEnds(e, m, InvalidContent, ProtocolViolation);
      NothingMore(Refusing(m, InvalidContent));
    } else if v.policy.Some? {
      RefusingEnds(e, m, v.policy.value, ProtocolViolation);
    } else {
      ScreenAccepts(e, m, v);
    }
  }

  lemma {:induction false} AcceptedIsTakenUp(e: Engine, m: Message, v: Verdict)
    requires !m.ReceptionStatus?
    ensures Screen(e, m, v).1 <==> TakesUp(e, m, v)
    ensures TakesUp(e, m, v) ==> AnswerTo(e, m, v) == Answer(m.id, Ok)
  {
    LatestAnswerIsTheLatest(e.core.acks.answered, m.id);
    hide LatestAnswer, MayReceive, Acknowledged;
  }

  /** A message accepted leaves everything the engine decides by as it was. */
  predicate LooksLikeAnswered(e: Engine, e': Engine) {
    && e'.config == e.config && e'.core.role == e.core.role && e'.core.minted == e.core.minted
    && e'.core.state == e.core.state && e'.core.profile == e.core.profile
  }

  // -------------------------------------------------------------------------
  // The Resource Manager
  // -------------------------------------------------------------------------

  lemma {:induction false} ConnectingSendsDetails(e: Engine, connected: Engine, m: Message, event: Event, details: Body,
                                                  now: Timestamp)
    requires LooksAlike(e, connected) && connected.config == e.config && m == Details(MintedId(connected.core), details)
    ensures Does(e, RmEngine.SendDetails(Emit(connected, event), details, now),
      Then(Telling(event), Sending(e, m, now)))
  {
    var told := Emit(connected, event);
    EmitTells(connected, event);
    DispatchSends(MintOn(told), m, now);
    hide RegistryRuns.Run, Booked, Dispatch;
    AlikeDoesNothing(told, told);
    DoingIsSeen(e, connected, told, told, Telling(event));
    DoingIsSeen(told, MintOn(told), Dispatch(MintOn(told), m, now), Dispatch(MintOn(told), m, now), Sending(e, m, now));
    OneAfterAnother(e, told, Dispatch(MintOn(told), m, now), Telling(event), Sending(e, m, now));
  }

  lemma {:induction false} RmAgreeDoes(s: RmEngine.State, id: Id, selected: Version, now: Timestamp)
    requires !s.engine.IsClosed()
    ensures Does(s.engine, RmEngine.AgreeOn(s, selected, now).engine,
                 TakenByResource(s, HandshakeResponse(id, selected), now, Verdict(false, false, None, false)))
  {
    var e := s.engine;
    if RmEngine.Offered(e.config.versions, selected) && ProfileOf(selected).Some? {
      var p := ProfileOf(selected).value;
      var connected := e.(core := e.core.(profile := p, state := Connected));
      ConnectingSendsDetails(e, connected, Details(MintedId(e.core), s.details), Negotiated(selected, p), s.details,
        now);
    } else {
      CloseEnds(e, UnsupportedVersion(selected));
    }
    hide Does, RmEngine.SendDetails, CloseWith, ProfileOf;
  }

  lemma {:induction false} RegisteredRecords(e: Engine, m: Message, now: Timestamp)
    ensures Does(e, RmEngine.Registered(e, m, now), Recording(RegistryRuns.DoRecord(m, now)))
  {
    OneOp(e.core.registry, RegistryRuns.DoRecord(m, now));
    hide Registry.Recorded;
  }

  lemma {:induction false} WithdrawingRecords(e: Engine, target: Revokable)
    ensures Does(e, e.(core := e.core.(registry := Registry.Withdrawn(e.core.registry, target))),
                 Recording(RegistryRuns.DoRevoke(target)))
  {
    OneOp(e.core.registry, RegistryRuns.DoRevoke(target));
    hide Registry.Withdrawn;
  }

  /** Doing one thing and then telling the application. */
  lemma {:induction false} DoneAndTold(e: Engine, e': Engine, d: Doing, event: Event)
    requires Does(e, e', d)
    ensures Does(e, Emit(e', event), Then(d, Telling(event)))
  {
    hide Does;
    EmitTells(e', event);
    OneAfterAnother(e, e', Emit(e', event), d, Telling(event));
  }

  lemma {:induction false} ActivatedTells(e: Engine, c: ControlType)
    ensures Does(e, Activated(e, c), Choosing(c))
  {
    var chosen := e.(core := e.core.(state := AfterSelection(c)));
    var event := if c.NoSelection? then Deselected else Ready(c);
    EmitTells(chosen, event);
    DoingIsSeen(e, chosen, Emit(chosen, event), Emit(chosen, event), Telling(event));
  }

  lemma {:induction false} RmProcessDoes(s: RmEngine.State, m: Message, now: Timestamp, v: Verdict)
    requires !m.ReceptionStatus? && !s.engine.IsClosed()
    ensures Does(s.engine, RmEngine.Process(s, m, now, v).engine, TakenByResource(s, m, now, v))
  {
    hide Does, CloseWith, Emit, Registry.Recorded, Registry.Withdrawn, RmEngine.AgreeOn, Then, Telling, Recording,
      Ending, Choosing;
    var e := s.engine;
    match m
    case Handshake(_, _, _) => AlikeDoesNothing(e, e);
    case HandshakeResponse(id, selected) => RmAgreeDoes(s, id, selected, now);
    case SelectControlType(_, c) => ActivatedTells(e, c);
    case SessionRequest(_, request) => TellAndEnd(e, SessionRequested(request), PeerRequested(request));
    case RevokeObject(_, target) =>
      WithdrawingRecords(e, target);
      DoneAndTold(e, e.(core := e.core.(registry := Registry.Withdrawn(e.core.registry, target))),
                  Recording(RegistryRuns.DoRevoke(target)), Withdrew(target));
    case _ =>
      RegisteredRecords(e, m, now);
      DoneAndTold(e, RmEngine.Registered(e, m, now), Recording(RegistryRuns.DoRecord(m, now)), Instructed(m));
      NothingMore(Recording(RegistryRuns.DoRecord(m, now)));
  }

  lemma {:induction false} StatusesAreSettled(e: Engine, subject: Id, status: Status, now: Timestamp)
    ensures Does(e, Matched(e, subject, status, now), Booking(OpReceived(subject, status, now)))
  {
    OneBooking(e.core.acks, OpReceived(subject, status, now));
    hide AfterReceived;
  }

  /** The outcome of a settled answer, as the application is told of it. */
  function ToldOutcome(e: Engine, outcome: Outcome): Doing {
    match outcome
    case AckAccepted(h, _) => Telling(Acked(h))
    case AckRefused(h, status, consequence, _) =>
      Then(Telling(Nacked(h, status, consequence)), if consequence.Disconnect? then Ending(e, PeerPermanentError)
        else STILL)
    case AckTimedOut(h) => Telling(TimedOut(h))
    case AckUnmatched(subject, status) => Telling(UnmatchedAck(subject, status))
  }

  lemma {:induction false} ReportedTells(e: Engine, outcome: Outcome)
    requires !e.IsClosed()
    ensures Does(e, Reported(e, outcome), ToldOutcome(e, outcome))
  {
    hide Does, CloseWith, Emit, Then, Telling, Ending;
    match outcome
    case AckAccepted(h, _) => EmitTells(e, Acked(h));
    case AckRefused(h, status, consequence, _) =>
      EmitTells(e, Nacked(h, status, consequence));
      NothingMore(Telling(Nacked(h, status, consequence)));
      TellAndEnd(e, Nacked(h, status, consequence), PeerPermanentError);
    case AckTimedOut(h) => EmitTells(e, TimedOut(h));
    case AckUnmatched(id, status) => EmitTells(e, UnmatchedAck(id, status));
  }

  lemma {:induction false} OnAnswerIsTold(e: Engine, subject: Id, status: Status, now: Timestamp, confirmed: Doing)
    ensures var outcome := AfterReceived(e.core.acks, subject, status, now).1;
      OnAnswer(e, subject, status, now, confirmed) ==
        Then(Booking(OpReceived(subject, status, now)),
             if outcome.AckAccepted? then Then(confirmed, ToldOutcome(e, outcome)) else ToldOutcome(e, outcome))
  {
    hide Then, Telling, Ending, WithoutAt, SaturatingDurationSince;
  }

  lemma {:induction false} RmStatusDoes(s: RmEngine.State, subject: Id, status: Status, now: Timestamp)
    requires !s.engine.IsClosed()
    ensures Does(s.engine, RmEngine.OnStatus(s, subject, status, now).engine,
      OnAnswer(s.engine, subject, status, now, STILL))
  {
    var e, outcome := Matched(s.engine, subject, status, now),
      AfterReceived(s.engine.core.acks, subject, status, now).1;
    OnAnswerIsTold(s.engine, subject, status, now, STILL);
    StatusesAreSettled(s.engine, subject, status, now);
    ReportedTells(e, outcome);
    assert ToldOutcome(e, outcome) == ToldOutcome(s.engine, outcome);
    NothingMore(ToldOutcome(s.engine, outcome));
    hide Does, Reported, Matched, AfterReceived, Then, ToldOutcome, OnAnswer;
    OneAfterAnother(s.engine, e, Reported(e, outcome), Booking(OpReceived(subject, status, now)),
      ToldOutcome(s.engine, outcome));
  }

  lemma {:induction false} OnMessageTaken(e: Engine, m: Message, v: Verdict, taken: Doing)
    requires !m.ReceptionStatus?
    ensures OnMessage(e, m, v, taken) ==
      if Screen(e, m, v).1 then Then(OnMessage(e, m, v, STILL), taken) else OnMessage(e, m, v, STILL)
  {
    hide LatestAnswer, MayReceive, Acknowledged, Answering, Telling, Refusing, Ending, Ack;
  }

  lemma {:induction false} RmTakesAlike(s: RmEngine.State, e: Engine, m: Message, now: Timestamp, v: Verdict)
    requires !m.ReceptionStatus? && LooksLikeAnswered(s.engine, e)
    ensures TakenByResource(s.(engine := e), m, now, v) == TakenByResource(s, m, now, v)
  {
    hide Then, Telling, Recording, ProfileOf;
  }

  lemma {:induction false} RmTakenDoes(s: RmEngine.State, m: Message, now: Timestamp, v: Verdict)
    requires !s.engine.IsClosed() && !m.ReceptionStatus? && Screen(s.engine, m, v).1
    ensures var accepted := s.(engine := Screen(s.engine, m, v).0);
      Does(s.engine, RmEngine.Process(accepted, m, now, v).engine,
           Then(OnMessage(s.engine, m, v, STILL), TakenByResource(s, m, now, v)))
  {
    ScreenAccepts(s.engine, m, v);
    var e := Screen(s.engine, m, v).0;
    assert !e.IsClosed();
    hide *;
    RmTakesAlike(s, e, m, now, v);
    var accepted := s.(engine := e);
    RmProcessDoes(accepted, m, now, v);
    OneAfterAnother(s.engine, e, RmEngine.Process(accepted, m, now, v).engine, OnMessage(s.engine, m, v, STILL),
                    TakenByResource(s, m, now, v));
  }

  lemma {:induction false} RmMessageDoes(s: RmEngine.State, m: Message, now: Timestamp, v: Verdict)
    requires !s.engine.IsClosed()
    ensures Does(s.engine, RmEngine.HandleMessage(s, m, now, v).engine, OnRead(RmSide(s), m, now, v))
  {
    hide Does, Screen, RmEngine.Process, OnMessage, OnAnswer, RmEngine.OnStatus, TakenByResource;
    if m.ReceptionStatus? {
      RmStatusDoes(s, m.subject, m.status, now);
    } else {
      ScreenDoes(s.engine, m, v);
      OnMessageTaken(s.engine, m, v, TakenByResource(s, m, now, v));
      if Screen(s.engine, m, v).1 { RmTakenDoes(s, m, now, v); }
    }
  }

  /** What is done with a frame depends on nothing the note that it was pruned changes. */
  lemma {:induction false} ReadsAlike(s: Side, event: Event, m: Message, now: Timestamp, v: Verdict)
    ensures OnRead(EmittedOn(s, event), m, now, v) == OnRead(s, m, now, v)
  {
    var e := s.Engine();
    MayReceiveAlike(e, event, m);
    hide Then, Telling, Recording, Answering, ProfileOf, LatestAnswer, MayReceive;
    if m.ReceptionStatus? {
    } else if s.RmSide? {
      RmTakesAlike(s.rm, Emit(e, event), m, now, v);
      hide TakenByResource;
    } else {
      CemTakesAlike(s.cem, Emit(e, event), m, now);
      hide TakenByManager;
    }
  }

  lemma {:induction false} MayReceiveAlike(e: Engine, x: Event, m: Message)
    ensures MayReceive(Emit(e, x), m) == MayReceive(e, m)
  {
  }

  function EmittedOn(s: Side, event: Event): Side {
    match s
    case RmSide(rm) => RmSide(rm.(engine := Emit(rm.engine, event)))
    case CemSide(cem) => CemSide(cem.(engine := Emit(cem.engine, event)))
  }

  lemma {:induction false} UndecodableDoes(e: Engine, kind: Option<MessageKind>, subject: Id, status: Status)
    ensures Does(e, Undecodable(e, kind, subject, status),
                 Then(if kind == Some(KReceptionStatus) then STILL
                   else Answering(subject, status), Telling(Refused(kind, status))))
  {
    EmitTells(e, Refused(kind, status));
    NothingMore(Telling(Refused(kind, status)));
    AnsweringTells(e, subject, status, Refused(kind, status));
    hide Does, Ack, Emit, Then, Telling, Answering;
  }

  lemma {:induction false} RmFrameDoes(s: RmEngine.State, f: Frame, now: Timestamp, v: Verdict)
    ensures Does(s.engine, RmEngine.HandleFrame(s, f, now, v).engine, OnFrame(RmSide(s), f, now, v))
  {
    var e := s.engine;
    hide Does, RmEngine.HandleMessage, Undecodable, OnRead, Then, Telling, Answering;
    if e.IsClosed() {
      AlikeDoesNothing(e, e);
    } else if IsLegible(e, f) {
      var warning := Warnings(f.message.Kind());
      NothingMore(OnRead(RmSide(s), f.message, now, v));
      if f.pruned {
        var warned := s.(engine := Emit(e, warning));
        EmitTells(e, warning);
        RmMessageDoes(warned, f.message, now, v);
        ReadsAlike(RmSide(s), warning, f.message, now, v);
        OneAfterAnother(e, warned.engine, RmEngine.HandleMessage(warned, f.message, now, v).engine, Telling(warning),
                        OnRead(RmSide(s), f.message, now, v));
      } else {
        RmMessageDoes(s, f.message, now, v);
      }
    } else if f.Garbage? {
      UndecodableDoes(e, f.kind, f.subject, f.status);
    } else {
      UndecodableDoes(e, Some(f.message.Kind()), SubjectOf(f.message), InvalidMessage);
    }
  }

  // -------------------------------------------------------------------------
  // Sending
  // -------------------------------------------------------------------------

  lemma {:induction false} SendDoes(e: Engine, m: Message, now: Timestamp, v: Verdict)
    ensures Does(e, SendOn(e, m, now, v).0, OnSend(e, m, now, v))
    ensures SendOn(e, m, now, v).1.Accepted? <==> LetsOut(e, m, v) && !m.ReceptionStatus?
    ensures SendOn(e, m, now, v).0.config == e.config && SendOn(e, m, now, v).0.core.state == e.core.state
    ensures LetsOut(e, m, v) ==> !e.IsClosed()
  {
    var told := Emit(e, OutboundWarnings(m.Kind()));
    EmitTells(e, OutboundWarnings(m.Kind()));
    AlikeDoesNothing(e, e);
    DispatchSends(e, m, now);
    DispatchSends(told, m, now);
    NothingMore(Sending(e, m, now));
    OneAfterAnother(e, told, Dispatch(told, m, now), Telling(OutboundWarnings(m.Kind())), Sending(e, m, now));
    assert Sending(told, m, now) == Sending(e, m, now);
    hide Does, Registry.Recorded, StateTable.MaySend, Then, Sending, Telling;
  }

  /** Why a message is not let out, in the order the code looks; and a refusal changes nothing. */
  lemma {:induction false} RefusalsChangeNothing(e: Engine, m: Message, now: Timestamp, v: Verdict)
    ensures var (e', r) := SendOn(e, m, now, v);
      && (LetsOut(e, m, v) && !m.ReceptionStatus? ==> r == SendResult.Accepted(Handle(m.id, m.Kind())))
      && (!LetsOut(e, m, v) ==>
            && e' == e
            && r == if e.IsClosed() then Refusal(SessionClosed)
                    else if !m.Kind().ExistsIn(e.core.profile) then Refusal(NotInProfile)
                    else if StateTable.MaySend(e.core.state.Phase(), e.core.role, m.Kind()) then Refusal(Invalid)
                    else Refusal(NotAllowed))
  {
    hide Dispatch, StateTable.MaySend;
  }

  /** An instruction the application's own state speaks against is refused when that is to be enforced. */
  lemma {:induction false} BlockedInstructionsStay(s: CemEngine.State, m: Message, blocked: bool, now: Timestamp,
                                                   v: Verdict)
    ensures CemEngine.Instruct(s, m, blocked, now, v) ==
      if blocked && s.engine.config.enforceTransitions then (s, Refusal(Invalid)) else CemEngine.Send(s, m, now, v)
  {
  }

  /** When to try again: never after closing it oneself, at once if that was asked for, and otherwise
      after the delay of the attempt. */
  lemma {:induction false} WhenToReconnect(reason: CloseReason, attempt: nat)
    ensures ReconnectAfter(reason, attempt).None? <==> reason == Local
    ensures ReconnectAfter(reason, attempt) == Some(0) <==>
      reason == PeerRequested(Reconnect) || reason == LocallyRequested(Reconnect)
    ensures ReconnectAfter(reason, attempt) in {None, Some(0), Some(BackoffCeiling(attempt))}
  {
    BackoffIsThePrescribedOne(attempt);
  }

  lemma {:induction false} SentAlike(e: Engine, m: Message, now: Timestamp, v: Verdict)
    ensures OnSend(MintOn(e), m, now, v) == OnSend(e, m, now, v) && LetsOut(MintOn(e), m, v) == LetsOut(e, m, v)
  {
    hide Then, Telling, StateTable.MaySend;
  }

  lemma {:induction false} MintedSendDoes(e: Engine, m: Message, now: Timestamp, v: Verdict)
    ensures Does(e, SendOn(MintOn(e), m, now, v).0, OnSend(e, m, now, v))
    ensures SendOn(MintOn(e), m, now, v).1.Accepted? <==> LetsOut(e, m, v) && !m.ReceptionStatus?
    ensures var sent := SendOn(MintOn(e), m, now, v).0; sent.config == e.config && sent.core.state == e.core.state
    ensures LetsOut(e, m, v) ==> !e.IsClosed()
  {
    SendDoes(MintOn(e), m, now, v);
    SentAlike(e, m, now, v);
    hide SendOn, OnSend, RegistryRuns.Run, Booked;
    var sent := SendOn(MintOn(e), m, now, v).0;
    DoingIsSeen(e, MintOn(e), sent, sent, OnSend(e, m, now, v));
  }

  lemma {:induction false} RequestDoes(e: Engine, request: SessionRequestType, now: Timestamp, v: Verdict)
    ensures Does(e, RequestSession(e, request, now, v).0, OnRequest(e, request, now, v))
  {
    hide Does, SendOn, OnSend, CloseWith, LetsOut;
    var m := SessionRequest(MintedId(e.core), request);
    MintedSendDoes(e, m, now, v);
    NothingMore(OnSend(e, m, now, v));
    if LetsOut(e, m, v) {
      SentAndEnded(e, SendOn(MintOn(e), m, now, v).0, OnSend(e, m, now, v), LocallyRequested(request));
    }
    hide Then, Ending;
  }

  lemma {:induction false} SentAndEnded(e: Engine, sent: Engine, d: Doing, reason: CloseReason)
    requires Does(e, sent, d) && sent.config == e.config && !sent.IsClosed()
    ensures Does(e, CloseWith(sent, reason), Then(d, Ending(e, reason)))
  {
    CloseEnds(sent, reason);
    hide Does, CloseWith;
    OneAfterAnother(e, sent, CloseWith(sent, reason), d, Ending(e, reason));
  }

  lemma {:induction false} ElapseDoes(e: Engine, now: Timestamp)
    ensures Does(e, Elapse(e, now), OnTime(e, now))
  {
    OneOp(e.core.registry, RegistryRuns.DoActivate(now));
    OneBooking(e.core.acks, OpExpire(now));
    TimeIsTold(e.core.acks.pending, e.core.registry.scheduled, now);
    hide Expired, CameIntoForce;
    hide Registry.AfterActivation, Registry.DueMessages, Waiting, DueHandles, TimeoutEvents, ActivationEvents;
  }

  lemma {:induction false} ClosingDoes(e: Engine, reason: CloseReason)
    ensures Does(e, CloseWith(e, reason), OnEnd(e, reason))
  {
    if e.IsClosed() { AlikeDoesNothing(e, e); } else { CloseEnds(e, reason); }
  }

  lemma {:induction false} ShakingSends(e: Engine, shaking: Engine, m: Message, now: Timestamp)
    requires LooksAlike(e, shaking) && shaking.config == e.config
    ensures Does(e, Dispatch(shaking, m, now), Sending(e, m, now))
  {
    DispatchSends(shaking, m, now);
    assert Sending(shaking, m, now) == Sending(e, m, now);
    hide RegistryRuns.Run, Booked, Dispatch, Sending;
    DoingIsSeen(e, shaking, Dispatch(shaking, m, now), Dispatch(shaking, m, now), Sending(e, m, now));
  }

  lemma {:induction false} RmOpeningDoes(s: RmEngine.State, now: Timestamp)
    requires s.engine.core.role == Rm
    ensures Does(s.engine, RmEngine.Open(s, now).engine, OnOpening(RmSide(s), now))
  {
    var e := s.engine;
    AlikeDoesNothing(e, e);
    hide Does, RmEngine.SendDetails, VersionOf, Dispatch, Sending, Then, Telling;
    if e.core.state.Idle? {
      match e.config.negotiation
      case ByHandshake =>
        var shaking := MintOn(e).(core := MintOn(e).core.(state := Handshaking));
        ShakingSends(e, shaking, Handshake(MintedId(e.core), Rm, Some(e.config.versions)), now);
      case PreNegotiated(p) => RmConnects(s, p, now);
    }
  }

  lemma {:induction false} RmConnects(s: RmEngine.State, p: WireProfile, now: Timestamp)
    requires s.engine.core.state.Idle? && s.engine.config.negotiation == PreNegotiated(p)
    ensures Does(s.engine, RmEngine.Open(s, now).engine, OnOpening(RmSide(s), now))
  {
    hide Does, RmEngine.SendDetails, VersionOf, Sending, Then, Telling;
    var e := s.engine;
    var connected := e.(core := e.core.(profile := p, state := Connected));
    ConnectingSendsDetails(e, connected, Details(MintedId(e.core), s.details), Negotiated(VersionOf(p), p), s.details,
      now);
  }

  lemma {:induction false} RmStepDoes(s: RmEngine.State, i: Input)
    requires s.engine.core.role == Rm
    ensures Does(s.engine, RmStep(s, i).engine, Brings(RmSide(s), i))
  {
    hide Does, RmEngine.Open, RmEngine.HandleFrame, SendOn, RequestSession, Elapse, CloseWith, OnFrame, OnSend,
      OnRequest,
      OnTime, OnEnd, OnOpening;
    AlikeDoesNothing(s.engine, s.engine);
    match i
    case OpenIt(now) => RmOpeningDoes(s, now);
    case FeedText(f, now, v) => RmFrameDoes(s, f, now, v);
    case SendMessage(m, now, v) => SendDoes(s.engine, m, now, v);
    case ReportStatus(id, update, now, v) =>
      MintedSendDoes(s.engine, InstructionStatusUpdate(MintedId(s.engine.core), id, update), now, v);
    case AskToEnd(r, now, v) => RequestDoes(s.engine, r, now, v);
    case LetTimePass(now) => ElapseDoes(s.engine, now);
    case CloseIt => ClosingDoes(s.engine, Local);
    case LoseTransport => ClosingDoes(s.engine, TransportClosed);
    case _ =>
  }

  // -------------------------------------------------------------------------
  // The Customer Energy Manager
  // -------------------------------------------------------------------------

  lemma {:induction false} CemAnswersHandshake(s: CemEngine.State, offered: seq<Version>, m: Message, now: Timestamp)
    requires !s.engine.IsClosed() && m.Handshake?
    requires offered == (if m.versions.Some? then m.versions.value else s.peerVersions)
    ensures Does(s.engine, CemEngine.AnswerHandshake(s.(peerVersions := offered), now).engine,
      TakenByManager(s, m, now))
  {
    var e := s.engine;
    var chosen := CemEngine.Choose(e.config.versions, offered);
    hide CemEngine.Choose, ProfileOf, RegistryRuns.Run, Booked, Dispatch;
    if chosen.None? || ProfileOf(chosen.value).None? {
      CloseEnds(e, NoCommonVersion);
    } else {
      var p := ProfileOf(chosen.value).value;
      var connected := MintOn(e.(core := e.core.(profile := p, state := Connected)));
      var answer := HandshakeResponse(MintedId(e.core), chosen.value);
      DispatchSends(connected, answer, now);
      var sent := Dispatch(connected, answer, now);
      assert Sending(connected, answer, now) == Sending(e, answer, now);
      DoingIsSeen(e, connected, sent, sent, Sending(e, answer, now));
      DoneAndTold(e, sent, Sending(e, answer, now), Negotiated(chosen.value, p));
    }
  }

  lemma {:induction false} ArrivalsAreTold(m: Message)
    ensures Arrival(m) == CemEngine.ArrivalEvent(m)
  {
  }

  lemma {:induction false} CemProcessDoes(s: CemEngine.State, m: Message, now: Timestamp)
    requires !m.ReceptionStatus? && !s.engine.IsClosed()
    ensures Does(s.engine, CemEngine.Process(s, m, now).engine, TakenByManager(s, m, now))
  {
    var e := s.engine;
    if m.Handshake? {
      CemAnswersHandshake(s, if m.versions.Some? then m.versions.value else s.peerVersions, m, now);
      hide Does, CemEngine.AnswerHandshake, TakenByManager;
    } else {
      hide Does, CloseWith, Emit, Registry.Recorded, Registry.Withdrawn, Then, Telling, Recording, Ending, Arrival,
        CemEngine.ArrivalEvent;
      match m
      case SessionRequest(_, request) => TellAndEnd(e, SessionRequested(request), PeerRequested(request));
      case RevokeObject(_, target) =>
        WithdrawingRecords(e, target);
        DoneAndTold(e, e.(core := e.core.(registry := Registry.Withdrawn(e.core.registry, target))),
                    Recording(RegistryRuns.DoRevoke(target)), Withdrew(target));
      case _ =>
        RegisteredRecords(e, m, now);
        ArrivalsAreTold(m);
        DoneAndTold(e, RmEngine.Registered(e, m, now), Recording(RegistryRuns.DoRecord(m, now)), Arrival(m));
    }
  }

  lemma {:induction false} CemStatusDoes(s: CemEngine.State, subject: Id, status: Status, now: Timestamp)
    requires !s.engine.IsClosed()
    ensures Does(s.engine, CemEngine.OnStatus(s, subject, status, now).engine,
                 OnAnswer(s.engine, subject, status, now, Confirmed(s, subject)))
  {
    var e, outcome := Matched(s.engine, subject, status, now),
      AfterReceived(s.engine.core.acks, subject, status, now).1;
    var booked, told := Booking(OpReceived(subject, status, now)), ToldOutcome(s.engine, outcome);
    OnAnswerIsTold(s.engine, subject, status, now, Confirmed(s, subject));
    StatusesAreSettled(s.engine, subject, status, now);
    TheOutcomeNames(s.engine.core.acks, subject, status, now);
    NothingMore(told);
    if CemEngine.Decides(s, outcome) && outcome.AckAccepted? {
      var c := s.pendingSelection.value.controlType;
      ActivatedTells(e, c);
      ReportedTells(Activated(e, c), outcome);
      hide Does, Reported, Matched, AfterReceived, Then, OnAnswer, Activated, ToldOutcome, Choosing;
      assert ToldOutcome(Activated(e, c), outcome) == told by { ToldAlike(s.engine, Activated(e, c), outcome); }
      OneAfterAnother(e, Activated(e, c), Reported(Activated(e, c), outcome), Choosing(c), told);
      OneAfterAnother(s.engine, e, Reported(Activated(e, c), outcome), booked, Then(Choosing(c), told));
    } else {
      ReportedTells(e, outcome);
      ToldAlike(s.engine, e, outcome);
      hide Does, Reported, Matched, AfterReceived, Then, OnAnswer, ToldOutcome;
      OneAfterAnother(s.engine, e, Reported(e, outcome), booked, told);
    }
  }

  lemma {:induction false} TheOutcomeNames(l: LedgerState, subject: Id, status: Status, now: Timestamp)
    ensures var outcome := AfterReceived(l, subject, status, now).1;
      (outcome.AckAccepted? || outcome.AckRefused?) ==> outcome.handle.id == subject
  {
  }

  lemma {:induction false} ToldAlike(e: Engine, e': Engine, outcome: Outcome)
    requires e'.config == e.config
    ensures ToldOutcome(e', outcome) == ToldOutcome(e, outcome)
  {
  }

  lemma {:induction false} CemTakesAlike(s: CemEngine.State, e: Engine, m: Message, now: Timestamp)
    requires !m.ReceptionStatus? && LooksLikeAnswered(s.engine, e)
    ensures TakenByManager(s.(engine := e), m, now) == TakenByManager(s, m, now)
  {
    hide Then, Telling, Recording, ProfileOf, CemEngine.Choose;
  }

  lemma {:induction false} CemTakenDoes(s: CemEngine.State, m: Message, now: Timestamp, v: Verdict)
    requires !s.engine.IsClosed() && !m.ReceptionStatus? && Screen(s.engine, m, v).1
    ensures var accepted := s.(engine := Screen(s.engine, m, v).0);
      Does(s.engine, CemEngine.Process(accepted, m, now).engine,
           Then(OnMessage(s.engine, m, v, STILL), TakenByManager(s, m, now)))
  {
    ScreenAccepts(s.engine, m, v);
    var e := Screen(s.engine, m, v).0;
    assert !e.IsClosed();
    hide *;
    CemTakesAlike(s, e, m, now);
    var accepted := s.(engine := e);
    CemProcessDoes(accepted, m, now);
    OneAfterAnother(s.engine, e, CemEngine.Process(accepted, m, now).engine, OnMessage(s.engine, m, v, STILL),
                    TakenByManager(s, m, now));
  }

  lemma {:induction false} CemMessageDoes(s: CemEngine.State, m: Message, now: Timestamp, v: Verdict)
    requires !s.engine.IsClosed()
    ensures Does(s.engine, CemEngine.HandleMessage(s, m, now, v).engine, OnRead(CemSide(s), m, now, v))
  {
    hide Does, Screen, CemEngine.Process, OnMessage, OnAnswer, CemEngine.OnStatus, TakenByManager, Confirmed;
    if m.ReceptionStatus? {
      CemStatusDoes(s, m.subject, m.status, now);
    } else {
      ScreenDoes(s.engine, m, v);
      OnMessageTaken(s.engine, m, v, TakenByManager(s, m, now));
      if Screen(s.engine, m, v).1 { CemTakenDoes(s, m, now, v); }
    }
  }

  lemma {:induction false} CemFrameDoes(s: CemEngine.State, f: Frame, now: Timestamp, v: Verdict)
    ensures Does(s.engine, CemEngine.HandleFrame(s, f, now, v).engine, OnFrame(CemSide(s), f, now, v))
  {
    var e := s.engine;
    hide Does, CemEngine.HandleMessage, Undecodable, OnRead, Then, Telling, Answering;
    if e.IsClosed() {
      AlikeDoesNothing(e, e);
    } else if IsLegible(e, f) {
      var warning := Warnings(f.message.Kind());
      NothingMore(OnRead(CemSide(s), f.message, now, v));
      if f.pruned {
        var warned := s.(engine := Emit(e, warning));
        EmitTells(e, warning);
        CemMessageDoes(warned, f.message, now, v);
        ReadsAlike(CemSide(s), warning, f.message, now, v);
        OneAfterAnother(e, warned.engine, CemEngine.HandleMessage(warned, f.message, now, v).engine, Telling(warning),
                        OnRead(CemSide(s), f.message, now, v));
      } else {
        CemMessageDoes(s, f.message, now, v);
      }
    } else if f.Garbage? {
      UndecodableDoes(e, f.kind, f.subject, f.status);
    } else {
      UndecodableDoes(e, Some(f.message.Kind()), SubjectOf(f.message), InvalidMessage);
    }
  }

  lemma {:induction false} CemOpeningDoes(s: CemEngine.State, now: Timestamp)
    requires s.engine.core.role == Cem
    ensures Does(s.engine, CemEngine.Open(s, now).engine, OnOpening(CemSide(s), now))
  {
    var e := s.engine;
    AlikeDoesNothing(e, e);
    if e.core.state.Idle? {
      match e.config.negotiation
      case ByHandshake =>
        var shaking := MintOn(e).(core := MintOn(e).core.(state := Handshaking));
        ShakingSends(e, shaking, Handshake(MintedId(e.core), Cem, Some(e.config.versions)), now);
        hide Does, Dispatch, Sending;
      case PreNegotiated(p) =>
        var connected := e.(core := e.core.(profile := p, state := Connected));
        var event := Negotiated(VersionOf(p), p);
        EmitTells(connected, event);
        NothingMore(Telling(event));
        hide RegistryRuns.Run, Booked, VersionOf;
        DoingIsSeen(e, connected, Emit(connected, event), Emit(connected, event), Telling(event));
    }
  }

  lemma {:induction false} CemRevokeDoes(s: CemEngine.State, target: Revokable, now: Timestamp, v: Verdict)
    requires s.engine.core.role == Cem
    ensures Does(s.engine, CemEngine.Revoke(s, target, now, v).0.engine,
      Brings(CemSide(s), WithdrawObject(target, now, v)))
  {
    var e, m := s.engine, RevokeObject(MintedId(s.engine.core), target);
    var sent := SendOn(MintOn(e), m, now, v).0;
    MintedSendDoes(e, m, now, v);
    WithdrawingRecords(sent, target);
    NothingMore(OnSend(e, m, now, v));
    hide Does, SendOn, OnSend, LetsOut, Then, Recording, Registry.Withdrawn;
    OneAfterAnotherIf(e, sent, sent.(core := sent.core.(registry := Registry.Withdrawn(sent.core.registry, target))),
                      OnSend(e, m, now, v), Recording(RegistryRuns.DoRevoke(target)));
  }

  lemma {:induction false} OneAfterAnotherIf(a: Engine, b: Engine, c: Engine, x: Doing, y: Doing)
    ensures Does(a, b, x) && Does(b, c, y) ==> Does(a, c, Then(x, y))
  {
    if Does(a, b, x) && Does(b, c, y) { OneAfterAnother(a, b, c, x, y); }
  }

  lemma {:induction false} CemSendsDo(s: CemEngine.State, i: Input)
    requires s.engine.core.role == Cem && (i.SendMessage? || i.SendInstruction? || i.SelectType?)
    ensures Does(s.engine, CemStep(s, i).engine, Brings(CemSide(s), i))
  {
    hide Does, SendOn, OnSend;
    AlikeDoesNothing(s.engine, s.engine);
    match i
    case SendMessage(m, now, v) => SendDoes(s.engine, m, now, v);
    case SendInstruction(m, blocked, now, v) => SendDoes(s.engine, m, now, v);
    case SelectType(c, now, v) => MintedSendDoes(s.engine, SelectControlType(MintedId(s.engine.core), c), now, v);
  }

  lemma {:induction false} CemStepDoes(s: CemEngine.State, i: Input)
    requires s.engine.core.role == Cem
    ensures Does(s.engine, CemStep(s, i).engine, Brings(CemSide(s), i))
  {
    if i.WithdrawObject? {
      CemRevokeDoes(s, i.target, i.now, i.v);
    } else if i.SendMessage? || i.SendInstruction? || i.SelectType? {
      CemSendsDo(s, i);
    } else {
      hide Does, CemEngine.Open, CemEngine.HandleFrame, RequestSession, Elapse, CloseWith, OnFrame, OnRequest, OnTime,
        OnEnd, OnOpening;
      AlikeDoesNothing(s.engine, s.engine);
      match i
      case OpenIt(now) => CemOpeningDoes(s, now);
      case FeedText(f, now, v) => CemFrameDoes(s, f, now, v);
      case AskToEnd(r, now, v) => RequestDoes(s.engine, r, now, v);
      case LetTimePass(now) => ElapseDoes(s.engine, now);
      case CloseIt => ClosingDoes(s.engine, Local);
      case LoseTransport => ClosingDoes(s.engine, TransportClosed);
      case _ =>
    }
  }

  // -------------------------------------------------------------------------
  // Every run
  // -------------------------------------------------------------------------

  predicate PlaysItsRole(s: Side) { s.Engine().core.role == if s.RmSide? then Rm else Cem }

  lemma {:induction false} StepDoes(s: Side, i: Input)
    requires PlaysItsRole(s)
    ensures Does(s.Engine(), Step(s, i).Engine(), Brings(s, i))
  {
    hide Does, RmStep, CemStep, Brings;
    match s
    case RmSide(rm) => RmStepDoes(rm, i);
    case CemSide(cem) => CemStepDoes(cem, i);
  }

  /** Everything done along a run, in order. */
  function AllDone(l: Log, moves: seq<Move>): Doing {
    if moves == [] then STILL
    else
      var n := |moves| - 1;
      if moves[n].Do? then Then(AllDone(l, moves[..n]), Brings(After(l, moves[..n]).side, moves[n].i))
      else AllDone(l, moves[..n])
  }

  /** A session that has done just this since it was made. */
  ghost predicate HasDone(l: Log, d: Doing) {
    var e := l.side.Engine();
    && e.events == d.told && l.Queued() == d.queued
    && e.core.registry == RegistryRuns.Run(Registry.EMPTY, d.recorded)
    && e.core.acks == Booked(LedgerState([], [], ANSWERS_REMEMBERED), d.booked)
  }

  lemma {:induction false} HasDoneMore(l: Log, d: Doing, i: Input, more: Doing)
    requires HasDone(l, d) && Does(l.side.Engine(), Step(l.side, i).Engine(), more)
    ensures HasDone(Made(l, Do(i)), Then(d, more))
  {
    RecordingOn(Registry.EMPTY, d.recorded, more.recorded);
    BookingOn(LedgerState([], [], ANSWERS_REMEMBERED), d.booked, more.booked);
    hide RegistryRuns.Run, Booked, Step;
    var out := l.side.Engine().core.outbox;
    assert l.sent + (out + more.queued) == l.sent + out + more.queued;
  }

  lemma {:induction false} PollingDoesNothing(l: Log, d: Doing)
    requires HasDone(l, d)
    ensures HasDone(Made(l, Poll), d)
    ensures PlaysItsRole(l.side) ==> PlaysItsRole(Made(l, Poll).side)
  {
    hide RegistryRuns.Run, Booked;
    assert Made(l, Poll).Queued() == l.Queued();
  }

  lemma {:induction false} StepsPlayTheRole(s: Side, i: Input)
    requires PlaysItsRole(s)
    ensures PlaysItsRole(Step(s, i))
  {
    StepDoes(s, i);
    hide RmStep, CemStep, Brings, RegistryRuns.Run, Booked;
  }

  /** Over every run, and for whatever inputs, the events, the messages queued, the registry and the
      ledger are those the inputs bring about, in order, and nothing else. */
  lemma {:induction false} NothingElseIsDone(l: Log, moves: seq<Move>)
    requires JustMade(l)
    ensures HasDone(After(l, moves), AllDone(l, moves)) && PlaysItsRole(After(l, moves).side)
  {
    if moves == [] {
      hide RegistryRuns.Step, Ledger.Apply, Ledger.Count;
    } else {
      hide HasDone, Step, Brings, Does, JustMade, PlaysItsRole;
      var n := |moves| - 1;
      NothingElseIsDone(l, moves[..n]);
      var before := After(l, moves[..n]);
      match moves[n]
      case Do(i) =>
        StepDoes(before.side, i);
        StepsPlayTheRole(before.side, i);
        HasDoneMore(before, AllDone(l, moves[..n]), i, Brings(before.side, i));
      case Poll => PollingDoesNothing(before, AllDone(l, moves[..n]));
    }
  }
}
