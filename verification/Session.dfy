/** What both session engines are built on, as functions of their whole state. */
module Session {
  import opened Ids
  import opened Time
  import opened Messages
  import opened Ledger
  import opened Registry
  import StateTable

  const ANSWERS_REMEMBERED: nat := 256

  datatype Negotiation = ByHandshake | PreNegotiated(profile: WireProfile)

  datatype CloseReason =
    | Local
    | PeerRequested(byPeer: SessionRequestType)
    | LocallyRequested(locally: SessionRequestType)
    | TransportClosed
    | UnsupportedVersion(selected: Version)
    | NoCommonVersion
    | PeerPermanentError
    | ProtocolViolation

  datatype SessionState =
    | Idle
    | Handshaking
    | Connected
    | ControlTypeSelected(controlType: ControlType)
    | Closed(reason: CloseReason)
  {
    /** Which row of the state table this session is on. */
    function Phase(): StateTable.Phase {
      match this
      case Idle | Handshaking => StateTable.Negotiating
      case Connected | Closed(_) => StateTable.Connected
      case ControlTypeSelected(c) => StateTable.Selected(c)
    }
  }

  /** The state a selection leads to. */
  function AfterSelection(c: ControlType): SessionState {
    if c.NoSelection? then Connected else ControlTypeSelected(c)
  }

  /** A selection of anything, `NotControllable` included, is a selection; a deselection is a connection
      without one. Until a version is agreed a session is negotiating, and a closed one is past that. */
  lemma {:induction false} WhereSelectionsLead(c: ControlType)
    ensures AfterSelection(NoSelection) == Connected
    ensures c != NoSelection ==> AfterSelection(c) == ControlTypeSelected(c)
    ensures c.IsControllable() ==> AfterSelection(c).Phase() == StateTable.Activated(c)
    ensures !c.IsControllable() ==> AfterSelection(c).Phase() == StateTable.Connected
    ensures Idle.Phase() == Handshaking.Phase() == StateTable.Negotiating
    ensures forall reason :: Closed(reason).Phase() == StateTable.Connected
  {
  }

  datatype OutOfOrderPolicy = Report | CloseSession

  datatype Config = Config(
    negotiation: Negotiation,
    versions: seq<Version>,
    ackTimeout: Duration,
    outOfOrder: OutOfOrderPolicy,
    s2Connect: bool,
    validateOutbound: bool,
    enforceTransitions: bool,
    reconnectAttempt: nat)

  datatype SendError = SessionClosed | NotAllowed | NotInProfile | Invalid

  datatype SendResult = Accepted(handle: Handle) | Refusal(error: SendError)

  datatype Event =
    | Negotiated(version: Version, profile: WireProfile)
    | Ready(controlType: ControlType)
    | Deselected
    | Instructed(instruction: Message)
    | ResourceDescribed(details: Body)
    | DescriptionArrived(description: Message)
    | StatusArrived(statusMessage: Message)
    | Measured(measurement: Message)
    | Forecast(forecast: Message)
    | InstructionStatusChanged(update: Message)
    | TimerReported(timer: Message)
    | DescriptionActivated(kind: MessageKind)
    | Acked(handle: Handle)
    | Nacked(handle: Handle, status: Status, consequence: Consequence)
    | TimedOut(handle: Handle)
    | UnmatchedAck(subject: Id, status: Status)
    | Withdrew(target: Revokable)
    | SessionRequested(request: SessionRequestType)
    | Refused(refusedKind: Option<MessageKind>, status: Status)
    | Warnings(kind: MessageKind)
    | OutboundWarnings(kind: MessageKind)
    | Ended(reason: CloseReason, reconnectAfter: Option<Duration>)

  /** What validation and the application's policy say about one message. The rules behind
      the first two are not modelled, so they are free; the state table is not part of them. */
  datatype Verdict = Verdict(errors: bool, warned: bool, policy: Option<Status>, explained: bool)

  /** One inbound text frame: a message in the negotiated wire, or one that does not decode. */
  datatype Frame = Wire(message: Message, pruned: bool) | Garbage(kind: Option<MessageKind>, subject: Id,
    status: Status)

  /** The state both engines share. */
  datatype Core = Core(
    state: SessionState,
    profile: WireProfile,
    outbox: seq<Message>,
    acks: LedgerState,
    registry: RegistryState,
    role: Role,
    minted: nat)

  datatype Engine = Engine(core: Core, config: Config, events: seq<Event>) {
    predicate IsClosed() { core.state.Closed? }
  }

  function FreshCore(role: Role, config: Config): Core {
    Core(Idle, if config.negotiation.PreNegotiated? then config.negotiation.profile else V1_0_0,
         [], LedgerState([], [], ANSWERS_REMEMBERED), EMPTY, role, 0)
  }

  function Peer(r: Role): Role { if r == Rm then Cem else Rm }

  /** An identifier for a message the engine is generating itself. */
  function MintedId(c: Core): Id { Minted(c.role, c.minted + 1) }

  function Mint(c: Core): Core { c.(minted := c.minted + 1) }

  function DeadlineAfter(now: Timestamp, timeout: Duration): Timestamp {
    match CheckedAdd(now, timeout)
    case Some(t) => t
    case None => UNIX_EPOCH
  }

  /** A deadline is as long after the sending as the timeout says, if a timestamp can hold that. */
  lemma {:induction false} DeadlinesAreExact(now: Timestamp, timeout: Duration)
    ensures var due := now.Instant() + timeout * NANOS_PER_MILLI;
      if Representable(due) then DeadlineAfter(now, timeout).Instant() == due
      else DeadlineAfter(now, timeout) == UNIX_EPOCH
  {
    hide CheckedAdd;
  }

  /** Queue a message, register it for acknowledgement, and record what it publishes. */
  function Transmitted(c: Core, timeout: Duration, m: Message, now: Timestamp): Core {
    var c1 := c.(registry := Recorded(c.registry, m, now), outbox := c.outbox + [m]);
    match m.MessageId()
    case None => c1
    case Some(id) => c1.(acks := AfterSent(c1.acks, Handle(id, m.Kind()), now, DeadlineAfter(now, timeout)))
  }

  /** Answer an inbound message. */
  function Acknowledged(c: Core, subject: Id, status: Status): Core {
    c.(acks := AfterAnswered(c.acks, subject, status), outbox := c.outbox + [ReceptionStatus(subject, status)])
  }

  function PollTimeout(c: Core): Option<Timestamp> {
    if c.state.Closed? then None
    else Earlier(EarliestDeadline(c.acks.pending), EarliestActivation(c.registry.scheduled))
  }

  /** A session wakes at the soonest of its deadlines and activations, and no more once it is closed. */
  lemma {:induction false} WakesAtTheSoonest(c: Core)
    ensures PollTimeout(c).None? <==> c.state.Closed? || (c.acks.pending == [] && c.registry.scheduled == [])
    ensures PollTimeout(c).Some? ==>
      var t := PollTimeout(c).value;
      && ((exists o <- c.acks.pending :: o.deadline == t) || exists e <- c.registry.scheduled :: e.at == t)
      && (forall o <- c.acks.pending :: t.AtMost(o.deadline)) && (forall e <- c.registry.scheduled :: t.AtMost(e.at))
  {
    var a, b := EarliestDeadline(c.acks.pending), EarliestActivation(c.registry.scheduled);
    if a.Some? && b.Some? {
      OrderIsTotal(a.value, b.value);
      OrderIsTotal(b.value, a.value);
      forall o <- c.acks.pending ensures b.value.Before(a.value) ==> b.value.AtMost(o.deadline) {
        OrderIsTotal(a.value, o.deadline);
        OrderIsTotal(b.value, o.deadline);
      }
      forall e <- c.registry.scheduled ensures a.value.AtMost(b.value) ==> a.value.AtMost(e.at) {
        OrderIsTotal(b.value, e.at);
      }
    }
  }

  // -------------------------------------------------------------------------
  // Reconnection
  // -------------------------------------------------------------------------

  const BACKOFF_BASE: Duration := 2_000
  const BACKOFF_MAX: Duration := 600_000

  function Pow2(n: nat): (r: nat)
    ensures r > 0
  {
    if n == 0 then 1 else 2 * Pow2(n - 1)
  }

  function SaturatingMul(a: U64, b: nat): U64 {
    if a * b <= U64_MAX then a * b else U64_MAX
  }

  /** The ceiling for attempt `n`: the shift is capped and the product saturates. */
  function BackoffCeiling(attempt: nat): Duration {
    var scaled := SaturatingMul(BACKOFF_BASE, Pow2(if attempt < 40 then attempt else 40));
    if scaled < BACKOFF_MAX then scaled else BACKOFF_MAX
  }

  lemma {:induction false} Pow2Grows(m: nat, n: nat)
    requires m <= n
    ensures Pow2(m) <= Pow2(n)
  {
    if m < n { Pow2Grows(m, n - 1); }
  }

  /** Capping and saturating never show: the ceiling is the prescribed `min(600 s, 2 s * 2^n)`. */
  lemma {:induction false} BackoffIsThePrescribedOne(attempt: nat)
    ensures BackoffCeiling(attempt) == if 2_000 * Pow2(attempt) < 600_000 then 2_000 * Pow2(attempt) else 600_000
  {
    assert Pow2(4) == 16 && Pow2(8) == 256 && Pow2(9) == 512;
    if attempt >= 9 {
      Pow2Grows(9, attempt);
      Pow2Grows(9, if attempt < 40 then attempt else 40);
    } else {
      Pow2Grows(attempt, 9);
    }
  }

  // -------------------------------------------------------------------------
  // What both engines do alike
  // -------------------------------------------------------------------------

  function ReconnectAfter(reason: CloseReason, attempt: nat): Option<Duration> {
    match reason
    case Local => None
    case PeerRequested(Reconnect) | LocallyRequested(Reconnect) => Some(0)
    case _ => Some(BackoffCeiling(attempt))
  }

  function CloseWith(e: Engine, reason: CloseReason): Engine {
    if e.IsClosed() then e
    else e.(core := e.core.(state := Closed(reason)),
            events := e.events + [Ended(reason, ReconnectAfter(reason, e.config.reconnectAttempt))])
  }

  function Emit(e: Engine, event: Event): Engine { e.(events := e.events + [event]) }

  function Ack(e: Engine, subject: Id, status: Status): Engine {
    e.(core := Acknowledged(e.core, subject, status))
  }

  function Dispatch(e: Engine, m: Message, now: Timestamp): Engine {
    e.(core := Transmitted(e.core, e.config.ackTimeout, m, now))
  }

  predicate IsHandshakeKind(k: MessageKind) { k.KHandshake? || k.KHandshakeResponse? }

  /** The table's answer for a message arriving now. */
  predicate MayReceive(e: Engine, m: Message) {
    StateTable.MaySend(e.core.state.Phase(), Peer(e.core.role), m.Kind())
  }

  /** Answer a message that has an identifier, and say whether it goes on to be processed. */
  function Screen(e: Engine, m: Message, v: Verdict): (Engine, bool)
    requires !m.ReceptionStatus?
  {
    match LatestAnswer(e.core.acks.answered, m.id)
    case Some(previous) => (Emit(Ack(e, m.id, previous), Warnings(m.Kind())), false)
    case None =>
      if v.errors || !MayReceive(e, m) then
        var refused := Emit(Ack(e, m.id, InvalidContent), Refused(Some(m.Kind()), InvalidContent));
        (if e.config.outOfOrder.CloseSession? && !MayReceive(e, m) then CloseWith(refused, ProtocolViolation)
          else refused,
         false)
      else if v.policy.Some? then
        (Emit(Ack(e, m.id, v.policy.value), Refused(Some(m.Kind()), v.policy.value)), false)
      else
        var accepted := Ack(e, m.id, Ok);
        (if v.warned || (e.config.s2Connect && IsHandshakeKind(m.Kind())) then Emit(accepted, Warnings(m.Kind()))
          else accepted,
         true)
  }

  /** A frame that does not decode is answered without being looked up. */
  function Undecodable(e: Engine, kind: Option<MessageKind>, subject: Id, status: Status): Engine {
    Emit(if kind == Some(KReceptionStatus) then e else Ack(e, subject, status), Refused(kind, status))
  }

  /** Go to the state a selection leads to, and tell the application. */
  function Activated(e: Engine, c: ControlType): Engine {
    Emit(e.(core := e.core.(state := AfterSelection(c))), if c.NoSelection? then Deselected else Ready(c))
  }

  /** Tell the application how a message of ours was answered; a permanent error ends the session. */
  function Reported(e: Engine, outcome: Outcome): Engine {
    match outcome
    case AckAccepted(h, _) => Emit(e, Acked(h))
    case AckRefused(h, status, consequence, _) =>
      var told := Emit(e, Nacked(h, status, consequence));
      if consequence.Disconnect? then CloseWith(told, PeerPermanentError) else told
    case AckTimedOut(h) => Emit(e, TimedOut(h))
    case AckUnmatched(subject, status) => Emit(e, UnmatchedAck(subject, status))
  }

  /** The engine once a reception status has been matched to what it answers. */
  function Matched(e: Engine, subject: Id, status: Status, now: Timestamp): Engine {
    e.(core := e.core.(acks := AfterReceived(e.core.acks, subject, status, now).0))
  }

  function SubjectOf(m: Message): Id {
    if m.ReceptionStatus? then Nil else m.id
  }

  /** The state table, the profile and the validator decide at the call site. */
  function SendOn(e: Engine, m: Message, now: Timestamp, v: Verdict): (Engine, SendResult) {
    if e.IsClosed() then (e, Refusal(SessionClosed))
    else if !m.Kind().ExistsIn(e.core.profile) then (e, Refusal(NotInProfile))
    else if !StateTable.MaySend(e.core.state.Phase(), e.core.role, m.Kind()) then (e, Refusal(NotAllowed))
    else if e.config.validateOutbound && v.errors then (e, Refusal(Invalid))
    else
      var e1 := if e.config.validateOutbound && v.warned then Emit(e, OutboundWarnings(m.Kind())) else e;
      (Dispatch(e1, m, now),
       if m.ReceptionStatus? then Refusal(SessionClosed) else SendResult.Accepted(Handle(m.id, m.Kind())))
  }

  function MintOn(e: Engine): Engine { e.(core := Mint(e.core)) }

  function RequestSession(e: Engine, request: SessionRequestType, now: Timestamp, v: Verdict): (Engine, SendResult) {
    var (e1, r) := SendOn(MintOn(e), SessionRequest(MintedId(e.core), request), now, v);
    (if r.Accepted? then CloseWith(e1, LocallyRequested(request)) else e1, r)
  }

  function TimeoutEvents(handles: seq<Handle>): seq<Event> {
    seq(|handles|, k requires 0 <= k < |handles| => TimedOut(handles[k]))
  }

  function ActivationEvents(due: seq<Message>): seq<Event> {
    seq(|due|, k requires 0 <= k < |due| => DescriptionActivated(due[k].Kind()))
  }

  /** Let time pass: expire acknowledgements and activate scheduled descriptions. */
  function Elapse(e: Engine, now: Timestamp): Engine {
    var (acks, expired) := AfterExpire(e.core.acks, now);
    e.(core := e.core.(acks := acks, registry := AfterActivation(e.core.registry, now)),
       events := e.events + TimeoutEvents(expired) + ActivationEvents(DueMessages(e.core.registry.scheduled, now)))
  }
}

/** The Resource Manager's side of one session, as a function of its state and its input. */
module RmEngine {
  import opened Ids
  import opened Time
  import opened Messages
  import opened Ledger
  import opened Registry
  import opened Session

  datatype State = State(
    engine: Engine,
    details: Body,
    peerVersions: seq<Version>,
    negotiated: Option<Version>,
    handshakeSeen: bool)

  function Fresh(config: Config, details: Body): State {
    State(Engine(FreshCore(Rm, config), config, []), details, [], None, false)
  }

  function SendDetails(e: Engine, details: Body, now: Timestamp): Engine {
    Dispatch(MintOn(e), Details(MintedId(e.core), details), now)
  }

  function Open(s: State, now: Timestamp): State {
    if !s.engine.core.state.Idle? then s
    else
      match s.engine.config.negotiation
      case ByHandshake =>
        var e := MintOn(s.engine);
        var shaking := e.(core := e.core.(state := Handshaking));
        s.(engine := Dispatch(shaking, Handshake(MintedId(s.engine.core), Rm, Some(s.engine.config.versions)), now))
      case PreNegotiated(p) =>
        var e := s.engine.(core := s.engine.core.(profile := p, state := Connected));
        s.(engine := SendDetails(Emit(e, Negotiated(VersionOf(p), p)), s.details, now), negotiated :=
          Some(VersionOf(p)))
  }

  function Registered(e: Engine, m: Message, now: Timestamp): Engine {
    e.(core := e.core.(registry := Recorded(e.core.registry, m, now)))
  }

  predicate Offered(versions: seq<Version>, selected: Version) {
    exists v <- versions :: Matches(v, selected)
  }

  function AgreeOn(s: State, selected: Version, now: Timestamp): State {
    var e := s.engine;
    if !Offered(e.config.versions, selected) || ProfileOf(selected).None? then
      s.(engine := CloseWith(e, UnsupportedVersion(selected)))
    else
      var p := ProfileOf(selected).value;
      var e1 := Emit(e.(core := e.core.(profile := p, state := Connected)), Negotiated(selected, p));
      s.(engine := SendDetails(e1, s.details, now), negotiated := Some(selected))
  }

  /** Act on a message that has been accepted and acknowledged. */
  function Process(s: State, m: Message, now: Timestamp, v: Verdict): State
    requires !m.ReceptionStatus?
  {
    match m
    case Handshake(_, _, versions) =>
      s.(handshakeSeen := true, peerVersions := if versions.Some? then versions.value else s.peerVersions)
    case HandshakeResponse(_, selected) => AgreeOn(s, selected, now)
    case SelectControlType(_, c) => s.(engine := Activated(s.engine, c))
    case SessionRequest(_, request) =>
      s.(engine := CloseWith(Emit(s.engine, SessionRequested(request)), PeerRequested(request)))
    case RevokeObject(_, target) =>
      var core := s.engine.core;
      s.(engine := Emit(s.engine.(core := core.(registry := Withdrawn(core.registry, target))), Withdrew(target)))
    case _ =>
      var e := Registered(s.engine, m, now);
      s.(engine := if m.Instruction? && v.explained then Emit(e, Instructed(m)) else e)
  }

  function OnStatus(s: State, subject: Id, status: Status, now: Timestamp): State {
    var outcome := AfterReceived(s.engine.core.acks, subject, status, now).1;
    s.(engine := Reported(Matched(s.engine, subject, status, now), outcome))
  }

  function HandleMessage(s: State, m: Message, now: Timestamp, v: Verdict): State {
    if s.engine.IsClosed() then s
    else if m.ReceptionStatus? then OnStatus(s, m.subject, m.status, now)
    else
      var (e, accepted) := Screen(s.engine, m, v);
      if accepted then Process(s.(engine := e), m, now, v) else s.(engine := e)
  }

  function HandleFrame(s: State, f: Frame, now: Timestamp, v: Verdict): State {
    if s.engine.IsClosed() then s
    else
      match f
      case Garbage(kind, subject, status) => s.(engine := Undecodable(s.engine, kind, subject, status))
      case Wire(m, pruned) =>
        if !m.Kind().ExistsIn(s.engine.core.profile) then
          s.(engine := Undecodable(s.engine, Some(m.Kind()), SubjectOf(m), InvalidMessage))
        else
          HandleMessage(if pruned then s.(engine := Emit(s.engine, Warnings(m.Kind()))) else s, m, now, v)
  }

  function Send(s: State, m: Message, now: Timestamp, v: Verdict): (State, SendResult) {
    var (e, r) := SendOn(s.engine, m, now, v);
    (s.(engine := e), r)
  }

  function ReportInstruction(s: State, instruction: Id, update: InstructionStatus, now: Timestamp, v: Verdict)
      : (State, SendResult) {
    Send(s.(engine := MintOn(s.engine)), InstructionStatusUpdate(MintedId(s.engine.core), instruction, update), now, v)
  }
}

/** The Customer Energy Manager's side of one session. */
module CemEngine {
  import opened Ids
  import opened Time
  import opened Messages
  import opened Ledger
  import opened Registry
  import opened Session

  datatype Selection = Selection(id: Id, controlType: ControlType)

  datatype State = State(
    engine: Engine,
    peerVersions: seq<Version>,
    negotiated: Option<Version>,
    handshakeSent: bool,
    pendingSelection: Option<Selection>)

  function Fresh(config: Config): State {
    State(Engine(FreshCore(Cem, config), config, []), [], None, false, None)
  }

  function Open(s: State, now: Timestamp): State {
    if !s.engine.core.state.Idle? then s
    else
      match s.engine.config.negotiation
      case ByHandshake =>
        var e := MintOn(s.engine);
        var shaking := e.(core := e.core.(state := Handshaking));
        s.(engine := Dispatch(shaking, Handshake(MintedId(s.engine.core), Cem, Some(s.engine.config.versions)), now),
           handshakeSent := true)
      case PreNegotiated(p) =>
        var e := s.engine.(core := s.engine.core.(profile := p, state := Connected));
        s.(engine := Emit(e, Negotiated(VersionOf(p), p)), negotiated := Some(VersionOf(p)))
  }

  /** The first version of ours that the peer offers in either spelling. */
  function Choose(ours: seq<Version>, theirs: seq<Version>): Option<Version> {
    if ours == [] then None
    else if exists t <- theirs :: Matches(ours[0], t) then Some(ours[0])
    else Choose(ours[1..], theirs)
  }

  function AnswerHandshake(s: State, now: Timestamp): State {
    var e := s.engine;
    var chosen := Choose(e.config.versions, s.peerVersions);
    if chosen.None? || ProfileOf(chosen.value).None? then s.(engine := CloseWith(e, NoCommonVersion))
    else
      var p := ProfileOf(chosen.value).value;
      var e1 := MintOn(e.(core := e.core.(profile := p, state := Connected)));
      var e2 := Dispatch(e1, HandshakeResponse(MintedId(e.core), chosen.value), now);
      s.(engine := Emit(e2, Negotiated(chosen.value, p)), negotiated := Some(chosen.value))
  }

  function ArrivalEvent(m: Message): Event {
    match m
    case Details(_, d) => ResourceDescribed(d)
    case Plain(_, PowerMeasurement, _) => Measured(m)
    case Plain(_, PowerForecast, _) => Forecast(m)
    case InstructionStatusUpdate(_, _, _) => InstructionStatusChanged(m)
    case TimerStatus(_, _, _, _, _) => TimerReported(m)
    case SystemDescription(_, _, _, _) | Publish(_, _, _, _) => DescriptionArrived(m)
    case Plain(_, FrbcLeakageBehaviour, _) | Plain(_, FrbcUsageForecast, _)
       | Plain(_, FrbcFillLevelTargetProfile, _) | Plain(_, DdbcAverageDemandRateForecast, _) => DescriptionArrived(m)
    case _ => StatusArrived(m)
  }

  function Process(s: State, m: Message, now: Timestamp): State
    requires !m.ReceptionStatus?
  {
    match m
    case Handshake(_, _, versions) =>
      AnswerHandshake(s.(peerVersions := if versions.Some? then versions.value else s.peerVersions), now)
    case SessionRequest(_, request) =>
      s.(engine := CloseWith(Emit(s.engine, SessionRequested(request)), PeerRequested(request)))
    case RevokeObject(_, target) =>
      var core := s.engine.core;
      s.(engine := Emit(s.engine.(core := core.(registry := Withdrawn(core.registry, target))), Withdrew(target)))
    case _ =>
      var core := s.engine.core;
      s.(engine := Emit(s.engine.(core := core.(registry := Recorded(core.registry, m, now))), ArrivalEvent(m)))
  }

  predicate IsPending(s: State, id: Id) {
    s.pendingSelection.Some? && s.pendingSelection.value.id == id
  }

  /** The answer is to the pending selection, one way or the other. */
  predicate Decides(s: State, outcome: Outcome) {
    (outcome.AckAccepted? || outcome.AckRefused?) && IsPending(s, outcome.handle.id)
  }

  function OnStatus(s: State, subject: Id, status: Status, now: Timestamp): State {
    var outcome := AfterReceived(s.engine.core.acks, subject, status, now).1;
    var e := Matched(s.engine, subject, status, now);
    if Decides(s, outcome) then
      var confirmed := if outcome.AckAccepted? then Activated(e, s.pendingSelection.value.controlType) else e;
      s.(engine := Reported(confirmed, outcome), pendingSelection := None)
    else s.(engine := Reported(e, outcome))
  }

  function HandleMessage(s: State, m: Message, now: Timestamp, v: Verdict): State {
    if s.engine.IsClosed() then s
    else if m.ReceptionStatus? then OnStatus(s, m.subject, m.status, now)
    else
      var (e, accepted) := Screen(s.engine, m, v);
      if accepted then Process(s.(engine := e), m, now) else s.(engine := e)
  }

  function HandleFrame(s: State, f: Frame, now: Timestamp, v: Verdict): State {
    if s.engine.IsClosed() then s
    else
      match f
      case Garbage(kind, subject, status) => s.(engine := Undecodable(s.engine, kind, subject, status))
      case Wire(m, pruned) =>
        if !m.Kind().ExistsIn(s.engine.core.profile) then
          s.(engine := Undecodable(s.engine, Some(m.Kind()), SubjectOf(m), InvalidMessage))
        else
          HandleMessage(if pruned then s.(engine := Emit(s.engine, Warnings(m.Kind()))) else s, m, now, v)
  }

  predicate PendingAmong(s: State, handles: seq<Handle>) {
    exists h <- handles :: IsPending(s, h.id)
  }

  /** Time passing also forgets a selection nobody answered. */
  function HandleTimeout(s: State, now: Timestamp): State {
    var expired := AfterExpire(s.engine.core.acks, now).1;
    s.(engine := Elapse(s.engine, now),
       pendingSelection := if PendingAmong(s, expired) then None else s.pendingSelection)
  }

  function Send(s: State, m: Message, now: Timestamp, v: Verdict): (State, SendResult) {
    var (e, r) := SendOn(s.engine, m, now, v);
    (s.(engine := e), r)
  }

  /** Ask for a control type; it becomes active when the resource acknowledges it. */
  function Select(s: State, c: ControlType, now: Timestamp, v: Verdict): (State, SendResult) {
    var (e, r) := SendOn(MintOn(s.engine), SelectControlType(MintedId(s.engine.core), c), now, v);
    (s.(engine := e, pendingSelection := if r.Accepted? then Some(Selection(r.handle.id, c)) else s.pendingSelection),
      r)
  }

  /** `blocked` is what the explanation of the instruction says about timers and conditions. */
  function Instruct(s: State, m: Message, blocked: bool, now: Timestamp, v: Verdict): (State, SendResult) {
    if s.engine.config.enforceTransitions && blocked then (s, Refusal(Invalid)) else Send(s, m, now, v)
  }

  function Revoke(s: State, target: Revokable, now: Timestamp, v: Verdict): (State, SendResult) {
    var (e, r) := SendOn(MintOn(s.engine), RevokeObject(MintedId(s.engine.core), target), now, v);
    (s.(engine := if r.Accepted? then e.(core := e.core.(registry := Withdrawn(e.core.registry, target))) else e), r)
  }
}
