/** The state both engines share, as the engines hold it. */
module SessionObjects {
  import opened Ids
  import opened Time
  import opened Messages
  import opened Ledger
  import opened Registry
  import opened Session
  import StateTable

  class SessionCore {
    var state: SessionState
    var profile: WireProfile
    var outbox: seq<Message>
    const acks: AckLedger
    const registry: RegistryTables
    const role: Role
    var minted: nat
    const ackTimeout: Duration

    function View(): Core
      reads this, acks, registry
    {
      Core(state, profile, outbox, acks.View(), registry.View(), role, minted)
    }

    constructor (role: Role, config: Config)
      ensures fresh(acks) && fresh(registry)
      ensures View() == FreshCore(role, config) && ackTimeout == config.ackTimeout
    {
      state, outbox, minted := Idle, [], 0;
      profile := match config.negotiation case PreNegotiated(p) => p case ByHandshake => V1_0_0;
      this.role, ackTimeout := role, config.ackTimeout;
      acks := new AckLedger(ANSWERS_REMEMBERED);
      registry := new RegistryTables();
    }

    /** An identifier for a message the engine is generating itself. */
    method NextMessageId() returns (id: Id)
      modifies this`minted
      ensures View() == Mint(old(View())) && id == MintedId(old(View()))
    {
      minted := minted + 1;
      id := Minted(role, minted);
    }

    /** Queue a message, register it for acknowledgement, and record what it publishes. */
    method Transmit(m: Message, now: Timestamp) returns (handle: Option<Handle>)
      modifies this`outbox, acks, registry
      ensures View() == Transmitted(old(View()), ackTimeout, m, now)
      ensures handle == if m.ReceptionStatus? then None else Some(Handle(m.id, m.Kind()))
    {
      hide Recorded;
      registry.Record(m, now);
      outbox := outbox + [m];
      match m.MessageId() {
        case None => return None;
        case Some(id) =>
          handle := Some(Handle(id, m.Kind()));
          var at := CheckedAdd(now, ackTimeout);
          acks.Sent(handle.value, now, if at.Some? then at.value else UNIX_EPOCH);
      }
    }

    /** Answer an inbound message, as the standard requires of every message but one. */
    method Acknowledge(subject: Id, status: Status)
      modifies this`outbox, acks
      ensures View() == Acknowledged(old(View()), subject, status)
    {
      acks.Answered(subject, status);
      outbox := outbox + [ReceptionStatus(subject, status)];
    }

    /** The next instant at which there is something to do; never, once the session is over. */
    method NextWake() returns (at: Option<Timestamp>)
      ensures at == PollTimeout(View())
    {
      if state.Closed? { return None; }
      var a := acks.NextDeadline();
      var b := registry.NextActivation();
      match (a, b) {
        case (Some(x), Some(y)) => at := if y.Before(x) then b else a;
        case (None, _) => at := b;
        case (_, None) => at := a;
      }
    }

    /** The next message to put on the wire. */
    method PollTransmit() returns (out: Option<Message>)
      modifies this`outbox
      ensures old(outbox) == [] ==> out.None? && outbox == []
      ensures old(outbox) != [] ==> out == Some(old(outbox)[0]) && outbox == old(outbox)[1..]
    {
      if outbox == [] { return None; }
      out, outbox := Some(outbox[0]), outbox[1..];
    }
  }

  /** What both engines hold and do alike: the core, the configuration and the event queue. */
  class EngineObject {
    const core: SessionCore
    const config: Config
    var events: seq<Event>

    predicate Valid() { core.ackTimeout == config.ackTimeout }

    function View(): Engine
      reads this`events, core, core.acks, core.registry
    {
      Engine(core.View(), config, events)
    }

    lemma {:induction false} Fields()
      ensures View().core.acks.answered == core.acks.answered && View().config == config
      ensures View().core.state == core.state && View().core.profile == core.profile
      ensures View().core.outbox == core.outbox && View().core.role == core.role
    {
    }

    constructor (role: Role, config: Config)
      ensures Valid() && fresh(core) && fresh(core.acks) && fresh(core.registry)
      ensures View() == Engine(FreshCore(role, config), config, [])
    {
      this.config := config;
      core := new SessionCore(role, config);
      events := [];
    }

    method PushEvent(event: Event)
      modifies this`events
      ensures View() == Emit(old(View()), event)
    {
      events := events + [event];
    }

    method CloseWithReason(reason: CloseReason)
      modifies this`events, core`state
      ensures View() == CloseWith(old(View()), reason)
    {
      if core.state.Closed? { return; }
      core.state := Closed(reason);
      events := events + [Ended(reason, ReconnectAfter(reason, config.reconnectAttempt))];
    }

    /** Answer an inbound message. */
    method Answer(subject: Id, status: Status)
      modifies core`outbox, core.acks
      ensures View() == Ack(old(View()), subject, status)
    {
      core.Acknowledge(subject, status);
    }

    /** A frame that does not decode is answered without being looked up. */
    method Undecoded(kind: Option<MessageKind>, subject: Id, status: Status)
      modifies this`events, core`outbox, core.acks
      ensures View() == Undecodable(old(View()), kind, subject, status)
    {
      hide View, Ack, Emit;
      if kind != Some(KReceptionStatus) { Answer(subject, status); }
      PushEvent(Refused(kind, status));
    }

    /** Answer a message that has an identifier, and say whether it goes on to be processed. */
    method Review(m: Message, v: Verdict) returns (accepted: bool)
      requires !m.ReceptionStatus?
      modifies this`events, core`outbox, core`state, core.acks
      ensures (View(), accepted) == Screen(old(View()), m, v)
    {
      hide View, Ack, CloseWith, Emit, MayReceive, LatestAnswer;
      Fields();
      var previous := core.acks.PreviousAnswer(m.id);
      if previous.Some? {
        Answer(m.id, previous.value);
        PushEvent(Warnings(m.Kind()));
        return false;
      }
      var inOrder := MayReceive(View(), m);
      if v.errors || !inOrder {
        Answer(m.id, InvalidContent);
        PushEvent(Refused(Some(m.Kind()), InvalidContent));
        if config.outOfOrder.CloseSession? && !inOrder { CloseWithReason(ProtocolViolation); }
        return false;
      }
      if v.policy.Some? {
        Answer(m.id, v.policy.value);
        PushEvent(Refused(Some(m.Kind()), v.policy.value));
        return false;
      }
      Answer(m.id, Ok);
      if v.warned || (config.s2Connect && IsHandshakeKind(m.Kind())) { PushEvent(Warnings(m.Kind())); }
      accepted := true;
    }

    /** Withdraw an object the peer revokes. */
    method Withdraw(target: Revokable)
      modifies this`events, core.registry
      ensures var e := old(View());
        View() == Emit(e.(core := e.core.(registry := Withdrawn(e.core.registry, target))), Withdrew(target))
    {
      hide Withdrawn;
      core.registry.Revoke(target);
      PushEvent(Withdrew(target));
    }

    /** Withdraw an object of our own. */
    method Forget(target: Revokable)
      modifies core.registry
      ensures View() == old(View()).(core :=
        old(View()).core.(registry := Withdrawn(old(View()).core.registry, target)))
    {
      hide Withdrawn;
      core.registry.Revoke(target);
    }

    /** Record what an accepted message publishes. */
    method Note(m: Message, now: Timestamp)
      modifies core.registry
      ensures View() == old(View()).(core := old(View()).core.(registry := Recorded(old(View()).core.registry, m, now)))
    {
      hide Recorded;
      core.registry.Record(m, now);
    }

    /** Go to the state a selection leads to, and tell the application. */
    method Activate(c: ControlType)
      modifies this`events, core`state
      ensures View() == Activated(old(View()), c)
    {
      if c.NoSelection? {
        core.state := SessionState.Connected;
        PushEvent(Deselected);
      } else {
        core.state := ControlTypeSelected(c);
        PushEvent(Ready(c));
      }
    }

    /** Match a reception status to what it answers. */
    method Match(subject: Id, status: Status, now: Timestamp) returns (outcome: Outcome)
      modifies core.acks
      ensures outcome == AfterReceived(old(View()).core.acks, subject, status, now).1
      ensures View() == Matched(old(View()), subject, status, now)
    {
      hide AfterReceived;
      outcome := core.acks.Received(subject, status, now);
    }

    /** Tell the application how a message of ours was answered. */
    method Report(outcome: Outcome)
      modifies this`events, core`state
      ensures View() == Reported(old(View()), outcome)
    {
      hide View, Emit, CloseWith;
      match outcome {
        case AckAccepted(h, _) => PushEvent(Acked(h));
        case AckRefused(h, status, consequence, _) =>
          PushEvent(Nacked(h, status, consequence));
          if consequence.Disconnect? { CloseWithReason(PeerPermanentError); }
        case AckTimedOut(h) => PushEvent(TimedOut(h));
        case AckUnmatched(id, status) => PushEvent(UnmatchedAck(id, status));
      }
    }

    /** Let time pass: expire acknowledgements and activate scheduled descriptions. */
    method LetTimePass(now: Timestamp) returns (expired: seq<Handle>)
      modifies this`events, core.acks, core.registry
      ensures View() == Elapse(old(View()), now)
      ensures expired == AfterExpire(old(View()).core.acks, now).1
    {
      hide AfterExpire, AfterActivation, DueMessages;
      expired := core.acks.Expire(now);
      PushTimeouts(expired);
      var due := core.registry.ActivateDue(now);
      PushActivations(due);
    }

    method PushTimeouts(expired: seq<Handle>)
      modifies this`events
      ensures events == old(events) + TimeoutEvents(expired)
    {
      var k := 0;
      while k < |expired|
        invariant 0 <= k <= |expired|
        invariant events == old(events) + TimeoutEvents(expired[..k])
      {
        assert TimeoutEvents(expired[..k + 1]) == TimeoutEvents(expired[..k]) + [TimedOut(expired[k])];
        events := events + [TimedOut(expired[k])];
        k := k + 1;
      }
      assert expired[..k] == expired;
    }

    method PushActivations(due: seq<Message>)
      modifies this`events
      ensures events == old(events) + ActivationEvents(due)
    {
      var k := 0;
      while k < |due|
        invariant 0 <= k <= |due|
        invariant events == old(events) + ActivationEvents(due[..k])
      {
        assert ActivationEvents(due[..k + 1]) == ActivationEvents(due[..k]) + [DescriptionActivated(due[k].Kind())];
        events := events + [DescriptionActivated(due[k].Kind())];
        k := k + 1;
      }
      assert due[..k] == due;
    }

    /** Queue a message and register it for acknowledgement. */
    method Transmit(m: Message, now: Timestamp) returns (handle: Option<Handle>)
      requires Valid()
      modifies core`outbox, core.acks, core.registry
      ensures View() == Dispatch(old(View()), m, now)
      ensures handle == if m.ReceptionStatus? then None else Some(Handle(m.id, m.Kind()))
    {
      hide Transmitted;
      handle := core.Transmit(m, now);
    }

    /** Send a message, if the state table, the profile and the validator allow it. */
    method Send(m: Message, now: Timestamp, v: Verdict) returns (result: SendResult)
      requires Valid()
      modifies this`events, core`outbox, core.acks, core.registry
      ensures (View(), result) == SendOn(old(View()), m, now, v)
    {
      hide View, Dispatch, StateTable.MaySend, Emit;
      Fields();
      if core.state.Closed? { return Refusal(SessionClosed); }
      if !m.Kind().ExistsIn(core.profile) { return Refusal(NotInProfile); }
      if !StateTable.MaySend(core.state.Phase(), View().core.role, m.Kind()) { return Refusal(NotAllowed); }
      if config.validateOutbound {
        if v.errors { return Refusal(Invalid); }
        if v.warned { PushEvent(OutboundWarnings(m.Kind())); }
      }
      var handle := Transmit(m, now);
      result := if handle.Some? then SendResult.Accepted(handle.value) else Refusal(SessionClosed);
    }

    /** An identifier for a message the engine is generating itself. */
    method NextMessageId() returns (id: Id)
      modifies core`minted
      ensures View() == MintOn(old(View())) && id == MintedId(old(View()).core)
    {
      id := core.NextMessageId();
    }

    /** Wait for the handshake's answer. */
    method BeginHandshake()
      modifies core`state
      ensures View() == old(View()).(core := old(View()).core.(state := Handshaking))
    {
      core.state := Handshaking;
    }

    /** Go over to the wire that was agreed. */
    method Connect(profile: WireProfile)
      modifies core`profile, core`state
      ensures View() == old(View()).(core := old(View()).core.(profile := profile, state := SessionState.Connected))
    {
      core.profile := profile;
      core.state := SessionState.Connected;
    }

    /** Ask the peer to end or restart the session. */
    method AskToEnd(request: SessionRequestType, now: Timestamp, v: Verdict) returns (result: SendResult)
      requires Valid()
      modifies this`events, core, core.acks, core.registry
      ensures (View(), result) == RequestSession(old(View()), request, now, v)
    {
      hide View, SendOn, MintOn, CloseWith;
      var id := NextMessageId();
      result := Send(SessionRequest(id, request), now, v);
      if result.Accepted? { CloseWithReason(LocallyRequested(request)); }
    }
  }
}
