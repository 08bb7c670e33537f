/** The Customer Energy Manager's session object: its methods do to its fields what the engine's
    functions say of its view. */
module CemSessions {
  import opened Ids
  import opened Time
  import opened Messages
  import opened Ledger
  import opened Registry
  import opened Session
  import opened SessionObjects
  import CemEngine

  class CemSession {
    const engine: EngineObject
    var peerVersions: seq<Version>
    var negotiated: Option<Version>
    var handshakeSent: bool
    var pendingSelection: Option<CemEngine.Selection>

    predicate Valid() { engine.Valid() }

    function Footprint(): set<object> { {this, engine, engine.core, engine.core.acks, engine.core.registry} }

    function View(): CemEngine.State
      reads Footprint()
    {
      CemEngine.State(engine.View(), peerVersions, negotiated, handshakeSent, pendingSelection)
    }

    constructor (config: Config)
      ensures Valid() && fresh(Footprint() - {this})
      ensures View() == CemEngine.Fresh(config)
    {
      engine := new EngineObject(Cem, config);
      peerVersions, negotiated, handshakeSent, pendingSelection := [], None, false, None;
    }

    /** Begin: send a handshake, or wait for the resource's details. */
    method Open(now: Timestamp)
      requires Valid()
      modifies Footprint()
      ensures View() == CemEngine.Open(old(View()), now)
    {
      hide EngineObject.View, Dispatch, MintOn, Emit;
      engine.Fields();
      if !engine.core.state.Idle? { return; }
      match engine.config.negotiation {
        case ByHandshake =>
          handshakeSent := true;
          var id := engine.NextMessageId();
          engine.BeginHandshake();
          var sent := engine.Transmit(Handshake(id, Cem, Some(engine.config.versions)), now);
        case PreNegotiated(p) =>
          negotiated := Some(VersionOf(p));
          engine.Connect(p);
          engine.PushEvent(Negotiated(VersionOf(p), p));
      }
    }

    /** The next message to put on the wire. */
    method PollTransmit() returns (out: Option<Message>)
      modifies Footprint()
      ensures var e := old(View()).engine;
        if e.core.outbox == [] then out.None? && View() == old(View())
        else
          && out == Some(e.core.outbox[0])
          && View() == old(View()).(engine := e.(core := e.core.(outbox := e.core.outbox[1..])))
    {
      out := engine.core.PollTransmit();
    }

    /** Feed in one text frame: every failure is answered and reported. */
    method HandleText(f: Frame, now: Timestamp, v: Verdict)
      requires Valid()
      modifies Footprint()
      ensures View() == CemEngine.HandleFrame(old(View()), f, now, v)
    {
      hide EngineObject.View, CemEngine.HandleMessage, Undecodable, Emit;
      engine.Fields();
      if engine.core.state.Closed? { return; }
      match f {
        case Garbage(kind, subject, status) => engine.Undecoded(kind, subject, status);
        case Wire(m, pruned) =>
          if !m.Kind().ExistsIn(engine.core.profile) {
            engine.Undecoded(Some(m.Kind()), SubjectOf(m), InvalidMessage);
            return;
          }
          if pruned { engine.PushEvent(Warnings(m.Kind())); }
          HandleMessage(m, now, v);
      }
    }

    /** Feed in one decoded message. */
    method HandleMessage(m: Message, now: Timestamp, v: Verdict)
      requires Valid()
      modifies Footprint()
      ensures View() == CemEngine.HandleMessage(old(View()), m, now, v)
    {
      hide EngineObject.View, CemEngine.Process, CemEngine.OnStatus, Screen;
      engine.Fields();
      if engine.core.state.Closed? { return; }
      if m.ReceptionStatus? {
        OnReceptionStatus(m.subject, m.status, now);
        return;
      }
      var accepted := engine.Review(m, v);
      if accepted { Process(m, now); }
    }

    /** Act on a message that has been accepted and acknowledged. */
    method Process(m: Message, now: Timestamp)
      requires Valid() && !m.ReceptionStatus?
      modifies Footprint()
      ensures View() == CemEngine.Process(old(View()), m, now)
    {
      hide EngineObject.View, CemEngine.AnswerHandshake, Recorded, Withdrawn, CloseWith, Emit, CemEngine.ArrivalEvent;
      if m.Handshake? {
        if m.versions.Some? { peerVersions := m.versions.value; }
        AnswerHandshake(now);
      } else if m.SessionRequest? {
        engine.PushEvent(SessionRequested(m.request));
        engine.CloseWithReason(PeerRequested(m.request));
      } else if m.RevokeObject? {
        engine.Withdraw(m.target);
      } else {
        engine.Note(m, now);
        engine.PushEvent(CemEngine.ArrivalEvent(m));
      }
    }

    /** Find the first version of ours that the peer offers in either spelling. */
    method ChooseVersion(ours: seq<Version>, theirs: seq<Version>) returns (chosen: Option<Version>)
      ensures chosen == CemEngine.Choose(ours, theirs)
    {
      var k := 0;
      while k < |ours|
        invariant 0 <= k <= |ours|
        invariant CemEngine.Choose(ours, theirs) == CemEngine.Choose(ours[k..], theirs)
      {
        var ourVersion := ours[k];
        if exists t <- theirs :: Matches(ourVersion, t) { return Some(ourVersion); }
        assert ours[k..][1..] == ours[k + 1..];
        k := k + 1;
      }
      chosen := None;
    }

    /** Choose a version, go over to it and say so; with none to choose, end the session. */
    method AnswerHandshake(now: Timestamp)
      requires Valid()
      modifies Footprint()
      ensures View() == CemEngine.AnswerHandshake(old(View()), now)
    {
      hide EngineObject.View, Dispatch, MintOn, CloseWith, Emit, ProfileOf, CemEngine.Choose;
      engine.Fields();
      var chosen := ChooseVersion(engine.config.versions, peerVersions);
      if chosen.None? {
        engine.CloseWithReason(NoCommonVersion);
        return;
      }
      var profile := ProfileOf(chosen.value);
      if profile.None? {
        engine.CloseWithReason(NoCommonVersion);
        return;
      }
      negotiated := chosen;
      engine.Connect(profile.value);
      var id := engine.NextMessageId();
      var sent := engine.Transmit(HandshakeResponse(id, chosen.value), now);
      engine.PushEvent(Negotiated(chosen.value, profile.value));
    }

    /** If the answer is to the pending selection it is decided: accepted, it is active. */
    method Decide(outcome: Outcome)
      modifies Footprint()
      ensures var s := old(View());
        View() ==
          if !CemEngine.Decides(s, outcome) then s
          else s.(engine := if outcome.AckAccepted? then Activated(s.engine, s.pendingSelection.value.controlType)
            else s.engine,
                  pendingSelection := None)
    {
      hide EngineObject.View, Activated;
      if outcome.AckAccepted? || outcome.AckRefused? {
        if pendingSelection.Some? && pendingSelection.value.id == outcome.handle.id {
          if outcome.AckAccepted? { engine.Activate(pendingSelection.value.controlType); }
          pendingSelection := None;
        }
      }
    }

    method OnReceptionStatus(subject: Id, status: Status, now: Timestamp)
      modifies Footprint()
      ensures View() == CemEngine.OnStatus(old(View()), subject, status, now)
    {
      hide EngineObject.View, AfterReceived, Matched, Reported, Activated;
      var outcome := engine.Match(subject, status, now);
      Decide(outcome);
      engine.Report(outcome);
    }

    /** Let time pass, and forget a selection nobody answered. */
    method HandleTimeout(now: Timestamp)
      modifies Footprint()
      ensures View() == CemEngine.HandleTimeout(old(View()), now)
    {
      hide EngineObject.View, Elapse, AfterExpire;
      var expired := engine.LetTimePass(now);
      var k := 0;
      while k < |expired|
        invariant 0 <= k <= |expired|
        invariant engine.View() == Elapse(old(engine.View()), now)
        invariant View() == old(View()).(engine := engine.View(), pendingSelection := pendingSelection)
        invariant pendingSelection == if CemEngine.PendingAmong(old(View()), expired[..k]) then None
          else old(pendingSelection)
      {
        assert expired[..k + 1] == expired[..k] + [expired[k]];
        if pendingSelection.Some? && pendingSelection.value.id == expired[k].id { pendingSelection := None; }
        k := k + 1;
      }
      assert expired[..k] == expired;
    }

    /** Send a message, if the state table, the profile and the validator allow it. */
    method Send(m: Message, now: Timestamp, v: Verdict) returns (result: SendResult)
      requires Valid()
      modifies Footprint()
      ensures (View(), result) == CemEngine.Send(old(View()), m, now, v)
    {
      hide EngineObject.View, SendOn;
      result := engine.Send(m, now, v);
    }

    /** Ask for a control type, which becomes active when the resource acknowledges it. */
    method SelectControlType(c: ControlType, now: Timestamp, v: Verdict) returns (result: SendResult)
      requires Valid()
      modifies Footprint()
      ensures (View(), result) == CemEngine.Select(old(View()), c, now, v)
    {
      hide EngineObject.View, SendOn, MintOn;
      var id := engine.NextMessageId();
      result := engine.Send(Message.SelectControlType(id, c), now, v);
      if result.Accepted? { pendingSelection := Some(CemEngine.Selection(result.handle.id, c)); }
    }

    /** Send an instruction, unless transitions are enforced and this one is blocked. */
    method Instruct(m: Message, blocked: bool, now: Timestamp, v: Verdict) returns (result: SendResult)
      requires Valid()
      modifies Footprint()
      ensures (View(), result) == CemEngine.Instruct(old(View()), m, blocked, now, v)
    {
      hide EngineObject.View, CemEngine.Send;
      engine.Fields();
      if engine.config.enforceTransitions && blocked { return Refusal(Invalid); }
      result := Send(m, now, v);
    }

    /** Withdraw something published earlier. */
    method Revoke(target: Revokable, now: Timestamp, v: Verdict) returns (result: SendResult)
      requires Valid()
      modifies Footprint()
      ensures (View(), result) == CemEngine.Revoke(old(View()), target, now, v)
    {
      hide EngineObject.View, SendOn, MintOn, Withdrawn;
      var id := engine.NextMessageId();
      result := engine.Send(RevokeObject(id, target), now, v);
      if result.Accepted? { engine.Forget(target); }
    }
  }
}
