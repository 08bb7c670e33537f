/** The Resource Manager's session object: its methods do to its fields what the engine's functions
    say of its view. */
module RmSessions {
  import opened Ids
  import opened Time
  import opened Messages
  import opened Ledger
  import opened Registry
  import opened Session
  import opened SessionObjects
  import RmEngine

  class RmSession {
    const engine: EngineObject
    const details: Body
    var peerVersions: seq<Version>
    var negotiated: Option<Version>
    var handshakeSeen: bool

    predicate Valid() { engine.Valid() }

    function Footprint(): set<object> { {this, engine, engine.core, engine.core.acks, engine.core.registry} }

    function View(): RmEngine.State
      reads Footprint()
    {
      RmEngine.State(engine.View(), details, peerVersions, negotiated, handshakeSeen)
    }

    constructor (config: Config, details: Body)
      ensures Valid() && fresh(Footprint() - {this})
      ensures View() == RmEngine.Fresh(config, details)
    {
      this.details := details;
      engine := new EngineObject(Rm, config);
      peerVersions, negotiated, handshakeSeen := [], None, false;
    }

    method SendDetails(now: Timestamp)
      requires Valid()
      modifies engine.core`outbox, engine.core`minted, engine.core.acks, engine.core.registry
      ensures engine.View() == RmEngine.SendDetails(old(engine.View()), details, now)
    {
      hide EngineObject.View, Dispatch, MintOn;
      var id := engine.NextMessageId();
      var sent := engine.Transmit(Details(id, details), now);
    }

    /** Begin. The Resource Manager speaks first. */
    method Open(now: Timestamp)
      requires Valid()
      modifies Footprint()
      ensures View() == RmEngine.Open(old(View()), now)
    {
      hide EngineObject.View, Dispatch, MintOn, RmEngine.SendDetails, Emit;
      engine.Fields();
      if !engine.core.state.Idle? { return; }
      match engine.config.negotiation {
        case ByHandshake =>
          var id := engine.NextMessageId();
          engine.BeginHandshake();
          var sent := engine.Transmit(Handshake(id, Rm, Some(engine.config.versions)), now);
        case PreNegotiated(p) =>
          negotiated := Some(VersionOf(p));
          engine.Connect(p);
          engine.PushEvent(Negotiated(VersionOf(p), p));
          SendDetails(now);
      }
    }

    /** The next message to put on the wire. */
    method PollTransmit() returns (out: Option<Message>)
      modifies Footprint()
      ensures var e := old(View()).engine;
        if e.core.outbox == [] then out.None? && View() == old(View())
        else
          && out == Some(e.core.outbox[0])
          && View() == old(View()).(engine := e.(core := e.core.(outbox := e.core.outbox[1..])))
    {
      out := engine.core.PollTransmit();
    }

    /** Feed in one text frame: every failure is answered and reported. */
    method HandleText(f: Frame, now: Timestamp, v: Verdict)
      requires Valid()
      modifies Footprint()
      ensures View() == RmEngine.HandleFrame(old(View()), f, now, v)
    {
      hide EngineObject.View, RmEngine.HandleMessage, Undecodable, Emit;
      engine.Fields();
      if engine.core.state.Closed? { return; }
      match f {
        case Garbage(kind, subject, status) => engine.Undecoded(kind, subject, status);
        case Wire(m, pruned) =>
          if !m.Kind().ExistsIn(engine.core.profile) {
            engine.Undecoded(Some(m.Kind()), SubjectOf(m), InvalidMessage);
            return;
          }
          if pruned { engine.PushEvent(Warnings(m.Kind())); }
          HandleMessage(m, now, v);
      }
    }

    /** Feed in one decoded message. */
    method HandleMessage(m: Message, now: Timestamp, v: Verdict)
      requires Valid()
      modifies Footprint()
      ensures View() == RmEngine.HandleMessage(old(View()), m, now, v)
    {
      hide EngineObject.View, RmEngine.Process, RmEngine.OnStatus, Screen;
      engine.Fields();
      if engine.core.state.Closed? { return; }
      if m.ReceptionStatus? {
        OnReceptionStatus(m.subject, m.status, now);
        return;
      }
      var accepted := engine.Review(m, v);
      if accepted { Process(m, now, v); }
    }

    /** Act on a message that has been accepted and acknowledged. */
    method Process(m: Message, now: Timestamp, v: Verdict)
      requires Valid() && !m.ReceptionStatus?
      modifies Footprint()
      ensures View() == RmEngine.Process(old(View()), m, now, v)
    {
      hide EngineObject.View, RmEngine.AgreeOn, Recorded, Withdrawn, CloseWith, Emit, Activated;
      if m.Handshake? {
        handshakeSeen := true;
        if m.versions.Some? { peerVersions := m.versions.value; }
      } else if m.HandshakeResponse? {
        Agree(m.selected, now);
      } else if m.SelectControlType? {
        engine.Activate(m.controlType);
      } else if m.SessionRequest? {
        engine.PushEvent(SessionRequested(m.request));
        engine.CloseWithReason(PeerRequested(m.request));
      } else if m.RevokeObject? {
        engine.Withdraw(m.target);
      } else {
        engine.Note(m, now);
        if m.InstructionId().Some? && v.explained { engine.PushEvent(Instructed(m)); }
      }
    }

    /** Settle on the version the manager chose. */
    method Agree(selected: Version, now: Timestamp)
      requires Valid()
      modifies Footprint()
      ensures View() == RmEngine.AgreeOn(old(View()), selected, now)
    {
      hide EngineObject.View, RmEngine.SendDetails, Matches, CloseWith, Emit, ProfileOf;
      engine.Fields();
      var ours := engine.config.versions;
      var offered, k := false, 0;
      while k < |ours| && !offered
        invariant 0 <= k <= |ours|
        invariant offered <==> exists j :: 0 <= j < k && Matches(ours[j], selected)
        decreases |ours| - k
      {
        offered := Matches(ours[k], selected);
        k := k + 1;
      }
      assert offered <==> RmEngine.Offered(ours, selected);
      hide RmEngine.Offered;
      var profile := ProfileOf(selected);
      if !offered || profile.None? {
        engine.CloseWithReason(UnsupportedVersion(selected));
        return;
      }
      negotiated := Some(selected);
      engine.Connect(profile.value);
      engine.PushEvent(Negotiated(selected, profile.value));
      SendDetails(now);
    }

    method OnReceptionStatus(subject: Id, status: Status, now: Timestamp)
      modifies Footprint()
      ensures View() == RmEngine.OnStatus(old(View()), subject, status, now)
    {
      hide EngineObject.View, AfterReceived, Matched, Reported;
      var outcome := engine.Match(subject, status, now);
      engine.Report(outcome);
    }

    /** Let time pass: expire acknowledgements and activate scheduled descriptions. */
    method HandleTimeout(now: Timestamp)
      modifies Footprint()
      ensures View() == old(View()).(engine := Elapse(old(View()).engine, now))
    {
      hide EngineObject.View, Elapse;
      var expired := engine.LetTimePass(now);
    }

    /** Send a message, if the state table, the profile and the validator allow it. */
    method Send(m: Message, now: Timestamp, v: Verdict) returns (result: SendResult)
      requires Valid()
      modifies Footprint()
      ensures (View(), result) == RmEngine.Send(old(View()), m, now, v)
    {
      hide EngineObject.View, SendOn;
      result := engine.Send(m, now, v);
    }

    /** Report what became of an instruction. */
    method ReportInstruction(instruction: Id, update: InstructionStatus, now: Timestamp, v: Verdict)
      returns (result: SendResult)
      requires Valid()
      modifies Footprint()
      ensures (View(), result) == RmEngine.ReportInstruction(old(View()), instruction, update, now, v)
    {
      hide EngineObject.View, SendOn, MintOn;
      var id := engine.NextMessageId();
      result := engine.Send(InstructionStatusUpdate(id, instruction, update), now, v);
    }
  }
}
