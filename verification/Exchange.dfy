/** What one step of either side looks like from the other end of the wire. */
module Exchange {
  import opened Ids
  import opened Time
  import opened Messages
  import opened Ledger
  import opened Session
  import opened SessionRuns
  import RmEngine
  import CemEngine
  import StateTable

  /** The state is kept, unless the session ended here, and not over the version. */
  predicate Stays(s: SessionState, t: SessionState) {
    t == s || (t.Closed? && !s.Closed? && !t.reason.UnsupportedVersion?)
  }

  predicate IsRemembered(ring: seq<Answer>, id: Id) { LatestAnswer(ring, id).Some? }

  /** Everything the other side could see of a session but its outbox and its state. */
  predicate SameFooting(a: Engine, b: Engine) {
    b.config == a.config && b.core.profile == a.core.profile && b.core.role == a.core.role
    && b.core.acks.answered == a.core.acks.answered && b.core.acks.maxAnswered == a.core.acks.maxAnswered
  }

  /** The application queues one message the state table lets it send now. */
  ghost predicate Speaks(a: Engine, b: Engine, m: Message) {
    && !a.IsClosed() && !m.ReceptionStatus?
    && b.core.outbox == a.core.outbox + [m]
    && m.Kind().ExistsIn(a.core.profile)
    && StateTable.MaySend(a.core.state.Phase(), a.core.role, m.Kind())
  }

  /** The message is the application's own, or one the engine has just minted for it. */
  predicate Introduces(a: Engine, b: Engine, m: Message)
    requires !m.ReceptionStatus?
  {
    && !m.Handshake? && !m.HandshakeResponse?
    && (m.id.Named? || (a.core.minted < b.core.minted && m.id == Minted(a.core.role, b.core.minted)))
  }

  /** Nothing is queued but what the table allows, and the state is kept or the session ends. */
  ghost predicate Acts(a: Engine, b: Engine) {
    && SameFooting(a, b) && Stays(a.core.state, b.core.state) && a.core.minted <= b.core.minted
    && (b.core.outbox == a.core.outbox
        || (|b.core.outbox| > 0 && var m := b.core.outbox[|b.core.outbox| - 1]; Speaks(a, b, m) && Introduces(a, b, m)))
  }

  /** One answer is queued and remembered; the state is kept or the session ends. */
  ghost predicate Answers(a: Engine, b: Engine, subject: Id, status: Status) {
    && b.core.outbox == a.core.outbox + [ReceptionStatus(subject, status)]
    && b.core.acks.answered == AfterAnswered(a.core.acks, subject, status).answered
    && b.core.acks.maxAnswered == a.core.acks.maxAnswered
    && b.config == a.config && b.core.profile == a.core.profile && b.core.role == a.core.role
    && Stays(a.core.state, b.core.state)
  }

  // -------------------------------------------------------------------------
  // Sending
  // -------------------------------------------------------------------------

  /** The application does not speak for the engine, and names its own messages. */
  predicate OwnWords(i: Input) {
    (i.SendMessage? || i.SendInstruction?) ==>
      i.m.MessageId().Some? && i.m.id.Named?
      && !i.m.Handshake? && !i.m.HandshakeResponse? && !i.m.SelectControlType?
  }

  lemma {:induction false} CloseActs(e: Engine, reason: CloseReason)
    requires !reason.UnsupportedVersion?
    ensures Acts(e, CloseWith(e, reason))
  {
  }

  lemma {:induction false} SendSpeaks(e: Engine, m: Message, now: Timestamp, v: Verdict)
    requires !m.ReceptionStatus?
    ensures var (e', r) := SendOn(e, m, now, v);
      && SameFooting(e, e') && e'.core.state == e.core.state && e'.core.minted == e.core.minted
      && (r.Accepted? ==> Speaks(e, e', m) && r.handle.id == m.id && Awaits(e', m.id))
      && (!r.Accepted? ==> e' == e)
      && (forall o <- e.core.acks.pending :: o in e'.core.acks.pending)
  {
    hide Registry.Recorded, StateTable.MaySend, DeadlineAfter;
    var (e', r) := SendOn(e, m, now, v);
    if r.Accepted? {
      var o := e'.core.acks.pending[|e.core.acks.pending|];
      assert o in e'.core.acks.pending && o.handle.id == m.id;
    }
  }

  /** A message with this identifier is still waiting for its answer. */
  ghost predicate Awaits(e: Engine, id: Id) {
    exists o <- e.core.acks.pending :: o.handle.id == id
  }

  lemma {:induction false} SendActs(e: Engine, m: Message, now: Timestamp, v: Verdict)
    requires !m.ReceptionStatus? && m.id.Named? && !m.Handshake? && !m.HandshakeResponse?
    ensures Acts(e, SendOn(e, m, now, v).0)
  {
    SendSpeaks(e, m, now, v);
    hide SendOn, StateTable.MaySend;
  }

  lemma {:induction false} MintedSendActs(e: Engine, m: Message, now: Timestamp, v: Verdict)
    requires !m.ReceptionStatus? && m.id == MintedId(e.core) && !m.Handshake? && !m.HandshakeResponse?
    ensures Acts(e, SendOn(MintOn(e), m, now, v).0)
  {
    SendSpeaks(MintOn(e), m, now, v);
    hide SendOn, StateTable.MaySend;
  }

  lemma {:induction false} RequestActs(e: Engine, request: SessionRequestType, now: Timestamp, v: Verdict)
    ensures Acts(e, RequestSession(e, request, now, v).0)
  {
    var m := SessionRequest(MintedId(e.core), request);
    var sent := SendOn(MintOn(e), m, now, v);
    SendSpeaks(MintOn(e), m, now, v);
    hide SendOn, StateTable.MaySend;
  }

  lemma {:induction false} ElapseActs(e: Engine, now: Timestamp)
    ensures Acts(e, Elapse(e, now))
  {
    hide Registry.AfterActivation, Waiting, DueHandles, Registry.DueMessages;
  }

  /** What the application, the clock and the transport can do to a session already opened. */
  predicate IsLocal(i: Input) { !i.FeedText? && !i.OpenIt? && OwnWords(i) }

  lemma {:induction false} RmActs(s: RmEngine.State, i: Input)
    requires IsLocal(i)
    ensures Acts(s.engine, RmStep(s, i).engine)
    ensures RmStep(s, i) == s.(engine := RmStep(s, i).engine)
  {
    hide SendOn, RequestSession, Elapse, CloseWith;
    match i
    case SendMessage(m, now, v) => SendActs(s.engine, m, now, v);
    case ReportStatus(id, update, now, v) =>
      MintedSendActs(s.engine, InstructionStatusUpdate(MintedId(s.engine.core), id, update), now, v);
    case AskToEnd(r, now, v) => RequestActs(s.engine, r, now, v);
    case LetTimePass(now) => ElapseActs(s.engine, now);
    case CloseIt => CloseActs(s.engine, Local);
    case LoseTransport => CloseActs(s.engine, TransportClosed);
    case _ =>
  }

  // -------------------------------------------------------------------------
  // Opening
  // -------------------------------------------------------------------------

  lemma {:induction false} RmOpens(config: Config, details: Body, now: Timestamp)
    ensures var s := RmEngine.Open(RmEngine.Fresh(config, details), now);
      var e := s.engine;
      && e.config == config && e.core.role == Rm && e.core.minted == 1 && e.core.acks.answered == []
      && e.core.acks.maxAnswered == ANSWERS_REMEMBERED && s.details == details
      && (if config.negotiation.ByHandshake? then
            && e.core.state == Handshaking && s.negotiated == None
            && e.core.registry == Registry.Recorded(Registry.EMPTY, e.core.outbox[0], now)
            && e.core.outbox == [Handshake(Minted(Rm, 1), Rm, Some(config.versions))]
          else
            && e.core.state == Connected && e.core.profile == config.negotiation.profile
            && s.negotiated == Some(VersionOf(config.negotiation.profile))
            && e.core.outbox == [Details(Minted(Rm, 1), details)]
            && e.core.registry == Registry.Recorded(Registry.EMPTY, Details(Minted(Rm, 1), details), now))
  {
    hide Registry.Recorded, DeadlineAfter;
    assert forall m: Message :: [] + [m] == [m];
  }

  lemma {:induction false} CemOpens(config: Config, now: Timestamp)
    ensures var s := CemEngine.Open(CemEngine.Fresh(config), now);
      var e := s.engine;
      && e.config == config && e.core.role == Cem && e.core.acks.answered == [] && s.pendingSelection == None
      && e.core.acks.maxAnswered == ANSWERS_REMEMBERED
      && (if config.negotiation.ByHandshake? then
            && e.core.state == Handshaking && s.negotiated == None && e.core.minted == 1
            && e.core.outbox == [Handshake(Minted(Cem, 1), Cem, Some(config.versions))]
            && e.core.registry == Registry.Recorded(Registry.EMPTY, e.core.outbox[0], now)
          else
            && e.core.state == Connected && e.core.profile == config.negotiation.profile && e.core.minted == 0
            && s.negotiated == Some(VersionOf(config.negotiation.profile)) && e.core.outbox == []
            && e.core.registry == Registry.EMPTY)
  {
    hide Registry.Recorded, DeadlineAfter;
    assert forall m: Message :: [] + [m] == [m];
  }

  // -------------------------------------------------------------------------
  // Hearing: the Resource Manager
  // -------------------------------------------------------------------------

  lemma {:induction false} ScreenAnswers(e: Engine, m: Message, v: Verdict)
    requires !m.ReceptionStatus? && !e.IsClosed()
    ensures Answers(e, Screen(e, m, v).0, m.id, AnswerTo(e, m, v).status)
    ensures Screen(e, m, v).1 ==> Screen(e, m, v).0.core.state == e.core.state && AnswerTo(e, m, v).status == Ok
    ensures Screen(e, m, v).0.core.minted == e.core.minted
    ensures Screen(e, m, v).0.core.acks.pending == e.core.acks.pending
    ensures Screen(e, m, v).1 <==>
      !IsRemembered(e.core.acks.answered, m.id) && !v.errors && MayReceive(e, m) && v.policy.None?
  {
    hide LatestAnswer, MayReceive;
  }

  lemma {:induction false} RmHearsStatus(s: RmEngine.State, m: Message, now: Timestamp, v: Verdict)
    requires m.ReceptionStatus? && !s.engine.IsClosed()
    ensures var s' := RmEngine.HandleFrame(s, Wire(m, false), now, v);
      && SameFooting(s.engine, s'.engine) && Stays(s.engine.core.state, s'.engine.core.state)
      && s'.engine.core.outbox == s.engine.core.outbox && s'.engine.core.minted == s.engine.core.minted
      && s'.engine.core.registry == s.engine.core.registry
      && s' == s.(engine := s'.engine)
  {
    hide AfterReceived, ReconnectAfter;
    assert AfterReceived(s.engine.core.acks, m.subject, m.status, now).0.answered == s.engine.core.acks.answered
      && AfterReceived(s.engine.core.acks, m.subject, m.status, now).0.maxAnswered ==
         s.engine.core.acks.maxAnswered by {
      ReceivedKeepsTheRing(s.engine.core.acks, m.subject, m.status, now);
    }
  }

  lemma {:induction false} ReceivedKeepsTheRing(l: LedgerState, subject: Id, status: Status, now: Timestamp)
    ensures var l' := AfterReceived(l, subject, status, now).0;
      l'.answered == l.answered && l'.maxAnswered == l.maxAnswered
  {
  }

  /** A `HandshakeResponse` the resource will take, which its sender makes sure of. */
  predicate Agreeable(s: RmEngine.State, m: Message) {
    && m.HandshakeResponse? && s.engine.core.state.Handshaking? && s.engine.core.role == Rm
    && RmEngine.Offered(s.engine.config.versions, m.selected) && ProfileOf(m.selected).Some?
    && !IsRemembered(s.engine.core.acks.answered, m.id)
  }

  lemma {:induction false} AgreeingConnects(s: RmEngine.State, selected: Version, now: Timestamp)
    requires RmEngine.Offered(s.engine.config.versions, selected) && ProfileOf(selected).Some?
    requires s.engine.core.role == Rm
    ensures var s' := RmEngine.AgreeOn(s, selected, now);
      var details := Details(Minted(Rm, s.engine.core.minted + 1), s.details);
      && s' == s.(engine := s'.engine, negotiated := Some(selected))
      && s'.engine.core.state == Connected && Some(s'.engine.core.profile) == ProfileOf(selected)
      && s'.engine.core.minted == s.engine.core.minted + 1
      && s'.engine.core.outbox == s.engine.core.outbox + [details]
      && s'.engine.core.acks.answered == s.engine.core.acks.answered
      && s'.engine.core.acks.maxAnswered == s.engine.core.acks.maxAnswered
      && s'.engine.config == s.engine.config && s'.engine.core.role == Rm
      && s'.engine.core.registry == Registry.Recorded(s.engine.core.registry, details, now)
  {
    hide Registry.Recorded, DeadlineAfter;
  }

  /** The handshake's answer puts the resource on the version named, and it describes itself. */
  lemma {:induction false} RmHearsResponse(s: RmEngine.State, m: Message, now: Timestamp, v: Verdict)
    requires Agreeable(s, m) && !v.errors && v.policy.None?
    ensures var s' := RmEngine.HandleFrame(s, Wire(m, false), now, v);
      var details := Details(Minted(Rm, s.engine.core.minted + 1), s.details);
      && s' == s.(engine := s'.engine, negotiated := Some(m.selected))
      && s'.engine.core.state == Connected && Some(s'.engine.core.profile) == ProfileOf(m.selected)
      && s'.engine.core.minted == s.engine.core.minted + 1
      && s'.engine.core.outbox == s.engine.core.outbox + [ReceptionStatus(m.id, Ok)] + [details]
      && s'.engine.core.acks.answered == AfterAnswered(s.engine.core.acks, m.id, Ok).answered
      && s'.engine.core.acks.maxAnswered == s.engine.core.acks.maxAnswered
      && s'.engine.config == s.engine.config && s'.engine.core.role == Rm
      && s'.engine.core.registry == Registry.Recorded(s.engine.core.registry, details, now)
  {
    ScreenAnswers(s.engine, m, v);
    ScreenKeepsTheRegistry(s.engine, m, v);
    AgreeingConnects(s.(engine := Screen(s.engine, m, v).0), m.selected, now);
    hide Registry.Recorded, Screen, AfterAnswered, RmEngine.AgreeOn, LatestAnswer;
    assert MayReceive(s.engine, m);
  }

  lemma {:induction false} ScreenKeepsTheRegistry(e: Engine, m: Message, v: Verdict)
    requires !m.ReceptionStatus?
    ensures Screen(e, m, v).0.core.registry == e.core.registry
  {
  }

  /** A selection not seen before takes effect exactly when the resource answers `Ok`,
      given a policy that uses its say to refuse. */
  lemma {:induction false} RmHearsSelection(s: RmEngine.State, m: Message, now: Timestamp, v: Verdict)
    returns (status: Status)
    requires m.SelectControlType? && !s.engine.IsClosed() && v.policy != Some(Ok)
    requires !IsRemembered(s.engine.core.acks.answered, m.id)
    ensures var s' := RmEngine.HandleFrame(s, Wire(m, false), now, v);
      && Answers(s.engine, s'.engine.(core := s'.engine.core.(state := s.engine.core.state)), m.id, status)
      && s'.engine.core.registry == s.engine.core.registry && s'.engine.core.minted == s.engine.core.minted
      && s' == s.(engine := s'.engine)
      && (if status.Ok? then s'.engine.core.state == AfterSelection(m.controlType)
          else Stays(s.engine.core.state, s'.engine.core.state))
    ensures status.Ok? ==> MayReceive(s.engine, m)
  {
    status := AnswerTo(s.engine, m, v).status;
    ScreenAnswers(s.engine, m, v);
    ScreenKeepsTheRegistry(s.engine, m, v);
    hide Screen, LatestAnswer, AfterAnswered, MayReceive;
  }

  /** Whatever else arrives is answered once, and at most ends the session. */
  lemma {:induction false} RmHearsOther(s: RmEngine.State, m: Message, now: Timestamp, v: Verdict)
    returns (status: Status)
    requires !m.ReceptionStatus? && !m.HandshakeResponse? && !m.SelectControlType? && !s.engine.IsClosed()
    ensures var s' := RmEngine.HandleFrame(s, Wire(m, false), now, v);
      && Answers(s.engine, s'.engine, m.id, status)
      && s'.engine.core.minted == s.engine.core.minted
      && s' == s.(engine := s'.engine, handshakeSeen := s'.handshakeSeen, peerVersions := s'.peerVersions)
  {
    if !m.Kind().ExistsIn(s.engine.core.profile) {
      status := InvalidMessage;
    } else {
      status := AnswerTo(s.engine, m, v).status;
      ScreenAnswers(s.engine, m, v);
      hide Screen, LatestAnswer, AfterAnswered, MayReceive, Registry.Recorded, Registry.Withdrawn, ReconnectAfter;
    }
  }

  // -------------------------------------------------------------------------
  // Acting: the Customer Energy Manager
  // -------------------------------------------------------------------------

  /** The ledger still expects the answer that decides the pending selection. */
  ghost predicate AwaitsSelection(s: CemEngine.State) {
    s.pendingSelection.Some? ==> Awaits(s.engine, s.pendingSelection.value.id)
  }

  /** At most one live selection, and the clock does not run out on it. */
  predicate KeepsSelection(s: CemEngine.State, i: Input) {
    && (i.SelectType? ==> s.pendingSelection.None?)
    && (i.LetTimePass? ==> !CemEngine.PendingAmong(s, AfterExpire(s.engine.core.acks, i.now).1))
  }

  /** The selection pending after an action is the one before, or the one just queued. */
  ghost predicate Selects(s: CemEngine.State, s': CemEngine.State) {
    if s'.engine.core.outbox != s.engine.core.outbox && s'.engine.core.outbox != []
       && s'.engine.core.outbox[|s'.engine.core.outbox| - 1].SelectControlType?
    then
      var m := s'.engine.core.outbox[|s'.engine.core.outbox| - 1];
      && s.pendingSelection.None? && s'.pendingSelection == Some(CemEngine.Selection(m.id, m.controlType))
      && m.id == Minted(s.engine.core.role, s'.engine.core.minted) && s.engine.core.minted < s'.engine.core.minted
    else s'.pendingSelection == s.pendingSelection
  }

  lemma {:induction false} DueAreListed(pending: seq<Outstanding>, now: Timestamp)
    ensures forall o <- pending :: Due(o, now) ==> o.handle in DueHandles(pending, now)
  {
    if pending != [] {
      var n := |pending| - 1;
      DueAreListed(pending[..n], now);
      assert pending == pending[..n] + [pending[n]];
    }
  }

  lemma {:induction false} UnexpiredStillAwaited(s: CemEngine.State, now: Timestamp)
    requires AwaitsSelection(s) && !CemEngine.PendingAmong(s, AfterExpire(s.engine.core.acks, now).1)
    ensures s.pendingSelection.Some? ==> Awaits(Elapse(s.engine, now), s.pendingSelection.value.id)
  {
    hide Registry.AfterActivation, Registry.DueMessages;
    if s.pendingSelection.Some? {
      var o :| o in s.engine.core.acks.pending && o.handle.id == s.pendingSelection.value.id;
      DueAreListed(s.engine.core.acks.pending, now);
      assert CemEngine.IsPending(s, o.handle.id);
      assert o in Elapse(s.engine, now).core.acks.pending;
    }
  }

  lemma {:induction false} CemSelects(s: CemEngine.State, c: ControlType, now: Timestamp, v: Verdict)
    requires s.pendingSelection.None?
    ensures var s' := CemEngine.Select(s, c, now, v).0;
      Acts(s.engine, s'.engine) && Selects(s, s') && AwaitsSelection(s')
      && s' == s.(engine := s'.engine, pendingSelection := s'.pendingSelection)
  {
    var m := SelectControlType(MintedId(s.engine.core), c);
    SendSpeaks(MintOn(s.engine), m, now, v);
    hide SendOn, StateTable.MaySend;
  }

  lemma {:induction false} CemRevokes(s: CemEngine.State, target: Revokable, now: Timestamp, v: Verdict)
    ensures var s' := CemEngine.Revoke(s, target, now, v).0;
      Acts(s.engine, s'.engine) && Selects(s, s') && (AwaitsSelection(s) ==> AwaitsSelection(s'))
      && s' == s.(engine := s'.engine)
  {
    var m := RevokeObject(MintedId(s.engine.core), target);
    SendSpeaks(MintOn(s.engine), m, now, v);
    hide SendOn, StateTable.MaySend, Registry.Withdrawn;
  }

  lemma {:induction false} CemSends(s: CemEngine.State, m: Message, now: Timestamp, v: Verdict)
    requires !m.ReceptionStatus? && m.id.Named? && !m.Handshake? && !m.HandshakeResponse? && !m.SelectControlType?
    ensures var s' := CemEngine.Send(s, m, now, v).0;
      Acts(s.engine, s'.engine) && Selects(s, s') && (AwaitsSelection(s) ==> AwaitsSelection(s'))
      && s' == s.(engine := s'.engine)
  {
    SendSpeaks(s.engine, m, now, v);
    hide SendOn, StateTable.MaySend;
  }

  lemma {:induction false} CemAsks(s: CemEngine.State, request: SessionRequestType, now: Timestamp, v: Verdict)
    ensures var s' := s.(engine := RequestSession(s.engine, request, now, v).0);
      Acts(s.engine, s'.engine) && Selects(s, s') && (AwaitsSelection(s) ==> AwaitsSelection(s'))
  {
    SendSpeaks(MintOn(s.engine), SessionRequest(MintedId(s.engine.core), request), now, v);
    hide SendOn, StateTable.MaySend;
  }

  lemma {:induction false} CemActs(s: CemEngine.State, i: Input)
    requires IsLocal(i) && KeepsSelection(s, i) && AwaitsSelection(s)
    ensures var s' := CemStep(s, i);
      Acts(s.engine, s'.engine) && Selects(s, s') && AwaitsSelection(s')
      && s' == s.(engine := s'.engine, pendingSelection := s'.pendingSelection)
  {
    hide Elapse, CloseWith, CemEngine.Select, CemEngine.Send, CemEngine.Revoke, RequestSession, StateTable.MaySend;
    match i
    case SendMessage(m, now, v) => CemSends(s, m, now, v);
    case SelectType(c, now, v) => CemSelects(s, c, now, v);
    case SendInstruction(m, blocked, now, v) => CemSends(s, m, now, v);
    case WithdrawObject(target, now, v) => CemRevokes(s, target, now, v);
    case AskToEnd(r, now, v) => CemAsks(s, r, now, v);
    case LetTimePass(now) =>
      ElapseActs(s.engine, now);
      ElapseKeepsTheOutbox(s.engine, now);
      UnexpiredStillAwaited(s, now);
    case CloseIt => ClosesQuietly(s, Local);
    case LoseTransport => ClosesQuietly(s, TransportClosed);
    case _ =>
  }

  lemma {:induction false} ElapseKeepsTheOutbox(e: Engine, now: Timestamp)
    ensures Elapse(e, now).core.outbox == e.core.outbox
  {
  }

  lemma {:induction false} ClosesQuietly(s: CemEngine.State, reason: CloseReason)
    requires !reason.UnsupportedVersion?
    ensures var s' := s.(engine := CloseWith(s.engine, reason));
      Acts(s.engine, s'.engine) && Selects(s, s') && (AwaitsSelection(s) ==> AwaitsSelection(s'))
  {
    hide ReconnectAfter;
  }

  // -------------------------------------------------------------------------
  // Hearing: the Customer Energy Manager
  // -------------------------------------------------------------------------

  /** The state and the pending selection after a reception status has been read. */
  function Resolved(state: SessionState, pending: Option<CemEngine.Selection>, m: Message)
      : (SessionState, Option<CemEngine.Selection>) {
    if m.ReceptionStatus? && pending.Some? && m.subject == pending.value.id then
      (if m.status.Ok? then AfterSelection(pending.value.controlType) else state, None)
    else (state, pending)
  }

  lemma {:induction false} ReceivedTakesOne(l: LedgerState, subject: Id, status: Status, now: Timestamp)
    ensures var (l', outcome) := AfterReceived(l, subject, status, now);
      && l'.answered == l.answered && l'.maxAnswered == l.maxAnswered
      && (forall o <- l.pending :: o.handle.id != subject ==> o in l'.pending)
      && (outcome.AckUnmatched? <==> forall o <- l.pending :: o.handle.id != subject)
      && (outcome.AckAccepted? ==> status.Ok? && outcome.handle.id == subject)
      && (outcome.AckRefused? ==> !status.Ok? && outcome.handle.id == subject)
      && !outcome.AckTimedOut?
  {
    var p := Position(l.pending, subject);
    if p < |l.pending| {
      var rest := WithoutAt(l.pending, p);
      forall o <- l.pending | o.handle.id != subject ensures o in rest {
        var k :| 0 <= k < |l.pending| && l.pending[k] == o;
        assert rest[if k < p then k else k - 1] == o;
      }
      assert l.pending[p] in l.pending;
    }
  }

  lemma {:induction false} ReportingKeepsFooting(e: Engine, outcome: Outcome)
    requires !e.IsClosed()
    ensures var e' := Reported(e, outcome);
      && SameFooting(e, e') && Stays(e.core.state, e'.core.state) && e'.core == e.core.(state := e'.core.state)
      && (outcome.AckAccepted? ==> e'.core.state == e.core.state)
  {
    hide ReconnectAfter;
  }

  lemma {:induction false} CemHearsStatus(s: CemEngine.State, m: Message, now: Timestamp, v: Verdict)
    requires m.ReceptionStatus? && !s.engine.IsClosed() && AwaitsSelection(s)
    ensures var s' := CemEngine.HandleFrame(s, Wire(m, false), now, v);
      var (state, pending) := Resolved(s.engine.core.state, s.pendingSelection, m);
      && SameFooting(s.engine, s'.engine) && s'.engine.core.outbox == s.engine.core.outbox
      && s'.engine.core.minted == s.engine.core.minted && s'.engine.core.registry == s.engine.core.registry
      && s' == s.(engine := s'.engine, pendingSelection := pending)
      && (s'.engine.IsClosed() || s'.engine.core.state == state)
      && AwaitsSelection(s')
  {
    ReceivedTakesOne(s.engine.core.acks, m.subject, m.status, now);
    var outcome := AfterReceived(s.engine.core.acks, m.subject, m.status, now).1;
    var e := Matched(s.engine, m.subject, m.status, now);
    ReportingKeepsFooting(e, outcome);
    if CemEngine.Decides(s, outcome) && outcome.AckAccepted? {
      ReportingKeepsFooting(Activated(e, s.pendingSelection.value.controlType), outcome);
    }
    hide AfterReceived, Reported;
  }

  /** Anything but a status and a handshake is answered once, and at most ends the session. */
  lemma {:induction false} CemHearsOther(s: CemEngine.State, m: Message, now: Timestamp, v: Verdict)
    returns (status: Status)
    requires !m.ReceptionStatus? && !m.Handshake? && !s.engine.IsClosed()
    ensures var s' := CemEngine.HandleFrame(s, Wire(m, false), now, v);
      && Answers(s.engine, s'.engine, m.id, status)
      && s'.engine.core.minted == s.engine.core.minted
      && s'.engine.core.acks.pending == s.engine.core.acks.pending
      && s' == s.(engine := s'.engine)
  {
    if !m.Kind().ExistsIn(s.engine.core.profile) {
      status := InvalidMessage;
    } else {
      status := AnswerTo(s.engine, m, v).status;
      ScreenAnswers(s.engine, m, v);
      hide Screen, LatestAnswer, AfterAnswered, MayReceive, Registry.Recorded, Registry.Withdrawn, ReconnectAfter;
    }
  }

  /** The session after the manager has taken a handshake it can agree on. */
  ghost predicate Greets(s: CemEngine.State, s': CemEngine.State, offered: seq<Version>, answer: Message) {
    var chosen := CemEngine.Choose(s.engine.config.versions, offered);
    var e, e' := s.engine, s'.engine;
    && chosen.Some? && Some(e'.core.profile) == ProfileOf(chosen.value) && s'.negotiated == chosen
    && e'.core.state == Connected && s'.pendingSelection == s.pendingSelection
    && e'.core.minted == e.core.minted + 1
    && e'.core.outbox == e.core.outbox + [answer] + [HandshakeResponse(Minted(Cem, e.core.minted + 1), chosen.value)]
    && e'.config == e.config && e'.core.role == e.core.role
  }

  /** The manager refuses the handshake, ends the session over it, or names its version. */
  lemma {:induction false} CemHearsHandshake(s: CemEngine.State, m: Message, now: Timestamp, v: Verdict)
    returns (status: Status)
    requires m.Handshake? && m.versions.Some? && !s.engine.IsClosed() && s.engine.core.role == Cem
    ensures var s' := CemEngine.HandleFrame(s, Wire(m, false), now, v);
      && (Greets(s, s', m.versions.value, ReceptionStatus(m.id, status))
          || (Answers(s.engine, s'.engine, m.id, status)
              && s' == s.(engine := s'.engine, peerVersions := s'.peerVersions)
              && s'.engine.core.minted == s.engine.core.minted))
      && s'.engine.core.acks.maxAnswered == s.engine.core.acks.maxAnswered
      && s'.engine.core.acks.answered == AfterAnswered(s.engine.core.acks, m.id, status).answered
      && (AwaitsSelection(s) ==> AwaitsSelection(s'))
  {
    status := AnswerTo(s.engine, m, v).status;
    ScreenAnswers(s.engine, m, v);
    var (e, accepted) := Screen(s.engine, m, v);
    if accepted {
      AnsweringGreets(s.(engine := e, peerVersions := m.versions.value), now);
    }
    hide Screen, LatestAnswer, AfterAnswered, MayReceive, CemEngine.AnswerHandshake, CemEngine.Choose;
    assert Wire(m, false).message.Kind().ExistsIn(s.engine.core.profile);
  }

  lemma {:induction false} AnsweringGreets(s: CemEngine.State, now: Timestamp)
    requires !s.engine.IsClosed() && s.engine.core.role == Cem
    ensures var s' := CemEngine.AnswerHandshake(s, now);
      var chosen := CemEngine.Choose(s.engine.config.versions, s.peerVersions);
      && s' == s.(engine := s'.engine, negotiated := s'.negotiated)
      && s'.engine.config == s.engine.config && s'.engine.core.role == Cem
      && s'.engine.core.acks.answered == s.engine.core.acks.answered
      && s'.engine.core.acks.maxAnswered == s.engine.core.acks.maxAnswered
      && (forall o <- s.engine.core.acks.pending :: o in s'.engine.core.acks.pending)
      && (if chosen.Some? && ProfileOf(chosen.value).Some? then
            && s'.negotiated == chosen && Some(s'.engine.core.profile) == ProfileOf(chosen.value)
            && s'.engine.core.state == Connected && s'.engine.core.minted == s.engine.core.minted + 1
            && s'.engine.core.outbox ==
               s.engine.core.outbox + [HandshakeResponse(Minted(Cem, s.engine.core.minted + 1), chosen.value)]
          else
            && s'.engine.core == s.engine.core.(state := Closed(NoCommonVersion)) && s'.negotiated == s.negotiated)
  {
    hide Registry.Recorded, DeadlineAfter, CemEngine.Choose;
  }
}
