/** The manager's picture of the resource is the resource's own, delayed by the queue. */
module Replication {
  import opened Ids
  import opened Time
  import opened Messages
  import opened Tables
  import opened Ledger
  import opened Registry
  import opened Session
  import opened SessionRuns
  import opened Exchange
  import opened TwoParty
  import RmEngine
  import CemEngine
  import StateTable

  /** The part of a registry the resource alone writes. */
  function Own(r: RegistryState): RegistryState {
    r.(instructions := [], instructionMessages := [], instructionStatuses := [], published := [])
  }

  /** What is recorded, message by message, when a queue is read at one instant. */
  function RecordAll(r: RegistryState, q: seq<Message>, now: Timestamp): RegistryState
    decreases q
  {
    if q == [] then r else RecordAll(Recorded(r, q[0], now), q[1..], now)
  }

  /** Every description queued is one that is not in force yet. */
  ghost predicate AllAhead(r: RegistryState, now: Timestamp) {
    forall e <- r.scheduled :: e.message.SystemDescription? && now.Before(e.at)
  }

  lemma {:induction false} OwnPartsAreWithdrawnAlike(a: RegistryState, b: RegistryState, target: Revokable)
    requires Own(a) == Own(b)
    ensures Own(Withdrawn(a, target)) == Own(Withdrawn(b, target))
  {
    hide Upsert, RemoveKey, DropQueued;
  }

  lemma {:induction false} OwnPartsAreAppliedAlike(a: RegistryState, b: RegistryState, m: Message)
    requires Own(a) == Own(b)
    ensures Own(Applied(a, m)) == Own(Applied(b, m))
  {
    if m.RevokeObject? { OwnPartsAreWithdrawnAlike(a, b, m.target); }
    hide Upsert, Withdrawn;
  }

  lemma {:induction false} NotingTouchesNothingOwn(r: RegistryState, m: Message)
    ensures Own(Note(r, m)) == Own(r)
  {
    hide Upsert;
  }

  lemma {:induction false} OwnPartsAreRecordedAlike(a: RegistryState, b: RegistryState, m: Message, now: Timestamp)
    requires Own(a) == Own(b)
    ensures Own(Recorded(a, m, now)) == Own(Recorded(b, m, now))
  {
    NotingTouchesNothingOwn(a, m);
    NotingTouchesNothingOwn(b, m);
    OwnPartsAreAppliedAlike(Note(a, m), Note(b, m), m);
    hide Note, Applied, Enqueue;
  }

  lemma {:induction false} QueuesAreRecordedAlike(a: RegistryState, b: RegistryState, q: seq<Message>, now: Timestamp)
    requires Own(a) == Own(b)
    ensures Own(RecordAll(a, q, now)) == Own(RecordAll(b, q, now))
    decreases q
  {
    hide Own, Recorded;
    if q != [] {
      OwnPartsAreRecordedAlike(a, b, q[0], now);
      QueuesAreRecordedAlike(Recorded(a, q[0], now), Recorded(b, q[0], now), q[1..], now);
    }
  }

  lemma {:induction false} RecordAllAppend(r: RegistryState, q: seq<Message>, m: Message, now: Timestamp)
    ensures RecordAll(r, q + [m], now) == Recorded(RecordAll(r, q, now), m, now)
    decreases q
  {
    hide Recorded;
    if q == [] {
      assert q + [m] == [m] && [m][1..] == [];
      assert RecordAll(Recorded(r, m, now), [m][1..], now) == Recorded(r, m, now);
    } else {
      assert (q + [m])[1..] == q[1..] + [m];
      RecordAllAppend(Recorded(r, q[0], now), q[1..], m, now);
    }
  }

  /** Only what a resource publishes about itself touches its part. */
  predicate LeavesTheResourceAlone(m: Message) {
    m.ReceptionStatus? || m.Handshake? || m.HandshakeResponse? || m.SelectControlType? || m.SessionRequest? ||
      m.Instruction?
    || (m.RevokeObject? && m.target.kind.Instr?)
  }

  lemma {:induction false} NoDescriptionIsAnInstruction(q: seq<Queued>, target: Revokable)
    requires target.kind.Instr? && forall e <- q :: e.message.SystemDescription?
    ensures DropQueued(q, target) == q
  {
    if q != [] {
      assert q[0] in q;
      assert forall e <- q[1..] :: e in q;
      NoDescriptionIsAnInstruction(q[1..], target);
    }
  }

  lemma {:induction false} WithdrawingAnInstruction(r: RegistryState, target: Revokable, now: Timestamp)
    requires target.kind.Instr? && AllAhead(r, now)
    ensures Own(Withdrawn(r, target)) == Own(r) && AllAhead(Withdrawn(r, target), now)
  {
    NoDescriptionIsAnInstruction(r.scheduled, target);
    hide Upsert, RemoveKey, DropQueued;
  }

  lemma {:induction false} RecordingTheManagersOwn(r: RegistryState, m: Message, now: Timestamp)
    requires LeavesTheResourceAlone(m) && AllAhead(r, now)
    ensures Own(Recorded(r, m, now)) == Own(r) && AllAhead(Recorded(r, m, now), now)
  {
    if m.RevokeObject? { WithdrawingAnInstruction(r, m.target, now); }
    hide Upsert, RemoveKey, DropQueued, Enqueue, Withdrawn;
  }

  lemma {:induction false} EnqueueingKeepsAhead(q: seq<Queued>, e: Queued, now: Timestamp)
    requires forall x <- q :: x.message.SystemDescription? && now.Before(x.at)
    requires e.message.SystemDescription? && now.Before(e.at)
    ensures forall x <- Enqueue(q, e) :: x.message.SystemDescription? && now.Before(x.at)
  {
    var i := QueuedAt(q, e.message.RevokableId());
    if i == |q| { EvictingKeeps(q + [e]); }
  }

  lemma {:induction false} EvictingKeeps(q: seq<Queued>)
    ensures forall e <- Evict(q) :: e in q
    decreases |q|
  {
    if |q| > MAX_SCHEDULED {
      var p := Furthest(q);
      var r := q[..p] + q[p + 1..];
      EvictingKeeps(r);
      assert forall e <- r :: e in q;
    }
  }

  lemma {:induction false} DroppingKeeps(q: seq<Queued>, target: Revokable)
    ensures forall e <- DropQueued(q, target) :: e in q
  {
    if q != [] { DroppingKeeps(q[1..], target); }
  }

  lemma {:induction false} RecordingKeepsAhead(r: RegistryState, m: Message, now: Timestamp)
    requires AllAhead(r, now)
    ensures AllAhead(Recorded(r, m, now), now)
  {
    if m.RevokeObject? { DroppingKeeps(r.scheduled, m.target); }
    if Premature(m, now) { EnqueueingKeepsAhead(r.scheduled, Queued(m.validFrom, m), now); }
    hide Upsert, RemoveKey, DropQueued, Enqueue;
  }

  lemma {:induction false} NothingIsDue(q: seq<Queued>, now: Timestamp)
    requires forall e <- q :: now.Before(e.at)
    ensures NotYetDue(q, now) == q && DueMessages(q, now) == []
  {
    if q != [] {
      var n := |q| - 1;
      assert q == q[..n] + [q[n]] && q[n] in q;
      assert forall e <- q[..n] :: e in q;
      NothingIsDue(q[..n], now);
      OrderIsTotal(now, q[n].at);
    }
  }

  lemma {:induction false} TheClockStandsStill(r: RegistryState, now: Timestamp)
    requires AllAhead(r, now)
    ensures AfterActivation(r, now) == r
  {
    NothingIsDue(r.scheduled, now);
  }

  // -------------------------------------------------------------------------
  // What a step does to the registry
  // -------------------------------------------------------------------------

  /** The input, if it carries a clock at all, carries this one. */
  predicate OnTheClock(i: Input, now: Timestamp) {
    match i
    case CloseIt | LoseTransport => true
    case _ => i.now == now
  }

  /** A manager withdraws only instructions, which are its own. */
  predicate WithdrawsItsOwn(i: Input) {
    && (i.WithdrawObject? ==> i.target.kind.Instr?)
    && ((i.SendMessage? || i.SendInstruction?) && i.m.RevokeObject? ==> i.m.target.kind.Instr?)
  }

  lemma {:induction false} SendingRecords(e: Engine, m: Message, now: Timestamp, v: Verdict)
    requires !m.ReceptionStatus?
    ensures var (e', r) := SendOn(e, m, now, v);
      if r.Accepted? then e'.core.registry == Recorded(e.core.registry, m, now) && e'.core.outbox == e.core.outbox + [m]
        && StateTable.MaySend(e.core.state.Phase(), e.core.role, m.Kind())
      else e' == e
  {
    hide Recorded, DeadlineAfter, StateTable.MaySend;
  }

  /** What the engine queues it also records. */
  ghost predicate RecordsWhatItQueues(a: Engine, b: Engine, now: Timestamp) {
    if b.core.outbox == a.core.outbox then b.core.registry == a.core.registry
    else b.core.outbox != [] && b.core.registry == Recorded(a.core.registry, b.core.outbox[|b.core.outbox| - 1], now)
  }

  lemma {:induction false} RequestRecords(e: Engine, request: SessionRequestType, now: Timestamp, v: Verdict)
    ensures RecordsWhatItQueues(e, RequestSession(e, request, now, v).0, now)
  {
    SendingRecords(MintOn(e), SessionRequest(MintedId(e.core), request), now, v);
    hide SendOn, Recorded;
  }

  lemma {:induction false} TheResourceRecordsWhatItQueues(s: RmEngine.State, i: Input, now: Timestamp)
    requires IsLocal(i) && OnTheClock(i, now) && AllAhead(s.engine.core.registry, now)
    ensures RecordsWhatItQueues(s.engine, RmStep(s, i).engine, now)
  {
    hide SendOn, RequestSession, Recorded, AfterActivation;
    match i
    case SendMessage(m, _, v) => SendingRecords(s.engine, m, now, v);
    case ReportStatus(id, update, _, v) =>
      SendingRecords(MintOn(s.engine), InstructionStatusUpdate(MintedId(s.engine.core), id, update), now, v);
    case AskToEnd(r, _, v) => RequestRecords(s.engine, r, now, v);
    case LetTimePass(_) => TheClockStandsStill(s.engine.core.registry, now);
    case _ =>
  }

  lemma {:induction false} WhatTheManagerSends(phase: StateTable.Phase, m: Message)
    requires StateTable.MaySend(phase, Cem, m.Kind())
    ensures LeavesTheResourceAlone(m) || m.RevokeObject?
  {
  }

  /** The registry's own part is untouched, and its queue is still all ahead. */
  ghost predicate OwnKept(a: Engine, b: Engine, now: Timestamp) {
    Own(b.core.registry) == Own(a.core.registry) && AllAhead(b.core.registry, now)
  }

  lemma {:induction false} SendingKeepsOwn(e: Engine, m: Message, now: Timestamp, v: Verdict)
    requires !m.ReceptionStatus? && e.core.role == Cem && (m.RevokeObject? ==> m.target.kind.Instr?)
    requires AllAhead(e.core.registry, now)
    ensures OwnKept(e, SendOn(e, m, now, v).0, now)
  {
    SendingRecords(e, m, now, v);
    hide SendOn, Recorded, Own, StateTable.MaySend;
    if SendOn(e, m, now, v).1.Accepted? {
      WhatTheManagerSends(e.core.state.Phase(), m);
      RecordingTheManagersOwn(e.core.registry, m, now);
    }
  }

  lemma {:induction false} RevokingKeepsOwn(s: CemEngine.State, target: Revokable, now: Timestamp, v: Verdict)
    requires s.engine.core.role == Cem && target.kind.Instr? && AllAhead(s.engine.core.registry, now)
    ensures OwnKept(s.engine, CemEngine.Revoke(s, target, now, v).0.engine, now)
  {
    var m := RevokeObject(MintedId(s.engine.core), target);
    SendingKeepsOwn(MintOn(s.engine), m, now, v);
    WithdrawingAnInstruction(SendOn(MintOn(s.engine), m, now, v).0.core.registry, target, now);
    hide SendOn, Own, Withdrawn;
  }

  lemma {:induction false} TheManagerLeavesTheResourceAlone(s: CemEngine.State, i: Input, now: Timestamp)
    requires IsLocal(i) && OnTheClock(i, now) && WithdrawsItsOwn(i)
    requires s.engine.core.role == Cem && AllAhead(s.engine.core.registry, now)
    ensures OwnKept(s.engine, CemStep(s, i).engine, now)
  {
    hide SendOn, Recorded, AfterActivation, Own, CemEngine.Revoke;
    match i
    case SendMessage(m, _, v) => SendingKeepsOwn(s.engine, m, now, v);
    case SelectType(c, _, v) =>
      SendingKeepsOwn(MintOn(s.engine), SelectControlType(MintedId(s.engine.core), c), now, v);
    case SendInstruction(m, blocked, _, v) => SendingKeepsOwn(s.engine, m, now, v);
    case WithdrawObject(target, _, v) => RevokingKeepsOwn(s, target, now, v);
    case AskToEnd(r, _, v) => SendingKeepsOwn(MintOn(s.engine), SessionRequest(MintedId(s.engine.core), r), now, v);
    case LetTimePass(_) => TheClockStandsStill(s.engine.core.registry, now);
    case _ =>
  }

  /** What the resource accepts of the manager's messages leaves its own part alone. */
  lemma {:induction false} HearingKeepsOwn(s: RmEngine.State, m: Message, now: Timestamp, v: Verdict)
    requires !s.engine.IsClosed() && s.engine.core.role == Rm && AllAhead(s.engine.core.registry, now)
    requires !m.ReceptionStatus? && !m.HandshakeResponse? && (m.RevokeObject? ==> m.target.kind.Instr?)
    ensures OwnKept(s.engine, RmEngine.HandleFrame(s, Wire(m, false), now, v).engine, now)
  {
    if m.Kind().ExistsIn(s.engine.core.profile) {
      ScreenAnswers(s.engine, m, v);
      ScreenKeepsTheRegistry(s.engine, m, v);
      if Screen(s.engine, m, v).1 {
        WhatTheManagerSends(s.engine.core.state.Phase(), m);
        RecordingTheManagersOwn(s.engine.core.registry, m, now);
      }
      hide Screen, Recorded, Withdrawn, Own, StateTable.MaySend;
      if m.RevokeObject? { WithdrawingAnInstruction(s.engine.core.registry, m.target, now); }
    }
  }

  /** What the manager accepts of the resource's messages it records as the resource did. */
  lemma {:induction false} HearingRecords(s: CemEngine.State, m: Message, now: Timestamp, v: Verdict)
    requires !s.engine.IsClosed() && s.engine.core.role == Cem && AllAhead(s.engine.core.registry, now)
    requires !m.ReceptionStatus? && !m.Handshake? && m.Kind().ExistsIn(s.engine.core.profile)
    requires MayReceive(s.engine, m) && !IsRemembered(s.engine.core.acks.answered, m.id) && !v.errors && v.policy.None?
    ensures var s' := CemEngine.HandleFrame(s, Wire(m, false), now, v);
      && AllAhead(s'.engine.core.registry, now)
      && (s'.engine.IsClosed() || Own(s'.engine.core.registry) == Own(Recorded(s.engine.core.registry, m, now)))
  {
    ScreenAnswers(s.engine, m, v);
    ScreenKeepsTheRegistry(s.engine, m, v);
    RecordingKeepsAhead(s.engine.core.registry, m, now);
    if m.RevokeObject? { WithdrawingIsRecording(s.engine.core.registry, m, now); }
    hide Screen, Recorded, Withdrawn, Own, StateTable.MaySend, MayReceive;
  }

  lemma {:induction false} WithdrawingIsRecording(r: RegistryState, m: Message, now: Timestamp)
    requires m.RevokeObject?
    ensures Recorded(r, m, now) == Withdrawn(r, m.target)
  {
    hide Withdrawn;
  }

  /** The handshake and its answer are nothing to either registry. */
  lemma {:induction false} GreetingKeepsOwn(s: CemEngine.State, m: Message, now: Timestamp, v: Verdict)
    requires m.Handshake? && !s.engine.IsClosed() && AllAhead(s.engine.core.registry, now)
    ensures OwnKept(s.engine, CemEngine.HandleFrame(s, Wire(m, false), now, v).engine, now)
  {
    ScreenKeepsTheRegistry(s.engine, m, v);
    var (e, accepted) := Screen(s.engine, m, v);
    ScreenAnswers(s.engine, m, v);
    var heard := s.(engine := e, peerVersions := if m.versions.Some? then m.versions.value else s.peerVersions);
    AnsweringKeepsOwn(heard, now);
    hide Screen, Recorded, Own, StateTable.MaySend, CemEngine.AnswerHandshake;
  }

  lemma {:induction false} AnsweringKeepsOwn(s: CemEngine.State, now: Timestamp)
    requires AllAhead(s.engine.core.registry, now)
    ensures OwnKept(s.engine, CemEngine.AnswerHandshake(s, now).engine, now)
  {
    var chosen := CemEngine.Choose(s.engine.config.versions, s.peerVersions);
    if chosen.Some? {
      RecordingTheManagersOwn(s.engine.core.registry, HandshakeResponse(MintedId(s.engine.core), chosen.value), now);
    }
    hide Recorded, Own, DeadlineAfter, CemEngine.Choose;
  }

  // -------------------------------------------------------------------------
  // The invariant
  // -------------------------------------------------------------------------

  predicate Numbering(id: Id, n: nat) { id.Minted? && id.role == Rm ==> id.n <= n }

  /** No message on its way to the manager bears an identifier it still remembers, nor one that
      another message ahead of it bears. */
  ghost predicate Distinct(ring: seq<Answer>, q: seq<Message>) {
    forall k :: 0 <= k < |q| && !q[k].ReceptionStatus? ==>
      (forall a <- ring :: a.id != q[k].id) && (forall j :: 0 <= j < k && !q[j].ReceptionStatus? ==> q[j].id != q[k].id)
  }

  /** What the manager knows of the resource, once it has read its queue, is what there is to know. */
  ghost predicate PictureMatches(c: Engine, q: seq<Message>, r: RegistryState, now: Timestamp) {
    Distinct(c.core.acks.answered, q) && Own(RecordAll(c.core.registry, q, now)) == Own(r)
  }

  predicate WithdrawsInstructionsOnly(q: seq<Message>) {
    forall m <- q :: m.RevokeObject? ==> m.target.kind.Instr?
  }

  /** No identifier the resource has minted is ahead of its counter. */
  ghost predicate CountedUpTo(ring: seq<Answer>, q: seq<Message>, n: nat) {
    (forall m <- q :: !m.ReceptionStatus? ==> Numbering(m.id, n)) && (forall a <- ring :: Numbering(a.id, n))
  }

  ghost predicate Replicated(w: World, now: Timestamp) {
    && AllAhead(w.rm.engine.core.registry, now) && AllAhead(w.cem.engine.core.registry, now)
    && WithdrawsInstructionsOnly(w.ToResource())
    && CountedUpTo(w.cem.engine.core.acks.answered, w.ToManager(), w.rm.engine.core.minted)
    && (!w.cem.engine.IsClosed() ==> PictureMatches(w.cem.engine, w.ToManager(), w.rm.engine.core.registry, now))
  }

  /** The application gives its message an identifier that is neither under way nor remembered. */
  predicate NamesAnew(w: World, i: Input) {
    i.SendMessage? ==>
      (forall m <- w.ToManager() :: !m.ReceptionStatus? ==> Some(m.id) != i.m.MessageId())
      && (forall a <- w.cem.engine.core.acks.answered :: Some(a.id) != i.m.MessageId())
  }

  /** One clock, no refusals by the manager, fresh names, and no meddling with the other's objects. */
  predicate Faithful(w: World, a: Action, now: Timestamp) {
    Behaves(w, a)
    && match a
       case AtRm(i) => OnTheClock(i, now) && NamesAnew(w, i)
       case AtCem(i) => OnTheClock(i, now) && WithdrawsItsOwn(i)
       case ToRm(t, v) => t == now
       case ToCem(t, v) => t == now && !v.errors && v.policy.None?
  }

  lemma {:induction false} DistinctAppend(ring: seq<Answer>, q: seq<Message>, m: Message)
    requires Distinct(ring, q)
    requires !m.ReceptionStatus? ==>
      (forall a <- ring :: a.id != m.id) && (forall x <- q :: !x.ReceptionStatus? ==> x.id != m.id)
    ensures Distinct(ring, q + [m])
  {
    assert forall k :: 0 <= k < |q| ==> (q + [m])[k] == q[k] && q[k] in q;
  }

  /** A message queued and recorded by the resource keeps the picture right. */
  lemma {:induction false} QueueingKeepsThePicture(c: Engine, q: seq<Message>, r: RegistryState, m: Message,
                                                   r': RegistryState, now: Timestamp)
    requires PictureMatches(c, q, r, now) && Own(r') == Own(Recorded(r, m, now))
    requires !m.ReceptionStatus? ==>
      (forall a <- c.core.acks.answered :: a.id != m.id) && (forall x <- q :: !x.ReceptionStatus? ==> x.id != m.id)
    ensures PictureMatches(c, q + [m], r', now)
  {
    DistinctAppend(c.core.acks.answered, q, m);
    RecordAllAppend(c.core.registry, q, m, now);
    OwnPartsAreRecordedAlike(RecordAll(c.core.registry, q, now), r, m, now);
    hide Own, Recorded, RecordAll, Distinct;
  }

  /** So does an answer of the resource's to something that leaves its part alone. */
  lemma {:induction false} AnsweringKeepsThePicture(c: Engine, q: seq<Message>, a: Engine, b: Engine, subject: Id,
                                                    status: Status, now: Timestamp)
    requires PictureMatches(c, q, a.core.registry, now) && AllAhead(a.core.registry, now) && OwnKept(a, b, now)
    ensures PictureMatches(c, q + [ReceptionStatus(subject, status)], b.core.registry, now)
  {
    RecordingTheManagersOwn(a.core.registry, ReceptionStatus(subject, status), now);
    QueueingKeepsThePicture(c, q, a.core.registry, ReceptionStatus(subject, status), b.core.registry, now);
  }

  /** The manager's own doings keep the picture right. */
  lemma {:induction false} ActingKeepsThePicture(c: Engine, c': Engine, q: seq<Message>, r: RegistryState,
                                                 now: Timestamp)
    requires PictureMatches(c, q, r, now) && OwnKept(c, c', now) && c'.core.acks.answered == c.core.acks.answered
    ensures PictureMatches(c', q, r, now)
  {
    QueuesAreRecordedAlike(c.core.registry, c'.core.registry, q, now);
    hide Own, RecordAll, Distinct;
  }

  /** Reading the head of the queue and recording it keeps the picture right. */
  lemma {:induction false} ReadingKeepsThePicture(c: Engine, c': Engine, q: seq<Message>, r: RegistryState,
                                                  now: Timestamp)
    requires q != [] && PictureMatches(c, q, r, now)
    requires Own(c'.core.registry) == Own(Recorded(c.core.registry, q[0], now))
    requires forall a <- c'.core.acks.answered ::
      a in c.core.acks.answered || (!q[0].ReceptionStatus? && a.id == q[0].id)
    ensures PictureMatches(c', q[1..], r, now)
  {
    QueuesAreRecordedAlike(c'.core.registry, Recorded(c.core.registry, q[0], now), q[1..], now);
    hide Own, Recorded;
    assert forall k :: 0 <= k < |q[1..]| ==> q[1..][k] == q[k + 1];
  }

  lemma {:induction false} TheResourceNames(s: RmEngine.State, i: Input)
    requires IsLocal(i)
    ensures var q' := RmStep(s, i).engine.core.outbox;
      q' != s.engine.core.outbox && q' != [] && q'[|q'| - 1].MessageId().Some? && q'[|q'| - 1].id.Named? ==>
      i.SendMessage? && q'[|q'| - 1] == i.m
  {
    hide Recorded, StateTable.MaySend, DeadlineAfter, AfterActivation, ReconnectAfter;
    match i
    case SendMessage(m, now, v) => SendSpeaks(s.engine, m, now, v);
    case ReportStatus(id, update, now, v) =>
      SendSpeaks(MintOn(s.engine), InstructionStatusUpdate(MintedId(s.engine.core), id, update), now, v);
    case AskToEnd(r, now, v) => SendSpeaks(MintOn(s.engine), SessionRequest(MintedId(s.engine.core), r), now, v);
    case _ =>
  }

  /** A message the resource introduces bears a name the manager does not know. */
  lemma {:induction false} NamedAnew(ring: seq<Answer>, q: seq<Message>, a: Engine, b: Engine, m: Message)
    requires !m.ReceptionStatus? && a.core.role == Rm && Introduces(a, b, m) && CountedUpTo(ring, q, a.core.minted)
    requires a.core.minted <= b.core.minted
    requires m.id.Named? ==>
      (forall x <- q :: !x.ReceptionStatus? ==> x.id != m.id) && (forall x <- ring :: x.id != m.id)
    ensures (forall x <- ring :: x.id != m.id) && (forall x <- q :: !x.ReceptionStatus? ==> x.id != m.id)
    ensures CountedUpTo(ring, q + [m], b.core.minted)
  {
    if m.id.Minted? {
      forall x <- ring ensures x.id != m.id { assert Numbering(x.id, a.core.minted); }
      forall x <- q | !x.ReceptionStatus? ensures x.id != m.id { assert Numbering(x.id, a.core.minted); }
    }
  }

  lemma {:induction false} CountingOn(ring: seq<Answer>, q: seq<Message>, m: nat, n: nat)
    requires CountedUpTo(ring, q, m) && m <= n
    ensures CountedUpTo(ring, q, n)
  {
  }

  lemma {:induction false} ReplicatedAtTheResource(w: World, i: Input, now: Timestamp)
    requires Sound(w) && Replicated(w, now) && Faithful(w, AtRm(i), now)
    ensures Replicated(Next(w, AtRm(i)), now)
  {
    var w' := Next(w, AtRm(i));
    var a, b := w.rm.engine, w'.rm.engine;
    var ring, q := w.cem.engine.core.acks.answered, w.ToManager();
    RmActs(w.rm, i);
    TheResourceRecordsWhatItQueues(w.rm, i, now);
    TheResourceNames(w.rm, i);
    hide RmStep, StateTable.MaySend, Numbered, ManagerSide, ResourceSide, CleanAreAllowed, Aligned, VersionsSettled,
      AwaitsSelection;
    hide Recorded, RecordAll, Own, Distinct, PictureMatches, CountedUpTo, AllAhead, Introduces,
      WithdrawsInstructionsOnly;
    CountingOn(ring, q, a.core.minted, b.core.minted);
    if b.core.outbox != a.core.outbox {
      var m := b.core.outbox[|b.core.outbox| - 1];
      RecordingKeepsAhead(a.core.registry, m, now);
      NamedAnew(ring, q, a, b, m);
      if !w.cem.engine.IsClosed() {
        QueueingKeepsThePicture(w.cem.engine, q, a.core.registry, m, b.core.registry, now);
      }
    }
  }

  lemma {:induction false} ReplicatedAtTheManager(w: World, i: Input, now: Timestamp)
    requires Sound(w) && Replicated(w, now) && Faithful(w, AtCem(i), now)
    ensures Replicated(Next(w, AtCem(i)), now)
  {
    var w' := Next(w, AtCem(i));
    var a, b := w.cem.engine, w'.cem.engine;
    CemActs(w.cem, i);
    TheManagerLeavesTheResourceAlone(w.cem, i, now);
    TheManagerWithdrawsItsOwn(w.cem, i);
    hide CemStep, StateTable.MaySend, Numbered, ManagerSide, ResourceSide, CleanAreAllowed, Aligned, VersionsSettled,
      AwaitsSelection;
    hide Own, PictureMatches, CountedUpTo, AllAhead, Introduces, Selects;
    assert forall m <- b.core.outbox :: m in a.core.outbox || m == b.core.outbox[|b.core.outbox| - 1];
    if !b.IsClosed() { ActingKeepsThePicture(a, b, w.ToManager(), w.rm.engine.core.registry, now); }
  }

  lemma {:induction false} TheManagerWithdrawsItsOwn(s: CemEngine.State, i: Input)
    requires IsLocal(i) && WithdrawsItsOwn(i)
    ensures var q' := CemStep(s, i).engine.core.outbox;
      q' != s.engine.core.outbox && q' != [] && q'[|q'| - 1].RevokeObject? ==> q'[|q'| - 1].target.kind.Instr?
  {
    hide SendOn, AfterActivation, ReconnectAfter, Withdrawn;
    match i
    case SendMessage(m, now, v) => SendSpeaks(s.engine, m, now, v);
    case SendInstruction(m, blocked, now, v) => SendSpeaks(s.engine, m, now, v);
    case WithdrawObject(target, now, v) =>
      SendSpeaks(MintOn(s.engine), RevokeObject(MintedId(s.engine.core), target), now, v);
    case SelectType(c, now, v) => SendSpeaks(MintOn(s.engine), SelectControlType(MintedId(s.engine.core), c), now, v);
    case AskToEnd(r, now, v) => SendSpeaks(MintOn(s.engine), SessionRequest(MintedId(s.engine.core), r), now, v);
    case _ =>
  }

  /** The resource has answered something that leaves its part alone, or nothing at all. */
  lemma {:induction false} ReplicatedAfterAnAnswer(w: World, w': World, now: Timestamp)
    requires Replicated(w, now) && w.ToResource() != []
    requires w'.cem == w.cem.(engine := Popped(w.cem.engine)) && OwnKept(w.rm.engine, w'.rm.engine, now)
    requires w'.rm.engine.core.minted == w.rm.engine.core.minted
    requires w'.ToManager() == w.ToManager()
             || (|w'.ToManager()| > 0 && var m := w'.ToManager()[|w'.ToManager()| - 1];
                 m.ReceptionStatus? && w'.ToManager() == w.ToManager() + [m])
    ensures Replicated(w', now)
  {
    var q, q' := w.ToManager(), w'.ToManager();
    var m := if q' == q then ReceptionStatus(Nil, Ok) else q'[|q'| - 1];
    if !w.cem.engine.IsClosed() {
      if q' == q {
        hide RecordAll, Distinct;
      } else {
        AnsweringKeepsThePicture(w.cem.engine, q, w.rm.engine, w'.rm.engine, m.subject, m.status, now);
        PictureIgnoresTheOutbox(w.cem.engine, q', w'.rm.engine.core.registry, now);
      }
    }
    hide Own, RecordAll, Distinct;
    assert forall x <- w'.ToResource() :: x in w.ToResource();
  }

  lemma {:induction false} PictureIgnoresTheOutbox(c: Engine, q: seq<Message>, r: RegistryState, now: Timestamp)
    requires c.core.outbox != []
    ensures PictureMatches(Popped(c), q, r, now) == PictureMatches(c, q, r, now)
  {
    hide Own, RecordAll, Distinct;
  }

  /** The resource takes the handshake's answer: it acknowledges it and publishes its details. */
  lemma {:induction false} ReplicatedAfterTheResponse(w: World, w': World, m: Message, now: Timestamp)
    requires m.HandshakeResponse? && Sound(w) && Replicated(w, now) && w.ToResource() != [] && m == w.ToResource()[0]
    requires w'.cem == w.cem.(engine := Popped(w.cem.engine))
    requires w'.rm.engine.core.minted == w.rm.engine.core.minted + 1
    requires var details := Details(Minted(Rm, w'.rm.engine.core.minted), w.rm.details);
      w'.ToManager() == w.ToManager() + [ReceptionStatus(m.id, Ok)] + [details]
      && w'.rm.engine.core.registry == Recorded(w.rm.engine.core.registry, details, now)
    ensures Replicated(w', now)
  {
    var details := Details(Minted(Rm, w'.rm.engine.core.minted), w.rm.details);
    var ring, q, q1 := w.cem.engine.core.acks.answered, w.ToManager(), w.ToManager() + [ReceptionStatus(m.id, Ok)];
    var r := w.rm.engine.core.registry;
    RecordingKeepsAhead(r, details, now);
    CountingOn(ring, q1, w.rm.engine.core.minted, w'.rm.engine.core.minted);
    DetailsAreNew(ring, q1, w.rm.engine.core.minted, details);
    if !w.cem.engine.IsClosed() {
      AnsweringKeepsThePicture(w.cem.engine, q, w.rm.engine, w.rm.engine, m.id, Ok, now);
      QueueingKeepsThePicture(w.cem.engine, q1, r, details, w'.rm.engine.core.registry, now);
      PictureIgnoresTheOutbox(w.cem.engine, w'.ToManager(), w'.rm.engine.core.registry, now);
    }
    hide Own, RecordAll, Distinct, Recorded, AllAhead, Sound, PictureMatches;
    assert forall x <- w'.ToResource() :: x in w.ToResource();
  }

  lemma {:induction false} DetailsAreNew(ring: seq<Answer>, q: seq<Message>, n: nat, details: Message)
    requires CountedUpTo(ring, q, n) && details.Details? && details.id == Minted(Rm, n + 1)
    ensures (forall x <- ring :: x.id != details.id) && (forall x <- q :: !x.ReceptionStatus? ==> x.id != details.id)
  {
    forall x <- ring ensures x.id != details.id { assert Numbering(x.id, n); }
    forall x <- q | !x.ReceptionStatus? ensures x.id != details.id { assert Numbering(x.id, n); }
  }

  /** Anything but the handshake's answer leaves the resource's own part alone. */
  lemma {:induction false} HearingAnswersOnce(s: RmEngine.State, m: Message, now: Timestamp, v: Verdict)
    requires !s.engine.IsClosed() && s.engine.core.role == Rm && AllAhead(s.engine.core.registry, now)
    requires !m.HandshakeResponse? && (m.RevokeObject? ==> m.target.kind.Instr?)
    requires m.SelectControlType? ==> v.policy != Some(Ok) && !IsRemembered(s.engine.core.acks.answered, m.id)
    ensures var b := RmEngine.HandleFrame(s, Wire(m, false), now, v).engine;
      && OwnKept(s.engine, b, now) && b.core.minted == s.engine.core.minted
      && (b.core.outbox == s.engine.core.outbox
          || (|b.core.outbox| > 0 && b.core.outbox[|b.core.outbox| - 1].ReceptionStatus?
              && b.core.outbox == s.engine.core.outbox + [b.core.outbox[|b.core.outbox| - 1]]))
  {
    if m.ReceptionStatus? {
      RmHearsStatus(s, m, now, v);
    } else {
      HearingKeepsOwn(s, m, now, v);
      if m.SelectControlType? {
        var status := RmHearsSelection(s, m, now, v);
      } else {
        var status := RmHearsOther(s, m, now, v);
      }
    }
    hide RmEngine.HandleFrame, Own, AllAhead, MayReceive, IsRemembered;
  }

  lemma {:induction false} ReplicatedWhenTheResourceHears(w: World, now: Timestamp, v: Verdict)
    requires Sound(w) && Replicated(w, now) && Behaves(w, ToRm(now, v))
    ensures Replicated(Next(w, ToRm(now, v)), now)
  {
    hide Sound, StateTable.MaySend, RmEngine.HandleMessage, Recorded, Replicated, IsRemembered;
    var w' := Next(w, ToRm(now, v));
    if w.ToResource() != [] {
      var m := w.ToResource()[0];
      assert m in w.ToResource();
      AheadOf(w, now);
      RolesOf(w);
      if w.rm.engine.IsClosed() {
        ReplicatedAfterAnAnswer(w, w', now);
      } else if m.HandshakeResponse? {
        hide RmEngine.HandleFrame;
        ResponseIsAgreeable(w, m);
        RmHearsResponse(w.rm, m, now, v);
        ReplicatedAfterTheResponse(w, w', m, now);
      } else {
        hide RmEngine.HandleFrame;
        if m.SelectControlType? { ResponseIsAgreeable(w, m); }
        HearingAnswersOnce(w.rm, m, now, v);
        ReplicatedAfterAnAnswer(w, w', now);
      }
    }
  }

  lemma {:induction false} AheadOf(w: World, now: Timestamp)
    requires Replicated(w, now)
    ensures AllAhead(w.rm.engine.core.registry, now) && AllAhead(w.cem.engine.core.registry, now)
    ensures forall m <- w.ToResource() :: m.RevokeObject? ==> m.target.kind.Instr?
  {
  }

  lemma {:induction false} RolesOf(w: World)
    requires Sound(w)
    ensures w.rm.engine.core.role == Rm && w.cem.engine.core.role == Cem
  {
  }

  // -------------------------------------------------------------------------
  // The manager reads
  // -------------------------------------------------------------------------

  lemma {:induction false} StillCounted(ring: seq<Answer>, ring': seq<Answer>, q: seq<Message>, n: nat)
    requires q != [] && CountedUpTo(ring, q, n)
    requires forall a <- ring' :: a in ring || (!q[0].ReceptionStatus? && a.id == q[0].id)
    ensures CountedUpTo(ring', q[1..], n)
  {
    assert q[0] in q;
    assert forall m <- q[1..] :: m in q;
  }

  /** The manager has read the head of its queue, recording it if the resource did. */
  lemma {:induction false} ReplicatedAfterReading(w: World, w': World, now: Timestamp)
    requires Replicated(w, now) && w.ToManager() != [] && Took(w.cem, w'.cem, w.ToManager()[0], now)
    requires w'.rm == w.rm.(engine := Popped(w.rm.engine)) && (w.cem.engine.IsClosed() ==> w'.cem.engine.IsClosed())
    ensures Replicated(w', now)
  {
    StillCounted(w.cem.engine.core.acks.answered, w'.cem.engine.core.acks.answered, w.ToManager(),
      w.rm.engine.core.minted);
    hide Own, RecordAll, Distinct, CountedUpTo, PictureMatches;
    if !w'.cem.engine.IsClosed() {
      ReadingKeepsThePicture(w.cem.engine, w'.cem.engine, w.ToManager(), w.rm.engine.core.registry, now);
    }
  }

  /** What the manager may take is taken: it is in order, its name is new, and nobody refuses it. */
  lemma {:induction false} TheHeadIsTaken(w: World, now: Timestamp)
    requires Sound(w) && Replicated(w, now) && w.ToManager() != [] && !w.cem.engine.IsClosed()
    ensures var m := w.ToManager()[0];
      MayReceive(w.cem.engine, m) && m.Kind().ExistsIn(w.cem.engine.core.profile)
      && (!m.ReceptionStatus? ==> !IsRemembered(w.cem.engine.core.acks.answered, m.id))
  {
    var m := w.ToManager()[0];
    HeadIsInOrder(w);
    if !m.ReceptionStatus? { LatestAnswerIsTheLatest(w.cem.engine.core.acks.answered, m.id); }
    hide Sound, MayReceive, RecordAll, Own;
  }

  lemma {:induction false} ReplicatedWhenTheManagerHears(w: World, now: Timestamp, v: Verdict)
    requires Sound(w) && Replicated(w, now) && Faithful(w, ToCem(now, v), now)
    ensures Replicated(Next(w, ToCem(now, v)), now)
  {
    hide Sound, StateTable.MaySend, CemEngine.HandleMessage, Recorded, Replicated, IsRemembered, Own, AllAhead,
      MayReceive;
    var w' := Next(w, ToCem(now, v));
    if w.ToManager() != [] {
      var m := w.ToManager()[0];
      AheadOf(w, now);
      if w.cem.engine.IsClosed() {
        ReplicatedAfterReading(w, w', now);
      } else {
        hide CemEngine.HandleFrame;
        TheManagerTakes(w, m, now, v);
        ReplicatedAfterReading(w, w', now);
      }
    }
  }

  /** What taking `m` leaves behind at the manager. */
  ghost predicate Took(c: CemEngine.State, s': CemEngine.State, m: Message, now: Timestamp) {
    && AllAhead(s'.engine.core.registry, now)
    && (forall x <- s'.engine.core.outbox :: x in c.engine.core.outbox || !x.RevokeObject?)
    && (forall a <- s'.engine.core.acks.answered ::
          a in c.engine.core.acks.answered || (!m.ReceptionStatus? && a.id == m.id))
    && (!s'.engine.IsClosed() ==> Own(s'.engine.core.registry) == Own(Recorded(c.engine.core.registry, m, now)))
  }

  lemma {:induction false} TakesAStatus(c: CemEngine.State, m: Message, now: Timestamp, v: Verdict)
    requires m.ReceptionStatus? && !c.engine.IsClosed() && AwaitsSelection(c) && AllAhead(c.engine.core.registry, now)
    ensures Took(c, CemEngine.HandleFrame(c, Wire(m, false), now, v), m, now)
  {
    CemHearsStatus(c, m, now, v);
    RecordingTheManagersOwn(c.engine.core.registry, m, now);
    hide CemEngine.HandleFrame, Recorded, Own, AllAhead, AwaitsSelection;
  }

  lemma {:induction false} TakesAHandshake(c: CemEngine.State, m: Message, now: Timestamp, v: Verdict)
    requires m.Handshake? && m.versions.Some? && !c.engine.IsClosed() && c.engine.core.role == Cem
    requires AllAhead(c.engine.core.registry, now)
    ensures Took(c, CemEngine.HandleFrame(c, Wire(m, false), now, v), m, now)
  {
    GreetingKeepsOwn(c, m, now, v);
    RecordingTheManagersOwn(c.engine.core.registry, m, now);
    var status := CemHearsHandshake(c, m, now, v);
    RingGrowsByOne(c.engine.core.acks, m.id, status);
    hide CemEngine.HandleFrame, Recorded, Own, AllAhead, AwaitsSelection, AfterAnswered, CemEngine.Choose;
  }

  lemma {:induction false} TakesAnother(c: CemEngine.State, m: Message, now: Timestamp, v: Verdict)
    requires !c.engine.IsClosed() && c.engine.core.role == Cem && AllAhead(c.engine.core.registry, now)
    requires !m.ReceptionStatus? && !m.Handshake? && m.Kind().ExistsIn(c.engine.core.profile)
    requires MayReceive(c.engine, m) && !IsRemembered(c.engine.core.acks.answered, m.id) && !v.errors && v.policy.None?
    ensures Took(c, CemEngine.HandleFrame(c, Wire(m, false), now, v), m, now)
  {
    HearingRecords(c, m, now, v);
    var status := CemHearsOther(c, m, now, v);
    RingGrowsByOne(c.engine.core.acks, m.id, status);
    hide CemEngine.HandleFrame, Recorded, Own, AllAhead, AfterAnswered, MayReceive, IsRemembered;
  }

  lemma {:induction false} TheManagerTakes(w: World, m: Message, now: Timestamp, v: Verdict)
    requires Sound(w) && Replicated(w, now) && w.ToManager() != [] && m == w.ToManager()[0] && !w.cem.engine.IsClosed()
    requires !v.errors && v.policy.None?
    ensures Took(w.cem, CemEngine.HandleFrame(w.cem, Wire(m, false), now, v), m, now)
  {
    TheHeadIsTaken(w, now);
    RolesOf(w);
    AheadOf(w, now);
    AwaitingAsEver(w);
    if m.Handshake? { HandshakesNameVersions(w); }
    hide Replicated, Sound, IsRemembered, MayReceive, AllAhead, CemEngine.HandleFrame, AwaitsSelection, Took;
    if m.ReceptionStatus? {
      TakesAStatus(w.cem, m, now, v);
    } else if m.Handshake? {
      TakesAHandshake(w.cem, m, now, v);
    } else {
      TakesAnother(w.cem, m, now, v);
    }
  }

  lemma {:induction false} AwaitingAsEver(w: World)
    requires Sound(w)
    ensures AwaitsSelection(w.cem)
  {
  }

  // -------------------------------------------------------------------------
  // Every run
  // -------------------------------------------------------------------------

  predicate AllFaithful(w: World, actions: seq<Action>, now: Timestamp) {
    actions == []
    || (AllFaithful(w, actions[..|actions| - 1], now)
        && Faithful(After(w, actions[..|actions| - 1]), actions[|actions| - 1], now))
  }

  lemma {:induction false} StartIsReplicated(rmConfig: Config, details: Body, cemConfig: Config, now: Timestamp)
    requires rmConfig.negotiation == cemConfig.negotiation
    ensures Replicated(Start(rmConfig, details, cemConfig, now, now), now)
  {
    RmOpens(rmConfig, details, now);
    CemOpens(cemConfig, now);
    hide RmEngine.Open, CemEngine.Open;
    var w := Start(rmConfig, details, cemConfig, now, now);
    var m := w.ToManager()[0];
    assert w.ToManager() == [m] && [m][1..] == [];
    assert AllAhead(EMPTY, now);
    RecordingKeepsAhead(EMPTY, m, now);
    if rmConfig.negotiation.ByHandshake? {
      RecordingTheManagersOwn(EMPTY, w.ToResource()[0], now);
      RecordingTheManagersOwn(EMPTY, m, now);
      QueuesAreRecordedAlike(w.cem.engine.core.registry, EMPTY, [m], now);
    }
    hide Recorded, Own;
    assert RecordAll(EMPTY, [m], now) == Recorded(EMPTY, m, now) by {
      assert RecordAll(Recorded(EMPTY, m, now), [m][1..], now) == Recorded(EMPTY, m, now);
    }
  }

  lemma {:induction false} EveryFaithfulRun(w: World, actions: seq<Action>, now: Timestamp)
    requires Sound(w) && Replicated(w, now) && AllFaithful(w, actions, now)
    ensures Sound(After(w, actions)) && Replicated(After(w, actions), now)
  {
    hide Sound, Replicated, Next;
    if actions != [] {
      var n := |actions| - 1;
      EveryFaithfulRun(w, actions[..n], now);
      var before := After(w, actions[..n]);
      NextIsSound(before, actions[n]);
      match actions[n]
      case AtRm(i) => ReplicatedAtTheResource(before, i, now);
      case AtCem(i) => ReplicatedAtTheManager(before, i, now);
      case ToRm(_, v) => ReplicatedWhenTheResourceHears(before, now, v);
      case ToCem(_, v) => ReplicatedWhenTheManagerHears(before, now, v);
    }
  }

  /** At every step of every run at one instant, while the manager is open: what the manager
      holds of the resource, with what is still on its way to it, is what the resource holds of
      itself, field by field; with an empty queue the two are equal. */
  lemma {:induction false} ThePictureIsTheResourcesOwn(rmConfig: Config, details: Body, cemConfig: Config,
                                                       actions: seq<Action>, now: Timestamp)
    requires rmConfig.negotiation == cemConfig.negotiation
    requires AllFaithful(Start(rmConfig, details, cemConfig, now, now), actions, now)
    ensures var w := After(Start(rmConfig, details, cemConfig, now, now), actions);
      !w.cem.engine.IsClosed() ==>
        Own(RecordAll(w.cem.engine.core.registry, w.ToManager(), now)) == Own(w.rm.engine.core.registry)
        && (w.ToManager() == [] ==> Own(w.cem.engine.core.registry) == Own(w.rm.engine.core.registry))
  {
    StartIsSound(rmConfig, details, cemConfig, now, now);
    StartIsReplicated(rmConfig, details, cemConfig, now);
    EveryFaithfulRun(Start(rmConfig, details, cemConfig, now, now), actions, now);
    hide Sound, Start, After, AllFaithful, Own;
  }
}
