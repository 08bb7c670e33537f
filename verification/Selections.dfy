/** Selections sent before the first is answered, selections that run out of time, and selections
    a policy answers: exactly when the two sides part. */
module Selections {
  import opened Ids
  import opened Time
  import opened Messages
  import opened Ledger
  import opened Session
  import opened SessionRuns
  import opened Exchange
  import opened TwoParty
  import RmEngine
  import CemEngine
  import StateTable

  /** A selection in order that draws this verdict takes effect; `Said` is what its sender is told. */
  predicate Takes(v: Verdict) { !v.errors && v.policy.None? }

  function Said(v: Verdict): Status {
    if v.errors then InvalidContent else if v.policy.Some? then v.policy.value else Ok
  }

  /** A selection not seen before is answered once, and takes effect or changes nothing. */
  lemma {:induction false} SelectionIsAnswered(s: RmEngine.State, m: Message, now: Timestamp, v: Verdict)
    returns (status: Status)
    requires m.SelectControlType? && !s.engine.IsClosed() && !IsRemembered(s.engine.core.acks.answered, m.id)
    ensures var s' := RmEngine.HandleFrame(s, Wire(m, false), now, v);
      && s'.engine.core.outbox == s.engine.core.outbox + [ReceptionStatus(m.id, status)]
      && s'.engine.core.acks.answered == AfterAnswered(s.engine.core.acks, m.id, status).answered
      && s'.engine.core.role == s.engine.core.role
      && (MayReceive(s.engine, m) ==> !s'.engine.IsClosed())
      && (!s'.engine.IsClosed() ==>
            s'.engine.core.state == if MayReceive(s.engine, m) && Takes(v) then AfterSelection(m.controlType)
              else s.engine.core.state)
    ensures status == if MayReceive(s.engine, m) then Said(v) else InvalidContent
  {
    status := AnswerTo(s.engine, m, v).status;
    ScreenAnswers(s.engine, m, v);
    hide LatestAnswer, AfterAnswered, MayReceive;
  }

  // -------------------------------------------------------------------------
  // Several selections on their way
  // -------------------------------------------------------------------------

  predicate AreSelections(q: seq<Message>) { forall m <- q :: m.SelectControlType? }

  /** Selections minted one after the other, none of which the ring has an answer to. */
  ghost predicate AreNew(ring: seq<Answer>, q: seq<Message>, n: nat) {
    && AreSelections(q) && (forall m <- q :: UpTo(m.id, n)) && (forall a <- ring :: UpTo(a.id, n))
    && (forall i, j :: 0 <= i < j < |q| ==> q[i].id != q[j].id)
    && (forall a <- ring, m <- q :: a.id != m.id)
  }

  function LastAsked(q: seq<Message>): Option<CemEngine.Selection>
    requires AreSelections(q)
  {
    if q == [] then None else Some(CemEngine.Selection(q[|q| - 1].id, q[|q| - 1].controlType))
  }

  predicate IsOngoing(s: SessionState) { !s.Closed? && !s.Idle? }

  /** Both sides were quiet in state `s`; since then the manager has sent these selections,
      none of which is answered, and remembers the last. */
  ghost predicate Asking(w: World, s: SessionState) {
    var q := w.ToResource();
    && w.rm.engine.core.role == Rm && w.cem.engine.core.role == Cem && w.ToManager() == []
    && w.rm.engine.core.state == w.cem.engine.core.state == s && IsOngoing(s) && (q != [] ==> !s.Handshaking?)
    && AreNew(w.rm.engine.core.acks.answered, q, w.cem.engine.core.minted)
    && AwaitsSelection(w.cem) && w.cem.pendingSelection == LastAsked(q)
  }

  /** Nothing under way and both sides open. */
  predicate Quiet(w: World) {
    && w.ToManager() == [] && w.ToResource() == [] && w.cem.pendingSelection.None?
    && !w.rm.engine.IsClosed() && !w.cem.engine.IsClosed()
  }

  lemma {:induction false} QuietSidesMayAsk(w: World)
    requires Sound(w) && Quiet(w)
    ensures Asking(w, w.rm.engine.core.state)
  {
    hide CleanAreAllowed, AllowedAlong;
  }

  lemma {:induction false} NewlyMintedIsNew(ring: seq<Answer>, q: seq<Message>, n: nat, m: Message)
    requires AreNew(ring, q, n) && m.SelectControlType? && m.id == Minted(Cem, n + 1)
    ensures AreNew(ring, q, n + 1) && AreNew(ring, q + [m], n + 1)
    ensures LastAsked(q + [m]) == Some(CemEngine.Selection(m.id, m.controlType))
  {
  }

  lemma {:induction false} AskingIsAStep(w: World, c: ControlType, now: Timestamp, v: Verdict)
    ensures var w' := Next(w, AtCem(SelectType(c, now, v)));
      w'.cem == CemEngine.Select(w.cem, c, now, v).0 && w'.rm == w.rm
  {
    hide CemEngine.Select;
  }

  lemma {:induction false} OneMoreAsked(w: World, s: SessionState, c: ControlType, now: Timestamp, v: Verdict)
    requires Asking(w, s)
    ensures var w' := Next(w, AtCem(SelectType(c, now, v)));
      Asking(w', s) && w'.rm == w.rm
      && w'.ToResource() == if CemEngine.Select(w.cem, c, now, v).1.Accepted?
                            then w.ToResource() + [SelectControlType(MintedId(w.cem.engine.core), c)]
                              else w.ToResource()
  {
    hide Next;
    AskingIsAStep(w, c, now, v);
    var m := SelectControlType(MintedId(w.cem.engine.core), c);
    SendSpeaks(MintOn(w.cem.engine), m, now, v);
    SelectingIsNotOpening(s);
    NewlyMintedIsNew(w.rm.engine.core.acks.answered, w.ToResource(), w.cem.engine.core.minted, m);
    hide SendOn, StateTable.MaySend, AreNew, LastAsked;
  }

  lemma {:induction false} AllAsked(w: World, s: SessionState, asks: seq<Action>)
    requires Asking(w, s) && forall a <- asks :: a.AtCem? && a.i.SelectType?
    ensures Asking(After(w, asks), s)
  {
    hide Asking, Next;
    if asks != [] {
      var n := |asks| - 1;
      AllAsked(w, s, asks[..n]);
      OneMoreAsked(After(w, asks[..n]), s, asks[n].i.controlType, asks[n].i.now, asks[n].i.v);
    }
  }

  // -------------------------------------------------------------------------
  // The resource readings them all
  // -------------------------------------------------------------------------

  predicate AreReads(actions: seq<Action>) { forall a <- actions :: a.ToRm? }

  /** Where the resource stands once it has read these selections. */
  function Standing(s: SessionState, q: seq<Message>, readings: seq<Action>): SessionState
    requires |readings| == |q| && AreReads(readings) && AreSelections(q)
  {
    if q == [] then s
    else
      var n := |q| - 1;
      if Takes(readings[n].v) then AfterSelection(q[n].controlType) else Standing(s, q[..n], readings[..n])
  }

  /** These are the answers to the first of the selections, in order. */
  predicate AreReplies(a: seq<Message>, q: seq<Message>, readings: seq<Action>)
    requires |readings| <= |q| && AreReads(readings) && AreSelections(q)
  {
    |a| == |readings| && forall i :: 0 <= i < |a| ==> a[i] == ReceptionStatus(q[i].id, Said(readings[i].v))
  }

  ghost predicate AreUnread(ring: seq<Answer>, q: seq<Message>, k: nat) {
    forall b <- ring, j :: k <= j < |q| && q[j].SelectControlType? ==> b.id != q[j].id
  }

  /** `w'` is `w` with the first selections read and answered, as many as `readings`. */
  ghost predicate ReadSoFar(w: World, s: SessionState, readings: seq<Action>, w': World)
    requires AreSelections(w.ToResource()) && |readings| <= |w.ToResource()| && AreReads(readings)
  {
    var q, k := w.ToResource(), |readings|;
    && w'.ToResource() == q[k..]
    && w'.cem == w.cem.(engine := w.cem.engine.(core := w.cem.engine.core.(outbox := q[k..])))
    && AreReplies(w'.ToManager(), q, readings)
    && w'.rm.engine.core.role == Rm && w'.rm.engine.core.state == Standing(s, q[..k], readings)
    && !w'.rm.engine.IsClosed() && AreUnread(w'.rm.engine.core.acks.answered, q, k)
  }

  lemma {:induction false} OneMoreReply(a: seq<Message>, q: seq<Message>, readings: seq<Action>, r: Action)
    requires |readings| < |q| && AreReads(readings) && AreSelections(q) && r.ToRm? && AreReplies(a, q, readings)
    ensures AreReplies(a + [ReceptionStatus(q[|readings|].id, Said(r.v))], q, readings + [r])
  {
  }

  lemma {:induction false} OneFewerUnread(l: LedgerState, q: seq<Message>, k: nat, status: Status)
    requires k < |q| && AreUnread(l.answered, q, k) && AreSelections(q)
    requires forall i, j :: 0 <= i < j < |q| ==> q[i].id != q[j].id
    ensures AreUnread(AfterAnswered(l, q[k].id, status).answered, q, k + 1)
  {
    RingGrowsByOne(l, q[k].id, status);
    hide AfterAnswered;
  }

  lemma {:induction false} OneFurther(s: SessionState, q: seq<Message>, readings: seq<Action>, r: Action)
    requires |readings| < |q| && AreReads(readings) && AreSelections(q) && r.ToRm?
    ensures var k := |readings|;
      Standing(s, q[..k + 1], readings + [r]) ==
      if Takes(r.v) then AfterSelection(q[k].controlType) else Standing(s, q[..k], readings)
  {
    var k := |readings|;
    assert q[..k + 1][..k] == q[..k] && (readings + [r])[..k] == readings;
  }

  lemma {:induction false} SelectionsAreTakenWhenConnected(e: Engine, m: Message)
    requires e.core.role == Rm && m.SelectControlType? && !e.core.state.Handshaking? && !e.core.state.Idle?
    ensures MayReceive(e, m)
  {
  }

  lemma {:induction false} StandingIsConnected(s: SessionState, q: seq<Message>, readings: seq<Action>)
    requires |readings| == |q| && AreReads(readings) && AreSelections(q)
    requires !s.Handshaking? && !s.Idle? && !s.Closed?
    ensures var r := Standing(s, q, readings); !r.Handshaking? && !r.Idle? && !r.Closed?
  {
    if q != [] { StandingIsConnected(s, q[..|q| - 1], readings[..|q| - 1]); }
  }

  /** The selection at the head of the queue is read: what changes in the world. */
  lemma {:induction false} ReadsSelection(w: World, m: Message, now: Timestamp, v: Verdict)
    requires w.ToResource() != [] && m == w.ToResource()[0] && m.SelectControlType?
    requires IsOngoing(w.rm.engine.core.state) && !w.rm.engine.core.state.Handshaking? && w.rm.engine.core.role == Rm
    requires forall a <- w.rm.engine.core.acks.answered :: a.id != m.id
    ensures var w', rest := Next(w, ToRm(now, v)), w.ToResource()[1..];
      && w'.cem == w.cem.(engine := w.cem.engine.(core := w.cem.engine.core.(outbox := rest)))
      && w'.ToResource() == rest
      && w'.ToManager() == w.ToManager() + [ReceptionStatus(m.id, Said(v))]
      && w'.rm.engine.core.role == Rm && !w'.rm.engine.IsClosed()
      && w'.rm.engine.core.acks.answered == AfterAnswered(w.rm.engine.core.acks, m.id, Said(v)).answered
      && w'.rm.engine.core.state == if Takes(v) then AfterSelection(m.controlType) else w.rm.engine.core.state
  {
    LatestAnswerIsTheLatest(w.rm.engine.core.acks.answered, m.id);
    SelectionsAreTakenWhenConnected(w.rm.engine, m);
    var status := SelectionIsAnswered(w.rm, m, now, v);
    hide RmEngine.HandleFrame, MayReceive, AfterAnswered, Said, AfterSelection, Takes;
  }

  lemma {:induction false} NextIsUnread(ring: seq<Answer>, q: seq<Message>, k: nat)
    requires AreSelections(q) && AreUnread(ring, q, k) && k < |q|
    ensures q[k].SelectControlType? && q[k..][0] == q[k] && q[k..][1..] == q[k + 1..]
    ensures forall a <- ring :: a.id != q[k].id
  {
    assert q[k] in q;
  }

  lemma {:induction false} OneMoreRead(w: World, s: SessionState, readings: seq<Action>, w': World, a: Action)
    requires AreNew(w.rm.engine.core.acks.answered, w.ToResource(), w.cem.engine.core.minted)
    requires IsOngoing(s) && !s.Handshaking?
    requires |readings| < |w.ToResource()| && AreReads(readings) && a.ToRm? && ReadSoFar(w, s, readings, w')
    ensures ReadSoFar(w, s, readings + [a], Next(w', a))
  {
    hide Next, AreNew, AreReplies, AreUnread, Standing, AfterAnswered, Takes, Said, AfterSelection;
    var q, k := w.ToResource(), |readings|;
    assert AreSelections(q) && forall i, j :: 0 <= i < j < |q| ==> q[i].id != q[j].id by {
      Distinct(w.rm.engine.core.acks.answered, q, w.cem.engine.core.minted);
    }
    NextIsUnread(w'.rm.engine.core.acks.answered, q, k);
    StandingIsConnected(s, q[..k], readings);
    hide AreSelections;
    ReadsSelection(w', q[k], a.now, a.v);
    OneMoreReply(w'.ToManager(), q, readings, a);
    OneFewerUnread(w'.rm.engine.core.acks, q, k, Said(a.v));
    OneFurther(s, q, readings, a);
  }

  lemma {:induction false} Distinct(ring: seq<Answer>, q: seq<Message>, n: nat)
    requires AreNew(ring, q, n)
    ensures AreSelections(q) && forall i, j :: 0 <= i < j < |q| ==> q[i].id != q[j].id
  {
  }

  lemma {:induction false} NothingReadYet(w: World, s: SessionState)
    requires Asking(w, s)
    ensures ReadSoFar(w, s, [], w)
  {
    assert w.ToResource()[0..] == w.ToResource() && w.ToResource()[..0] == [];
    hide AwaitsSelection, UpTo;
  }

  lemma {:induction false} AllRead(w: World, s: SessionState, readings: seq<Action>)
    requires Asking(w, s) && |readings| <= |w.ToResource()| && AreReads(readings)
    ensures ReadSoFar(w, s, readings, After(w, readings))
  {
    if readings == [] {
      NothingReadYet(w, s);
    } else {
      var n := |readings| - 1;
      assert readings[n] in readings && readings[..n] + [readings[n]] == readings;
      assert AreReads(readings[..n]);
      hide AreNew, ReadSoFar, Next, AreReads;
      AllRead(w, s, readings[..n]);
      OneMoreRead(w, s, readings[..n], After(w, readings[..n]), readings[n]);
    }
  }

  // -------------------------------------------------------------------------
  // The manager hearings all the answers
  // -------------------------------------------------------------------------

  predicate AreHearings(actions: seq<Action>) { forall a <- actions :: a.ToCem? }

  predicate EndsTheSession(m: Message) { m.ReceptionStatus? && ConsequenceOf(m.status).Disconnect? }

  lemma {:induction false} OnlyAPermanentErrorEnds(s: CemEngine.State, m: Message, now: Timestamp, v: Verdict)
    requires m.ReceptionStatus? && !EndsTheSession(m) && !s.engine.IsClosed()
    ensures !CemEngine.HandleFrame(s, Wire(m, false), now, v).engine.IsClosed()
  {
  }

  /** `w'` is `w` with the first `k` of its answers heard; `last` is the selection remembered. */
  ghost predicate HeardSoFar(w: World, s: SessionState, last: Message, k: nat, w': World)
    requires last.SelectControlType? && 0 < |w.ToManager()| && w.ToManager()[|w.ToManager()| - 1].ReceptionStatus?
  {
    var a := w.ToManager();
    && k <= |a| && w'.ToManager() == a[k..] && w'.ToResource() == []
    && w'.rm == w.rm.(engine := w.rm.engine.(core := w.rm.engine.core.(outbox := a[k..])))
    && AwaitsSelection(w'.cem)
    && (w'.cem.engine.IsClosed() ==> exists i :: 0 <= i < k && EndsTheSession(a[i]))
    && (!w'.cem.engine.IsClosed() ==>
          if k < |a| then w'.cem.engine.core.state == s &&
            w'.cem.pendingSelection == Some(CemEngine.Selection(last.id, last.controlType))
          else
            && w'.cem.engine.core.state == (if a[|a| - 1].status.Ok? then AfterSelection(last.controlType) else s)
            && w'.cem.pendingSelection.None?)
  }

  /** Only the last of the answers names the selection remembered. */
  ghost predicate LastNames(a: seq<Message>, id: Id) {
    && 0 < |a| && (forall m <- a :: m.ReceptionStatus?) && a[|a| - 1].subject == id
    && forall i :: 0 <= i < |a| - 1 ==> a[i].subject != id
  }

  lemma {:induction false} OneMoreHeard(w: World, s: SessionState, last: Message, k: nat, w': World, h: Action)
    requires last.SelectControlType? && LastNames(w.ToManager(), last.id) && k < |w.ToManager()| && h.ToCem?
    requires HeardSoFar(w, s, last, k, w')
    ensures HeardSoFar(w, s, last, k + 1, Next(w', h))
  {
    var a := w.ToManager();
    assert a[k] in a && a[k..][1..] == a[k + 1..];
    if !w'.cem.engine.IsClosed() {
      CemHearsStatus(w'.cem, a[k], h.now, h.v);
      if !EndsTheSession(a[k]) { OnlyAPermanentErrorEnds(w'.cem, a[k], h.now, h.v); }
    }
    ClosedHearsNothing(w'.cem, a[k], h.now, h.v);
    hide CemEngine.HandleFrame, AwaitsSelection;
  }

  lemma {:induction false} ClosedHearsNothing(s: CemEngine.State, m: Message, now: Timestamp, v: Verdict)
    ensures s.engine.IsClosed() ==> CemEngine.HandleFrame(s, Wire(m, false), now, v) == s
  {
  }

  lemma {:induction false} AllHeard(w: World, s: SessionState, last: Message, hearings: seq<Action>)
    requires last.SelectControlType? && LastNames(w.ToManager(), last.id) && |hearings| <= |w.ToManager()|
    requires AreHearings(hearings)
    requires HeardSoFar(w, s, last, 0, w)
    ensures HeardSoFar(w, s, last, |hearings|, After(w, hearings))
  {
    hide HeardSoFar, Next;
    if hearings != [] {
      var n := |hearings| - 1;
      AllHeard(w, s, last, hearings[..n]);
      OneMoreHeard(w, s, last, n, After(w, hearings[..n]), hearings[n]);
    }
  }

  // -------------------------------------------------------------------------
  // Who parts and when
  // -------------------------------------------------------------------------

  lemma {:induction false} AllAnswered(w: World, s: SessionState, readings: seq<Action>, w': World)
    requires Asking(w, s) && w.ToResource() != [] && |readings| == |w.ToResource()| && AreReads(readings)
    requires w' == After(w, readings)
    ensures var q, a := w.ToResource(), w'.ToManager();
      var last := q[|q| - 1];
      && LastNames(a, last.id) && |a| == |q| && a[|a| - 1].status == Said(readings[|q| - 1].v)
      && last.SelectControlType?
      && HeardSoFar(w', s, last, 0, w')
      && !w'.rm.engine.IsClosed() && w'.rm.engine.core.state == Standing(s, q, readings)
      && (forall i :: 0 <= i < |a| && EndsTheSession(a[i]) ==> ConsequenceOf(Said(readings[i].v)).Disconnect?)
  {
    var q := w.ToResource();
    AllRead(w, s, readings);
    hide After;
    RepliesNameTheLast(w.rm.engine.core.acks.answered, q, w.cem.engine.core.minted, w'.ToManager(), readings);
    AwaitsIsAboutTheLedger(w.cem, w'.cem);
    hide AwaitsSelection, AreNew, AreReplies, AreUnread, LastNames, Standing;
    assert w'.ToManager()[0..] == w'.ToManager() && q[..|q|] == q;
  }

  /** However many selections are on their way, the resource ends where the last it took leads and
      the manager where the last it sent leads, if that is acknowledged: open sides part exactly when
      the last does not take effect and leaves the two in different places. No side ends the session
      unless an answer says that it must. */
  lemma {:induction false} OnlyTheLastSelectionIsShared(w: World, s: SessionState, readings: seq<Action>,
                                                        hearings: seq<Action>)
    requires Asking(w, s) && w.ToResource() != []
    requires |readings| == |hearings| == |w.ToResource()| && AreReads(readings) && AreHearings(hearings)
    ensures var q, w' := w.ToResource(), After(After(w, readings), hearings);
      var last, v, standing := q[|q| - 1], readings[|q| - 1].v, Standing(s, q, readings);
      && w'.ToManager() == [] == w'.ToResource() && !w'.rm.engine.IsClosed() && w'.rm.engine.core.state == standing
      && (w'.cem.engine.IsClosed() ==> exists k :: 0 <= k < |q| && ConsequenceOf(Said(readings[k].v)).Disconnect?)
      && (!w'.cem.engine.IsClosed() ==>
            && w'.cem.pendingSelection.None?
            && (w'.rm.engine.core.state != w'.cem.engine.core.state <==>
                !Takes(v) && standing != if Said(v).Ok? then AfterSelection(last.controlType) else s))
  {
    var q, w1 := w.ToResource(), After(w, readings);
    AllAnswered(w, s, readings, w1);
    AllHeard(w1, s, q[|q| - 1], hearings);
    hide After, Asking, LastNames, Standing;
  }

  lemma {:induction false} RepliesNameTheLast(ring: seq<Answer>, q: seq<Message>, n: nat, a: seq<Message>,
                                              readings: seq<Action>)
    requires AreNew(ring, q, n) && q != [] && |readings| == |q| && AreReads(readings) && AreReplies(a, q, readings)
    ensures LastNames(a, q[|q| - 1].id) && AreSelections(q) && |a| == |q|
    ensures a[|a| - 1] == ReceptionStatus(q[|q| - 1].id, Said(readings[|q| - 1].v))
    ensures forall i :: 0 <= i < |a| && EndsTheSession(a[i]) ==> ConsequenceOf(Said(readings[i].v)).Disconnect?
  {
    hide UpTo;
    assert q[|q| - 1] in q;
  }

  lemma {:induction false} AwaitsIsAboutTheLedger(s: CemEngine.State, s': CemEngine.State)
    requires AwaitsSelection(s) && s'.pendingSelection == s.pendingSelection
    requires s'.engine.core.acks == s.engine.core.acks
    ensures AwaitsSelection(s')
  {
  }

  /** Where the resource stands is where the last selection it took leads: the one before `k`, if any. */
  lemma {:induction false} StandingIsTheLastTaken(s: SessionState, q: seq<Message>, readings: seq<Action>, k: nat)
    requires |readings| == |q| && AreReads(readings) && AreSelections(q) && k <= |q|
    requires (k > 0 ==> Takes(readings[k - 1].v)) && forall j :: k <= j < |q| ==> !Takes(readings[j].v)
    ensures Standing(s, q, readings) == if k == 0 then s else AfterSelection(q[k - 1].controlType)
  {
    hide AfterSelection, Takes;
    if k < |q| { StandingIsTheLastTaken(s, q[..|q| - 1], readings[..|q| - 1], k); }
  }
}
