/** Why the agreement of the two sides needs each of its assumptions. */
module Disagreement {
  import opened Ids
  import opened Time
  import opened Messages
  import opened Ledger
  import opened Session
  import opened SessionRuns
  import opened Exchange
  import opened TwoParty
  import opened Selections
  import RmEngine
  import CemEngine
  import StateTable

  lemma {:induction false} PolicyOkIsNotProcessing(s: RmEngine.State, m: Message, now: Timestamp, v: Verdict)
    requires m.SelectControlType? && !s.engine.IsClosed() && s.engine.core.role == Rm
    requires !IsRemembered(s.engine.core.acks.answered, m.id) && MayReceive(s.engine, m) && !v.errors
    requires v.policy == Some(Ok)
    ensures var s' := RmEngine.HandleFrame(s, Wire(m, false), now, v);
      s'.engine.core.state == s.engine.core.state
      && s'.engine.core.outbox == s.engine.core.outbox + [ReceptionStatus(m.id, Ok)]
  {
    hide LatestAnswer, AfterAnswered, MayReceive;
  }

  lemma {:induction false} AnOkFromThePolicySplitsTheSides(w: World, now: Timestamp, v: Verdict, v': Verdict)
    requires Sound(w) && !w.rm.engine.IsClosed() && !w.cem.engine.IsClosed()
    requires w.ToManager() == [] && |w.ToResource()| == 1 && w.ToResource()[0].SelectControlType?
    requires MayReceive(w.rm.engine, w.ToResource()[0]) && !v.errors && v.policy == Some(Ok)
    ensures var w2 := Next(Next(w, ToRm(now, v)), ToCem(now, v'));
      && w2.ToManager() == [] && w2.ToResource() == [] && w2.cem.pendingSelection.None?
      && w2.rm.engine.core.state == w.rm.engine.core.state
      && w2.cem.engine.core.state == AfterSelection(w.ToResource()[0].controlType)
  {
    var m := w.ToResource()[0];
    ResponseIsAgreeable(w, m);
    PolicyOkIsNotProcessing(w.rm, m, now, v);
    SelectionIsPending(w, m);
    var w1 := Next(w, ToRm(now, v));
    assert w1.ToManager() == [ReceptionStatus(m.id, Ok)] by {
      assert [] + [ReceptionStatus(m.id, Ok)] == [ReceptionStatus(m.id, Ok)];
    }
    assert AwaitsSelection(w1.cem) by { AwaitsIsAboutTheLedger(w.cem, w1.cem); }
    CemHearsStatus(w1.cem, ReceptionStatus(m.id, Ok), now, v');
    AcceptedKeepsOpen(w1.cem, ReceptionStatus(m.id, Ok), now, v');
    hide RmEngine.HandleFrame, CemEngine.HandleFrame, Sound, MayReceive, IsRemembered;
  }

  lemma {:induction false} PolicyIsNotAsked(s: RmEngine.State, m: Message, now: Timestamp, v: Verdict)
    requires m.SelectControlType? && (v.errors || !MayReceive(s.engine, m))
    ensures RmEngine.HandleFrame(s, Wire(m, false), now, v) ==
      RmEngine.HandleFrame(s, Wire(m, false), now, v.(policy := None))
  {
    hide LatestAnswer, MayReceive;
  }

  lemma {:induction false} ASelectionInOrderKeepsTheSidesTogether(w: World, now: Timestamp, v: Verdict, v': Verdict)
    requires Sound(w) && Behaves(w, ToRm(now, v)) && w.ToManager() == []
    requires |w.ToResource()| == 1 && w.ToResource()[0].SelectControlType? && !w.rm.engine.IsClosed()
    requires !w.cem.engine.IsClosed()
    ensures var w2 := Next(Next(w, ToRm(now, v)), ToCem(now, v'));
      !w2.rm.engine.IsClosed() && !w2.cem.engine.IsClosed() ==> w2.rm.engine.core.state == w2.cem.engine.core.state
  {
    var m := w.ToResource()[0];
    var w1 := Next(w, ToRm(now, v));
    var w2 := Next(w1, ToCem(now, v'));
    ResourceHears(w, now, v);
    ManagerHears(w1, now, v');
    SelectionIsPending(w, m);
    ResponseIsAgreeable(w, m);
    var status := RmHearsSelection(w.rm, m, now, v);
    assert w1.ToManager() == [ReceptionStatus(m.id, status)] by {
      assert [] + [ReceptionStatus(m.id, status)] == [ReceptionStatus(m.id, status)];
    }
    assert AwaitsSelection(w1.cem) by { AwaitsIsAboutTheLedger(w.cem, w1.cem); }
    CemHearsStatus(w1.cem, ReceptionStatus(m.id, status), now, v');
    hide RmEngine.HandleFrame, CemEngine.HandleFrame, Numbered, ResourceSide, ManagerSide, CleanAreAllowed,
      VersionsSettled, IsRemembered;
    assert w2.ToManager() == [] == w2.ToResource();
  }

  /** One selection and its answer on otherwise quiet queues: the two sides, still open, agree
      afterwards exactly unless the resource's policy answers it `Ok` in its own name, which
      acknowledges the selection without acting on it. */
  lemma {:induction false} APolicyMustNotSayOk(w: World, now: Timestamp, v: Verdict, v': Verdict)
    requires Sound(w) && !w.rm.engine.IsClosed() && !w.cem.engine.IsClosed()
    requires w.ToManager() == [] && |w.ToResource()| == 1 && w.ToResource()[0].SelectControlType?
    ensures var m := w.ToResource()[0];
      var w2 := Next(Next(w, ToRm(now, v)), ToCem(now, v'));
      !w2.rm.engine.IsClosed() && !w2.cem.engine.IsClosed() ==>
        (w2.rm.engine.core.state != w2.cem.engine.core.state <==>
         v.policy == Some(Ok) && !v.errors && MayReceive(w.rm.engine, m) &&
           AfterSelection(m.controlType) != w.rm.engine.core.state)
  {
    hide Sound, Next, MayReceive;
    var m := w.ToResource()[0];
    if v.policy != Some(Ok) {
      ASelectionInOrderKeepsTheSidesTogether(w, now, v, v');
    } else if v.errors || !MayReceive(w.rm.engine, m) {
      PolicyIsNotAsked(w.rm, m, now, v);
      assert Next(w, ToRm(now, v)) == Next(w, ToRm(now, v.(policy := None))) by {
        TheStepIsWhatIsHeard(w, now, v, v.(policy := None));
      }
      ASelectionInOrderKeepsTheSidesTogether(w, now, v.(policy := None), v');
    } else {
      AnOkFromThePolicySplitsTheSides(w, now, v, v');
    }
  }

  lemma {:induction false} TheStepIsWhatIsHeard(w: World, now: Timestamp, v: Verdict, u: Verdict)
    requires w.ToResource() != []
    requires RmEngine.HandleFrame(w.rm, Wire(w.ToResource()[0], false), now, v) ==
      RmEngine.HandleFrame(w.rm, Wire(w.ToResource()[0], false), now, u)
    ensures Next(w, ToRm(now, v)) == Next(w, ToRm(now, u))
  {
    hide RmEngine.HandleFrame;
  }

  lemma {:induction false} SelectionIsPending(w: World, m: Message)
    requires Sound(w) && !w.rm.engine.IsClosed() && !w.cem.engine.IsClosed()
    requires w.ToManager() == [] && w.ToResource() != [] && m == w.ToResource()[0] && m.SelectControlType?
    ensures w.cem.pendingSelection == Some(CemEngine.Selection(m.id, m.controlType))
    ensures AwaitsSelection(w.cem)
  {
    hide Numbered, ResourceSide, CleanAreAllowed, ManagerSide;
    assert m in w.ToResource();
  }

  lemma {:induction false} AcceptedKeepsOpen(s: CemEngine.State, m: Message, now: Timestamp, v: Verdict)
    requires m.ReceptionStatus? && m.status.Ok? && !s.engine.IsClosed()
    ensures !CemEngine.HandleFrame(s, Wire(m, false), now, v).engine.IsClosed()
  {
    ReceivedTakesOne(s.engine.core.acks, m.subject, m.status, now);
    hide AfterReceived;
  }

  // -------------------------------------------------------------------------
  // A selection that runs out of time
  // -------------------------------------------------------------------------

  /** A message of this identifier is waiting for its answer and has run out of time. */
  predicate Lapses(s: CemEngine.State, id: Id, now: Timestamp) {
    exists o <- s.engine.core.acks.pending :: o.handle.id == id && Due(o, now)
  }

  lemma {:induction false} ListedAreDue(pending: seq<Outstanding>, now: Timestamp)
    ensures forall h <- DueHandles(pending, now) :: exists o <- pending :: o.handle == h && Due(o, now)
  {
    if pending != [] {
      var n := |pending| - 1;
      ListedAreDue(pending[..n], now);
      assert pending[n] in pending && forall o <- pending[..n] :: o in pending;
    }
  }

  lemma {:induction false} LapsedAreForgotten(s: CemEngine.State, now: Timestamp)
    requires s.pendingSelection.Some? && AwaitsSelection(s)
    ensures var s' := CemEngine.HandleTimeout(s, now);
      && s'.pendingSelection == (if Lapses(s, s.pendingSelection.value.id, now) then None else s.pendingSelection)
      && s'.engine.core.state == s.engine.core.state && s'.engine.core.outbox == s.engine.core.outbox
      && AwaitsSelection(s')
  {
    ListedAreDue(s.engine.core.acks.pending, now);
    DueAreListed(s.engine.core.acks.pending, now);
    if !CemEngine.PendingAmong(s, AfterExpire(s.engine.core.acks, now).1) { UnexpiredStillAwaited(s, now); }
    hide Registry.AfterActivation, Registry.DueMessages, DueHandles, Waiting;
  }

  /** A selection is read, the manager's clock moves on, and the answer arrives: the two sides, still
      open, part exactly when the resource moved and the selection had lapsed by then, or when it had
      not lapsed and the resource's policy answered `Ok` in its own name. */
  lemma {:induction false} AnExpiredSelectionIsForgotten(w: World, now: Timestamp, v: Verdict, t: Timestamp,
                                                         now': Timestamp, v': Verdict)
    requires Sound(w) && !w.rm.engine.IsClosed() && !w.cem.engine.IsClosed()
    requires w.ToManager() == [] && |w.ToResource()| == 1 && w.ToResource()[0].SelectControlType?
    ensures var m, s := w.ToResource()[0], w.rm.engine.core.state;
      var w' := Next(Next(Next(w, ToRm(now, v)), AtCem(LetTimePass(t))), ToCem(now', v'));
      && w'.ToManager() == [] == w'.ToResource() && w'.cem.pendingSelection.None?
      && (w'.rm.engine.IsClosed() ==> !MayReceive(w.rm.engine, m))
      && (w'.cem.engine.IsClosed() ==> MayReceive(w.rm.engine, m) && ConsequenceOf(Said(v)).Disconnect?)
      && (!w'.rm.engine.IsClosed() && !w'.cem.engine.IsClosed() ==>
            (w'.rm.engine.core.state != w'.cem.engine.core.state <==>
             && !v.errors && MayReceive(w.rm.engine, m) && AfterSelection(m.controlType) != s
             && if Lapses(w.cem, m.id, t) then v.policy.None? else v.policy == Some(Ok)))
  {
    var m := w.ToResource()[0];
    var status := ReadThenLate(w, m, now, v, t);
    var w2 := Next(Next(w, ToRm(now, v)), AtCem(LetTimePass(t)));
    hide Sound, MayReceive, AwaitsSelection, Lapses;
    CemHearsStatus(w2.cem, ReceptionStatus(m.id, status), now', v');
    if !ConsequenceOf(status).Disconnect? { OnlyAPermanentErrorEnds(w2.cem, ReceptionStatus(m.id, status), now', v'); }
    HearingTheOnlyAnswer(w2, ReceptionStatus(m.id, status), now', v');
    hide Next, CemEngine.HandleFrame, AfterSelection;
  }

  lemma {:induction false} NothingMarked(clean: seq<bool>, before: CemEngine.State, after: CemEngine.State)
    requires after.engine.core.outbox == before.engine.core.outbox
    ensures Marked(clean, before, after) == clean
  {
  }

  lemma {:induction false} TimePassesUnderWay(s: CemEngine.State, t: Timestamp)
    requires s.engine.core.outbox != []
    ensures CemEngine.HandleTimeout(s, t).engine.core.outbox == s.engine.core.outbox
    ensures CemEngine.HandleTimeout(s.(engine := Popped(s.engine)), t) ==
      var s' := CemEngine.HandleTimeout(s, t); s'.(engine := Popped(s'.engine))
  {
    hide Waiting, DueHandles, Registry.AfterActivation, Registry.DueMessages, TimeoutEvents, ActivationEvents;
    var handles := AfterExpire(s.engine.core.acks, t).1;
    var popped := s.(engine := Popped(s.engine));
    assert forall h <- handles :: CemEngine.IsPending(popped, h.id) <==> CemEngine.IsPending(s, h.id);
  }

  /** It makes no difference whether the clock moves on before or after the resource reads. */
  lemma {:induction false} TimeAndReadingCommute(w: World, now: Timestamp, v: Verdict, t: Timestamp)
    requires w.ToResource() != []
    ensures Next(Next(w, ToRm(now, v)), AtCem(LetTimePass(t))) == Next(Next(w, AtCem(LetTimePass(t))), ToRm(now, v))
  {
    var popped := w.cem.(engine := Popped(w.cem.engine));
    var rest := if w.clean == [] then [] else w.clean[1..];
    TimePassesUnderWay(w.cem, t);
    NothingMarked(w.clean, w.cem, CemEngine.HandleTimeout(w.cem, t));
    NothingMarked(rest, popped, CemEngine.HandleTimeout(popped, t));
    hide RmEngine.HandleFrame, CemEngine.HandleTimeout, Marked;
  }

  lemma {:induction false} HearingTheOnlyAnswer(w: World, x: Message, now: Timestamp, v: Verdict)
    requires w.ToManager() == [x] && w.ToResource() == []
    ensures var w' := Next(w, ToCem(now, v));
      && w'.cem == CemEngine.HandleFrame(w.cem, Wire(x, false), now, v) && w'.ToManager() == []
      && w'.rm.engine.core.state == w.rm.engine.core.state
  {
    hide CemEngine.HandleFrame;
  }

  lemma {:induction false} ReadThenLate(w: World, m: Message, now: Timestamp, v: Verdict, t: Timestamp)
    returns (status: Status)
    requires Sound(w) && !w.rm.engine.IsClosed() && !w.cem.engine.IsClosed()
    requires w.ToManager() == [] && |w.ToResource()| == 1 && m == w.ToResource()[0] && m.SelectControlType?
    ensures var w', s := Next(Next(w, ToRm(now, v)), AtCem(LetTimePass(t))), w.rm.engine.core.state;
      && w'.ToManager() == [ReceptionStatus(m.id, status)] && w'.ToResource() == []
      && !w'.cem.engine.IsClosed() && w'.cem.engine.core.state == s && AwaitsSelection(w'.cem)
      && w'.cem.pendingSelection ==
         (if Lapses(w.cem, m.id, t) then None else Some(CemEngine.Selection(m.id, m.controlType)))
      && (MayReceive(w.rm.engine, m) ==> !w'.rm.engine.IsClosed())
      && (!w'.rm.engine.IsClosed() ==>
            w'.rm.engine.core.state == if MayReceive(w.rm.engine, m) && Takes(v) then AfterSelection(m.controlType)
              else s)
    ensures status == if MayReceive(w.rm.engine, m) then Said(v) else InvalidContent
  {
    ResponseIsAgreeable(w, m);
    SelectionIsPending(w, m);
    QuietButForASelection(w, m);
    hide Sound, MayReceive, IsRemembered;
    status := SelectionIsAnswered(w.rm, m, now, v);
    hide RmEngine.HandleFrame;
    var w1 := Next(w, ToRm(now, v));
    assert w1.ToManager() == [ReceptionStatus(m.id, status)] by {
      assert [] + [ReceptionStatus(m.id, status)] == [ReceptionStatus(m.id, status)];
    }
    AwaitsIsAboutTheLedger(w.cem, w1.cem);
    hide Next, AwaitsSelection;
    TimePassesForTheManager(w1, t);
  }

  lemma {:induction false} TimePassesForTheManager(w: World, t: Timestamp)
    requires w.cem.pendingSelection.Some? && AwaitsSelection(w.cem)
    ensures var w' := Next(w, AtCem(LetTimePass(t)));
      && w'.rm == w.rm && w'.ToResource() == w.ToResource() && w'.cem.engine.core.state == w.cem.engine.core.state
      && w'.cem.pendingSelection ==
         (if Lapses(w.cem, w.cem.pendingSelection.value.id, t) then None else w.cem.pendingSelection)
      && AwaitsSelection(w'.cem)
  {
    LapsedAreForgotten(w.cem, t);
    hide CemEngine.HandleTimeout, AwaitsSelection;
  }

  lemma {:induction false} QuietButForASelection(w: World, m: Message)
    requires Sound(w) && !w.rm.engine.IsClosed() && !w.cem.engine.IsClosed()
    requires w.ToManager() == [] && w.ToResource() == [m] && m.SelectControlType?
    ensures w.cem.engine.core.state == w.rm.engine.core.state
  {
    hide Numbered, ResourceSide, CleanAreAllowed, ManagerSide;
  }

  // -------------------------------------------------------------------------
  // A second selection before the first is answered
  // -------------------------------------------------------------------------

  /** Two selections sent back to back by quiet sides that agreed, then read, then answered: the
      manager goes by the second alone. Unless a policy answers that `Ok` in its own name, the two
      sides part exactly when the resource took the first, refused the second, and moved by it. */
  lemma {:induction false} ASecondSelectionCanPartTheSides(w: World, first: Action, second: Action,
                                                           readings: seq<Action>, hearings: seq<Action>)
    requires Sound(w) && Quiet(w) && first.AtCem? && first.i.SelectType? && second.AtCem? && second.i.SelectType?
    requires |readings| == |hearings| == 2 && AreReads(readings) && AreHearings(hearings)
    requires Asks(w, first) && Asks(Next(w, first), second)
    ensures var s, c, d := w.rm.engine.core.state, first.i.controlType, second.i.controlType;
      var v, u, w' := readings[0].v, readings[1].v, After(After(Next(Next(w, first), second), readings), hearings);
      && w'.ToManager() == [] == w'.ToResource() && !w'.rm.engine.IsClosed()
      && (w'.cem.engine.IsClosed() ==> ConsequenceOf(Said(v)).Disconnect? || ConsequenceOf(Said(u)).Disconnect?)
      && (!w'.cem.engine.IsClosed() ==>
            && w'.cem.pendingSelection.None?
            && (w'.rm.engine.core.state != w'.cem.engine.core.state <==>
                if !u.errors && u.policy == Some(Ok)
                  then (if Takes(v) then AfterSelection(c) else s) != AfterSelection(d)
                else Takes(v) && !Takes(u) && AfterSelection(c) != s))
  {
    var s := w.rm.engine.core.state;
    var w2 := Next(Next(w, first), second);
    BothAreAsked(w, first, second);
    hide *;
    TwoSelectionsSettle(w2, s, readings, hearings, After(After(w2, readings), hearings));
  }

  lemma {:induction false} TwoSelectionsSettle(w: World, s: SessionState, readings: seq<Action>,
                                               hearings: seq<Action>, w': World)
    requires Asking(w, s) && |w.ToResource()| == 2 && AreSelections(w.ToResource())
    requires |readings| == |hearings| == 2 && AreReads(readings) && AreHearings(hearings)
    requires w' == After(After(w, readings), hearings)
    ensures var c, d := w.ToResource()[0].controlType, w.ToResource()[1].controlType;
      var v, u := readings[0].v, readings[1].v;
      && w'.ToManager() == [] == w'.ToResource() && !w'.rm.engine.IsClosed()
      && (w'.cem.engine.IsClosed() ==> ConsequenceOf(Said(v)).Disconnect? || ConsequenceOf(Said(u)).Disconnect?)
      && (!w'.cem.engine.IsClosed() ==>
            && w'.cem.pendingSelection.None?
            && (w'.rm.engine.core.state != w'.cem.engine.core.state <==>
                if !u.errors && u.policy == Some(Ok)
                  then (if Takes(v) then AfterSelection(c) else s) != AfterSelection(d)
                else Takes(v) && !Takes(u) && AfterSelection(c) != s))
  {
    hide After, AfterSelection, Standing;
    OnlyTheLastSelectionIsShared(w, s, readings, hearings);
    StandingIsTheLastTaken(s, w.ToResource(), readings, if Takes(readings[1].v) then 2 else if Takes(readings[0].v)
      then 1 else 0);
  }

  lemma {:induction false} BothAreAsked(w: World, first: Action, second: Action)
    requires Sound(w) && Quiet(w) && first.AtCem? && first.i.SelectType? && second.AtCem? && second.i.SelectType?
    requires Asks(w, first) && Asks(Next(w, first), second)
    ensures var w' := Next(Next(w, first), second);
      var q := w'.ToResource();
      && Asking(w', w.rm.engine.core.state) && |q| == 2 && AreSelections(q)
      && q[0].controlType == first.i.controlType && q[1].controlType == second.i.controlType
  {
    var s := w.rm.engine.core.state;
    QuietSidesMayAsk(w);
    hide Sound, Asking, Next, CemEngine.Select;
    OneMoreAsked(w, s, first.i.controlType, first.i.now, first.i.v);
    OneMoreAsked(Next(w, first), s, second.i.controlType, second.i.now, second.i.v);
    var q := Next(Next(w, first), second).ToResource();
    assert q[0].SelectControlType? && q[1].SelectControlType?;
  }

  /** The manager's application asks for a control type and is let. */
  predicate Asks(w: World, a: Action)
    requires a.AtCem? && a.i.SelectType?
  {
    CemEngine.Select(w.cem, a.i.controlType, a.i.now, a.i.v).1.Accepted?
  }

  /** Asking again before the first answer has come overwrites what is pending, and the first
      selection's `Ok` leaves the manager where it was. */
  lemma {:induction false} ASecondSelectionOverwritesTheFirst(s: CemEngine.State, c: ControlType, d: ControlType,
                                                              now: Timestamp, v: Verdict, v': Verdict)
    requires CemEngine.Select(s, c, now, v).1.Accepted?
    requires CemEngine.Select(CemEngine.Select(s, c, now, v).0, d, now, v).1.Accepted?
    ensures var first := CemEngine.Select(s, c, now, v);
      var second := CemEngine.Select(first.0, d, now, v);
      var heard := CemEngine.HandleFrame(second.0, Wire(ReceptionStatus(first.1.handle.id, Ok), false), now, v');
      && heard.engine.core.state == s.engine.core.state
      && heard.pendingSelection == Some(CemEngine.Selection(second.1.handle.id, d))
      && first.1.handle.id != second.1.handle.id
  {
    var first := CemEngine.Select(s, c, now, v);
    var second := CemEngine.Select(first.0, d, now, v);
    SelectingMints(s, c, now, v);
    SelectingMints(first.0, d, now, v);
    AnotherOkChangesNothing(second.0, first.1.handle.id, now, v');
    hide CemEngine.Select, CemEngine.HandleFrame;
  }

  lemma {:induction false} SelectingMints(s: CemEngine.State, c: ControlType, now: Timestamp, v: Verdict)
    requires CemEngine.Select(s, c, now, v).1.Accepted?
    ensures var (s', r) := CemEngine.Select(s, c, now, v);
      && r.handle.id == Minted(s.engine.core.role, s.engine.core.minted + 1)
      && s'.engine.core.minted == s.engine.core.minted + 1
      && s'.engine.core.role == s.engine.core.role && s'.engine.core.state == s.engine.core.state
      && !s'.engine.IsClosed()
      && s'.pendingSelection == Some(CemEngine.Selection(r.handle.id, c))
  {
    SendSpeaks(MintOn(s.engine), SelectControlType(MintedId(s.engine.core), c), now, v);
    hide SendOn, StateTable.MaySend;
  }

  lemma {:induction false} AnotherOkChangesNothing(s: CemEngine.State, subject: Id, now: Timestamp, v: Verdict)
    requires !s.engine.IsClosed() && s.pendingSelection.Some? && s.pendingSelection.value.id != subject
    ensures var s' := CemEngine.HandleFrame(s, Wire(ReceptionStatus(subject, Ok), false), now, v);
      s'.engine.core.state == s.engine.core.state && s'.pendingSelection == s.pendingSelection
  {
    ReceivedTakesOne(s.engine.core.acks, subject, Ok, now);
    hide AfterReceived;
  }
}
