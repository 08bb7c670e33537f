/** What both sides go by in any run past the handshake, however many selections are on their way,
    run out of time, or are answered by a policy. */
module Drifting {
  import opened Ids
  import opened Time
  import opened Messages
  import opened Ledger
  import opened Session
  import opened SessionRuns
  import opened Exchange
  import opened TwoParty
  import opened Selections
  import opened Disagreement
  import opened Stranding
  import RmEngine
  import CemEngine
  import StateTable

  /** The applications leave the protocol's own messages to the engines, and nothing else is asked. */
  predicate IsFree(a: Action) {
    match a
    case AtRm(i) => IsLocal(i)
    case AtCem(i) => IsLocal(i)
    case _ => true
  }

  /** The control type the resource goes over to by this step. */
  function TakenAt(w: World, a: Action): Option<ControlType> {
    if a.ToRm? && w.ToResource() != [] && w.ToResource()[0].SelectControlType? && !w.rm.engine.IsClosed()
       && !IsRemembered(w.rm.engine.core.acks.answered, w.ToResource()[0].id) && Takes(a.v)
    then Some(w.ToResource()[0].controlType) else None
  }

  /** The control type whose `Ok` the manager hears at this step while it is the one pending. */
  function HeardAt(w: World, a: Action): Option<ControlType> {
    if a.ToCem? && w.ToManager() != [] && w.ToManager()[0].ReceptionStatus? && w.ToManager()[0].status.Ok?
       && !w.cem.engine.IsClosed() && w.cem.pendingSelection.Some?
       && w.cem.pendingSelection.value.id == w.ToManager()[0].subject
    then Some(w.cem.pendingSelection.value.controlType) else None
  }

  function LastTaken(w: World, actions: seq<Action>): Option<ControlType> {
    if actions == [] then None
    else
      var n := |actions| - 1;
      var taken := TakenAt(After(w, actions[..n]), actions[n]);
      if taken.Some? then taken else LastTaken(w, actions[..n])
  }

  function LastHeard(w: World, actions: seq<Action>): Option<ControlType> {
    if actions == [] then None
    else
      var n := |actions| - 1;
      var heard := HeardAt(After(w, actions[..n]), actions[n]);
      if heard.Some? then heard else LastHeard(w, actions[..n])
  }

  function LedTo(s: SessionState, c: Option<ControlType>): SessionState {
    if c.Some? then AfterSelection(c.value) else s
  }

  predicate IsPast(s: SessionState) { !s.Idle? && !s.Handshaking? }

  /** The handshake is over and no part of it is on its way. */
  ghost predicate PastTheHandshake(w: World) {
    && IsPast(w.rm.engine.core.state) && IsPast(w.cem.engine.core.state) && w.rm.engine.core.role == Rm
    && !HoldsResponse(w.ToResource()) && !HoldsHandshake(w.ToManager()) && AwaitsSelection(w.cem)
  }

  /** What one step does to both sides' states. */
  ghost predicate Follows(w: World, a: Action, w': World) {
    && (!w'.rm.engine.IsClosed() ==> w'.rm.engine.core.state == LedTo(w.rm.engine.core.state, TakenAt(w, a)))
    && (!w'.cem.engine.IsClosed() ==> w'.cem.engine.core.state == LedTo(w.cem.engine.core.state, HeardAt(w, a)))
    && (w.rm.engine.IsClosed() ==> w'.rm.engine.IsClosed()) && (w.cem.engine.IsClosed() ==> w'.cem.engine.IsClosed())
  }

  lemma {:induction false} TheResourceActsPast(w: World, i: Input)
    requires PastTheHandshake(w) && IsLocal(i)
    ensures var w' := Next(w, AtRm(i)); PastTheHandshake(w') && Follows(w, AtRm(i), w')
  {
    hide RmStep, AwaitsSelection, HoldsResponse;
    RmActs(w.rm, i);
    ActingQueuesNoResponse(w.rm.engine, RmStep(w.rm, i).engine);
    hide HoldsHandshake, Acts;
  }

  /** The manager's application and clock, with no regard to a selection already pending. */
  lemma {:induction false} CemActsFreely(s: CemEngine.State, i: Input)
    requires IsLocal(i) && AwaitsSelection(s)
    ensures var s' := CemStep(s, i); Acts(s.engine, s'.engine) && AwaitsSelection(s')
  {
    if i.SelectType? {
      SelectsFreely(s, i.controlType, i.now, i.v);
    } else if i.LetTimePass? {
      ElapseActs(s.engine, i.now);
      if s.pendingSelection.Some? { LapsedAreForgotten(s, i.now); }
    } else {
      CemActs(s, i);
    }
    hide Elapse, CemEngine.Select, Acts, AwaitsSelection;
  }

  lemma {:induction false} SelectsFreely(s: CemEngine.State, c: ControlType, now: Timestamp, v: Verdict)
    requires AwaitsSelection(s)
    ensures var s' := CemEngine.Select(s, c, now, v).0; Acts(s.engine, s'.engine) && AwaitsSelection(s')
  {
    SendSpeaks(MintOn(s.engine), SelectControlType(MintedId(s.engine.core), c), now, v);
    hide SendOn, StateTable.MaySend;
  }

  lemma {:induction false} TheManagerActsPast(w: World, i: Input)
    requires PastTheHandshake(w) && IsLocal(i)
    ensures var w' := Next(w, AtCem(i)); PastTheHandshake(w') && Follows(w, AtCem(i), w')
  {
    hide CemStep, AwaitsSelection, HoldsHandshake;
    var s' := CemStep(w.cem, i);
    CemActsFreely(w.cem, i);
    ActingQueuesNoResponse(w.cem.engine, s'.engine);
    hide HoldsResponse, Acts;
  }

  lemma {:induction false} ActingQueuesNoResponse(a: Engine, b: Engine)
    requires Acts(a, b)
    ensures Stays(a.core.state, b.core.state) && b.core.role == a.core.role
    ensures !HoldsResponse(a.core.outbox) ==> !HoldsResponse(b.core.outbox)
    ensures !HoldsHandshake(a.core.outbox) ==> !HoldsHandshake(b.core.outbox)
  {
    hide StateTable.MaySend, HoldsResponse, HoldsHandshake;
    if b.core.outbox != a.core.outbox { Grows(a.core.outbox, b.core.outbox, b.core.outbox[|b.core.outbox| - 1]); }
  }

  /** What a resource past the handshake makes of whatever arrives. */
  lemma {:induction false} OnlyASelectionMoves(s: RmEngine.State, m: Message, now: Timestamp, v: Verdict)
    requires !m.HandshakeResponse? && IsPast(s.engine.core.state) && s.engine.core.role == Rm && !s.engine.IsClosed()
    ensures var s' := RmEngine.HandleFrame(s, Wire(m, false), now, v);
      && Appends(s.engine.core.outbox, s'.engine.core.outbox) && s'.engine.core.role == Rm
      && (!s'.engine.IsClosed() ==>
            s'.engine.core.state ==
              if m.SelectControlType? && !IsRemembered(s.engine.core.acks.answered, m.id) && Takes(v)
              then AfterSelection(m.controlType) else s.engine.core.state)
  {
    hide RmEngine.HandleFrame;
    if m.ReceptionStatus? {
      RmHearsStatus(s, m, now, v);
    } else if m.SelectControlType? {
      if IsRemembered(s.engine.core.acks.answered, m.id) {
        ARedeliveredSelectionIsOnlyAnswered(s, m, now, v);
      } else {
        SelectionsAreTakenWhenConnected(s.engine, m);
        var status := SelectionIsAnswered(s, m, now, v);
      }
    } else {
      var status := RmHearsOther(s, m, now, v);
    }
  }

  lemma {:induction false} ARedeliveredSelectionIsOnlyAnswered(s: RmEngine.State, m: Message, now: Timestamp,
                                                               v: Verdict)
    requires m.SelectControlType? && !s.engine.IsClosed() && IsRemembered(s.engine.core.acks.answered, m.id)
    ensures var s' := RmEngine.HandleFrame(s, Wire(m, false), now, v);
      && Appends(s.engine.core.outbox, s'.engine.core.outbox) && s'.engine.core.role == s.engine.core.role
      && s'.engine.core.state == s.engine.core.state
  {
    hide LatestAnswer, AfterAnswered;
  }

  lemma {:induction false} TheResourceReadsPast(w: World, now: Timestamp, v: Verdict)
    requires PastTheHandshake(w)
    ensures var w' := Next(w, ToRm(now, v)); PastTheHandshake(w') && Follows(w, ToRm(now, v), w')
  {
    if w.ToResource() != [] {
      var m := w.ToResource()[0];
      Shrinks(w.ToResource());
      var rm := RmEngine.HandleFrame(w.rm, Wire(m, false), now, v);
      if w.rm.engine.IsClosed() {
        assert rm == w.rm;
      } else {
        OnlyASelectionMoves(w.rm, m, now, v);
      }
      hide RmEngine.HandleFrame;
      AppendingIsHarmless(w.ToManager(), rm.engine.core.outbox);
      hide HoldsResponse, HoldsHandshake, AwaitsSelection, Appends, IsRemembered;
      AwaitsIsAboutTheLedger(w.cem, w.cem.(engine := Popped(w.cem.engine)));
    }
  }

  /** What a manager past the handshake makes of whatever arrives. */
  lemma {:induction false} OnlyItsOkMoves(s: CemEngine.State, m: Message, now: Timestamp, v: Verdict)
    requires !m.Handshake? && AwaitsSelection(s) && IsPast(s.engine.core.state) && !s.engine.IsClosed()
    ensures var s' := CemEngine.HandleFrame(s, Wire(m, false), now, v);
      && Appends(s.engine.core.outbox, s'.engine.core.outbox) && AwaitsSelection(s')
      && (!s'.engine.IsClosed() ==>
            s'.engine.core.state == Resolved(s.engine.core.state, s.pendingSelection, m).0)
  {
    hide CemEngine.HandleFrame;
    if m.ReceptionStatus? {
      CemHearsStatus(s, m, now, v);
    } else {
      var status := CemHearsOther(s, m, now, v);
    }
  }

  lemma {:induction false} TheManagerReadsPast(w: World, now: Timestamp, v: Verdict)
    requires PastTheHandshake(w)
    ensures var w' := Next(w, ToCem(now, v)); PastTheHandshake(w') && Follows(w, ToCem(now, v), w')
  {
    if w.ToManager() != [] {
      var m := w.ToManager()[0];
      Shrinks(w.ToManager());
      var cem := CemEngine.HandleFrame(w.cem, Wire(m, false), now, v);
      if w.cem.engine.IsClosed() {
        ClosedHearsNothing(w.cem, m, now, v);
      } else {
        OnlyItsOkMoves(w.cem, m, now, v);
      }
      hide CemEngine.HandleFrame;
      AppendingIsHarmless(w.ToResource(), cem.engine.core.outbox);
      hide HoldsResponse, HoldsHandshake, AwaitsSelection, Appends;
    }
  }

  lemma {:induction false} EveryStepFollows(w: World, a: Action)
    requires PastTheHandshake(w) && IsFree(a)
    ensures PastTheHandshake(Next(w, a)) && Follows(w, a, Next(w, a))
  {
    hide PastTheHandshake, Follows, Next;
    match a
    case ToRm(now, v) => TheResourceReadsPast(w, now, v);
    case ToCem(now, v) => TheManagerReadsPast(w, now, v);
    case AtRm(i) => TheResourceActsPast(w, i);
    case AtCem(i) => TheManagerActsPast(w, i);
  }

  /** In any run past the handshake the resource stands where the last selection it took leads, and
      the manager where the last one leads whose `Ok` it heard while that was pending. */
  lemma {:induction false} EachSideGoesByItsLast(w: World, actions: seq<Action>)
    requires PastTheHandshake(w) && forall a <- actions :: IsFree(a)
    ensures var w', s, t := After(w, actions), w.rm.engine.core.state, w.cem.engine.core.state;
      && PastTheHandshake(w')
      && (!w'.rm.engine.IsClosed() ==>
            !w.rm.engine.IsClosed() && w'.rm.engine.core.state == LedTo(s, LastTaken(w, actions)))
      && (!w'.cem.engine.IsClosed() ==>
            !w.cem.engine.IsClosed() && w'.cem.engine.core.state == LedTo(t, LastHeard(w, actions)))
  {
    if actions != [] {
      hide PastTheHandshake, Next, TakenAt, HeardAt, AfterSelection;
      var n := |actions| - 1;
      EachSideGoesByItsLast(w, actions[..n]);
      EveryStepFollows(After(w, actions[..n]), actions[n]);
    }
  }

  lemma {:induction false} QuietSidesArePast(w: World)
    requires Sound(w) && Quiet(w) && !w.rm.engine.core.state.Handshaking?
    ensures PastTheHandshake(w) && w.rm.engine.core.state == w.cem.engine.core.state
  {
    QuietAgree(w);
    hide Numbered, CleanAreAllowed, Aligned;
  }

  /** From a quiet agreement on, in any run and however deliveries interleave, open sides differ
      exactly when the last selection taken and the last one heard lead to different states. */
  lemma {:induction false} SidesDriftApartExactly(w: World, actions: seq<Action>)
    requires Sound(w) && Quiet(w) && !w.rm.engine.core.state.Handshaking? && forall a <- actions :: IsFree(a)
    ensures var w', s := After(w, actions), w.rm.engine.core.state;
      !w'.rm.engine.IsClosed() && !w'.cem.engine.IsClosed() ==>
        (w'.rm.engine.core.state != w'.cem.engine.core.state <==>
         LedTo(s, LastTaken(w, actions)) != LedTo(s, LastHeard(w, actions)))
  {
    QuietSidesArePast(w);
    hide Sound, PastTheHandshake, After, LastTaken, LastHeard, LedTo;
    EachSideGoesByItsLast(w, actions);
  }
}
