/** A `HandshakeResponse` that the resource does not act on is never made good. */
module Stranding {
  import opened Ids
  import opened Time
  import opened Messages
  import opened Ledger
  import opened Session
  import opened SessionRuns
  import opened Exchange
  import opened TwoParty
  import opened Selections
  import RmEngine
  import CemEngine
  import StateTable

  predicate HoldsHandshake(q: seq<Message>) { exists m <- q :: m.Handshake? }

  /** The resource waits for an answer that the manager has no more reason to send. */
  ghost predicate Stranded(w: World) {
    var s, t := w.rm.engine.core.state, w.cem.engine.core.state;
    && (s.Closed? || s.Handshaking?) && !HoldsResponse(w.ToResource())
    && !t.Handshaking? && !t.Idle? && !HoldsHandshake(w.ToManager())
    && w.rm.engine.core.role == Rm && AwaitsSelection(w.cem)
  }

  lemma {:induction false} Grows(q: seq<Message>, q': seq<Message>, m: Message)
    requires q' == q + [m]
    ensures !m.HandshakeResponse? && !HoldsResponse(q) ==> !HoldsResponse(q')
    ensures !m.Handshake? && !HoldsHandshake(q) ==> !HoldsHandshake(q')
  {
  }

  lemma {:induction false} Shrinks(q: seq<Message>)
    requires q != []
    ensures !HoldsResponse(q) ==> !q[0].HandshakeResponse? && !HoldsResponse(q[1..])
    ensures !HoldsHandshake(q) ==> !q[0].Handshake? && !HoldsHandshake(q[1..])
  {
    assert q[0] in q && forall m <- q[1..] :: m in q;
  }

  lemma {:induction false} TheResourceActsStranded(w: World, i: Input)
    requires Stranded(w) && IsLocal(i)
    ensures Stranded(Next(w, AtRm(i)))
  {
    RmActs(w.rm, i);
    hide RmStep, StateTable.MaySend, HoldsResponse, HoldsHandshake, AwaitsSelection;
    var b := RmStep(w.rm, i).engine.core.outbox;
    if b != w.ToManager() { Grows(w.ToManager(), b, b[|b| - 1]); }
  }

  lemma {:induction false} TheManagerActsStranded(w: World, i: Input)
    requires Stranded(w) && IsLocal(i) && KeepsSelection(w.cem, i)
    ensures Stranded(Next(w, AtCem(i)))
  {
    CemActs(w.cem, i);
    hide CemStep, StateTable.MaySend, HoldsResponse, HoldsHandshake, AwaitsSelection, KeepsSelection;
    var c := CemStep(w.cem, i).engine.core.outbox;
    if c != w.ToResource() { Grows(w.ToResource(), c, c[|c| - 1]); }
  }

  /** At most one answer is queued. */
  predicate Appends(q: seq<Message>, q': seq<Message>) {
    q' == q || (|q'| > 0 && q'[|q'| - 1].ReceptionStatus? && q' == q + [q'[|q'| - 1]])
  }

  /** What a resource still waiting for a version makes of anything but the answer. */
  lemma {:induction false} OnlyTheResponseConnects(s: RmEngine.State, m: Message, now: Timestamp, v: Verdict)
    requires !m.HandshakeResponse? && s.engine.core.state.Handshaking? && s.engine.core.role == Rm
    ensures var s' := RmEngine.HandleFrame(s, Wire(m, false), now, v);
      && (s'.engine.core.state.Closed? || s'.engine.core.state.Handshaking?) && s'.engine.core.role == Rm
      && Appends(s.engine.core.outbox, s'.engine.core.outbox)
  {
    hide RmEngine.HandleFrame;
    if m.ReceptionStatus? {
      RmHearsStatus(s, m, now, v);
    } else if m.SelectControlType? {
      SelectionIsPremature(s, m, now, v);
    } else {
      var status := RmHearsOther(s, m, now, v);
    }
  }

  lemma {:induction false} SelectionIsPremature(s: RmEngine.State, m: Message, now: Timestamp, v: Verdict)
    requires m.SelectControlType? && s.engine.core.state.Handshaking? && s.engine.core.role == Rm
    ensures var s' := RmEngine.HandleFrame(s, Wire(m, false), now, v);
      && Answers(s.engine, s'.engine, m.id, AnswerTo(s.engine, m, v).status)
  {
    ScreenAnswers(s.engine, m, v);
    if MayReceive(s.engine, m) { SelectionNeedsAConnection(s.engine, m); }
    hide Screen, MayReceive, LatestAnswer, AfterAnswered;
  }

  lemma {:induction false} AppendingIsHarmless(q: seq<Message>, q': seq<Message>)
    requires Appends(q, q')
    ensures !HoldsHandshake(q) ==> !HoldsHandshake(q')
    ensures !HoldsResponse(q) ==> !HoldsResponse(q')
  {
    if q' != q { Grows(q, q', q'[|q'| - 1]); }
  }

  lemma {:induction false} TheResourceReadsStranded(w: World, now: Timestamp, v: Verdict)
    requires Stranded(w)
    ensures Stranded(Next(w, ToRm(now, v)))
  {
    if w.ToResource() != [] {
      var m := w.ToResource()[0];
      Shrinks(w.ToResource());
      var rm := RmEngine.HandleFrame(w.rm, Wire(m, false), now, v);
      if w.rm.engine.IsClosed() {
        assert rm == w.rm;
      } else {
        OnlyTheResponseConnects(w.rm, m, now, v);
      }
      hide RmEngine.HandleFrame;
      AppendingIsHarmless(w.ToManager(), rm.engine.core.outbox);
      hide HoldsResponse, HoldsHandshake, AwaitsSelection, Appends;
      AwaitsIsAboutTheLedger(w.cem, w.cem.(engine := Popped(w.cem.engine)));
    }
  }

  /** What a manager that has agreed on a version makes of anything but a handshake. */
  lemma {:induction false} OnlyAHandshakeIsAnswered(s: CemEngine.State, m: Message, now: Timestamp, v: Verdict)
    requires !m.Handshake? && AwaitsSelection(s) && !s.engine.core.state.Handshaking? && !s.engine.core.state.Idle?
    ensures var s' := CemEngine.HandleFrame(s, Wire(m, false), now, v);
      && !s'.engine.core.state.Handshaking? && !s'.engine.core.state.Idle? && AwaitsSelection(s')
      && Appends(s.engine.core.outbox, s'.engine.core.outbox)
  {
    if s.engine.IsClosed() {
      ClosedHearsNothing(s, m, now, v);
    } else if m.ReceptionStatus? {
      CemHearsStatus(s, m, now, v);
    } else {
      var status := CemHearsOther(s, m, now, v);
    }
    hide CemEngine.HandleFrame;
  }

  lemma {:induction false} TheManagerReadsStranded(w: World, now: Timestamp, v: Verdict)
    requires Stranded(w)
    ensures Stranded(Next(w, ToCem(now, v)))
  {
    if w.ToManager() != [] {
      var m := w.ToManager()[0];
      Shrinks(w.ToManager());
      OnlyAHandshakeIsAnswered(w.cem, m, now, v);
      var cem := CemEngine.HandleFrame(w.cem, Wire(m, false), now, v);
      hide CemEngine.HandleFrame;
      AppendingIsHarmless(w.ToResource(), cem.engine.core.outbox);
      hide HoldsResponse, HoldsHandshake, AwaitsSelection, Appends;
    }
  }

  lemma {:induction false} EveryRunStaysStranded(w: World, actions: seq<Action>)
    requires Stranded(w) && AllBehave(w, actions)
    ensures Stranded(After(w, actions))
  {
    hide Stranded, Next;
    if actions != [] {
      var n := |actions| - 1;
      EveryRunStaysStranded(w, actions[..n]);
      var before := After(w, actions[..n]);
      match actions[n]
      case ToRm(now, v) => TheResourceReadsStranded(before, now, v);
      case ToCem(now, v) => TheManagerReadsStranded(before, now, v);
      case AtRm(i) => TheResourceActsStranded(before, i);
      case AtCem(i) => TheManagerActsStranded(before, i);
    }
  }

  lemma {:induction false} RefusingStrands(w: World, now: Timestamp, v: Verdict)
    requires Sound(w) && !w.rm.engine.IsClosed() && !w.cem.engine.IsClosed()
    requires w.ToResource() != [] && w.ToResource()[0].HandshakeResponse? && (v.errors || v.policy.Some?)
    ensures Stranded(Next(w, ToRm(now, v)))
  {
    var m := w.ToResource()[0];
    AnsweredManagersAreReady(w, m);
    RefusedResponse(w.rm, m, now, v);
    var rm := RmEngine.HandleFrame(w.rm, Wire(m, false), now, v);
    hide RmEngine.HandleFrame;
    AppendingIsHarmless(w.ToManager(), rm.engine.core.outbox);
    AwaitsIsAboutTheLedger(w.cem, w.cem.(engine := Popped(w.cem.engine)));
    hide HoldsResponse, HoldsHandshake, AwaitsSelection, Appends, ManagerSide, ResourceSide, Aligned, Numbered,
      CleanAreAllowed;
  }

  /** Once the response is on its way, the manager is ready and nothing else greets either side. */
  lemma {:induction false} AnsweredManagersAreReady(w: World, m: Message)
    requires Sound(w) && !w.rm.engine.IsClosed() && !w.cem.engine.IsClosed()
    requires w.ToResource() != [] && m == w.ToResource()[0] && m.HandshakeResponse?
    ensures w.rm.engine.core.state.Handshaking? && !HoldsResponse(w.ToResource()[1..])
    ensures !w.cem.engine.core.state.Handshaking? && !w.cem.engine.core.state.Idle? && !HoldsHandshake(w.ToManager())
  {
    var q := w.ToResource();
    assert m in q;
    assert forall k :: 0 <= k < |q[1..]| ==> q[1..][k] == q[k + 1];
    NothingPending(w.cem.engine.core.state, w.ToManager());
    hide Numbered, CleanAreAllowed, AwaitsSelection, Unanswered, AllowedAlong, Heard;
  }

  lemma {:induction false} RefusedResponse(s: RmEngine.State, m: Message, now: Timestamp, v: Verdict)
    requires m.HandshakeResponse? && s.engine.core.state.Handshaking? && s.engine.core.role == Rm &&
      (v.errors || v.policy.Some?)
    ensures var s' := RmEngine.HandleFrame(s, Wire(m, false), now, v);
      && (s'.engine.core.state.Closed? || s'.engine.core.state.Handshaking?) && s'.engine.core.role == Rm
      && Appends(s.engine.core.outbox, s'.engine.core.outbox)
  {
    ScreenAnswers(s.engine, m, v);
    hide Screen, MayReceive, LatestAnswer, AfterAnswered;
  }

  /** The sides of a quiet sound world are in one state. */
  lemma {:induction false} QuietAgree(w: World)
    requires Sound(w) && Quiet(w)
    ensures w.rm.engine.core.state == w.cem.engine.core.state
  {
    hide Numbered, CleanAreAllowed, ManagerSide, ResourceSide, AwaitsSelection;
  }

  /** From the moment the `HandshakeResponse` is read, in every later run, whenever both sides are
      open and quiet they differ exactly if it was refused or left to the policy to answer. */
  lemma {:induction false} ARefusedResponseIsNeverMadeGood(w: World, now: Timestamp, v: Verdict, actions: seq<Action>)
    requires Sound(w) && !w.rm.engine.IsClosed() && !w.cem.engine.IsClosed()
    requires w.ToResource() != [] && w.ToResource()[0].HandshakeResponse?
    requires AllBehave(Next(w, ToRm(now, v)), actions)
    ensures var w' := After(Next(w, ToRm(now, v)), actions);
      Quiet(w') ==> (w'.rm.engine.core.state != w'.cem.engine.core.state <==> v.errors || v.policy.Some?)
  {
    var w1 := Next(w, ToRm(now, v));
    var w' := After(w1, actions);
    if v.errors || v.policy.Some? {
      RefusingStrands(w, now, v);
      hide Sound, Next, After, AllBehave;
      EveryRunStaysStranded(w1, actions);
    } else {
      ResourceHears(w, now, v);
      hide Sound, Next, After, AllBehave;
      EveryRunIsSound(w1, actions);
      if Quiet(w') { QuietAgree(w'); }
    }
  }
}
