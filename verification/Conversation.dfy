/** The two session objects wired together, delivering until neither has anything left to say. */
module Conversations {
  import opened Ids
  import opened Time
  import opened Messages
  import opened Session
  import opened TwoParty
  import opened Settling
  import RmSessions
  import CemSessions
  import Replay
  import RmEngine
  import CemEngine

  class Conversation {
    const rm: RmSessions.RmSession
    const cem: CemSessions.CemSession
    var now: Timestamp
    var transcript: seq<(Replay.Direction, Message)>
    /** Which of the messages on their way to the resource were queued with no selection pending. */
    ghost var clean: seq<bool>

    predicate Valid() {
      rm.Valid() && cem.Valid() && rm.Footprint() !! cem.Footprint() && this !in rm.Footprint() + cem.Footprint()
    }

    function Footprint(): set<object> { rm.Footprint() + cem.Footprint() }

    ghost function View(): World
      reads this`clean, Footprint()
    {
      World(rm.View(), cem.View(), clean)
    }

    constructor (rmConfig: Config, details: Body, cemConfig: Config, now: Timestamp)
      ensures Valid() && transcript == []
      ensures View() == World(RmEngine.Fresh(rmConfig, details), CemEngine.Fresh(cemConfig), [])
    {
      rm := new RmSessions.RmSession(rmConfig, details);
      cem := new CemSessions.CemSession(cemConfig);
      this.now, transcript, clean := now, [], [];
    }

    /** Open both sides and run the conversation until it goes quiet. */
    method Open(judge: nat -> Verdict) returns (rounds: nat, ghost deliveries: seq<Action>)
      requires Valid() && View() == World(rm.View(), CemEngine.Fresh(cem.engine.config), [])
      requires rm.View() == RmEngine.Fresh(rm.engine.config, rm.details)
      modifies this`transcript, this`clean, Footprint()
      ensures rounds <= 3
      ensures View().ToManager() == [] && View().ToResource() == []
      ensures Delivered(Start(rm.engine.config, rm.details, cem.engine.config, now, now), deliveries, View())
    {
      hide Delivered, Start, View, RmEngine.Fresh, CemEngine.Fresh;
      OpenBoth();
      rounds, deliveries := Pump(judge);
    }

    /** Open both sides, which is where every run starts. */
    method OpenBoth()
      requires Valid() && View() == World(rm.View(), CemEngine.Fresh(cem.engine.config), [])
      requires rm.View() == RmEngine.Fresh(rm.engine.config, rm.details)
      modifies this`clean, Footprint()
      ensures View() == Start(rm.engine.config, rm.details, cem.engine.config, now, now)
    {
      hide RmEngine.Open, CemEngine.Open, RmEngine.Fresh, CemEngine.Fresh, RmSessions.RmSession.View,
        CemSessions.CemSession.View, Marked;
      rm.Open(now);
      ghost var before := cem.View();
      cem.Open(now);
      clean := Marked([], before, cem.View());
    }

    /** Deliver the resource's next message, if it has one. */
    method DeliverToManager(v: Verdict) returns (moved: bool)
      requires Valid()
      modifies this`transcript, this`clean, Footprint()
      ensures View() == Next(old(View()), ToCem(now, v))
      ensures moved <==> old(View()).ToManager() != []
      ensures moved ==> transcript == old(transcript) + [(Replay.RmToCem, old(View()).ToManager()[0])]
      ensures !moved ==> View() == old(View()) && transcript == old(transcript)
    {
      hide CemEngine.HandleFrame, RmSessions.RmSession.View, CemSessions.CemSession.View, Marked, Next;
      ghost var w := View();
      ToManagerStep(w, now, v);
      var out := rm.PollTransmit();
      if out.None? { return false; }
      transcript := transcript + [(Replay.RmToCem, out.value)];
      cem.HandleText(Wire(out.value, false), now, v);
      clean := Marked(clean, w.cem, cem.View());
      moved := true;
    }

    /** Deliver the manager's next message, if it has one. */
    method DeliverToResource(v: Verdict) returns (moved: bool)
      requires Valid()
      modifies this`transcript, this`clean, Footprint()
      ensures View() == Next(old(View()), ToRm(now, v))
      ensures moved <==> old(View()).ToResource() != []
      ensures moved ==> transcript == old(transcript) + [(Replay.CemToRm, old(View()).ToResource()[0])]
      ensures !moved ==> View() == old(View()) && transcript == old(transcript)
    {
      hide RmEngine.HandleFrame, RmSessions.RmSession.View, CemSessions.CemSession.View, Marked, Next;
      ghost var w := View();
      ToResourceStep(w, now, v);
      var out := cem.PollTransmit();
      if out.None? { return false; }
      transcript := transcript + [(Replay.CemToRm, out.value)];
      rm.HandleText(Wire(out.value, false), now, v);
      clean := if clean == [] then [] else clean[1..];
      moved := true;
    }

    /** Deliver everything the resource has queued. */
    method DrainToManager(judge: nat -> Verdict, from: nat) returns (moved: bool, n: nat, ghost deliveries: seq<Action>)
      requires Valid()
      modifies this`transcript, this`clean, Footprint()
      ensures Delivered(old(View()), deliveries, View()) && n == from + |deliveries|
      ensures View().ToManager() == [] && (moved <==> old(View()).ToManager() != [])
      ensures !moved ==> View() == old(View())
      ensures AreLight(old(View()).ToManager()) && AreStatuses(old(View()).ToResource()) ==>
        AreStatuses(View().ToResource())
    {
      hide View, Next, AllDeliveries, After, AreLight, AreStatuses, Delivered, IsDelivery, World.ToManager,
        World.ToResource;
      EmptyQueuesAreLight();
      ghost var w := View();
      moved, n, deliveries := false, from, [];
      NothingDelivered(w);
      while true
        invariant Valid() && now == old(now)
        invariant Delivered(w, deliveries, View()) && n == from + |deliveries|
        invariant !moved ==> View() == w
        invariant moved ==> w.ToManager() != []
        invariant AreLight(w.ToManager()) && AreStatuses(w.ToResource()) ==>
          AreLight(View().ToManager()) && AreStatuses(View().ToResource())
        decreases |View().ToManager()|
      {
        ghost var before := View();
        if before.ToManager() != [] { ReadingByTheManager(before, now, judge(n)); }
        ghost var action := ToCem(now, judge(n));
        var one := DeliverToManager(judge(n));
        if !one { break; }
        OneMoreDelivered(w, deliveries, before, action);
        moved, n, deliveries := true, n + 1, deliveries + [action];
      }
    }

    /** Deliver everything the manager has queued. */
    method DrainToResource(judge: nat -> Verdict, from: nat)
      returns (moved: bool, n: nat, ghost deliveries: seq<Action>)
      requires Valid()
      modifies this`transcript, this`clean, Footprint()
      ensures Delivered(old(View()), deliveries, View()) && n == from + |deliveries|
      ensures View().ToResource() == [] && (moved <==> old(View()).ToResource() != [])
      ensures !moved ==> View() == old(View())
      ensures AreLight(old(View()).ToManager()) ==> AreLight(View().ToManager())
      ensures old(View()).ToManager() == [] && AreStatuses(old(View()).ToResource()) ==> View().ToManager() == []
    {
      hide View, Next, AllDeliveries, After, AreLight, AreStatuses, Delivered, IsDelivery, World.ToManager,
        World.ToResource;
      EmptyQueuesAreLight();
      ghost var w := View();
      moved, n, deliveries := false, from, [];
      NothingDelivered(w);
      while true
        invariant Valid() && now == old(now)
        invariant Delivered(w, deliveries, View()) && n == from + |deliveries|
        invariant !moved ==> View() == w
        invariant moved ==> w.ToResource() != []
        invariant AreLight(w.ToManager()) ==> AreLight(View().ToManager())
        invariant w.ToManager() == [] && AreStatuses(w.ToResource()) ==>
          View().ToManager() == [] && AreStatuses(View().ToResource())
        decreases |View().ToResource()|
      {
        ghost var before := View();
        if before.ToResource() != [] { ReadingByTheResource(before, now, judge(n)); }
        ghost var action := ToRm(now, judge(n));
        var one := DeliverToResource(judge(n));
        if !one { break; }
        OneMoreDelivered(w, deliveries, before, action);
        moved, n, deliveries := true, n + 1, deliveries + [action];
      }
    }

    /** Deliver everything either side wants to send, until neither has anything left: from any
        states and any queues that takes at most three rounds, so the give-up after a thousand is
        never reached. `judge` is what validation and policy say of each message delivered. */
    method Pump(judge: nat -> Verdict) returns (rounds: nat, ghost deliveries: seq<Action>)
      requires Valid()
      modifies this`transcript, this`clean, Footprint()
      ensures rounds <= 3
      ensures View().ToManager() == [] && View().ToResource() == []
      ensures Delivered(old(View()), deliveries, View())
    {
      hide View, Next, AllDeliveries, After, AreLight, AreStatuses, Delivered, IsDelivery, World.ToManager,
        World.ToResource;
      EmptyQueuesAreLight();
      ghost var w := View();
      rounds, deliveries := 0, [];
      NothingDelivered(w);
      var n := 0;
      while rounds < 1000
        invariant Valid() && now == old(now)
        invariant rounds <= 2
        invariant Delivered(w, deliveries, View())
        invariant rounds >= 1 ==> AreLight(View().ToManager()) && View().ToResource() == []
        invariant rounds >= 2 ==> View().ToManager() == []
        decreases 1000 - rounds
      {
        ghost var before := View();
        var down, n1, first := DrainToManager(judge, n);
        DeliveredOn(w, deliveries, before, first, View());
        ghost var mid := View();
        deliveries := deliveries + first;
        var up, n2, second := DrainToResource(judge, n1);
        DeliveredOn(w, deliveries, mid, second, View());
        deliveries := deliveries + second;
        n, rounds := n2, rounds + 1;
        if !down && !up { return; }
      }
      assert false;
    }
  }

  predicate AreStatuses(q: seq<Message>) { forall m <- q :: m.ReceptionStatus? }

  /** Nothing that would set off more than its own answer. */
  predicate AreLight(q: seq<Message>) { forall m <- q :: m.ReceptionStatus? || m.Details? }

  lemma {:induction false} EmptyQueuesAreLight()
    ensures AreStatuses([]) && AreLight([])
  {
  }

  /** `w'` is where these deliveries lead from `w`. */
  ghost predicate Delivered(w: World, deliveries: seq<Action>, w': World) {
    AllDeliveries(w, deliveries) && w' == After(w, deliveries)
  }

  lemma {:induction false} NothingDelivered(w: World)
    ensures Delivered(w, [], w)
  {
  }

  lemma {:induction false} OneMoreDelivered(w: World, deliveries: seq<Action>, before: World, a: Action)
    requires Delivered(w, deliveries, before) && IsDelivery(before, a)
    ensures Delivered(w, deliveries + [a], Next(before, a))
  {
    hide Next, IsDelivery;
    assert (deliveries + [a])[..|deliveries + [a]| - 1] == deliveries;
  }

  lemma {:induction false} DeliveredOn(w: World, first: seq<Action>, mid: World, second: seq<Action>, w': World)
    requires Delivered(w, first, mid) && Delivered(mid, second, w')
    ensures Delivered(w, first + second, w')
  {
    DeliveriesJoin(w, first, second);
    hide AllDeliveries, After;
  }

  lemma {:induction false} DeliveriesJoin(w: World, first: seq<Action>, second: seq<Action>)
    requires AllDeliveries(w, first) && AllDeliveries(After(w, first), second)
    ensures AllDeliveries(w, first + second) && After(w, first + second) == After(After(w, first), second)
    decreases |second|
  {
    hide Next, IsDelivery;
    if second == [] {
      assert first + second == first;
    } else {
      DeliveriesJoin(w, first, second[..|second| - 1]);
      assert (first + second)[..|first + second| - 1] == first + second[..|second| - 1];
    }
  }

  lemma {:induction false} ReadingByTheManager(w: World, now: Timestamp, v: Verdict)
    requires w.ToManager() != []
    ensures var w' := Next(w, ToCem(now, v));
      w'.ToManager() == w.ToManager()[1..] && IsDelivery(w, ToCem(now, v))
      && (AreLight(w.ToManager()) ==> AreLight(w'.ToManager()))
      && (AreLight(w.ToManager()) && AreStatuses(w.ToResource()) ==> AreStatuses(w'.ToResource()))
  {
    var m := w.ToManager()[0];
    ToManagerStep(w, now, v);
    var replies := CemReplies(w.cem, m, now, v);
    hide CemEngine.HandleFrame, Marked, Next;
    assert m in w.ToManager();
  }

  lemma {:induction false} ReadingByTheResource(w: World, now: Timestamp, v: Verdict)
    requires w.ToResource() != []
    ensures var w' := Next(w, ToRm(now, v));
      w'.ToResource() == w.ToResource()[1..] && IsDelivery(w, ToRm(now, v))
      && (AreLight(w.ToManager()) ==> AreLight(w'.ToManager()))
      && (AreStatuses(w.ToResource()) ==> AreStatuses(w'.ToResource()) && w'.ToManager() == w.ToManager())
  {
    var m := w.ToResource()[0];
    ToResourceStep(w, now, v);
    var replies := RmReplies(w.rm, m, now, v);
    hide RmEngine.HandleFrame, Next;
    assert m in w.ToResource();
  }

  lemma {:induction false} ToManagerStep(w: World, now: Timestamp, v: Verdict)
    ensures w.ToManager() == [] ==> Next(w, ToCem(now, v)) == w
    ensures w.ToManager() != [] ==>
      var e, cem := w.rm.engine, CemEngine.HandleFrame(w.cem, Wire(w.ToManager()[0], false), now, v);
      Next(w, ToCem(now, v)) == World(w.rm.(engine := e.(core := e.core.(outbox := e.core.outbox[1..]))), cem,
        Marked(w.clean, w.cem, cem))
  {
    hide CemEngine.HandleFrame, Marked;
  }

  lemma {:induction false} ToResourceStep(w: World, now: Timestamp, v: Verdict)
    ensures w.ToResource() == [] ==> Next(w, ToRm(now, v)) == w
    ensures w.ToResource() != [] ==>
      var e := w.cem.engine;
      Next(w, ToRm(now, v)) == World(RmEngine.HandleFrame(w.rm, Wire(w.ToResource()[0], false), now, v),
        w.cem.(engine := e.(core := e.core.(outbox := e.core.outbox[1..]))), if w.clean == [] then [] else w.clean[1..])
  {
    hide RmEngine.HandleFrame;
  }

  /** A conversation pumped from any point of a run that keeps the rules: whatever selection was
      under way has been decided, and the sides, if both are still open, agree. */
  lemma {:induction false} APumpedConversationAgrees(w: World, deliveries: seq<Action>, w': World)
    requires Reached(w) && Delivered(w, deliveries, w') && AllBehave(w, deliveries)
    requires w'.ToManager() == [] && w'.ToResource() == [] && !w'.rm.engine.IsClosed() && !w'.cem.engine.IsClosed()
    ensures w'.cem.pendingSelection.None? && w'.rm.engine.core.state == w'.cem.engine.core.state
    ensures !w'.rm.engine.core.state.Handshaking? ==> w'.rm.engine.core.profile == w'.cem.engine.core.profile
  {
    ReachedIsSound(w);
    EveryRunIsSound(w, deliveries);
    hide Reached, Numbered, CleanAreAllowed, ManagerSide, AllDeliveries, After, AllBehave;
  }
}
