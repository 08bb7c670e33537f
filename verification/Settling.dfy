/** Delivering messages runs out of messages: every answer weighs less than what it answers. */
module Settling {
  import opened Time
  import opened Messages
  import opened Session
  import opened TwoParty
  import RmEngine
  import CemEngine

  /** How much a message can still set off: its answer, and what the answer's queue holds beside it. */
  function Weight(m: Message): (w: nat)
    ensures w > 0
  {
    match m
    case ReceptionStatus(_, _) => 1
    case HandshakeResponse(_, _) => 4
    case Handshake(_, _, _) => 6
    case _ => 2
  }

  function Total(q: seq<Message>): nat {
    if q == [] then 0 else Total(q[..|q| - 1]) + Weight(q[|q| - 1])
  }

  lemma {:induction false} TotalAppend(a: seq<Message>, b: seq<Message>)
    ensures Total(a + b) == Total(a) + Total(b)
  {
    if b == [] {
      assert a + b == a;
    } else {
      assert (a + b)[..|a + b| - 1] == a + b[..|b| - 1];
      TotalAppend(a, b[..|b| - 1]);
    }
  }

  /** What reading `m` can add to the reader's outbox. */
  predicate RepliesOf(m: Message, replies: seq<Message>) {
    || replies == []
    || (!m.ReceptionStatus? && |replies| == 1 && replies[0].ReceptionStatus?)
    || (m.HandshakeResponse? && |replies| == 2 && replies[0].ReceptionStatus? && replies[1].Details?)
    || (m.Handshake? && |replies| == 2 && replies[0].ReceptionStatus? && replies[1].HandshakeResponse?)
  }

  lemma {:induction false} RepliesWeighLess(m: Message, replies: seq<Message>)
    requires RepliesOf(m, replies)
    ensures Total(replies) < Weight(m)
  {
    if |replies| > 0 {
      assert replies[..0] == [];
      if |replies| == 2 { assert replies[..1] == [replies[0]] && [replies[0]][..0] == []; }
      assert Total(replies[..0]) == 0;
    }
  }

  lemma {:induction false} ScreenReplies(e: Engine, m: Message, v: Verdict) returns (status: Status)
    requires !m.ReceptionStatus?
    ensures Screen(e, m, v).0.core.outbox == e.core.outbox + [ReceptionStatus(m.id, status)]
  {
    hide Ledger.LatestAnswer, MayReceive, Ledger.AfterAnswered, ReconnectAfter;
    var q' := Screen(e, m, v).0.core.outbox;
    status := q'[|e.core.outbox|].status;
  }

  lemma {:induction false} RmProcessReplies(s: RmEngine.State, m: Message, now: Timestamp, v: Verdict)
    returns (replies: seq<Message>)
    requires !m.ReceptionStatus?
    ensures RmEngine.Process(s, m, now, v).engine.core.outbox == s.engine.core.outbox + replies
    ensures replies == [] || (m.HandshakeResponse? && |replies| == 1 && replies[0].Details?)
  {
    hide Registry.Recorded, Registry.Withdrawn, DeadlineAfter, ReconnectAfter, RmEngine.Offered, ProfileOf;
    replies := RmEngine.Process(s, m, now, v).engine.core.outbox[|s.engine.core.outbox|..];
  }

  lemma {:induction false} CemProcessReplies(s: CemEngine.State, m: Message, now: Timestamp)
    returns (replies: seq<Message>)
    requires !m.ReceptionStatus?
    ensures CemEngine.Process(s, m, now).engine.core.outbox == s.engine.core.outbox + replies
    ensures replies == [] || (m.Handshake? && |replies| == 1 && replies[0].HandshakeResponse?)
  {
    hide Registry.Recorded, Registry.Withdrawn, DeadlineAfter, ReconnectAfter, CemEngine.Choose, ProfileOf,
      CemEngine.ArrivalEvent;
    replies := CemEngine.Process(s, m, now).engine.core.outbox[|s.engine.core.outbox|..];
  }

  lemma {:induction false} RmReplies(s: RmEngine.State, m: Message, now: Timestamp, v: Verdict)
    returns (replies: seq<Message>)
    ensures RmEngine.HandleFrame(s, Wire(m, false), now, v).engine.core.outbox == s.engine.core.outbox + replies
    ensures RepliesOf(m, replies)
    ensures forall r <- replies :: r.ReceptionStatus? || r.Details?
  {
    hide RmEngine.Process, Screen, Ledger.AfterAnswered, Ledger.AfterReceived, ReconnectAfter;
    replies := [];
    if !s.engine.IsClosed() && !m.ReceptionStatus? {
      if !m.Kind().ExistsIn(s.engine.core.profile) {
        replies := [ReceptionStatus(m.id, InvalidMessage)];
      } else {
        var status := ScreenReplies(s.engine, m, v);
        replies := [ReceptionStatus(m.id, status)];
        var (e, accepted) := Screen(s.engine, m, v);
        if accepted {
          var more := RmProcessReplies(s.(engine := e), m, now, v);
          replies := replies + more;
        }
      }
    }
  }

  lemma {:induction false} CemReplies(s: CemEngine.State, m: Message, now: Timestamp, v: Verdict)
    returns (replies: seq<Message>)
    ensures CemEngine.HandleFrame(s, Wire(m, false), now, v).engine.core.outbox == s.engine.core.outbox + replies
    ensures RepliesOf(m, replies)
    ensures forall r <- replies :: r.ReceptionStatus? || r.HandshakeResponse?
    ensures !m.Handshake? ==> forall r <- replies :: r.ReceptionStatus?
  {
    hide CemEngine.Process, Screen, Ledger.AfterAnswered, Ledger.AfterReceived, ReconnectAfter;
    replies := [];
    if !s.engine.IsClosed() && !m.ReceptionStatus? {
      if !m.Kind().ExistsIn(s.engine.core.profile) {
        replies := [ReceptionStatus(m.id, InvalidMessage)];
      } else {
        var status := ScreenReplies(s.engine, m, v);
        replies := [ReceptionStatus(m.id, status)];
        var (e, accepted) := Screen(s.engine, m, v);
        if accepted {
          var more := CemProcessReplies(s.(engine := e), m, now);
          replies := replies + more;
        }
      }
    }
  }

  function Load(w: World): nat { Total(w.ToManager()) + Total(w.ToResource()) }

  lemma {:induction false} HeadWeighs(q: seq<Message>)
    requires q != []
    ensures Total(q) == Weight(q[0]) + Total(q[1..])
  {
    assert q == [q[0]] + q[1..];
    TotalAppend([q[0]], q[1..]);
    assert [q[0]][..0] == [];
  }

  /** Each delivery, into whatever states and with whatever in the queues, leaves less to deliver. */
  lemma {:induction false} EachDeliveryLosesWeight(w: World, now: Timestamp, v: Verdict)
    ensures w.ToResource() != [] ==> Load(Next(w, ToRm(now, v))) < Load(w)
    ensures w.ToManager() != [] ==> Load(Next(w, ToCem(now, v))) < Load(w)
  {
    hide RmEngine.HandleMessage, CemEngine.HandleMessage, Undecodable, Weight, Total;
    if w.ToResource() != [] {
      var m := w.ToResource()[0];
      var replies := RmReplies(w.rm, m, now, v);
      RepliesWeighLess(m, replies);
      HeadWeighs(w.ToResource());
      TotalAppend(w.ToManager(), replies);
    }
    if w.ToManager() != [] {
      var m := w.ToManager()[0];
      var replies := CemReplies(w.cem, m, now, v);
      RepliesWeighLess(m, replies);
      HeadWeighs(w.ToManager());
      TotalAppend(w.ToResource(), replies);
    }
  }

  predicate IsDelivery(w: World, a: Action) {
    (a.ToRm? && w.ToResource() != []) || (a.ToCem? && w.ToManager() != [])
  }

  predicate AllDeliveries(w: World, actions: seq<Action>) {
    actions == []
    || (AllDeliveries(w, actions[..|actions| - 1]) &&
       IsDelivery(After(w, actions[..|actions| - 1]), actions[|actions| - 1]))
  }

  /** However deliveries are interleaved, there are at most as many as the queues weigh: two
      sessions cannot keep answering each other's answers. */
  lemma {:induction false} DeliveriesRunOut(w: World, actions: seq<Action>)
    requires AllDeliveries(w, actions)
    ensures |actions| + Load(After(w, actions)) <= Load(w)
  {
    hide Next, Load;
    if actions != [] {
      var n := |actions| - 1;
      DeliveriesRunOut(w, actions[..n]);
      EachDeliveryLosesWeight(After(w, actions[..n]), actions[n].now, actions[n].v);
      assert actions[n] == ToRm(actions[n].now, actions[n].v) || actions[n] == ToCem(actions[n].now, actions[n].v);
    }
  }
}
