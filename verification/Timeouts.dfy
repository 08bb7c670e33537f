/** Deadlines: handling them makes progress, and a set of sessions handles them as one. */
module Timeouts {
  import opened Time
  import opened Messages
  import opened Tables
  import opened Ledger
  import opened Registry
  import opened Session
  import opened SessionRuns

  /** When this session next has something to do. */
  function WakesAt(s: Side): Option<Timestamp> { PollTimeout(s.Engine().core) }

  /** The session once it has been told the time. */
  function Told(s: Side, now: Timestamp): Side { Step(s, LetTimePass(now)) }

  predicate Later(at: Option<Timestamp>, now: Timestamp) { at.None? || now.Before(at.value) }

  lemma {:induction false} AppliedOnlyDrops(r: RegistryState, m: Message)
    ensures forall e <- Applied(r, m).scheduled :: e in r.scheduled
    ensures |Applied(r, m).scheduled| <= |r.scheduled|
  {
    if m.RevokeObject? { DroppedWereQueued(r.scheduled, m.target); }
    hide Upsert, RemoveKey, DropQueued;
  }

  lemma {:induction false} DroppedWereQueued(q: seq<Queued>, target: Revokable)
    ensures forall e <- DropQueued(q, target) :: e in q
  {
    if q != [] { DroppedWereQueued(q[1..], target); }
  }

  lemma {:induction false} ApplyingOnlyDrops(r: RegistryState, ms: seq<Message>)
    ensures forall e <- ApplyAll(r, ms).scheduled :: e in r.scheduled
    ensures |ApplyAll(r, ms).scheduled| <= |r.scheduled|
  {
    hide Applied;
    if ms != [] {
      ApplyingOnlyDrops(r, ms[..|ms| - 1]);
      AppliedOnlyDrops(ApplyAll(r, ms[..|ms| - 1]), ms[|ms| - 1]);
    }
  }

  lemma {:induction false} NoneDue(q: seq<Queued>, now: Timestamp)
    requires Later(EarliestActivation(q), now)
    ensures NotYetDue(q, now) == q && DueMessages(q, now) == []
  {
    if q != [] {
      var n := |q| - 1;
      var t := EarliestActivation(q).value;
      assert q == q[..n] + [q[n]] && q[n] in q;
      forall e <- q ensures now.Before(e.at) { OrderIsTotal(now, e.at); OrderIsTotal(t, e.at); }
      if n > 0 {
        var e :| e in q[..n] && e.at == EarliestActivation(q[..n]).value;
        assert e in q;
      }
      NoneDue(q[..n], now);
      OrderIsTotal(now, q[n].at);
    }
  }

  lemma {:induction false} SomeDue(q: seq<Queued>, now: Timestamp)
    requires exists e <- q :: e.at.AtMost(now)
    ensures |NotYetDue(q, now)| < |q|
  {
    var n := |q| - 1;
    assert q == q[..n] + [q[n]];
    if !q[n].at.AtMost(now) { SomeDue(q[..n], now); }
  }

  lemma {:induction false} SomeExpire(pending: seq<Outstanding>, now: Timestamp)
    requires exists o <- pending :: Due(o, now)
    ensures |Waiting(pending, now)| < |pending|
  {
    var n := |pending| - 1;
    assert pending == pending[..n] + [pending[n]];
    if !Due(pending[n], now) { SomeExpire(pending[..n], now); }
  }

  lemma {:induction false} NothingActivates(q: seq<Queued>, now: Timestamp)
    requires forall e <- q :: !e.at.AtMost(now)
    ensures Later(EarliestActivation(q), now)
  {
    var t := EarliestActivation(q);
    if t.Some? {
      var e :| e in q && e.at == t.value;
      OrderIsTotal(now, e.at);
    }
  }

  /** The core once it has been told the time. */
  lemma {:induction false} ToldCore(s: Side, now: Timestamp)
    ensures var c, c' := s.Engine().core, Told(s, now).Engine().core;
      c'.acks == AfterExpire(c.acks, now).0 && c'.registry == AfterActivation(c.registry, now)
      && c'.state == c.state
  {
    hide AfterActivation, Waiting, DueHandles, DueMessages;
  }

  /** Once told the time, an open session has nothing left to do until later. */
  lemma {:induction false} HandlingIsProgress(s: Side, now: Timestamp)
    ensures Later(WakesAt(Told(s, now)), now)
  {
    var c := s.Engine().core;
    ToldCore(s, now);
    ExpireIsExact(c.acks, now);
    var q := c.registry.scheduled;
    ApplyingOnlyDrops(c.registry.(scheduled := NotYetDue(q, now)), DueMessages(q, now));
    NothingActivates(AfterActivation(c.registry, now).scheduled, now);
    hide Told, Waiting, DueHandles, ApplyAll;
  }

  lemma {:induction false} NothingElapses(e: Engine, now: Timestamp)
    requires !e.IsClosed() && Later(PollTimeout(e.core), now)
    ensures Elapse(e, now) == e && AfterExpire(e.core.acks, now).1 == []
  {
    NoneOfEitherDue(e.core, now);
    NoneDue(e.core.registry.scheduled, now);
    ElapsesToItself(e, now);
    hide Elapse, PollTimeout, Waiting, DueHandles, NotYetDue, DueMessages;
  }

  /** Telling the time to an open session with nothing due changes nothing at all. */
  lemma {:induction false} NothingDueNothingDone(s: Side, now: Timestamp)
    requires !s.Engine().IsClosed() && Later(WakesAt(s), now)
    ensures Told(s, now) == s
  {
    NothingElapses(s.Engine(), now);
    hide Elapse, AfterExpire;
  }

  lemma {:induction false} ElapsesToItself(e: Engine, now: Timestamp)
    requires AfterExpire(e.core.acks, now) == (e.core.acks, [])
    requires NotYetDue(e.core.registry.scheduled, now) == e.core.registry.scheduled
    requires DueMessages(e.core.registry.scheduled, now) == []
    ensures Elapse(e, now) == e
  {
    hide Waiting, DueHandles, NotYetDue, DueMessages;
    assert e.events + [] + [] == e.events;
  }

  lemma {:induction false} NoneOfEitherDue(c: Core, now: Timestamp)
    requires !c.state.Closed? && Later(PollTimeout(c), now)
    ensures Later(EarliestDeadline(c.acks.pending), now) && Later(EarliestActivation(c.registry.scheduled), now)
    ensures AfterExpire(c.acks, now) == (c.acks, [])
  {
    var a, b := EarliestDeadline(c.acks.pending), EarliestActivation(c.registry.scheduled);
    if a.Some? && b.Some? {
      OrderIsTotal(a.value, b.value);
      OrderIsTotal(b.value, a.value);
      OrderIsTotal(now, a.value);
    }
    if a.Some? { OrderIsTotal(now, a.value); }
    ExpireIsExact(c.acks, now);
    hide EarliestDeadline, EarliestActivation, Waiting, DueHandles;
  }

  // -------------------------------------------------------------------------
  // Driving a session by its own deadlines
  // -------------------------------------------------------------------------

  function Waits(s: Side): nat {
    |s.Engine().core.acks.pending| + |s.Engine().core.registry.scheduled|
  }

  lemma {:induction false} WakingRemovesSomething(s: Side)
    requires WakesAt(s).Some?
    ensures Waits(Told(s, WakesAt(s).value)) < Waits(s)
  {
    var c, now := s.Engine().core, WakesAt(s).value;
    ToldCore(s, now);
    var q, p := c.registry.scheduled, c.acks.pending;
    ApplyingOnlyDrops(c.registry.(scheduled := NotYetDue(q, now)), DueMessages(q, now));
    var a, b := EarliestDeadline(p), EarliestActivation(q);
    if a == Some(now) {
      var o :| o in p && o.deadline == now;
      assert Due(o, now);
      SomeExpire(p, now);
    } else {
      assert b == Some(now);
      var e :| e in q && e.at == now;
      assert e.at.AtMost(now);
      SomeDue(q, now);
    }
    hide Told, ApplyAll;
  }

  /** The instants at which a session left to itself is woken, until it has nothing to wait for. */
  function Wakings(s: Side): (r: seq<Timestamp>)
    ensures |r| <= Waits(s)
    decreases Waits(s)
  {
    if WakesAt(s).None? then []
    else
      WakingRemovesSomething(s);
      [WakesAt(s).value] + Wakings(Told(s, WakesAt(s).value))
  }

  function ToldAll(s: Side, at: seq<Timestamp>): Side
    decreases at
  {
    if at == [] then s else ToldAll(Told(s, at[0]), at[1..])
  }

  /** Woken only when it asks to be, a session asks finitely often, each time for a strictly later
      instant, and ends with nothing to wait for. */
  lemma {:induction false} WakingsEnd(s: Side)
    ensures WakesAt(ToldAll(s, Wakings(s))).None?
    ensures forall i, j :: 0 <= i < j < |Wakings(s)| ==> Wakings(s)[i].Before(Wakings(s)[j])
    decreases Waits(s)
  {
    hide Told, Waits, WakesAt;
    if WakesAt(s).Some? {
      var now := WakesAt(s).value;
      var s' := Told(s, now);
      WakingRemovesSomething(s);
      HandlingIsProgress(s, now);
      WakingsEnd(s');
      var rest := Wakings(s');
      assert Wakings(s)[1..] == rest;
      forall i, j | 0 <= i < j < |Wakings(s)| ensures Wakings(s)[i].Before(Wakings(s)[j]) {
        assert Wakings(s)[j] == rest[j - 1];
        if i == 0 {
          if j > 1 { OrderIsTotal(rest[0], rest[j - 1]); assert rest[0].Before(rest[j - 1]); }
          assert rest[0] == WakesAt(s').value;
        } else {
          assert Wakings(s)[i] == rest[i - 1];
        }
      }
    }
  }

  // -------------------------------------------------------------------------
  // Many sessions, one loop
  // -------------------------------------------------------------------------

  /** One entry of the map, which is walked in the order of its keys. */
  datatype Member = Member(key: int, session: Side)

  /** The soonest deadline among the members, and the first member it belongs to. */
  ghost predicate IsSoonest(members: seq<Member>, at: Option<Timestamp>) {
    && (at.None? <==> forall m <- members :: WakesAt(m.session).None?)
    && (at.Some? ==> exists m <- members :: WakesAt(m.session) == at)
    && (at.Some? ==> forall m <- members :: WakesAt(m.session).Some? ==> at.value.AtMost(WakesAt(m.session).value))
  }

  /** The member at `k` is the first to wake at this instant. */
  ghost predicate FirstToWake(members: seq<Member>, k: int, key: int, at: Timestamp) {
    && 0 <= k < |members| && members[k].key == key && WakesAt(members[k].session) == Some(at)
    && forall j :: 0 <= j < k ==> WakesAt(members[j].session) != Some(at)
  }

  ghost predicate InOrder(members: seq<Member>) {
    forall i, j :: 0 <= i < j < |members| ==> members[i].key < members[j].key
  }

  class SessionSet {
    var members: seq<Member>

    /** A `BTreeMap` holds each key once, in order. */
    ghost predicate Valid()
      reads this
    {
      InOrder(members)
    }

    constructor ()
      ensures Valid() && members == []
    {
      members := [];
    }

    /** Add a session, returning whatever was under that key. */
    method Insert(key: int, session: Side) returns (previous: Option<Side>)
      requires Valid()
      modifies this
      ensures Valid()
      ensures previous.Some? <==> exists m <- old(members) :: m.key == key
      ensures previous.Some? ==> Member(key, previous.value) in old(members)
      ensures forall m: Member :: m in members <==> m == Member(key, session) || (m in old(members) && m.key != key)
    {
      previous := Remove(key);
      var k := 0;
      while k < |members| && members[k].key < key
        invariant 0 <= k <= |members|
        invariant forall j :: 0 <= j < k ==> members[j].key < key
      {
        k := k + 1;
      }
      assert k < |members| ==> members[k] in members;
      Spliced(members, k, Member(key, session));
      hide InOrder;
      members := members[..k] + [Member(key, session)] + members[k..];
    }

    method Remove(key: int) returns (removed: Option<Side>)
      requires Valid()
      modifies this
      ensures Valid()
      ensures removed.Some? <==> exists m <- old(members) :: m.key == key
      ensures removed.Some? ==> Member(key, removed.value) in old(members)
      ensures forall m: Member :: m in members <==> m in old(members) && m.key != key
    {
      var k := 0;
      while k < |members| && members[k].key != key
        invariant 0 <= k <= |members|
        invariant forall j :: 0 <= j < k ==> members[j].key != key
      {
        k := k + 1;
      }
      if k == |members| { return None; }
      ghost var was := members;
      assert was == was[..k] + [was[k]] + was[k + 1..];
      assert forall m :: m in was <==> m in was[..k] || m == was[k] || m in was[k + 1..];
      removed := Some(members[k].session);
      members := members[..k] + members[k + 1..];
      assert forall j :: 0 <= j < |members| ==> members[j] == was[if j < k then j else j + 1];
      assert forall m <- members :: m.key != key;
    }

    /** The soonest deadline across the whole set. */
    method SoonestDeadline() returns (r: Option<Timestamp>)
      ensures IsSoonest(members, r)
    {
      hide WakesAt;
      r := None;
      var k := 0;
      while k < |members|
        invariant 0 <= k <= |members|
        invariant IsSoonest(members[..k], r)
      {
        var at := WakesAt(members[k].session);
        assert members[..k + 1] == members[..k] + [members[k]];
        if at.Some? && r.Some? { OrderIsTotal(at.value, r.value); OrderIsTotal(r.value, at.value); }
        if at.Some? && (r.None? || at.value.Before(r.value)) { r := at; }
        k := k + 1;
      }
      assert members[..k] == members;
    }

    /** Which session owns the soonest deadline: the first that does. */
    method NextDeadline() returns (r: Option<(int, Timestamp)>)
      ensures IsSoonest(members, if r.None? then None else Some(r.value.1))
      ensures r.Some? ==> exists k :: FirstToWake(members, k, r.value.0, r.value.1)
    {
      hide WakesAt;
      r := None;
      ghost var owner := 0;
      var k := 0;
      while k < |members|
        invariant 0 <= k <= |members|
        invariant IsSoonest(members[..k], if r.None? then None else Some(r.value.1))
        invariant r.Some? ==> owner < k && FirstToWake(members, owner, r.value.0, r.value.1)
      {
        var at := WakesAt(members[k].session);
        assert members[..k + 1] == members[..k] + [members[k]];
        assert forall j :: 0 <= j < k ==> members[j] in members[..k];
        if at.Some? && r.Some? { OrderIsTotal(at.value, r.value.1); OrderIsTotal(r.value.1, at.value); }
        if at.Some? && (r.None? || at.value.Before(r.value.1)) {
          r := Some((members[k].key, at.value));
          owner := k;
        }
        k := k + 1;
      }
      assert members[..k] == members;
    }

    /** Fire every deadline that has come due. Only members with something due are told the time,
        and yet every open member ends up as if it had been. */
    method HandleTimeout(now: Timestamp)
      modifies this
      ensures |members| == |old(members)|
      ensures forall k :: 0 <= k < |members| ==> members[k] == SweptMember(old(members)[k], now)
    {
      hide Told, WakesAt;
      var k := 0;
      while k < |members|
        invariant 0 <= k <= |members| == |old(members)|
        invariant forall j :: 0 <= j < k ==> members[j] == SweptMember(old(members)[j], now)
        invariant forall j :: k <= j < |members| ==> members[j] == old(members)[j]
      {
        var session := members[k].session;
        var at := WakesAt(session);
        SweepingIsTelling(session, now);
        if at.Some? && at.value.AtMost(now) {
          members := members[k := members[k].(session := Told(session, now))];
        }
        k := k + 1;
      }
    }

    /** Drop every session that has ended, and say how many there were. */
    method RetainOpen() returns (dropped: nat)
      requires Valid()
      modifies this
      ensures Valid() && dropped == |old(members)| - |members|
      ensures forall m: Member :: m in members <==> m in old(members) && !m.session.Engine().IsClosed()
    {
      var kept: seq<Member> := [];
      var k := 0;
      while k < |members|
        invariant 0 <= k <= |members| && members == old(members) && |kept| <= k
        invariant forall m: Member :: m in kept <==> m in members[..k] && !m.session.Engine().IsClosed()
        invariant forall i, j :: 0 <= i < j < |kept| ==> kept[i].key < kept[j].key
        invariant forall m <- kept :: k < |members| ==> m.key < members[k].key
      {
        assert members[..k + 1] == members[..k] + [members[k]];
        if !members[k].session.Engine().IsClosed() { kept := kept + [members[k]]; }
        k := k + 1;
      }
      assert members[..k] == members;
      dropped := |members| - |kept|;
      members := kept;
    }

    /** Take everything every session wants to send, tagged with whose it is. */
    method DrainTransmit() returns (out: seq<(int, Message)>)
      modifies this
      ensures out == AllTagged(old(members))
      ensures |members| == |old(members)|
      ensures forall k :: 0 <= k < |members| ==>
        members[k] == old(members)[k].(session := Emptied(old(members)[k].session))
    {
      hide AllTagged, Emptied;
      out := [];
      var k := 0;
      assert AllTagged(members[..0]) == [] by { NothingTagged(); }
      while k < |members|
        invariant 0 <= k <= |members| == |old(members)|
        invariant out == AllTagged(old(members)[..k])
        invariant forall j :: 0 <= j < k ==> members[j] == old(members)[j].(session := Emptied(old(members)[j].session))
        invariant forall j :: k <= j < |members| ==> members[j] == old(members)[j]
      {
        TagOneMore(old(members), k);
        out := out + Tagged(members[k].key, members[k].session.Engine().core.outbox);
        members := members[k := members[k].(session := Emptied(members[k].session))];
        k := k + 1;
      }
      assert old(members)[..k] == old(members);
    }
  }

  lemma {:induction false} Spliced(members: seq<Member>, k: nat, x: Member)
    requires k <= |members| && InOrder(members)
    requires forall j :: 0 <= j < k ==> members[j].key < x.key
    requires k < |members| ==> x.key < members[k].key
    ensures InOrder(members[..k] + [x] + members[k..])
    ensures forall m :: m in members[..k] + [x] + members[k..] <==> m == x || m in members
  {
    var r := members[..k] + [x] + members[k..];
    assert forall j :: 0 <= j < |r| ==> r[j] == if j < k then members[j] else if j == k then x else members[j - 1];
    assert members == members[..k] + members[k..];
    assert forall m :: m in members <==> m in members[..k] || m in members[k..];
  }

  function SweptMember(m: Member, now: Timestamp): Member {
    if m.session.Engine().IsClosed() then m else m.(session := Told(m.session, now))
  }

  lemma {:induction false} SweepingIsTelling(s: Side, now: Timestamp)
    ensures s.Engine().IsClosed() ==> WakesAt(s).None?
    ensures !s.Engine().IsClosed() && Later(WakesAt(s), now) ==> Told(s, now) == s
    ensures forall at: Timestamp :: at.AtMost(now) <==> !now.Before(at)
  {
    if !s.Engine().IsClosed() && Later(WakesAt(s), now) { NothingDueNothingDone(s, now); }
    hide Told, EarliestDeadline, EarliestActivation;
    forall at: Timestamp ensures at.AtMost(now) <==> !now.Before(at) { OrderIsTotal(now, at); }
  }

  /** After a sweep nothing in the set is due any more. */
  lemma {:induction false} ASweptSetIsQuiet(before: seq<Member>, after: seq<Member>, now: Timestamp,
                                            soonest: Option<Timestamp>)
    requires |after| == |before| && forall k :: 0 <= k < |after| ==> after[k] == SweptMember(before[k], now)
    requires IsSoonest(after, soonest)
    ensures Later(soonest, now)
  {
    if soonest.Some? {
      var m :| m in after && WakesAt(m.session) == soonest;
      var k :| 0 <= k < |after| && after[k] == m;
      SweepingIsTelling(before[k].session, now);
      HandlingIsProgress(before[k].session, now);
      hide Told, WakesAt;
    }
  }

  function Tagged(key: int, ms: seq<Message>): seq<(int, Message)> {
    seq(|ms|, k requires 0 <= k < |ms| => (key, ms[k]))
  }

  function AllTagged(members: seq<Member>): seq<(int, Message)> {
    if members == [] then []
    else
      var m := members[|members| - 1];
      AllTagged(members[..|members| - 1]) + Tagged(m.key, m.session.Engine().core.outbox)
  }

  function Emptied(s: Side): Side {
    match s
    case RmSide(rm) => RmSide(rm.(engine := rm.engine.(core := rm.engine.core.(outbox := []))))
    case CemSide(cem) => CemSide(cem.(engine := cem.engine.(core := cem.engine.core.(outbox := []))))
  }

  lemma {:induction false} NothingTagged()
    ensures AllTagged([]) == []
  {
  }

  lemma {:induction false} TagOneMore(members: seq<Member>, k: nat)
    requires k < |members|
    ensures AllTagged(members[..k + 1]) ==
      AllTagged(members[..k]) + Tagged(members[k].key, members[k].session.Engine().core.outbox)
  {
    assert members[..k + 1][..k] == members[..k];
  }
}
