/** What every run keeps true of a registry. */
module RegistryRuns {
  import opened Ids
  import opened Time
  import opened Messages
  import opened Tables
  import opened Registry

  datatype Op = DoRecord(m: Message, now: Timestamp) | DoActivate(at: Timestamp) | DoRevoke(target: Revokable)

  function Step(r: RegistryState, op: Op): RegistryState {
    match op
    case DoRecord(m, now) => Recorded(r, m, now)
    case DoActivate(now) => AfterActivation(r, now)
    case DoRevoke(target) => Withdrawn(r, target)
  }

  function Run(r: RegistryState, ops: seq<Op>): RegistryState {
    if ops == [] then r else Step(Run(r, ops[..|ops| - 1]), ops[|ops| - 1])
  }

  // -------------------------------------------------------------------------
  // Bounded tables with unique keys
  // -------------------------------------------------------------------------

  ghost predicate QueueWellFormed(q: seq<Queued>) {
    && |q| <= 16
    && (forall e <- q :: e.message.SystemDescription? && e.at == e.message.validFrom)
    && (forall i, j :: 0 <= i < j < |q| ==> q[i].message.RevokableId() != q[j].message.RevokableId())
  }

  ghost predicate Bounded(r: RegistryState) {
    && IsTable(r.constraints) && IsTable(r.energy) && IsTable(r.profiles)
    && IsTable(r.instructions) && IsTable(r.instructionMessages) && IsTable(r.instructionStatuses)
    && IsTable(r.published) && IsTable(r.activeModes) && IsTable(r.timers)
    && QueueWellFormed(r.scheduled)
  }

  lemma {:induction false} WithoutOneKeepsQueue(q: seq<Queued>, p: nat)
    requires p < |q|
    requires forall e <- q :: e.message.SystemDescription? && e.at == e.message.validFrom
    requires forall i, j :: 0 <= i < j < |q| ==> q[i].message.RevokableId() != q[j].message.RevokableId()
    ensures var r := q[..p] + q[p + 1..];
      (forall e <- r :: e.message.SystemDescription? && e.at == e.message.validFrom)
      && (forall i, j :: 0 <= i < j < |r| ==> r[i].message.RevokableId() != r[j].message.RevokableId())
  {
    var r := q[..p] + q[p + 1..];
    assert forall i :: 0 <= i < |r| ==> r[i] == q[if i < p then i else i + 1];
  }

  lemma {:induction false} EnqueueKeepsQueue(q: seq<Queued>, e: Queued)
    requires QueueWellFormed(q) && e.message.SystemDescription? && e.at == e.message.validFrom
    ensures QueueWellFormed(Enqueue(q, e))
  {
    var i := QueuedAt(q, e.message.RevokableId());
    if i < |q| {
      assert forall j :: 0 <= j < |q| ==> q[i := e][j].message.RevokableId() == q[j].message.RevokableId();
    } else {
      var pushed := q + [e];
      if |pushed| > MAX_SCHEDULED {
        var p := Furthest(pushed);
        WithoutOneKeepsQueue(pushed, p);
        assert Evict(pushed[..p] + pushed[p + 1..]) == pushed[..p] + pushed[p + 1..];
      }
    }
  }

  lemma {:induction false} DropKeepsQueue(q: seq<Queued>, target: Revokable)
    requires QueueWellFormed(q)
    ensures QueueWellFormed(DropQueued(q, target))
    ensures forall e :: e in DropQueued(q, target) <==> e in q && e.message.RevokableId() != Some(target)
  {
    if q != [] {
      var tail := q[1..];
      assert forall i, j :: 0 <= i < j < |tail| ==> tail[i] == q[i + 1] && tail[j] == q[j + 1];
      DropKeepsQueue(tail, target);
      var rest := DropQueued(tail, target);
      assert forall e :: e in q <==> e == q[0] || e in tail;
      assert forall e :: e in [q[0]] + rest <==> e == q[0] || e in rest;
      forall j | 0 <= j < |rest| ensures rest[j].message.RevokableId() != q[0].message.RevokableId() {
        var x := rest[j];
        assert x in DropQueued(tail, target);
        assert x in tail;
        var m :| 0 <= m < |tail| && tail[m] == x;
        assert q[0].message.RevokableId() != q[m + 1].message.RevokableId();
      }
    }
  }

  lemma {:induction false} NotYetDueKeepsQueue(q: seq<Queued>, now: Timestamp)
    requires QueueWellFormed(q)
    ensures QueueWellFormed(NotYetDue(q, now))
  {
    if q != [] {
      var n := |q| - 1;
      var init := q[..n];
      assert forall i, j :: 0 <= i < j < |init| ==> init[i] == q[i] && init[j] == q[j];
      NotYetDueKeepsQueue(init, now);
      var front := NotYetDue(init, now);
      forall j | 0 <= j < |front| ensures front[j].message.RevokableId() != q[n].message.RevokableId() {
        var x := front[j];
        assert x in front;
        var m :| 0 <= m < n && init[m] == x;
      }
    }
  }

  lemma {:induction false} NoteKeepsBounds(r: RegistryState, m: Message)
    requires Bounded(r)
    ensures Bounded(Note(r, m)) && Note(r, m).scheduled == r.scheduled
  {
    hide Upsert, IsTable, QueueWellFormed;
    if m.RevokableId().Some? { UpsertKeepsTable(r.published, Entry(m.RevokableId().value, ())); }
    if m.InstructionId().Some? {
      UpsertKeepsTable(r.instructions, Entry(m.InstructionId().value, ()));
      UpsertKeepsTable(r.instructionMessages, Entry(m.id, m.InstructionId().value));
    }
  }

  lemma {:induction false} WithdrawnKeepsBounds(r: RegistryState, target: Revokable)
    requires Bounded(r)
    ensures Bounded(Withdrawn(r, target))
  {
    EmptyTables();
    hide Upsert, IsTable, QueueWellFormed, RemoveKey, DropQueued;
    RemoveKeyKeepsTable(r.published, target);
    DropKeepsQueue(r.scheduled, target);
    match target.kind
    case Object(PowerConstraints) => RemoveKeyKeepsTable(r.constraints, target.id);
    case Object(EnergyConstraint) => RemoveKeyKeepsTable(r.energy, target.id);
    case Object(PowerProfile) => RemoveKeyKeepsTable(r.profiles, target.id);
    case System(s) =>
    case Instr(_) => UpsertKeepsTable(r.instructionStatuses, Entry(target.id, Revoked));
  }

  lemma {:induction false} EmptyTables()
    ensures IsTable<Id, Id>([]) && IsTable<TimerKey, Timestamp>([])
  {
  }

  lemma {:induction false} AppliedKeepsBounds(r: RegistryState, m: Message)
    requires Bounded(r)
    ensures Bounded(Applied(r, m))
  {
    EmptyTables();
    hide Upsert, IsTable, QueueWellFormed, Withdrawn;
    match m
    case Publish(_, PowerConstraints, oid, body) => UpsertKeepsTable(r.constraints, Entry(oid, body));
    case Publish(_, EnergyConstraint, oid, body) => UpsertKeepsTable(r.energy, Entry(oid, body));
    case Publish(_, PowerProfile, oid, body) => UpsertKeepsTable(r.profiles, Entry(oid, body));
    case ActuatorStatus(_, _, a, mode) => UpsertKeepsTable(r.activeModes, Entry(a, mode));
    case OmbcStatus(_, mode) => UpsertKeepsTable(r.activeModes, Entry(Nil, mode));
    case TimerStatus(_, kind, a, timer, finished) =>
      UpsertKeepsTable(r.timers, Entry(TimerKey(if kind.OmbcTimer? then Nil else a, timer), finished));
    case InstructionStatusUpdate(_, i, s) => UpsertKeepsTable(r.instructionStatuses, Entry(i, s));
    case RevokeObject(_, target) => WithdrawnKeepsBounds(r, target);
    case _ =>
  }

  lemma {:induction false} ApplyAllKeepsBounds(r: RegistryState, ms: seq<Message>)
    requires Bounded(r)
    ensures Bounded(ApplyAll(r, ms))
  {
    hide Applied, Bounded;
    if ms != [] {
      ApplyAllKeepsBounds(r, ms[..|ms| - 1]);
      AppliedKeepsBounds(ApplyAll(r, ms[..|ms| - 1]), ms[|ms| - 1]);
    }
  }

  lemma {:induction false} StepKeepsBounds(r: RegistryState, op: Op)
    requires Bounded(r)
    ensures Bounded(Step(r, op))
  {
    hide Note, Applied, Withdrawn, ApplyAll, Enqueue, IsTable, QueueWellFormed, NotYetDue;
    match op
    case DoRecord(m, now) =>
      NoteKeepsBounds(r, m);
      if Premature(m, now) {
        EnqueueKeepsQueue(Note(r, m).scheduled, Queued(m.validFrom, m));
      } else {
        AppliedKeepsBounds(Note(r, m), m);
      }
    case DoActivate(now) =>
      NotYetDueKeepsQueue(r.scheduled, now);
      ApplyAllKeepsBounds(r.(scheduled := NotYetDue(r.scheduled, now)), DueMessages(r.scheduled, now));
    case DoRevoke(target) => WithdrawnKeepsBounds(r, target);
  }

  /** In every run every table has unique keys and at most 4096 entries, and the queue at most
      16 descriptions with distinct identifiers. */
  lemma {:induction false} TablesStayBounded(ops: seq<Op>)
    ensures Bounded(Run(EMPTY, ops))
  {
    hide Step, IsTable;
    if ops == [] {
      EmptyRegistryIsBounded();
    } else {
      TablesStayBounded(ops[..|ops| - 1]);
      StepKeepsBounds(Run(EMPTY, ops[..|ops| - 1]), ops[|ops| - 1]);
    }
  }

  lemma {:induction false} EmptyRegistryIsBounded()
    ensures Bounded(EMPTY)
  {
  }

  // -------------------------------------------------------------------------
  // A revoked description stays revoked
  // -------------------------------------------------------------------------

  /** The description is in force or waiting to be. */
  ghost predicate Known(r: RegistryState, s: SystemKind, id: Id) {
    (s in r.live && r.live[s].id == id) || exists e <- r.scheduled ::
      e.message.RevokableId() == Some(Revokable(System(s), id))
  }

  predicate Records(op: Op, s: SystemKind, id: Id) {
    op.DoRecord? && op.m.RevokableId() == Some(Revokable(System(s), id))
  }

  lemma {:induction false} AppliedKeepsUnknown(r: RegistryState, m: Message, s: SystemKind, id: Id)
    requires QueueWellFormed(r.scheduled) && !Known(r, s, id)
    requires m.RevokableId() != Some(Revokable(System(s), id))
    ensures !Known(Applied(r, m), s, id)
  {
    hide Upsert, RemoveKey, DropQueued, QueueWellFormed;
    if m.RevokeObject? { DropKeepsQueue(r.scheduled, m.target); }
  }

  lemma {:induction false} ApplyAllKeepsUnknown(r: RegistryState, ms: seq<Message>, s: SystemKind, id: Id)
    requires Bounded(r) && !Known(r, s, id)
    requires forall m <- ms :: m.RevokableId() != Some(Revokable(System(s), id))
    ensures !Known(ApplyAll(r, ms), s, id)
  {
    hide Applied, Known, IsTable;
    if ms != [] {
      var front := ms[..|ms| - 1];
      assert forall m <- front :: m in ms;
      ApplyAllKeepsUnknown(r, front, s, id);
      ApplyAllKeepsBounds(r, front);
      AppliedKeepsUnknown(ApplyAll(r, front), ms[|ms| - 1], s, id);
    }
  }

  lemma {:induction false} DueWereQueued(q: seq<Queued>, now: Timestamp)
    ensures forall m <- DueMessages(q, now) :: exists e <- q :: e.message == m
  {
    if q != [] {
      var n := |q| - 1;
      DueWereQueued(q[..n], now);
      assert q[n] in q;
      assert forall e <- q[..n] :: e in q;
    }
  }

  lemma {:induction false} EvictedWereQueued(q: seq<Queued>)
    requires |q| <= MAX_SCHEDULED + 1
    ensures forall e <- Evict(q) :: e in q
  {
    if |q| > MAX_SCHEDULED {
      var p := Furthest(q);
      var r := q[..p] + q[p + 1..];
      assert Evict(r) == r;
      assert forall e <- r :: e in q;
    }
  }

  lemma {:induction false} EnqueueKeepsUnknown(q: seq<Queued>, e: Queued, id: Option<Revokable>)
    requires QueueWellFormed(q) && e.message.RevokableId() != id
    requires forall x <- q :: x.message.RevokableId() != id
    ensures forall x <- Enqueue(q, e) :: x.message.RevokableId() != id
  {
    var i := QueuedAt(q, e.message.RevokableId());
    if i < |q| {
      forall x <- q[i := e] ensures x.message.RevokableId() != id {
        var j :| 0 <= j < |q| && q[i := e][j] == x;
        if j != i { assert q[j] in q; }
      }
    } else {
      EvictedWereQueued(q + [e]);
    }
  }

  lemma {:induction false} StepKeepsUnknown(r: RegistryState, op: Op, s: SystemKind, id: Id)
    requires Bounded(r) && !Known(r, s, id) && !Records(op, s, id)
    ensures !Known(Step(r, op), s, id)
  {
    hide IsTable, Enqueue, DropQueued, NotYetDue, DueMessages, ApplyAll, Upsert, RemoveKey;
    match op
    case DoRecord(m, now) =>
      var r1 := Note(r, m);
      assert r1.scheduled == r.scheduled && r1.live == r.live;
      assert !Known(r1, s, id);
      if Premature(m, now) {
        EnqueueKeepsUnknown(r1.scheduled, Queued(m.validFrom, m), Some(Revokable(System(s), id)));
      } else {
        AppliedKeepsUnknown(r1, m, s, id);
      }
    case DoActivate(now) =>
      DueWereQueued(r.scheduled, now);
      NotYetDueKeepsQueue(r.scheduled, now);
      ApplyAllKeepsUnknown(r.(scheduled := NotYetDue(r.scheduled, now)), DueMessages(r.scheduled, now), s, id);
    case DoRevoke(target) => DropKeepsQueue(r.scheduled, target);
  }

  lemma {:induction false} RevokingForgets(r: RegistryState, s: SystemKind, id: Id)
    requires Bounded(r)
    ensures !Known(Withdrawn(r, Revokable(System(s), id)), s, id)
  {
    hide IsTable, RemoveKey, DropQueued;
    DropKeepsQueue(r.scheduled, Revokable(System(s), id));
  }

  /** Once revoked, a description is neither live nor queued at any later point of any run
      that does not record it anew. */
  lemma {:induction false} RevokedStaysRevoked(before: seq<Op>, after: seq<Op>, s: SystemKind, id: Id)
    requires forall op <- after :: !Records(op, s, id)
    ensures !Known(Run(EMPTY, before + [DoRevoke(Revokable(System(s), id))] + after), s, id)
  {
    hide Known, Bounded, Step;
    var ops := before + [DoRevoke(Revokable(System(s), id))] + after;
    var r := Run(EMPTY, ops[..|ops| - 1]);
    TablesStayBounded(ops[..|ops| - 1]);
    if after == [] {
      assert ops[..|ops| - 1] == before;
      RevokingForgets(r, s, id);
      RevokeIsAStep(r, Revokable(System(s), id));
    } else {
      var init := after[..|after| - 1];
      assert ops[..|ops| - 1] == before + [DoRevoke(Revokable(System(s), id))] + init;
      assert forall op <- init :: op in after;
      RevokedStaysRevoked(before, init, s, id);
      assert ops[|ops| - 1] == after[|after| - 1];
      StepKeepsUnknown(r, ops[|ops| - 1], s, id);
    }
  }

  lemma {:induction false} RevokeIsAStep(r: RegistryState, target: Revokable)
    ensures Step(r, DoRevoke(target)) == Withdrawn(r, target)
  {
  }

  /** Revoking one identifier touches no other description, live or queued, and no other object. */
  lemma {:induction false} RevokingIsSelective(r: RegistryState, target: Revokable)
    requires Bounded(r)
    ensures forall s :: s in r.live && target != Revokable(System(s), r.live[s].id) ==>
      s in Withdrawn(r, target).live && Withdrawn(r, target).live[s] == r.live[s]
    ensures forall s <- Withdrawn(r, target).live :: s in r.live && Withdrawn(r, target).live[s] == r.live[s]
    ensures forall e ::
      e in Withdrawn(r, target).scheduled <==> e in r.scheduled && e.message.RevokableId() != Some(target)
    ensures forall e: Entry<Id, Body> ::
      e in Withdrawn(r, target).constraints <==>
        e in r.constraints && target != Revokable(Object(PowerConstraints), e.key)
    ensures forall e: Entry<Id, Body> ::
      e in Withdrawn(r, target).profiles <==> e in r.profiles && target != Revokable(Object(PowerProfile), e.key)
    ensures forall e: Entry<Id, Body> ::
      e in Withdrawn(r, target).energy <==> e in r.energy && target != Revokable(Object(EnergyConstraint), e.key)
  {
    hide IsTable, RemoveKey, DropQueued, Upsert, QueueWellFormed;
    DropKeepsQueue(r.scheduled, target);
  }

  // -------------------------------------------------------------------------
  // The queue holds the soonest descriptions
  // -------------------------------------------------------------------------

  /** Announcement `i` takes effect before announcement `j`, or at the same time but came first. */
  ghost predicate Sooner(all: seq<Queued>, i: int, j: int)
    requires 0 <= i < |all| && 0 <= j < |all|
  {
    all[i].at.Before(all[j].at) || (all[i].at == all[j].at && i < j)
  }

  /** `kept` lists, in arrival order, the announcements at the positions `at`, and every
      announcement left out comes after every one kept. */
  ghost predicate SoonestOf(all: seq<Queued>, kept: seq<Queued>, at: seq<nat>) {
    && |kept| == |at| == (if |all| <= 16 then |all| else 16)
    && ListedInOrder(all, kept, at)
    && (forall i, k :: 0 <= i < |all| && i !in at && 0 <= k < |at| ==> Sooner(all, at[k], i))
  }

  ghost predicate ListedInOrder(all: seq<Queued>, kept: seq<Queued>, at: seq<nat>) {
    && |kept| == |at|
    && (forall k :: 0 <= k < |at| ==> at[k] < |all| && kept[k] == all[at[k]])
    && (forall k, l :: 0 <= k < l < |at| ==> at[k] < at[l])
  }

  lemma {:induction false} OneTakenOut(all: seq<Queued>, kept: seq<Queued>, at: seq<nat>, p: nat, rest: seq<nat>)
    requires ListedInOrder(all, kept, at) && p < |at| && rest == at[..p] + at[p + 1..]
    ensures ListedInOrder(all, kept[..p] + kept[p + 1..], rest)
    ensures |rest| == |at| - 1 && forall k :: 0 <= k < |rest| ==> rest[k] == at[if k < p then k else k + 1]
  {
    var kept' := kept[..p] + kept[p + 1..];
    assert forall k :: 0 <= k < |rest| ==> rest[k] == at[if k < p then k else k + 1];
    assert forall k :: 0 <= k < |rest| ==> kept'[k] == kept[if k < p then k else k + 1];
  }

  lemma {:induction false} OneAdded(all: seq<Queued>, kept: seq<Queued>, at: seq<nat>)
    requires all != [] && ListedInOrder(all[..|all| - 1], kept, at)
    ensures ListedInOrder(all, kept + [all[|all| - 1]], at + [|all| - 1])
  {
  }

  function EnqueueAll(all: seq<Queued>): seq<Queued> {
    if all == [] then [] else Enqueue(EnqueueAll(all[..|all| - 1]), all[|all| - 1])
  }

  ghost predicate DistinctAnnouncements(all: seq<Queued>) {
    forall i, j :: 0 <= i < j < |all| ==> all[i].message.RevokableId() != all[j].message.RevokableId()
  }

  /** Fed descriptions with distinct identifiers, the queue is exactly the 16 soonest of them
      by `valid_from`, the earlier announcement winning a tie. */
  lemma {:induction false} QueueIsTheSoonest(all: seq<Queued>) returns (at: seq<nat>)
    requires DistinctAnnouncements(all)
    ensures SoonestOf(all, EnqueueAll(all), at)
    ensures |EnqueueAll(all)| == if |all| <= 16 then |all| else 16
  {
    if all == [] {
      at := [];
    } else {
      var n := |all| - 1;
      var before := all[..n];
      var at0 := QueueIsTheSoonest(before);
      var q := EnqueueAll(before);
      NotQueuedYet(all, q, at0);
      var pushed := q + [all[n]];
      hide SoonestOf;
      if |all| <= MAX_SCHEDULED {
        at := KeepAll(all, q, at0);
      } else {
        var p := Furthest(pushed);
        at := RemoveFurthest(all, q, at0, p);
        assert Evict(pushed) == Evict(pushed[..p] + pushed[p + 1..]) == pushed[..p] + pushed[p + 1..];
      }
    }
  }

  lemma {:induction false} KeepAll(all: seq<Queued>, q: seq<Queued>, at0: seq<nat>) returns (at: seq<nat>)
    requires all != [] && |all| <= MAX_SCHEDULED && SoonestOf(all[..|all| - 1], q, at0)
    ensures SoonestOf(all, q + [all[|all| - 1]], at)
  {
    var n := |all| - 1;
    at := at0 + [n];
    AllKept(at0, n);
    assert forall i :: 0 <= i < n ==> i in at;
    assert at[n] == n;
  }

  lemma {:induction false} NotQueuedYet(all: seq<Queued>, q: seq<Queued>, at0: seq<nat>)
    requires all != [] && DistinctAnnouncements(all) && SoonestOf(all[..|all| - 1], q, at0)
    ensures QueuedAt(q, all[|all| - 1].message.RevokableId()) == |q|
  {
    var n := |all| - 1;
    forall i | 0 <= i < |q| ensures q[i].message.RevokableId() != all[n].message.RevokableId() {
      assert q[i] == all[..n][at0[i]] == all[at0[i]];
    }
  }

  lemma {:induction false} AllKept(at: seq<nat>, n: nat)
    requires |at| == n && forall k :: 0 <= k < n ==> at[k] < n
    requires forall k, l :: 0 <= k < l < n ==> at[k] < at[l]
    ensures forall i :: 0 <= i < n ==> i in at
  {
    forall k | 0 <= k < n ensures at[k] == k { Increasing(at, n, k); }
    forall i | 0 <= i < n ensures i in at { assert at[i] == i; }
  }

  lemma {:induction false} Increasing(at: seq<nat>, n: nat, k: nat)
    requires |at| == n && k < n && forall j :: 0 <= j < n ==> at[j] < n
    requires forall j, l :: 0 <= j < l < n ==> at[j] < at[l]
    ensures at[k] == k
  {
    AtLeast(at, n, k);
    AtMostIndex(at, n, k);
  }

  lemma {:induction false} AtLeast(at: seq<nat>, n: nat, k: nat)
    requires |at| == n && k < n && forall j, l :: 0 <= j < l < n ==> at[j] < at[l]
    ensures at[k] >= k
  {
    if k > 0 { AtLeast(at, n, k - 1); }
  }

  lemma {:induction false} AtMostIndex(at: seq<nat>, n: nat, k: nat)
    requires |at| == n && k < n && forall j :: 0 <= j < n ==> at[j] < n
    requires forall j, l :: 0 <= j < l < n ==> at[j] < at[l]
    ensures at[k] <= k
    decreases n - k
  {
    if k + 1 < n { AtMostIndex(at, n, k + 1); }
  }

  lemma {:induction false} RemoveFurthest(all: seq<Queued>, q: seq<Queued>, at0: seq<nat>, p: nat)
    returns (at: seq<nat>)
    requires |all| > MAX_SCHEDULED && SoonestOf(all[..|all| - 1], q, at0)
    requires p < |q| + 1 && p == Furthest(q + [all[|all| - 1]])
    ensures SoonestOf(all, (q + [all[|all| - 1]])[..p] + (q + [all[|all| - 1]])[p + 1..], at)
  {
    var n := |all| - 1;
    var pushed, idx := q + [all[n]], at0 + [n];
    at := idx[..p] + idx[p + 1..];
    OneAdded(all, q, at0);
    OneTakenOut(all, pushed, idx, p, at);
    hide ListedInOrder, Sooner, Furthest;
    forall i, k | 0 <= i < |all| && i !in at && 0 <= k < |at| ensures at[k] < |all| && Sooner(all, at[k], i) {
      KeptIsSooner(all, q, at0, p, if k < p then k else k + 1, i);
    }
  }

  lemma {:induction false} KeptIsSooner(all: seq<Queued>, q: seq<Queued>, at0: seq<nat>, p: nat, m: nat, i: nat)
    requires |all| > MAX_SCHEDULED && SoonestOf(all[..|all| - 1], q, at0)
    requires p < |q| + 1 && p == Furthest(q + [all[|all| - 1]])
    requires m < |q| + 1 && m != p && i < |all|
    requires i !in (at0 + [|all| - 1])[..p] + (at0 + [|all| - 1])[p + 1..]
    ensures (at0 + [|all| - 1])[m] < |all| && Sooner(all, (at0 + [|all| - 1])[m], i)
  {
    var n := |all| - 1;
    var pushed, idx := q + [all[n]], at0 + [n];
    OneAdded(all, q, at0);
    FurthestIsLast(all, idx, pushed, p, m);
    hide ListedInOrder, Sooner, Furthest;
    if i != idx[p] {
      LeftOut(at0, n, p, i);
      KeptBeforeLeftOut(all, at0, q, idx, p, m, i);
    }
  }

  lemma {:induction false} FurthestIsLast(all: seq<Queued>, idx: seq<nat>, pushed: seq<Queued>, p: nat, m: nat)
    requires ListedInOrder(all, pushed, idx)
    requires p < |pushed| && p == Furthest(pushed) && m < |pushed| && m != p
    ensures idx[m] < |all| && idx[p] < |all| && Sooner(all, idx[m], idx[p])
  {
    OrderIsTotal(pushed[m].at, pushed[p].at);
  }

  lemma {:induction false} LeftOut(at0: seq<nat>, n: nat, p: nat, i: nat)
    requires p < |at0| + 1 && i <= n
    requires i !in (at0 + [n])[..p] + (at0 + [n])[p + 1..] && i != (at0 + [n])[p]
    ensures i !in at0 && i < n
  {
    var idx := at0 + [n];
    var at := idx[..p] + idx[p + 1..];
    assert forall k :: 0 <= k < |idx| && k != p ==> idx[k] == at[if k < p then k else k - 1];
    assert forall k :: 0 <= k < |at| ==> at[k] in at;
    forall k | 0 <= k < |idx| ensures idx[k] != i {
      if k != p { assert idx[k] == at[if k < p then k else k - 1]; }
    }
    assert idx[|at0|] == n;
    forall k | 0 <= k < |at0| ensures at0[k] != i { assert idx[k] == at0[k]; }
  }

  lemma {:induction false} KeptBeforeLeftOut(all: seq<Queued>, at0: seq<nat>, q: seq<Queued>, idx: seq<nat>, p: nat,
                                             m: nat, i: nat)
    requires all != [] && SoonestOf(all[..|all| - 1], q, at0) && idx == at0 + [|all| - 1]
    requires p < |idx| && m < |idx| && m != p && i < |all| - 1 && i !in at0
    requires Sooner(all, idx[m], idx[p])
    ensures Sooner(all, idx[m], i)
  {
    var n := |all| - 1;
    if m < |at0| {
      assert Sooner(all[..n], at0[m], i);
    } else {
      assert Sooner(all[..n], at0[p], i);
      OrderIsTotal(all[idx[p]].at, all[i].at);
      OrderIsTotal(all[n].at, all[idx[p]].at);
    }
  }

  // -------------------------------------------------------------------------
  // Activation goes by queue order
  // -------------------------------------------------------------------------

  /** The last message of the list describing this kind of system, if any does. */
  function LastOf(ms: seq<Message>, s: SystemKind): Option<Description> {
    if ms == [] then None
    else
      var m := ms[|ms| - 1];
      if m.SystemDescription? && m.system == s then Some(Description(m.id, m.body)) else LastOf(ms[..|ms| - 1], s)
  }

  lemma {:induction false} LastAppliedIsLive(r: RegistryState, ms: seq<Message>, s: SystemKind)
    requires forall m <- ms :: m.SystemDescription?
    ensures LastOf(ms, s).Some? ==> s in ApplyAll(r, ms).live && ApplyAll(r, ms).live[s] == LastOf(ms, s).value
    ensures LastOf(ms, s).None? ==> (s in ApplyAll(r, ms).live <==> s in r.live)
    ensures LastOf(ms, s).None? && s in r.live ==> ApplyAll(r, ms).live[s] == r.live[s]
  {
    if ms != [] {
      var front := ms[..|ms| - 1];
      assert forall m <- front :: m in ms;
      assert ms[|ms| - 1] in ms;
      LastAppliedIsLive(r, front, s);
    }
  }

  /** After an activation, what is in force is the due description that was queued last,
      whatever its `valid_from`; with none due, what was in force before. */
  lemma {:induction false} ActivationFollowsTheQueue(r: RegistryState, now: Timestamp, s: SystemKind)
    requires QueueWellFormed(r.scheduled)
    ensures var due := LastOf(DueMessages(r.scheduled, now), s);
      var after := AfterActivation(r, now).live;
      (due.Some? ==> s in after && after[s] == due.value)
      && (due.None? ==> (s in after <==> s in r.live) && (s in r.live ==> after[s] == r.live[s]))
  {
    DueWereQueued(r.scheduled, now);
    forall m <- DueMessages(r.scheduled, now) ensures m.SystemDescription? {
      var e :| e in r.scheduled && e.message == m;
    }
    LastAppliedIsLive(r.(scheduled := NotYetDue(r.scheduled, now)), DueMessages(r.scheduled, now), s);
  }

  /** Entry `k` of the queue is a description of this kind that is due. */
  predicate DueFor(q: seq<Queued>, now: Timestamp, s: SystemKind, k: nat) {
    k < |q| && q[k].at.AtMost(now) && q[k].message.SystemDescription? && q[k].message.system == s
  }

  ghost predicate LastDueFor(q: seq<Queued>, now: Timestamp, s: SystemKind, l: nat) {
    DueFor(q, now, s, l) && forall k: nat :: DueFor(q, now, s, k) ==> k <= l
  }

  /** What is in force is a due description of the latest `valid_from`. */
  ghost predicate NewestInForce(q: seq<Queued>, now: Timestamp, s: SystemKind, live: map<SystemKind, Description>) {
    s in live && exists k: nat ::
      && DueFor(q, now, s, k) && live[s] == Description(q[k].message.id, q[k].message.body)
      && forall j: nat :: DueFor(q, now, s, j) ==> q[j].at.AtMost(q[k].at)
  }

  lemma {:induction false} LastOfIsTheLastDue(q: seq<Queued>, now: Timestamp, s: SystemKind, l: nat)
    requires LastDueFor(q, now, s, l) && forall e <- q :: e.message.SystemDescription?
    ensures LastOf(DueMessages(q, now), s) == Some(Description(q[l].message.id, q[l].message.body))
  {
    var n := |q| - 1;
    var front := DueMessages(q[..n], now);
    assert forall k: nat :: k < n ==> (DueFor(q[..n], now, s, k) <==> DueFor(q, now, s, k));
    assert q[n] in q;
    if l < n {
      assert forall e <- q[..n] :: e in q;
      LastOfIsTheLastDue(q[..n], now, s, l);
      assert !DueFor(q, now, s, n);
    }
    assert (front + [q[n].message])[..|front|] == front;
  }

  /** Activation leaves the newest due description of a kind in force exactly when none of that
      kind with a later `valid_from` is queued ahead of the last one due. */
  lemma {:induction false} NewestInForceExactlyWhenQueuedLast(r: RegistryState, now: Timestamp, s: SystemKind, l: nat)
    requires QueueWellFormed(r.scheduled) && LastDueFor(r.scheduled, now, s, l)
    ensures NewestInForce(r.scheduled, now, s, AfterActivation(r, now).live) <==>
      forall k: nat :: k < l && DueFor(r.scheduled, now, s, k) ==> r.scheduled[k].at.AtMost(r.scheduled[l].at)
  {
    var q := r.scheduled;
    LastOfIsTheLastDue(q, now, s, l);
    ActivationFollowsTheQueue(r, now, s);
    hide AfterActivation, DueMessages, LastOf;
    forall k: nat | DueFor(q, now, s, k) && q[k].message.id == q[l].message.id ensures k == l {
      assert q[k].message.RevokableId() == q[l].message.RevokableId();
    }
  }

  function At(seconds: nat): Timestamp
    requires seconds < 1000
  { Timestamp(seconds, 0) }

  const NEWER := SystemDescription(Named("newer"), FrbcSystem, At(20), 0)
  const OLDER := SystemDescription(Named("older"), FrbcSystem, At(10), 0)

  lemma {:induction false} BothAreQueued()
    ensures Recorded(Recorded(EMPTY, NEWER, At(0)), OLDER, At(0)).scheduled
         == [Queued(At(20), NEWER), Queued(At(10), OLDER)]
  {
    hide Upsert;
    assert [] + [Queued(At(20), NEWER)] == [Queued(At(20), NEWER)];
  }

  lemma {:induction false} BothAreDue()
    ensures DueMessages([Queued(At(20), NEWER), Queued(At(10), OLDER)], At(30)) == [NEWER, OLDER]
  {
    var q := [Queued(At(20), NEWER), Queued(At(10), OLDER)];
    assert q[..1] == [q[0]] && q[..1][..0] == [];
    assert DueMessages(q[..1], At(30)) == [NEWER];
  }

  /** Two descriptions due at one wake-up: the one that took effect earlier, announced last,
      ends up in force over the one meant to replace it. */
  lemma {:induction false} ActivationCanInstallTheStaleOne()
    ensures var r := AfterActivation(Recorded(Recorded(EMPTY, NEWER, At(0)), OLDER, At(0)), At(30));
      FrbcSystem in r.live && r.live[FrbcSystem] == Description(OLDER.id, OLDER.body)
    ensures OLDER.validFrom.Before(NEWER.validFrom)
  {
    BothAreQueued();
    BothAreDue();
    hide Recorded, AfterActivation, DueMessages;
    ActivationFollowsTheQueue(Recorded(Recorded(EMPTY, NEWER, At(0)), OLDER, At(0)), At(30), FrbcSystem);
    assert [NEWER, OLDER][..1] == [NEWER];
  }
}
