/** Everything either side has published on a session. */
module Registry {
  import opened Ids
  import opened Time
  import opened Messages
  import opened Tables

  const MAX_SCHEDULED: nat := 16

  /** A system description in force, under the `message_id` that stands in for its identifier. */
  datatype Description = Description(id: Id, body: Body)

  datatype Queued = Queued(at: Timestamp, message: Message)

  datatype TimerKey = TimerKey(actuator: Id, timer: Id)

  /** The registry as a value. */
  datatype RegistryState = RegistryState(
    details: Option<Body>,
    live: map<SystemKind, Description>,
    scheduled: seq<Queued>,
    constraints: seq<Entry<Id, Body>>,
    energy: seq<Entry<Id, Body>>,
    profiles: seq<Entry<Id, Body>>,
    instructions: seq<Entry<Id, ()>>,
    instructionMessages: seq<Entry<Id, Id>>,
    instructionStatuses: seq<Entry<Id, InstructionStatus>>,
    published: seq<Entry<Revokable, ()>>,
    activeModes: seq<Entry<Id, Id>>,
    timers: seq<Entry<TimerKey, Timestamp>>,
    fillLevel: Option<Body>)

  const EMPTY := RegistryState(None, map[], [], [], [], [], [], [], [], [], [], [], None)

  // -------------------------------------------------------------------------
  // The queue of descriptions that are not in force yet
  // -------------------------------------------------------------------------

  /** Where a message with this identity is queued, or the length when none is. */
  function QueuedAt(q: seq<Queued>, identity: Option<Revokable>): (i: nat)
    ensures i <= |q|
    ensures i < |q| ==> q[i].message.RevokableId() == identity
    ensures forall j :: 0 <= j < i ==> q[j].message.RevokableId() != identity
  {
    if q == [] || q[0].message.RevokableId() == identity then 0 else 1 + QueuedAt(q[1..], identity)
  }

  /** The position of the entry furthest from taking effect; of equals, the last. */
  function Furthest(q: seq<Queued>): (p: nat)
    requires q != []
    ensures p < |q|
    ensures forall j :: 0 <= j < |q| ==> q[j].at.AtMost(q[p].at)
    ensures forall j :: p < j < |q| ==> q[j].at.Before(q[p].at)
  {
    var n := |q| - 1;
    if n == 0 then 0
    else
      var p := Furthest(q[..n]);
      OrderIsTotal(q[p].at, q[n].at);
      if q[p].at.AtMost(q[n].at) then n else p
  }

  lemma {:induction false} OrderIsTotal(a: Timestamp, b: Timestamp)
    ensures a.Before(b) <==> !b.AtMost(a)
    ensures a.AtMost(a)
    ensures forall c: Timestamp :: c.AtMost(a) && a.AtMost(b) ==> c.AtMost(b)
    ensures forall c: Timestamp :: c.Before(a) && a.AtMost(b) ==> c.Before(b)
    ensures forall c: Timestamp :: c.AtMost(a) && a.Before(b) ==> c.Before(b)
  {
  }

  function Evict(q: seq<Queued>): (r: seq<Queued>)
    ensures |r| <= MAX_SCHEDULED || |q| > MAX_SCHEDULED
    decreases |q|
  {
    if |q| <= MAX_SCHEDULED then q
    else
      var p := Furthest(q);
      Evict(q[..p] + q[p + 1..])
  }

  /** Queue a description: a correction replaces what it corrects, an announcement joins. */
  function Enqueue(q: seq<Queued>, e: Queued): seq<Queued> {
    var i := QueuedAt(q, e.message.RevokableId());
    if i < |q| then q[i := e] else Evict(q + [e])
  }

  function DropQueued(q: seq<Queued>, target: Revokable): (r: seq<Queued>)
    ensures |r| <= |q|
  {
    if q == [] then []
    else
      var rest := DropQueued(q[1..], target);
      if q[0].message.RevokableId() == Some(target) then rest else [q[0]] + rest
  }

  function DueMessages(q: seq<Queued>, now: Timestamp): seq<Message> {
    if q == [] then []
    else
      var n := |q| - 1;
      var front := DueMessages(q[..n], now);
      if q[n].at.AtMost(now) then front + [q[n].message] else front
  }

  function NotYetDue(q: seq<Queued>, now: Timestamp): (r: seq<Queued>)
    ensures |r| <= |q|
    ensures forall e <- r :: e in q && !e.at.AtMost(now)
    ensures forall e <- q :: !e.at.AtMost(now) ==> e in r
  {
    if q == [] then []
    else
      var n := |q| - 1;
      var front := NotYetDue(q[..n], now);
      if q[n].at.AtMost(now) then front else front + [q[n]]
  }

  function EarliestActivation(q: seq<Queued>): (r: Option<Timestamp>)
    ensures r.None? <==> q == []
    ensures r.Some? ==> exists e <- q :: e.at == r.value
    ensures r.Some? ==> forall e <- q :: r.value.AtMost(e.at)
  {
    if q == [] then None
    else
      var n := |q| - 1;
      match EarliestActivation(q[..n])
      case None => Some(q[n].at)
      case Some(t) => OrderIsTotal(t, q[n].at); if q[n].at.Before(t) then Some(q[n].at) else Some(t)
  }

  // -------------------------------------------------------------------------
  // Recording, applying, activating, revoking
  // -------------------------------------------------------------------------

  function ForgetActuators(r: RegistryState): RegistryState {
    r.(activeModes := [], timers := [])
  }

  function DropObject(r: RegistryState, kind: ObjectKind, id: Id): RegistryState {
    match kind
    case PowerConstraints => r.(constraints := RemoveKey(r.constraints, id))
    case EnergyConstraint => r.(energy := RemoveKey(r.energy, id))
    case PowerProfile => r.(profiles := RemoveKey(r.profiles, id))
  }

  /** Only the description named is withdrawn, not one that has replaced it. */
  function DropSystem(r: RegistryState, s: SystemKind, id: Id): RegistryState {
    if s in r.live && r.live[s].id == id then ForgetActuators(r.(live := r.live - {s})) else r
  }

  function Withdrawn(r: RegistryState, target: Revokable): RegistryState {
    var r1 := r.(published := RemoveKey(r.published, target), scheduled := DropQueued(r.scheduled, target));
    match target.kind
    case Object(o) => DropObject(r1, o, target.id)
    case System(s) => DropSystem(r1, s, target.id)
    case Instr(_) => r1.(instructionStatuses := Upsert(r1.instructionStatuses, Entry(target.id, Revoked)))
  }

  function PutObject(r: RegistryState, kind: ObjectKind, e: Entry<Id, Body>): RegistryState {
    match kind
    case PowerConstraints => r.(constraints := Upsert(r.constraints, e))
    case EnergyConstraint => r.(energy := Upsert(r.energy, e))
    case PowerProfile => r.(profiles := Upsert(r.profiles, e))
  }

  /** Make a message's contents effective now. */
  function Applied(r: RegistryState, m: Message): RegistryState {
    match m
    case Details(_, d) => r.(details := Some(d))
    case SystemDescription(id, s, _, body) => ForgetActuators(r.(live := r.live[s := Description(id, body)]))
    case Publish(_, o, oid, body) => PutObject(r, o, Entry(oid, body))
    case StorageStatus(_, level) => r.(fillLevel := Some(level))
    case ActuatorStatus(_, _, a, mode) => r.(activeModes := Upsert(r.activeModes, Entry(a, mode)))
    case OmbcStatus(_, mode) => r.(activeModes := Upsert(r.activeModes, Entry(Nil, mode)))
    case TimerStatus(_, kind, a, timer, finished) =>
      r.(timers := Upsert(r.timers, Entry(TimerKey(if kind.OmbcTimer? then Nil else a, timer), finished)))
    case InstructionStatusUpdate(_, i, s) => r.(instructionStatuses := Upsert(r.instructionStatuses, Entry(i, s)))
    case RevokeObject(_, target) => Withdrawn(r, target)
    case _ => r
  }

  /** The identifiers a message introduces. */
  function Note(r: RegistryState, m: Message): RegistryState {
    var r1 := if m.RevokableId().Some? then r.(published := Upsert(r.published, Entry(m.RevokableId().value, ())))
      else r;
    if m.InstructionId().Some? then
      r1.(instructions := Upsert(r1.instructions, Entry(m.InstructionId().value, ())),
          instructionMessages := Upsert(r1.instructionMessages, Entry(m.id, m.InstructionId().value)))
    else r1
  }

  predicate Premature(m: Message, now: Timestamp) {
    m.SystemDescription? && now.Before(m.validFrom)
  }

  function Recorded(r: RegistryState, m: Message, now: Timestamp): RegistryState {
    var r1 := Note(r, m);
    if Premature(m, now) then r1.(scheduled := Enqueue(r1.scheduled, Queued(m.validFrom, m))) else Applied(r1, m)
  }

  function ApplyAll(r: RegistryState, ms: seq<Message>): RegistryState {
    if ms == [] then r else Applied(ApplyAll(r, ms[..|ms| - 1]), ms[|ms| - 1])
  }

  function AfterActivation(r: RegistryState, now: Timestamp): RegistryState {
    ApplyAll(r.(scheduled := NotYetDue(r.scheduled, now)), DueMessages(r.scheduled, now))
  }

  // -------------------------------------------------------------------------
  // The registry as the engines hold it
  // -------------------------------------------------------------------------

  class RegistryTables {
    var details: Option<Body>
    var live: map<SystemKind, Description>
    var scheduled: seq<Queued>
    var constraints: seq<Entry<Id, Body>>
    var energy: seq<Entry<Id, Body>>
    var profiles: seq<Entry<Id, Body>>
    var instructions: seq<Entry<Id, ()>>
    var instructionMessages: seq<Entry<Id, Id>>
    var instructionStatuses: seq<Entry<Id, InstructionStatus>>
    var published: seq<Entry<Revokable, ()>>
    var activeModes: seq<Entry<Id, Id>>
    var timers: seq<Entry<TimerKey, Timestamp>>
    var fillLevel: Option<Body>

    function View(): RegistryState
      reads this
    {
      RegistryState(details, live, scheduled, constraints, energy, profiles, instructions, instructionMessages,
                    instructionStatuses, published, activeModes, timers, fillLevel)
    }

    constructor ()
      ensures View() == EMPTY
    {
      details, live, scheduled := None, map[], [];
      constraints, energy, profiles := [], [], [];
      instructions, instructionMessages, instructionStatuses, published := [], [], [], [];
      activeModes, timers, fillLevel := [], [], None;
    }

    method Schedule(e: Queued)
      modifies this`scheduled
      ensures scheduled == Enqueue(old(scheduled), e)
    {
      var identity := e.message.RevokableId();
      var i := 0;
      while i < |scheduled| && scheduled[i].message.RevokableId() != identity
        invariant 0 <= i <= |scheduled| && scheduled == old(scheduled)
        invariant QueuedAt(scheduled, identity) == i + QueuedAt(scheduled[i..], identity)
      {
        assert scheduled[i..][1..] == scheduled[i + 1..];
        i := i + 1;
      }
      if i < |scheduled| {
        scheduled := scheduled[i := e];
        return;
      }
      scheduled := scheduled + [e];
      while |scheduled| > MAX_SCHEDULED
        invariant Evict(scheduled) == Evict(old(scheduled) + [e])
        decreases |scheduled|
      {
        var p := FindFurthest();
        scheduled := scheduled[..p] + scheduled[p + 1..];
      }
    }

    method FindFurthest() returns (p: nat)
      requires scheduled != []
      ensures p == Furthest(scheduled)
    {
      p := 0;
      var k := 1;
      while k < |scheduled|
        invariant 1 <= k <= |scheduled| && p < k
        invariant p == Furthest(scheduled[..k])
      {
        assert scheduled[..k + 1][..k] == scheduled[..k];
        if scheduled[p].at.AtMost(scheduled[k].at) { p := k; }
        k := k + 1;
      }
      assert scheduled[..k] == scheduled;
    }

    method Revoke(target: Revokable)
      modifies this
      ensures View() == Withdrawn(old(View()), target)
    {
      hide Upsert, RemoveKey, DropQueued, DropObject, DropSystem;
      published := RemoveKey(published, target);
      scheduled := DropQueued(scheduled, target);
      match target.kind {
        case Object(o) => Drop(o, target.id);
        case System(s) => Retire(s, target.id);
        case Instr(_) =>
          instructionStatuses := UpsertInPlace(instructionStatuses, Entry(target.id, InstructionStatus.Revoked));
      }
    }

    method Drop(kind: ObjectKind, id: Id)
      modifies this`constraints, this`energy, this`profiles
      ensures View() == DropObject(old(View()), kind, id)
    {
      match kind {
        case PowerConstraints => constraints := RemoveKey(constraints, id);
        case EnergyConstraint => energy := RemoveKey(energy, id);
        case PowerProfile => profiles := RemoveKey(profiles, id);
      }
    }

    method Retire(s: SystemKind, id: Id)
      modifies this`live, this`activeModes, this`timers
      ensures View() == DropSystem(old(View()), s, id)
    {
      if s in live && live[s].id == id {
        live := live - {s};
        activeModes, timers := [], [];
      }
    }

    method Put(kind: ObjectKind, e: Entry<Id, Body>)
      modifies this`constraints, this`energy, this`profiles
      ensures View() == PutObject(old(View()), kind, e)
    {
      hide Upsert;
      match kind {
        case PowerConstraints => constraints := UpsertInPlace(constraints, e);
        case EnergyConstraint => energy := UpsertInPlace(energy, e);
        case PowerProfile => profiles := UpsertInPlace(profiles, e);
      }
    }

    method Apply(m: Message)
      modifies this
      ensures View() == Applied(old(View()), m)
    {
      hide Upsert, Withdrawn, PutObject;
      if m.Details? {
        details := Some(m.details);
      } else if m.SystemDescription? {
        live := live[m.system := Description(m.id, m.body)];
        activeModes, timers := [], [];
      } else if m.Publish? {
        Put(m.what, Entry(m.objectId, m.body));
      } else if m.RevokeObject? {
        Revoke(m.target);
      } else {
        ApplyStatus(m);
      }
    }

    method ApplyStatus(m: Message)
      requires !m.Details? && !m.SystemDescription? && !m.Publish? && !m.RevokeObject?
      modifies this`fillLevel, this`activeModes, this`timers, this`instructionStatuses
      ensures View() == Applied(old(View()), m)
    {
      hide Upsert;
      if m.StorageStatus? {
        fillLevel := Some(m.fillLevel);
      } else if m.ActuatorStatus? {
        activeModes := UpsertInPlace(activeModes, Entry(m.actuator, m.mode));
      } else if m.OmbcStatus? {
        activeModes := UpsertInPlace(activeModes, Entry(Nil, m.mode));
      } else if m.TimerStatus? {
        timers := UpsertInPlace(timers,
          Entry(TimerKey(if m.timerKind.OmbcTimer? then Nil else m.actuator, m.timer), m.finishedAt));
      } else if m.InstructionStatusUpdate? {
        instructionStatuses := UpsertInPlace(instructionStatuses, Entry(m.instruction, m.update));
      }
    }

    method Record(m: Message, now: Timestamp)
      modifies this
      ensures View() == Recorded(old(View()), m, now)
    {
      hide Upsert, Applied, Enqueue;
      if m.RevokableId().Some? {
        published := UpsertInPlace(published, Entry(m.RevokableId().value, ()));
      }
      if m.InstructionId().Some? {
        instructions := UpsertInPlace(instructions, Entry(m.InstructionId().value, ()));
        instructionMessages := UpsertInPlace(instructionMessages, Entry(m.id, m.InstructionId().value));
      }
      assert View() == Note(old(View()), m);
      if Premature(m, now) {
        Schedule(Queued(m.validFrom, m));
      } else {
        Apply(m);
      }
    }

    method ActivateDue(now: Timestamp) returns (due: seq<Message>)
      modifies this
      ensures View() == AfterActivation(old(View()), now)
      ensures due == DueMessages(old(scheduled), now)
    {
      due := TakeDue(now);
      hide View, Applied, DueMessages, NotYetDue;
      ghost var start := View();
      var k := 0;
      while k < |due|
        invariant 0 <= k <= |due|
        invariant View() == ApplyAll(start, due[..k])
      {
        assert due[..k + 1][..k] == due[..k];
        Apply(due[k]);
        k := k + 1;
      }
      assert due[..k] == due;
    }

    /** Take the messages due out of the queue, in order. */
    method TakeDue(now: Timestamp) returns (due: seq<Message>)
      modifies this`scheduled
      ensures due == DueMessages(old(scheduled), now)
      ensures View() == old(View()).(scheduled := NotYetDue(old(View()).scheduled, now))
      ensures old(View()).scheduled == old(scheduled)
    {
      due := [];
      var waiting: seq<Queued> := [];
      var k := 0;
      while k < |scheduled|
        invariant 0 <= k <= |scheduled| && scheduled == old(scheduled)
        invariant due == DueMessages(scheduled[..k], now) && waiting == NotYetDue(scheduled[..k], now)
      {
        assert scheduled[..k + 1][..k] == scheduled[..k];
        if scheduled[k].at.AtMost(now) {
          due := due + [scheduled[k].message];
        } else {
          waiting := waiting + [scheduled[k]];
        }
        k := k + 1;
      }
      assert scheduled[..k] == scheduled;
      scheduled := waiting;
    }

    method NextActivation() returns (r: Option<Timestamp>)
      ensures r == EarliestActivation(scheduled)
    {
      r := None;
      var k := 0;
      while k < |scheduled|
        invariant 0 <= k <= |scheduled|
        invariant r == EarliestActivation(scheduled[..k])
      {
        assert scheduled[..k + 1][..k] == scheduled[..k];
        if r.None? || scheduled[k].at.Before(r.value) { r := Some(scheduled[k].at); }
        k := k + 1;
      }
      assert scheduled[..k] == scheduled;
    }
  }
}
