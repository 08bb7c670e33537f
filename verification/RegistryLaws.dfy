/** What a registry holds after any run, read off what was heard, took effect and was withdrawn. */
module RegistryLaws {
  import opened Ids
  import opened Time
  import opened Messages
  import opened Tables
  import opened Registry
  import opened RegistryRuns

  /** A message was recorded; its contents took effect; something was withdrawn. */
  datatype Happening = Heard(m: Message) | TookEffect(m: Message) | Gone(target: Revokable)

  function InEffect(m: Message): Happening {
    if m.RevokeObject? then Gone(m.target) else TookEffect(m)
  }

  function AllInEffect(ms: seq<Message>): seq<Happening> {
    if ms == [] then [] else AllInEffect(ms[..|ms| - 1]) + [InEffect(ms[|ms| - 1])]
  }

  /** What one operation brings about: a description announced for later has no effect yet. */
  function Brought(r: RegistryState, op: Op): seq<Happening> {
    match op
    case DoRecord(m, now) =>
      [Heard(m)] + if m.SystemDescription? && now.Before(m.validFrom) then [] else [InEffect(m)]
    case DoActivate(now) => AllInEffect(DueMessages(r.scheduled, now))
    case DoRevoke(target) => [Gone(target)]
  }

  function Happenings(ops: seq<Op>): seq<Happening> {
    if ops == [] then []
    else
      var n := |ops| - 1;
      Happenings(ops[..n]) + Brought(Run(EMPTY, ops[..n]), ops[n])
  }

  // -------------------------------------------------------------------------
  // Look-ups in what happened
  // -------------------------------------------------------------------------

  function LastDetails(h: seq<Happening>): Option<Body> {
    if h == [] then None
    else
      match h[|h| - 1]
      case TookEffect(Details(_, d)) => Some(d)
      case _ => LastDetails(h[..|h| - 1])
  }

  function LastFillLevel(h: seq<Happening>): Option<Body> {
    if h == [] then None
    else
      match h[|h| - 1]
      case TookEffect(StorageStatus(_, level)) => Some(level)
      case _ => LastFillLevel(h[..|h| - 1])
  }

  /** The last description of its kind to come into force, unless it has itself been withdrawn since. */
  function InForce(h: seq<Happening>, s: SystemKind): Option<Description> {
    if h == [] then None
    else
      var before := InForce(h[..|h| - 1], s);
      match h[|h| - 1]
      case TookEffect(SystemDescription(id, k, _, body)) => if k == s then Some(Description(id, body)) else before
      case Gone(Revokable(System(k), id)) => if k == s && before.Some? && before.value.id == id then None else before
      case _ => before
  }

  /** A new description, or the withdrawal of the one in force, is what actuators are forgotten over. */
  predicate ForgetsActuators(h: seq<Happening>, x: Happening) {
    match x
    case TookEffect(SystemDescription(_, _, _, _)) => true
    case Gone(Revokable(System(s), id)) => InForce(h, s).Some? && InForce(h, s).value.id == id
    case _ => false
  }

  function OfModes(h: seq<Happening>, x: Happening): (said: seq<Change<Id, Id>>)
    ensures |said| <= 1
  {
    if ForgetsActuators(h, x) then [Clear]
    else
      match x
      case TookEffect(ActuatorStatus(_, _, actuator, mode)) => [Put(actuator, mode)]
      case TookEffect(OmbcStatus(_, mode)) => [Put(Nil, mode)]
      case _ => []
  }

  /** The mode each actuator was last said to be in; OMBC has the one, under the nil identifier. */
  function Modes(h: seq<Happening>): seq<Change<Id, Id>> {
    if h == [] then [] else Modes(h[..|h| - 1]) + OfModes(h[..|h| - 1], h[|h| - 1])
  }

  function OfTimers(h: seq<Happening>, x: Happening): (said: seq<Change<TimerKey, Timestamp>>)
    ensures |said| <= 1
  {
    if ForgetsActuators(h, x) then [Clear]
    else
      match x
      case TookEffect(TimerStatus(_, OmbcTimer, _, timer, at)) => [Put(TimerKey(Nil, timer), at)]
      case TookEffect(TimerStatus(_, FrbcTimer, actuator, timer, at)) => [Put(TimerKey(actuator, timer), at)]
      case TookEffect(TimerStatus(_, DdbcTimer, actuator, timer, at)) => [Put(TimerKey(actuator, timer), at)]
      case _ => []
  }

  /** When each timer of each actuator was last said to finish. */
  function Timers(h: seq<Happening>): seq<Change<TimerKey, Timestamp>> {
    if h == [] then [] else Timers(h[..|h| - 1]) + OfTimers(h[..|h| - 1], h[|h| - 1])
  }

  function OfStatuses(x: Happening): (said: seq<Change<Id, InstructionStatus>>)
    ensures |said| <= 1
  {
    match x
    case TookEffect(InstructionStatusUpdate(_, i, status)) => [Put(i, status)]
    case Gone(Revokable(Instr(_), i)) => [Put(i, InstructionStatus.Revoked)]
    case _ => []
  }

  /** What was last said of each instruction; a withdrawn one is revoked. */
  function Statuses(h: seq<Happening>): seq<Change<Id, InstructionStatus>> {
    if h == [] then [] else Statuses(h[..|h| - 1]) + OfStatuses(h[|h| - 1])
  }

  function OfPublished(x: Happening): (said: seq<Change<Revokable, ()>>)
    ensures |said| <= 1
  {
    match x
    case Heard(Publish(_, o, id, _)) => [Put(Revokable(Object(o), id), ())]
    case Heard(SystemDescription(id, s, _, _)) => [Put(Revokable(System(s), id), ())]
    case Heard(Instruction(_, i, id, _)) => [Put(Revokable(Instr(i), id), ())]
    case Gone(target) => [Take(target)]
    case _ => []
  }

  /** Everything a later withdrawal could name, as soon as it is heard of. */
  function Published(h: seq<Happening>): seq<Change<Revokable, ()>> {
    if h == [] then [] else Published(h[..|h| - 1]) + OfPublished(h[|h| - 1])
  }

  function OfInstructions(x: Happening): (said: seq<Change<Id, ()>>)
    ensures |said| <= 1
  {
    match x
    case Heard(Instruction(_, _, id, _)) => [Put(id, ())]
    case _ => []
  }

  /** The instructions heard of. */
  function Instructions(h: seq<Happening>): seq<Change<Id, ()>> {
    if h == [] then [] else Instructions(h[..|h| - 1]) + OfInstructions(h[|h| - 1])
  }

  function OfCarriers(x: Happening): (said: seq<Change<Id, Id>>)
    ensures |said| <= 1
  {
    match x
    case Heard(Instruction(message, _, id, _)) => [Put(message, id)]
    case _ => []
  }

  /** Which instruction each message carried. */
  function Carriers(h: seq<Happening>): seq<Change<Id, Id>> {
    if h == [] then [] else Carriers(h[..|h| - 1]) + OfCarriers(h[|h| - 1])
  }

  function OfObjects(what: ObjectKind, x: Happening): (said: seq<Change<Id, Body>>)
    ensures |said| <= 1
  {
    match x
    case TookEffect(Publish(_, o, id, body)) => if o == what then [Put(id, body)] else []
    case Gone(Revokable(Object(o), id)) => if o == what then [Take(id)] else []
    case _ => []
  }

  /** The objects of one kind, as last published, until withdrawn. */
  function Objects(h: seq<Happening>, what: ObjectKind): seq<Change<Id, Body>> {
    if h == [] then [] else Objects(h[..|h| - 1], what) + OfObjects(what, h[|h| - 1])
  }

  // -------------------------------------------------------------------------
  // The registry holds just that
  // -------------------------------------------------------------------------

  ghost predicate HoldsValues(r: RegistryState, h: seq<Happening>) {
    r.details == LastDetails(h) && r.fillLevel == LastFillLevel(h)
  }

  ghost predicate HoldsSystems(r: RegistryState, h: seq<Happening>) {
    && (forall s: SystemKind :: s in r.live <==> InForce(h, s).Some?)
    && (forall s: SystemKind :: s in r.live ==> Some(r.live[s]) == InForce(h, s))
    && r.activeModes == AfterChanges(Modes(h)) && r.timers == AfterChanges(Timers(h))
  }

  ghost predicate HoldsObjects(r: RegistryState, h: seq<Happening>) {
    && r.published == AfterChanges(Published(h))
    && r.constraints == AfterChanges(Objects(h, PowerConstraints))
    && r.energy == AfterChanges(Objects(h, EnergyConstraint))
    && r.profiles == AfterChanges(Objects(h, PowerProfile))
  }

  ghost predicate HoldsInstructions(r: RegistryState, h: seq<Happening>) {
    && r.instructionStatuses == AfterChanges(Statuses(h))
    && r.instructions == AfterChanges(Instructions(h)) && r.instructionMessages == AfterChanges(Carriers(h))
  }

  ghost predicate Holds(r: RegistryState, h: seq<Happening>) {
    HoldsValues(r, h) && HoldsSystems(r, h) && HoldsObjects(r, h) && HoldsInstructions(r, h)
  }

  /** A table after at most one more change. */
  function Changed<K(==), V>(v: seq<Entry<K, V>>, said: seq<Change<K, V>>): seq<Entry<K, V>>
    requires |said| <= 1
  {
    if said == [] then v else AfterChange(v, said[0])
  }

  lemma {:induction false} OneMoreChange<K, V>(changes: seq<Change<K, V>>, more: seq<Change<K, V>>)
    requires |more| <= 1
    ensures AfterChanges(changes + more) == Changed(AfterChanges(changes), more)
  {
    if more == [] {
      assert changes + more == changes;
    } else {
      assert (changes + more)[..|changes|] == changes;
    }
  }

  /** What one happening does to a registry, its queue aside. */
  function Did(r: RegistryState, x: Happening): RegistryState {
    match x
    case Heard(m) => Note(r, m)
    case TookEffect(m) => Applied(r, m)
    case Gone(target) => Withdrawn(r, target)
  }

  lemma {:induction false} ValuesFollow(r: RegistryState, h: seq<Happening>, x: Happening)
    requires HoldsValues(r, h) && (x.TookEffect? ==> !x.m.RevokeObject?)
    ensures HoldsValues(Did(r, x), h + [x])
  {
    hide Upsert, RemoveKey, DropQueued;
    assert (h + [x])[..|h|] == h;
  }

  lemma {:induction false} DescriptionsFollow(r: RegistryState, h: seq<Happening>, x: Happening)
    requires HoldsSystems(r, h) && (x.TookEffect? ==> !x.m.RevokeObject?)
    ensures forall s: SystemKind :: s in Did(r, x).live <==> InForce(h + [x], s).Some?
    ensures forall s: SystemKind :: s in Did(r, x).live ==> Some(Did(r, x).live[s]) == InForce(h + [x], s)
  {
    hide Upsert, RemoveKey, DropQueued, AfterChanges, Modes, Timers;
    assert (h + [x])[..|h|] == h && (h + [x])[|h|] == x;
  }

  lemma {:induction false} ForgettingFollows(r: RegistryState, h: seq<Happening>, x: Happening)
    requires HoldsSystems(r, h) && (x.TookEffect? ==> !x.m.RevokeObject?)
    ensures Did(r, x).activeModes == Changed(r.activeModes, OfModes(h, x))
    ensures Did(r, x).timers == Changed(r.timers, OfTimers(h, x))
  {
    hide Upsert, RemoveKey, DropQueued, AfterChanges, Modes, Timers, InForce;
  }

  lemma {:induction false} ModesFollow(r: RegistryState, h: seq<Happening>, x: Happening)
    requires HoldsSystems(r, h) && (x.TookEffect? ==> !x.m.RevokeObject?)
    ensures Did(r, x).activeModes == AfterChanges(Modes(h + [x]))
  {
    assert r.activeModes == AfterChanges(Modes(h));
    ForgettingFollows(r, h, x);
    assert Modes(h + [x]) == Modes(h) + OfModes(h, x) by { assert (h + [x])[..|h|] == h; }
    hide *;
    OneMoreChange(Modes(h), OfModes(h, x));
  }

  lemma {:induction false} TimersFollow(r: RegistryState, h: seq<Happening>, x: Happening)
    requires HoldsSystems(r, h) && (x.TookEffect? ==> !x.m.RevokeObject?)
    ensures Did(r, x).timers == AfterChanges(Timers(h + [x]))
  {
    assert r.timers == AfterChanges(Timers(h));
    ForgettingFollows(r, h, x);
    assert Timers(h + [x]) == Timers(h) + OfTimers(h, x) by { assert (h + [x])[..|h|] == h; }
    hide *;
    OneMoreChange(Timers(h), OfTimers(h, x));
  }

  lemma {:induction false} SystemsFollow(r: RegistryState, h: seq<Happening>, x: Happening)
    requires HoldsSystems(r, h) && (x.TookEffect? ==> !x.m.RevokeObject?)
    ensures HoldsSystems(Did(r, x), h + [x])
  {
    DescriptionsFollow(r, h, x);
    ModesFollow(r, h, x);
    TimersFollow(r, h, x);
    hide Did, AfterChanges, InForce, Modes, Timers;
  }

  lemma {:induction false} ObjectsFollow(r: RegistryState, h: seq<Happening>, x: Happening)
    requires HoldsObjects(r, h) && (x.TookEffect? ==> !x.m.RevokeObject?)
    ensures HoldsObjects(Did(r, x), h + [x])
  {
    hide Upsert, RemoveKey, DropQueued, AfterChanges;
    OneMoreChange(Published(h), OfPublished(x));
    OneMoreChange(Objects(h, PowerConstraints), OfObjects(PowerConstraints, x));
    OneMoreChange(Objects(h, EnergyConstraint), OfObjects(EnergyConstraint, x));
    OneMoreChange(Objects(h, PowerProfile), OfObjects(PowerProfile, x));
    assert (h + [x])[..|h|] == h && (h + [x])[|h|] == x;
  }

  lemma {:induction false} InstructionsFollow(r: RegistryState, h: seq<Happening>, x: Happening)
    requires HoldsInstructions(r, h) && (x.TookEffect? ==> !x.m.RevokeObject?)
    ensures HoldsInstructions(Did(r, x), h + [x])
  {
    hide Upsert, RemoveKey, DropQueued, AfterChanges;
    OneMoreChange(Statuses(h), OfStatuses(x));
    OneMoreChange(Instructions(h), OfInstructions(x));
    OneMoreChange(Carriers(h), OfCarriers(x));
    assert (h + [x])[..|h|] == h && (h + [x])[|h|] == x;
  }

  lemma {:induction false} Follows(r: RegistryState, h: seq<Happening>, x: Happening)
    requires Holds(r, h) && (x.TookEffect? ==> !x.m.RevokeObject?)
    ensures Holds(Did(r, x), h + [x])
  {
    hide Did, HoldsValues, HoldsSystems, HoldsObjects, HoldsInstructions;
    ValuesFollow(r, h, x);
    SystemsFollow(r, h, x);
    ObjectsFollow(r, h, x);
    InstructionsFollow(r, h, x);
  }

  lemma {:induction false} EffectFollows(r: RegistryState, h: seq<Happening>, m: Message)
    requires Holds(r, h)
    ensures Holds(Applied(r, m), h + [InEffect(m)])
  {
    hide Holds, Withdrawn;
    Follows(r, h, InEffect(m));
  }

  lemma {:induction false} EffectsFollow(r: RegistryState, h: seq<Happening>, ms: seq<Message>)
    requires Holds(r, h)
    ensures Holds(ApplyAll(r, ms), h + AllInEffect(ms))
  {
    hide Holds, Applied, InEffect;
    if ms == [] {
      assert h + [] == h;
    } else {
      var n := |ms| - 1;
      EffectsFollow(r, h, ms[..n]);
      EffectFollows(ApplyAll(r, ms[..n]), h + AllInEffect(ms[..n]), ms[n]);
      assert h + AllInEffect(ms) == h + AllInEffect(ms[..n]) + [InEffect(ms[n])];
    }
  }

  /** The queue is not part of what is looked up. */
  lemma {:induction false} TheQueueIsApart(r: RegistryState, q: seq<Queued>, h: seq<Happening>)
    requires Holds(r, h)
    ensures Holds(r.(scheduled := q), h)
  {
    hide AfterChanges, Modes, Timers, Statuses, Objects, Published, Instructions, Carriers, InForce;
  }

  lemma {:induction false} OperationFollows(r: RegistryState, h: seq<Happening>, op: Op)
    requires Holds(r, h)
    ensures Holds(Step(r, op), h + Brought(r, op))
  {
    hide Holds, Note, Applied, Withdrawn, ApplyAll, AllInEffect, InEffect, Enqueue;
    match op
    case DoRecord(m, now) =>
      NotingFollows(r, h, m);
      if m.SystemDescription? && now.Before(m.validFrom) {
        var r1 := Note(r, m);
        TheQueueIsApart(r1, Enqueue(r1.scheduled, Queued(m.validFrom, m)), h + [Heard(m)]);
        assert h + ([Heard(m)] + []) == h + [Heard(m)];
      } else {
        EffectFollows(Note(r, m), h + [Heard(m)], m);
        assert h + ([Heard(m)] + [InEffect(m)]) == h + [Heard(m)] + [InEffect(m)];
      }
    case DoActivate(now) =>
      TheQueueIsApart(r, NotYetDue(r.scheduled, now), h);
      EffectsFollow(r.(scheduled := NotYetDue(r.scheduled, now)), h, DueMessages(r.scheduled, now));
    case DoRevoke(target) => WithdrawingFollows(r, h, target);
  }

  lemma {:induction false} NotingFollows(r: RegistryState, h: seq<Happening>, m: Message)
    requires Holds(r, h)
    ensures Holds(Note(r, m), h + [Heard(m)])
  {
    hide Holds, Note;
    Follows(r, h, Heard(m));
  }

  lemma {:induction false} WithdrawingFollows(r: RegistryState, h: seq<Happening>, target: Revokable)
    requires Holds(r, h)
    ensures Holds(Withdrawn(r, target), h + [Gone(target)])
  {
    hide Holds, Withdrawn;
    Follows(r, h, Gone(target));
  }

  /** After any run a registry holds what was last said of each thing and not withdrawn since. */
  lemma {:induction false} TheRegistryHoldsWhatHappened(ops: seq<Op>)
    ensures Holds(Run(EMPTY, ops), Happenings(ops))
  {
    if ops == [] {
      EmptyHoldsNothing();
    } else {
      hide Holds, Step, Brought;
      var n := |ops| - 1;
      TheRegistryHoldsWhatHappened(ops[..n]);
      OperationFollows(Run(EMPTY, ops[..n]), Happenings(ops[..n]), ops[n]);
    }
  }

  lemma {:induction false} EmptyHoldsNothing()
    ensures Holds(EMPTY, [])
  {
  }

  // -------------------------------------------------------------------------
  // What a look-up finds
  // -------------------------------------------------------------------------

  /** A look-up finds the last thing said of its key; it can miss it only in a table that more than
      4096 keys have been put into since it was last empty. */
  ghost predicate FindsTheLatest<K, V>(table: seq<Entry<K, V>>, changes: seq<Change<K, V>>, key: K) {
    Found(table, key) == Latest(changes, key) || (Found(table, key).None? && |KeysPut(changes)| > 4096)
  }

  /** The mode of an actuator, and when one of its timers finishes, as last said since the description in
      force came into force. */
  lemma {:induction false} ActuatorsAreFound(ops: seq<Op>, actuator: Id, timer: TimerKey)
    ensures var r, h := Run(EMPTY, ops), Happenings(ops);
      FindsTheLatest(r.activeModes, Modes(h), actuator) && FindsTheLatest(r.timers, Timers(h), timer)
  {
    TheRegistryHoldsWhatHappened(ops);
    TheLatestIsFound(Modes(Happenings(ops)), actuator);
    TheLatestIsFound(Timers(Happenings(ops)), timer);
    hide AfterChanges, Run, Happenings, HoldsObjects, HoldsInstructions;
  }

  /** An object is found as last published, and not at all once withdrawn. */
  lemma {:induction false} ObjectsAreFound(ops: seq<Op>, id: Id, target: Revokable)
    ensures var r, h := Run(EMPTY, ops), Happenings(ops);
      && FindsTheLatest(r.constraints, Objects(h, PowerConstraints), id)
      && FindsTheLatest(r.energy, Objects(h, EnergyConstraint), id)
      && FindsTheLatest(r.profiles, Objects(h, PowerProfile), id)
      && FindsTheLatest(r.published, Published(h), target)
  {
    TheRegistryHoldsWhatHappened(ops);
    var h := Happenings(ops);
    TheLatestIsFound(Objects(h, PowerConstraints), id);
    TheLatestIsFound(Objects(h, EnergyConstraint), id);
    TheLatestIsFound(Objects(h, PowerProfile), id);
    TheLatestIsFound(Published(h), target);
    hide AfterChanges, Run, Happenings, HoldsSystems, HoldsInstructions;
  }

  /** What is known of an instruction is what was last said of it, and `Revoked` once it is withdrawn. */
  lemma {:induction false} InstructionsAreFound(ops: seq<Op>, id: Id)
    ensures var r, h := Run(EMPTY, ops), Happenings(ops);
      && FindsTheLatest(r.instructionStatuses, Statuses(h), id)
      && FindsTheLatest(r.instructions, Instructions(h), id)
      && FindsTheLatest(r.instructionMessages, Carriers(h), id)
  {
    TheRegistryHoldsWhatHappened(ops);
    var h := Happenings(ops);
    TheLatestIsFound(Statuses(h), id);
    TheLatestIsFound(Instructions(h), id);
    TheLatestIsFound(Carriers(h), id);
    hide AfterChanges, Run, Happenings, HoldsSystems, HoldsObjects;
  }

  /** The description in force is the last to come into force and not withdrawn since; the details and
      the fill level are the last heard. */
  lemma {:induction false} TheLastDescriptionIsInForce(ops: seq<Op>, s: SystemKind)
    ensures var r, h := Run(EMPTY, ops), Happenings(ops);
      && (if s in r.live then InForce(h, s) == Some(r.live[s]) else InForce(h, s).None?)
      && r.details == LastDetails(h) && r.fillLevel == LastFillLevel(h)
  {
    TheRegistryHoldsWhatHappened(ops);
    hide AfterChanges, Run, Happenings, HoldsObjects, HoldsInstructions, InForce;
  }

  // -------------------------------------------------------------------------
  // What waits to come into force
  // -------------------------------------------------------------------------

  /** The entry was announced, and since then neither announced anew, nor withdrawn, nor due. */
  predicate IsStillAnnounced(ops: seq<Op>, e: Queued) {
    if ops == [] then false
    else
      var front := ops[..|ops| - 1];
      match ops[|ops| - 1]
      case DoRecord(m, now) =>
        if m.SystemDescription? && now.Before(m.validFrom) && m.RevokableId() == e.message.RevokableId()
        then e == Queued(m.validFrom, m)
        else !(m.RevokeObject? && Some(m.target) == e.message.RevokableId()) && IsStillAnnounced(front, e)
      case DoActivate(now) => !e.at.AtMost(now) && IsStillAnnounced(front, e)
      case DoRevoke(target) => Some(target) != e.message.RevokableId() && IsStillAnnounced(front, e)
  }

  /** Announcing puts the entry in, in the place of any of the same identity. */
  lemma {:induction false} EnqueuedAre(q: seq<Queued>, e: Queued)
    requires QueueWellFormed(q)
    ensures forall x <- Enqueue(q, e) :: x == e || (x in q && x.message.RevokableId() != e.message.RevokableId())
    ensures (exists x <- q :: x.message.RevokableId() == e.message.RevokableId()) ==>
      forall x :: x in Enqueue(q, e) <==> x == e || (x in q && x.message.RevokableId() != e.message.RevokableId())
  {
    var i := QueuedAt(q, e.message.RevokableId());
    if i < |q| {
      var r := q[i := e];
      assert r[i] == e && forall j :: 0 <= j < |q| && j != i ==> r[j] == q[j];
      forall x | x in q && x.message.RevokableId() != e.message.RevokableId() ensures x in r {
        var j :| 0 <= j < |q| && q[j] == x;
        assert r[j] == x;
      }
    } else {
      EvictedWereQueued(q + [e]);
    }
  }

  lemma {:induction false} AppliedQueue(r: RegistryState, m: Message)
    ensures Applied(r, m).scheduled == if m.RevokeObject? then DropQueued(r.scheduled, m.target) else r.scheduled
    ensures Note(r, m).scheduled == r.scheduled
  {
    hide Upsert, RemoveKey, DropQueued;
  }

  lemma {:induction false} ActivatedQueue(r: RegistryState, ms: seq<Message>)
    requires forall m <- ms :: m.SystemDescription?
    ensures ApplyAll(r, ms).scheduled == r.scheduled
  {
    if ms != [] {
      assert ms[|ms| - 1] in ms && forall m <- ms[..|ms| - 1] :: m in ms;
      ActivatedQueue(r, ms[..|ms| - 1]);
      AppliedQueue(ApplyAll(r, ms[..|ms| - 1]), ms[|ms| - 1]);
    }
    hide Applied;
  }

  lemma {:induction false} OneStepQueue(r: RegistryState, op: Op, e: Queued)
    requires Bounded(r) && e in Step(r, op).scheduled
    ensures match op
            case DoRecord(m, now) =>
              if m.SystemDescription? && now.Before(m.validFrom) && m.RevokableId() == e.message.RevokableId()
              then e == Queued(m.validFrom, m)
              else e in r.scheduled && !(m.RevokeObject? && Some(m.target) == e.message.RevokableId())
            case DoActivate(now) => e in r.scheduled && !e.at.AtMost(now)
            case DoRevoke(target) => e in r.scheduled && Some(target) != e.message.RevokableId()
  {
    hide Note, Applied, ApplyAll, DropQueued, Enqueue, NotYetDue, DueMessages, IsTable, Upsert, RemoveKey;
    match op
    case DoRecord(m, now) =>
      AppliedQueue(r, m);
      AppliedQueue(Note(r, m), m);
      if Premature(m, now) {
        EnqueuedAre(r.scheduled, Queued(m.validFrom, m));
      } else if m.RevokeObject? {
        DropKeepsQueue(r.scheduled, m.target);
      }
    case DoActivate(now) =>
      DueWereQueued(r.scheduled, now);
      ActivatedQueue(r.(scheduled := NotYetDue(r.scheduled, now)), DueMessages(r.scheduled, now));
    case DoRevoke(target) => DropKeepsQueue(r.scheduled, target);
  }

  /** Whatever waits is the last announcement under its identifier, neither withdrawn nor due since. */
  lemma {:induction false} WhatWaitsIsTheLastAnnounced(ops: seq<Op>, e: Queued)
    requires e in Run(EMPTY, ops).scheduled
    ensures IsStillAnnounced(ops, e)
  {
    hide Step, Bounded;
    if ops != [] {
      var front := ops[..|ops| - 1];
      TablesStayBounded(front);
      OneStepQueue(Run(EMPTY, front), ops[|ops| - 1], e);
      if e in Run(EMPTY, front).scheduled { WhatWaitsIsTheLastAnnounced(front, e); }
    }
  }
}
