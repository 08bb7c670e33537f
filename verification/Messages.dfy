/** Every S2 message, its kind, and the identifiers it carries. */
module Messages {
  import opened Ids
  import opened Time

  datatype ControlType = Pebc | Ppbc | Ombc | Frbc | Ddbc | NotControllable | NoSelection {
    predicate IsControllable() { !NotControllable? && !NoSelection? }
  }

  datatype WireProfile = V1_0_0 | V0_0_2Beta

  datatype Status = Ok | InvalidData | InvalidMessage | InvalidContent | TemporaryError | PermanentError

  datatype Consequence = Proceed | Ignored | Retry | Disconnect

  function ConsequenceOf(s: Status): Consequence {
    match s
    case Ok => Proceed
    case InvalidData | InvalidMessage | InvalidContent => Ignored
    case TemporaryError => Retry
    case PermanentError => Disconnect
  }

  datatype SessionRequestType = Reconnect | Terminate

  datatype InstructionStatus = New | Accepted | Rejected | Revoked | Started | Succeeded | Aborted

  datatype InstructionKind =
    | PebcInstr | PpbcSchedule | PpbcStartInterruption | PpbcEndInterruption | OmbcInstr | FrbcInstr | DdbcInstr

  /** The control types whose system description has no identifier but its message's. */
  datatype SystemKind = OmbcSystem | FrbcSystem | DdbcSystem

  /** The objects a resource publishes under an identifier of their own. */
  datatype ObjectKind = PowerConstraints | EnergyConstraint | PowerProfile

  datatype RevokableKind = Object(what: ObjectKind) | System(system: SystemKind) | Instr(instruction: InstructionKind)

  datatype Revokable = Revokable(kind: RevokableKind, id: Id)

  /** Messages nothing in the session reads beyond their kind. */
  datatype PlainKind =
    | PowerMeasurement | PowerForecast | PpbcPowerProfileStatus | FrbcLeakageBehaviour | FrbcUsageForecast
    | FrbcFillLevelTargetProfile | DdbcAverageDemandRateForecast | DdbcPresentDemandStatus

  datatype ActuatorKind = FrbcActuator | DdbcActuator

  datatype TimerKind = OmbcTimer | FrbcTimer | DdbcTimer

  datatype MessageKind =
    | KHandshake | KHandshakeResponse | KDetails | KSelectControlType | KSessionRequest | KReceptionStatus
    | KInstructionStatusUpdate | KRevokeObject
    | KPublish(what: ObjectKind) | KSystem(system: SystemKind) | KInstruction(instruction: InstructionKind)
    | KStorageStatus | KActuatorStatus(actuator: ActuatorKind) | KOmbcStatus | KTimerStatus(timer: TimerKind)
    | KPlain(plain: PlainKind)
  {
    /** The control type this message belongs to, if any. */
    function ControlTypeOf(): Option<ControlType> {
      match this
      case KPublish(o) => Some(if o.PowerProfile? then Ppbc else Pebc)
      case KSystem(s) => Some(match s case OmbcSystem => Ombc case FrbcSystem => Frbc case DdbcSystem => Ddbc)
      case KInstruction(i) =>
        Some(match i
             case PebcInstr => Pebc
             case PpbcSchedule | PpbcStartInterruption | PpbcEndInterruption => Ppbc
             case OmbcInstr => Ombc
             case FrbcInstr => Frbc
             case DdbcInstr => Ddbc)
      case KStorageStatus => Some(Frbc)
      case KActuatorStatus(a) => Some(if a.FrbcActuator? then Frbc else Ddbc)
      case KOmbcStatus => Some(Ombc)
      case KTimerStatus(t) => Some(match t case OmbcTimer => Ombc case FrbcTimer => Frbc case DdbcTimer => Ddbc)
      case KPlain(p) =>
        (match p
         case PpbcPowerProfileStatus => Some(Ppbc)
         case FrbcLeakageBehaviour | FrbcUsageForecast | FrbcFillLevelTargetProfile => Some(Frbc)
         case DdbcAverageDemandRateForecast | DdbcPresentDemandStatus => Some(Ddbc)
         case PowerMeasurement | PowerForecast => None)
      case _ => None
    }

    predicate IsInstruction() { KInstruction? }

    /** Which role sends this message; both may send the ones that answer `None`. */
    function Sender(): Option<Role> {
      match this
      case KSelectControlType | KHandshakeResponse => Some(Cem)
      case KInstruction(_) => Some(Cem)
      case KSessionRequest | KReceptionStatus | KHandshake | KRevokeObject => None
      case _ => Some(Rm)
    }

    predicate ExistsIn(profile: WireProfile) {
      !(this == KPlain(DdbcPresentDemandStatus) && profile == V0_0_2Beta)
    }
  }

  /** A protocol version as it is written, with the optional leading `v`. */
  type Version = string

  function Canonical(v: Version): string {
    if |v| > 0 && v[0] == 'v' then v[1..] else v
  }

  predicate Matches(a: Version, b: Version) { Canonical(a) == Canonical(b) }

  function ProfileOf(v: Version): Option<WireProfile> {
    if Canonical(v) == "1.0.0" then Some(V1_0_0)
    else if Canonical(v) == "0.0.2-beta" then Some(V0_0_2Beta)
    else None
  }

  function VersionOf(p: WireProfile): Version {
    if p == V1_0_0 then "1.0.0" else "0.0.2-beta"
  }

  datatype Message =
    | Handshake(id: Id, role: Role, versions: Option<seq<Version>>)
    | HandshakeResponse(id: Id, selected: Version)
    | Details(id: Id, details: Body)
    | SelectControlType(id: Id, controlType: ControlType)
    | SessionRequest(id: Id, request: SessionRequestType)
    | ReceptionStatus(subject: Id, status: Status)
    | InstructionStatusUpdate(id: Id, instruction: Id, update: InstructionStatus)
    | RevokeObject(id: Id, target: Revokable)
    | Publish(id: Id, what: ObjectKind, objectId: Id, body: Body)
    | SystemDescription(id: Id, system: SystemKind, validFrom: Timestamp, body: Body)
    | Instruction(id: Id, instr: InstructionKind, instructionId: Id, body: Body)
    | StorageStatus(id: Id, fillLevel: Body)
    | ActuatorStatus(id: Id, actuatorKind: ActuatorKind, actuator: Id, mode: Id)
    | OmbcStatus(id: Id, mode: Id)
    | TimerStatus(id: Id, timerKind: TimerKind, actuator: Id, timer: Id, finishedAt: Timestamp)
    | Plain(id: Id, plain: PlainKind, body: Body)
  {
    function Kind(): MessageKind {
      match this
      case Handshake(_, _, _) => KHandshake
      case HandshakeResponse(_, _) => KHandshakeResponse
      case Details(_, _) => KDetails
      case SelectControlType(_, _) => KSelectControlType
      case SessionRequest(_, _) => KSessionRequest
      case ReceptionStatus(_, _) => KReceptionStatus
      case InstructionStatusUpdate(_, _, _) => KInstructionStatusUpdate
      case RevokeObject(_, _) => KRevokeObject
      case Publish(_, o, _, _) => KPublish(o)
      case SystemDescription(_, s, _, _) => KSystem(s)
      case Instruction(_, i, _, _) => KInstruction(i)
      case StorageStatus(_, _) => KStorageStatus
      case ActuatorStatus(_, a, _, _) => KActuatorStatus(a)
      case OmbcStatus(_, _) => KOmbcStatus
      case TimerStatus(_, t, _, _, _) => KTimerStatus(t)
      case Plain(_, p, _) => KPlain(p)
    }

    /** This message's own identifier; a `ReceptionStatus` has none. */
    function MessageId(): Option<Id> {
      if ReceptionStatus? then None else Some(id)
    }

    /** The instruction's own identifier, which is not the `message_id`. */
    function InstructionId(): Option<Id> {
      if Instruction? then Some(instructionId) else None
    }

    /** What a `RevokeObject` could later name to withdraw this message's object. */
    function RevokableId(): Option<Revokable> {
      match this
      case Publish(_, o, oid, _) => Some(Revokable(Object(o), oid))
      case Instruction(_, i, iid, _) => Some(Revokable(Instr(i), iid))
      case SystemDescription(mid, s, _, _) => Some(Revokable(System(s), mid))
      case _ => None
    }
  }

  /** Matching is an equivalence, and matching versions select the same wire. */
  lemma {:induction false} MatchesIsAnEquivalence(a: Version, b: Version, c: Version)
    ensures Matches(a, a)
    ensures Matches(a, b) <==> Matches(b, a)
    ensures Matches(a, b) && Matches(b, c) ==> Matches(a, c)
    ensures Matches(a, b) ==> ProfileOf(a) == ProfileOf(b)
  {
  }

  /** A spelling without a leading `v` matches exactly itself and itself with one. */
  lemma {:induction false} MatchesOf(a: Version, b: Version)
    requires |a| == 0 || a[0] != 'v'
    ensures Matches(a, b) <==> b == a || b == "v" + a
  {
    if Matches(a, b) && b != a {
      assert b == [b[0]] + b[1..];
    }
  }

  /** A profile is what exactly two spellings select. */
  lemma {:induction false} ProfileVersions(p: WireProfile, v: Version)
    ensures ProfileOf(v) == Some(p) <==> v == VersionOf(p) || v == "v" + VersionOf(p)
    ensures VersionOf(V1_0_0) == "1.0.0" && VersionOf(V0_0_2Beta) == "0.0.2-beta"
  {
    assert Canonical("v" + VersionOf(p)) == VersionOf(p);
    if v != [] && v[0] == 'v' { assert v == "v" + v[1..]; }
  }

  /** What a status asks of the sender: only a permanent error ends the session. */
  lemma {:induction false} OnlyPermanentErrorsDisconnect(s: Status)
    ensures ConsequenceOf(s).Disconnect? <==> s == PermanentError
    ensures ConsequenceOf(s).Retry? <==> s == TemporaryError
    ensures ConsequenceOf(s).Proceed? <==> s == Ok
  {
  }

  /** Which kinds belong to which control type; the remaining ones belong to none. */
  lemma {:induction false} TheKindsOfAControlType(kind: MessageKind)
    ensures kind.ControlTypeOf() == Some(Pebc) <==>
      kind in {KPublish(PowerConstraints), KPublish(EnergyConstraint), KInstruction(PebcInstr)}
    ensures kind.ControlTypeOf() == Some(Ppbc) <==>
      kind in {KPublish(PowerProfile), KPlain(PpbcPowerProfileStatus), KInstruction(PpbcSchedule),
               KInstruction(PpbcStartInterruption), KInstruction(PpbcEndInterruption)}
    ensures kind.ControlTypeOf() == Some(Ombc) <==>
      kind in {KSystem(OmbcSystem), KOmbcStatus, KTimerStatus(OmbcTimer), KInstruction(OmbcInstr)}
    ensures kind.ControlTypeOf() == Some(Frbc) <==>
      kind in {KSystem(FrbcSystem), KStorageStatus, KActuatorStatus(FrbcActuator), KTimerStatus(FrbcTimer),
               KPlain(FrbcLeakageBehaviour), KPlain(FrbcUsageForecast), KPlain(FrbcFillLevelTargetProfile),
               KInstruction(FrbcInstr)}
    ensures kind.ControlTypeOf() == Some(Ddbc) <==>
      kind in {KSystem(DdbcSystem), KActuatorStatus(DdbcActuator), KTimerStatus(DdbcTimer),
               KPlain(DdbcAverageDemandRateForecast), KPlain(DdbcPresentDemandStatus), KInstruction(DdbcInstr)}
    ensures kind.ControlTypeOf() != Some(NotControllable) && kind.ControlTypeOf() != Some(NoSelection)
  {
  }

  /** One kind is missing from the beta wire, and none from the other. */
  lemma {:induction false} TheWiresDiffer(kind: MessageKind, profile: WireProfile)
    ensures kind.ExistsIn(profile) <==> profile == V1_0_0 || kind != KPlain(DdbcPresentDemandStatus)
  {
  }
}

/** The normative table of what may be sent when. */
module StateTable {
  import opened Ids
  import opened Time
  import opened Messages

  datatype Allowance = Yes | WrongState | WrongRole

  datatype Phase = Negotiating | Connected | Activated(controlType: ControlType) {
    function Active(): Option<ControlType> {
      match this
      case Activated(c) => Some(c)
      case _ => None
    }
  }

  function Selected(c: ControlType): Phase {
    if c.IsControllable() then Activated(c) else Connected
  }

  /** Whether `sender` may send `kind` while the session is in `phase`. */
  function Allowed(phase: Phase, sender: Role, kind: MessageKind): Allowance {
    if kind.Sender().Some? && kind.Sender().value != sender then WrongRole
    else
      match kind
      case KReceptionStatus | KSessionRequest => Yes
      case KHandshake | KHandshakeResponse => if phase.Activated? then WrongState else Yes
      case _ =>
        if phase == Negotiating then WrongState
        else
          match kind
          case KDetails | KSelectControlType => Yes
          case KPlain(PowerMeasurement) | KPlain(PowerForecast) => Yes
          case KInstructionStatusUpdate | KRevokeObject => if phase.Active().Some? then Yes else WrongState
          case _ =>
            if kind.ControlTypeOf().Some? && kind.ControlTypeOf() == phase.Active() then Yes else WrongState
  }

  predicate MaySend(phase: Phase, sender: Role, kind: MessageKind) { Allowed(phase, sender, kind) == Yes }

  /** The row of one control type, read column by column as the standard's table gives it. */
  lemma {:induction false} TheRowOfAControlType(c: ControlType, kind: MessageKind)
    requires c.IsControllable()
    ensures MaySend(Activated(c), Cem, kind) <==>
      kind in {KReceptionStatus, KSessionRequest, KSelectControlType, KRevokeObject}
      || (kind.IsInstruction() && kind.ControlTypeOf() == Some(c))
    ensures MaySend(Activated(c), Rm, kind) <==>
      kind in {KReceptionStatus, KSessionRequest, KRevokeObject, KDetails, KInstructionStatusUpdate,
               KPlain(PowerMeasurement), KPlain(PowerForecast)}
      || (!kind.IsInstruction() && kind.ControlTypeOf() == Some(c))
  {
  }

  /** The row before a version is agreed. */
  lemma {:induction false} TheRowWhileNegotiating(kind: MessageKind)
    ensures MaySend(Negotiating, Rm, kind) <==> kind in {KReceptionStatus, KSessionRequest, KHandshake}
    ensures MaySend(Negotiating, Cem, kind) <==>
      kind in {KReceptionStatus, KSessionRequest, KHandshake, KHandshakeResponse}
  {
  }

  /** The row of a session with no control type to be instructed under, which is also where a
      deselection and a selection of `NotControllable` lead. */
  lemma {:induction false} TheRowWithoutAControlType(kind: MessageKind)
    ensures MaySend(Connected, Rm, kind) <==>
      kind in {KReceptionStatus, KSessionRequest, KHandshake, KDetails, KPlain(PowerMeasurement), KPlain(PowerForecast)}
    ensures MaySend(Connected, Cem, kind) <==>
      kind in {KReceptionStatus, KSessionRequest, KHandshake, KHandshakeResponse, KSelectControlType}
    ensures Selected(NoSelection) == Connected == Selected(NotControllable)
    ensures forall c: ControlType :: c.IsControllable() ==> Selected(c) == Activated(c)
  {
  }

  /** Which role a kind is reserved for; only a breach of that is a wrong role. */
  lemma {:induction false} TheRolesAreKept(phase: Phase, sender: Role, kind: MessageKind)
    ensures Allowed(phase, sender, kind) == WrongRole <==>
      if sender == Rm then kind in {KSelectControlType, KHandshakeResponse} || kind.KInstruction?
      else
        kind !in {KSelectControlType, KHandshakeResponse, KSessionRequest, KReceptionStatus, KHandshake, KRevokeObject}
        && !kind.KInstruction?
  {
  }

  /** No control-type message crosses unless exactly its control type is active, and nothing
      but the handshake, a session request or an answer crosses before a version is agreed. */
  lemma {:induction false} TheTableSeparatesPhases(phase: Phase, sender: Role, kind: MessageKind)
    ensures MaySend(phase, sender, kind) && kind.ControlTypeOf().Some? ==>
      phase == Activated(kind.ControlTypeOf().value)
    ensures MaySend(Negotiating, sender, kind) ==>
      kind in {KHandshake, KHandshakeResponse, KSessionRequest, KReceptionStatus}
    ensures MaySend(Negotiating, sender, kind) ==> MaySend(Connected, sender, kind)
  {
  }
}
