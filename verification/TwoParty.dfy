/** Both engines joined by two reliable queues, and what every run of the pair keeps. */
module TwoParty {
  import opened Ids
  import opened Time
  import opened Messages
  import opened Ledger
  import opened Session
  import opened SessionRuns
  import opened Exchange
  import RmEngine
  import CemEngine
  import StateTable

  /** Each side's outbox is the queue towards the other. `clean` marks, message by message,
      what the manager queued while it had no selection pending. */
  datatype World = World(rm: RmEngine.State, cem: CemEngine.State, clean: seq<bool>) {
    function ToManager(): seq<Message> { rm.engine.core.outbox }
    function ToResource(): seq<Message> { cem.engine.core.outbox }
  }

  datatype Action =
    | ToRm(now: Timestamp, v: Verdict)
    | ToCem(now: Timestamp, v: Verdict)
    | AtRm(i: Input)
    | AtCem(i: Input)

  function Popped(e: Engine): Engine
    requires e.core.outbox != []
  {
    e.(core := e.core.(outbox := e.core.outbox[1..]))
  }

  /** One mark for every message queued since. */
  function Marked(clean: seq<bool>, before: CemEngine.State, after: CemEngine.State): seq<bool> {
    var n := |after.engine.core.outbox| - |before.engine.core.outbox|;
    if n < 0 then clean else clean + seq(n, k => before.pendingSelection.None?)
  }

  function Next(w: World, a: Action): World {
    match a
    case ToRm(now, v) =>
      if w.ToResource() == [] then w
      else
        w.(cem := w.cem.(engine := Popped(w.cem.engine)), clean := if w.clean == [] then [] else w.clean[1..],
           rm := RmEngine.HandleFrame(w.rm, Wire(w.ToResource()[0], false), now, v))
    case ToCem(now, v) =>
      if w.ToManager() == [] then w
      else
        var cem := CemEngine.HandleFrame(w.cem, Wire(w.ToManager()[0], false), now, v);
        World(w.rm.(engine := Popped(w.rm.engine)), cem, Marked(w.clean, w.cem, cem))
    case AtRm(i) => w.(rm := RmStep(w.rm, i))
    case AtCem(i) =>
      var cem := CemStep(w.cem, i);
      w.(cem := cem, clean := Marked(w.clean, w.cem, cem))
  }

  function Start(rmConfig: Config, details: Body, cemConfig: Config, rmNow: Timestamp, cemNow: Timestamp): World {
    var cem := CemEngine.Open(CemEngine.Fresh(cemConfig), cemNow);
    World(RmEngine.Open(RmEngine.Fresh(rmConfig, details), rmNow), cem, Marked([], CemEngine.Fresh(cemConfig), cem))
  }

  /** The applications leave the protocol's own messages to the engines, keep one selection live
      at a time and let none expire; the handshake is not refused; and a resource whose policy
      has something to say about a selection refuses it. */
  predicate Behaves(w: World, a: Action) {
    match a
    case AtRm(i) => IsLocal(i)
    case AtCem(i) => IsLocal(i) && KeepsSelection(w.cem, i)
    case ToRm(_, v) =>
      w.ToResource() != [] ==>
        (w.ToResource()[0].HandshakeResponse? ==> !v.errors && v.policy.None?)
        && (w.ToResource()[0].SelectControlType? ==> v.policy != Some(Ok))
    case ToCem(_, _) => true
  }

  function After(w: World, actions: seq<Action>): World {
    if actions == [] then w else Next(After(w, actions[..|actions| - 1]), actions[|actions| - 1])
  }

  predicate AllBehave(w: World, actions: seq<Action>) {
    actions == []
    || (AllBehave(w, actions[..|actions| - 1]) && Behaves(After(w, actions[..|actions| - 1]), actions[|actions| - 1]))
  }

  // -------------------------------------------------------------------------
  // What the manager will believe once it has read its queue
  // -------------------------------------------------------------------------

  /** The state and pending selection after every message of the queue has been read. */
  function Heard(state: SessionState, pending: Option<CemEngine.Selection>, q: seq<Message>)
    : (SessionState, Option<CemEngine.Selection>)
    decreases q
  {
    if q == [] then (state, pending)
    else
      var (s, p) := Resolved(state, pending, q[0]);
      Heard(s, p, q[1..])
  }

  /** Each message of the queue is allowed in the state its turn will find. */
  predicate AllowedAlong(state: SessionState, pending: Option<CemEngine.Selection>, profile: WireProfile,
                         q: seq<Message>)
    decreases q
  {
    q == []
    || (StateTable.MaySend(state.Phase(), Rm, q[0].Kind()) && q[0].Kind().ExistsIn(profile)
        && var (s, p) := Resolved(state, pending, q[0]); AllowedAlong(s, p, profile, q[1..]))
  }

  lemma {:induction false} HeardAppend(state: SessionState, pending: Option<CemEngine.Selection>, q: seq<Message>,
                                       m: Message)
    ensures var (s, p) := Heard(state, pending, q); Heard(state, pending, q + [m]) == Resolved(s, p, m)
    decreases q
  {
    if q == [] {
      assert q + [m] == [m] && [m][1..] == [];
    } else {
      assert (q + [m])[1..] == q[1..] + [m];
      var (s, p) := Resolved(state, pending, q[0]);
      HeardAppend(s, p, q[1..], m);
    }
  }

  lemma {:induction false} AllowedAppend(state: SessionState, pending: Option<CemEngine.Selection>,
                                         profile: WireProfile,
                                         q: seq<Message>, m: Message)
    requires AllowedAlong(state, pending, profile, q) && m.Kind().ExistsIn(profile)
    requires StateTable.MaySend(Heard(state, pending, q).0.Phase(), Rm, m.Kind())
    ensures AllowedAlong(state, pending, profile, q + [m])
    decreases q
  {
    hide StateTable.MaySend;
    if q == [] {
      assert q + [m] == [m] && [m][1..] == [];
    } else {
      assert (q + [m])[1..] == q[1..] + [m];
      var (s, p) := Resolved(state, pending, q[0]);
      AllowedAppend(s, p, profile, q[1..], m);
    }
  }

  /** A selection nothing in the queue answers changes nothing the queue leads to. */
  lemma {:induction false} NotYetAnswered(state: SessionState, sel: CemEngine.Selection, profile: WireProfile,
                                          q: seq<Message>)
    requires forall m <- q :: m.ReceptionStatus? ==> m.subject != sel.id
    ensures Heard(state, None, q) == (state, None) && Heard(state, Some(sel), q) == (state, Some(sel))
    ensures AllowedAlong(state, None, profile, q) ==> AllowedAlong(state, Some(sel), profile, q)
  {
    hide StateTable.MaySend;
    if q != [] {
      assert forall m <- q[1..] :: m in q;
      NotYetAnswered(state, sel, profile, q[1..]);
    }
  }

  lemma {:induction false} NothingPending(state: SessionState, q: seq<Message>)
    ensures Heard(state, None, q) == (state, None)
  {
    if q != [] { NothingPending(state, q[1..]); }
  }

  // -------------------------------------------------------------------------
  // The invariant
  // -------------------------------------------------------------------------

  predicate UpTo(id: Id, n: nat) { id.Minted? && id.role == Cem ==> id.n <= n }

  predicate ChangesTheResource(m: Message) { m.HandshakeResponse? || m.SelectControlType? }

  /** No identifier the manager has minted is ahead of its counter, wherever it has got to. */
  ghost predicate Numbered(w: World) {
    var n := w.cem.engine.core.minted;
    && (forall m <- w.ToResource() :: !m.ReceptionStatus? ==> UpTo(m.id, n))
    && (forall m <- w.ToManager() :: m.ReceptionStatus? ==> UpTo(m.subject, n))
    && (forall a <- w.rm.engine.core.acks.answered :: UpTo(a.id, n))
  }

  /** What changes the resource's state is not yet answered, nor behind a namesake. */
  ghost predicate Unanswered(ring: seq<Answer>, q: seq<Message>) {
    forall k :: 0 <= k < |q| && ChangesTheResource(q[k]) ==>
      (forall a <- ring :: a.id != q[k].id) && (forall j :: 0 <= j < k && !q[j].ReceptionStatus? ==> q[j].id != q[k].id)
  }

  predicate OpeningKind(k: MessageKind) { k.KHandshake? || k.KSessionRequest? || k.KReceptionStatus? }

  /** What the manager, while open, is going to hear. */
  ghost predicate ManagerSide(w: World) {
    var s, q := w.cem.engine.core.state, w.ToManager();
    && !s.Idle?
    && (forall k :: 0 < k < |q| ==> !q[k].Handshake?)
    && (q != [] && q[0].Handshake? ==> s.Handshaking? && q[0].versions == Some(w.rm.engine.config.versions))
    && (s.Handshaking? ==> w.cem.pendingSelection.None? && forall m <- q :: OpeningKind(m.Kind()))
    && (!s.Handshaking? ==> AllowedAlong(s, w.cem.pendingSelection, w.cem.engine.core.profile, q))
  }

  predicate HoldsResponse(q: seq<Message>) { exists m <- q :: m.HandshakeResponse? }

  predicate HoldsSelection(q: seq<Message>) { exists m <- q :: m.SelectControlType? }

  /** The resource's state once it has read the handshake's answer, if that is in the queue. */
  function Greeted(s: SessionState, q: seq<Message>): SessionState {
    if s.Handshaking? && HoldsResponse(q) then Connected else s
  }

  ghost predicate AtMostOne(q: seq<Message>) {
    forall i, j :: 0 <= i < j < |q| ==>
      !(q[i].HandshakeResponse? && q[j].HandshakeResponse?) && !(q[i].SelectControlType? && q[j].SelectControlType?)
  }

  /** What the resource, while open, is going to hear. */
  ghost predicate ResourceSide(w: World) {
    var s, q := w.rm.engine.core.state, w.ToResource();
    && !s.Idle? && AtMostOne(q) && Unanswered(w.rm.engine.core.acks.answered, q)
    && (forall m <- q :: m.HandshakeResponse? ==>
          s.Handshaking? && RmEngine.Offered(w.rm.engine.config.versions, m.selected)
          && ProfileOf(m.selected) == Some(w.cem.engine.core.profile) && w.cem.negotiated == Some(m.selected))
    && (!s.Handshaking? ==>
          w.rm.engine.core.profile == w.cem.engine.core.profile && w.rm.negotiated == w.cem.negotiated)
  }

  /** Each marked message of the queue is allowed in the state its turn will find: no selection
      is ahead of it, and all that can change the state before it is the handshake's answer. */
  ghost predicate AllowedInTurn(state: SessionState, q: seq<Message>, marks: seq<bool>)
    requires |marks| == |q|
  {
    forall k :: 0 <= k < |q| && marks[k] && !q[k].ReceptionStatus? ==>
      !HoldsSelection(q[..k]) && StateTable.MaySend(Greeted(state, q[..k]).Phase(), Cem, q[k].Kind())
  }

  /** Everything the manager queued with no selection pending will be allowed when it arrives. */
  ghost predicate CleanAreAllowed(w: World)
    requires |w.clean| == |w.ToResource()|
  {
    AllowedInTurn(w.rm.engine.core.state, w.ToResource(), w.clean)
  }

  lemma {:induction false} OneMoreInTurn(state: SessionState, q: seq<Message>, marks: seq<bool>, m: Message, mark: bool)
    requires |marks| == |q| && AllowedInTurn(state, q, marks)
    requires mark && !m.ReceptionStatus? ==>
      !HoldsSelection(q) && StateTable.MaySend(Greeted(state, q).Phase(), Cem, m.Kind())
    ensures AllowedInTurn(state, q + [m], marks + [mark])
  {
    hide StateTable.MaySend, HoldsSelection, Greeted;
    assert forall k :: 0 <= k <= |q| ==> (q + [m])[..k] == q[..k];
    assert q[..|q|] == q;
  }

  /** The manager, once it has read its queue, is where the resource is. */
  ghost predicate Aligned(w: World) {
    var (state, pending) := Heard(w.cem.engine.core.state, w.cem.pendingSelection, w.ToManager());
    && state == Greeted(w.rm.engine.core.state, w.ToResource())
    && (forall m <- w.ToResource() :: m.SelectControlType? ==>
       pending == Some(CemEngine.Selection(m.id, m.controlType)))
    && (pending.Some? ==> SelectControlType(pending.value.id, pending.value.controlType) in w.ToResource())
  }

  /** The resource never turned down a version, and the manager settled on its first offered one. */
  predicate VersionsSettled(w: World) {
    && (w.rm.engine.IsClosed() ==> !w.rm.engine.core.state.reason.UnsupportedVersion?)
    && (w.cem.engine.config.negotiation.ByHandshake? && w.cem.negotiated.Some? ==>
          w.cem.negotiated == CemEngine.Choose(w.cem.engine.config.versions, w.rm.engine.config.versions))
  }

  ghost predicate Sound(w: World) {
    && w.rm.engine.core.role == Rm && w.cem.engine.core.role == Cem && |w.clean| == |w.ToResource()|
    && Numbered(w) && AwaitsSelection(w.cem) && VersionsSettled(w)
    && (!w.cem.engine.IsClosed() ==> ManagerSide(w))
    && (!w.rm.engine.IsClosed() ==> ResourceSide(w) && CleanAreAllowed(w))
    && (!w.cem.engine.IsClosed() && !w.rm.engine.IsClosed() ==> Aligned(w))
  }

  // -------------------------------------------------------------------------
  // The resource acts
  // -------------------------------------------------------------------------

  lemma {:induction false} NegotiatingIsNarrow(kind: MessageKind, profile: WireProfile)
    requires StateTable.MaySend(StateTable.Negotiating, Rm, kind)
    ensures StateTable.MaySend(StateTable.Connected, Rm, kind)
    ensures OpeningKind(kind) && kind.ExistsIn(profile)
  {
  }

  /** The state the manager will be in when it hears what the resource queues now. */
  lemma {:induction false} WhatMayBeQueued(w: World, kind: MessageKind)
    requires !w.rm.engine.IsClosed() && !w.cem.engine.IsClosed() && ResourceSide(w) && ManagerSide(w) && Aligned(w)
    requires StateTable.MaySend(w.rm.engine.core.state.Phase(), Rm, kind) && kind.ExistsIn(w.rm.engine.core.profile)
    ensures var s := Heard(w.cem.engine.core.state, w.cem.pendingSelection, w.ToManager()).0;
      StateTable.MaySend(s.Phase(), Rm, kind)
    ensures kind.ExistsIn(w.cem.engine.core.profile)
    ensures w.cem.engine.core.state.Handshaking? ==> OpeningKind(kind)
  {
    NothingPending(w.cem.engine.core.state, w.ToManager());
    if w.rm.engine.core.state.Handshaking? { NegotiatingIsNarrow(kind, w.cem.engine.core.profile); }
    hide Heard, StateTable.MaySend, Unanswered, AllowedAlong, AwaitsSelection;
  }

  lemma {:induction false} ManagerWillHear(w: World, w': World, m: Message)
    requires !w.cem.engine.IsClosed() && ManagerSide(w) && w'.cem == w.cem
    requires w'.rm.engine.config == w.rm.engine.config
    requires w'.ToManager() == w.ToManager() + [m] && !m.Handshake?
    requires StateTable.MaySend(Heard(w.cem.engine.core.state, w.cem.pendingSelection, w.ToManager()).0.Phase(), Rm,
      m.Kind())
    requires m.Kind().ExistsIn(w.cem.engine.core.profile)
    requires w.cem.engine.core.state.Handshaking? ==> OpeningKind(m.Kind())
    ensures ManagerSide(w')
  {
    hide StateTable.MaySend, AwaitsSelection;
    var c, q := w.cem.engine.core, w.ToManager();
    if !c.state.Handshaking? {
      AllowedAppend(c.state, w.cem.pendingSelection, c.profile, q, m);
    }
    hide AllowedAlong, Heard;
    assert q == [] ==> (q + [m])[0] == m;
    assert q != [] ==> (q + [m])[0] == q[0];
    forall k | 0 < k < |q + [m]| ensures !(q + [m])[k].Handshake? {
      assert k < |q| ==> (q + [m])[k] == q[k];
    }
  }

  /** The part of the step that concerns nobody's queue but the manager's. */
  lemma {:induction false} ResourceActsElsewhere(w: World, w': World)
    requires Sound(w) && Acts(w.rm.engine, w'.rm.engine) && w' == w.(rm := w.rm.(engine := w'.rm.engine))
    ensures Numbered(w')
    ensures !w'.rm.engine.IsClosed() ==> ResourceSide(w') && CleanAreAllowed(w')
  {
    hide StateTable.MaySend, AllowedAlong, Heard, AwaitsSelection, Unanswered, Introduces, ManagerSide, Aligned;
  }

  lemma {:induction false} ResourceActs(w: World, i: Input)
    requires Sound(w) && IsLocal(i)
    ensures Sound(Next(w, AtRm(i)))
  {
    var w' := Next(w, AtRm(i));
    var a, b := w.rm.engine, w'.rm.engine;
    RmActs(w.rm, i);
    hide RmStep, StateTable.MaySend;
    ResourceActsElsewhere(w, w');
    if b.core.outbox != a.core.outbox {
      var m := b.core.outbox[|b.core.outbox| - 1];
      assert w'.ToManager() == w.ToManager() + [m];
      if !w.cem.engine.IsClosed() {
        WhatMayBeQueued(w, m.Kind());
        ManagerWillHear(w, w', m);
        HeardAppend(w.cem.engine.core.state, w.cem.pendingSelection, w.ToManager(), m);
      }
    }
    hide AllowedAlong, Heard, AwaitsSelection, Unanswered, Numbered, ResourceSide, CleanAreAllowed;
  }

  // -------------------------------------------------------------------------
  // The manager acts
  // -------------------------------------------------------------------------

  /** What an action of the manager's side amounts to. */
  ghost predicate ManagerMoves(w: World, w': World) {
    && Acts(w.cem.engine, w'.cem.engine) && Selects(w.cem, w'.cem) && AwaitsSelection(w'.cem)
    && w' == World(w.rm, w.cem.(engine := w'.cem.engine, pendingSelection := w'.cem.pendingSelection),
                   Marked(w.clean, w.cem, w'.cem))
  }

  ghost predicate Queues(w: World, w': World, m: Message) {
    ManagerMoves(w, w') && w'.ToResource() == w.ToResource() + [m] && Speaks(w.cem.engine, w'.cem.engine, m)
    && Introduces(w.cem.engine, w'.cem.engine, m)
  }

  lemma {:induction false} NothingSelected(w: World)
    requires Sound(w) && !w.rm.engine.IsClosed() && !w.cem.engine.IsClosed() && w.cem.pendingSelection.None?
    ensures !HoldsSelection(w.ToResource())
    ensures Greeted(w.rm.engine.core.state, w.ToResource()) == w.cem.engine.core.state
  {
    NothingPending(w.cem.engine.core.state, w.ToManager());
  }

  lemma {:induction false} QueueingKeepsNumbers(w: World, w': World, m: Message)
    requires Sound(w) && Queues(w, w', m)
    ensures Numbered(w')
    ensures w.rm.engine.IsClosed() || Unanswered(w'.rm.engine.core.acks.answered, w'.ToResource())
  {
    hide StateTable.MaySend, AwaitsSelection, ManagerSide, Aligned, CleanAreAllowed, AtMostOne;
    var q, q' := w.ToResource(), w'.ToResource();
    assert forall k :: 0 <= k < |q| ==> q'[k] == q[k] && q[k] in q;
  }

  /** A message put at the end of a queue, other than a second selection or a response. */
  lemma {:induction false} MessageJoins(q: seq<Message>, m: Message)
    requires AtMostOne(q) && !m.HandshakeResponse? && (m.SelectControlType? ==> !HoldsSelection(q))
    ensures AtMostOne(q + [m])
    ensures forall x <- q + [m] :: x.HandshakeResponse? ==> x in q
  {
    var q' := q + [m];
    assert forall k :: 0 <= k < |q| ==> q'[k] == q[k] && q[k] in q;
    assert q'[|q|] == m;
  }

  lemma {:induction false} QueueingKeepsOrder(w: World, w': World, m: Message)
    requires Sound(w) && Queues(w, w', m) && !w'.rm.engine.IsClosed()
    ensures ResourceSide(w')
  {
    QueueingKeepsNumbers(w, w', m);
    if m.SelectControlType? { NothingSelected(w); }
    MessageJoins(w.ToResource(), m);
    hide StateTable.MaySend, AwaitsSelection, ManagerSide, Aligned, CleanAreAllowed, Unanswered, Numbered,
      VersionsSettled, AtMostOne,
      HoldsSelection, Selects, RmEngine.Offered, ProfileOf;
  }

  lemma {:induction false} QueueingKeepsClean(w: World, w': World, m: Message)
    requires Sound(w) && Queues(w, w', m) && !w'.rm.engine.IsClosed()
    ensures |w'.clean| == |w'.ToResource()| && CleanAreAllowed(w')
  {
    if w.cem.pendingSelection.None? { NothingSelected(w); }
    OneMoreInTurn(w.rm.engine.core.state, w.ToResource(), w.clean, m, w.cem.pendingSelection.None?);
    hide StateTable.MaySend, AwaitsSelection, ManagerSide, Aligned, Numbered, ResourceSide, Introduces, Selects,
      AllowedInTurn;
    assert w'.clean == w.clean + [w.cem.pendingSelection.None?];
  }

  lemma {:induction false} QueueingKeepsAgreement(w: World, w': World, m: Message)
    requires Sound(w) && Queues(w, w', m) && !w'.cem.engine.IsClosed()
    ensures ManagerSide(w')
    ensures !w'.rm.engine.IsClosed() ==> Aligned(w')
  {
    hide StateTable.MaySend, AwaitsSelection, Unanswered, ResourceSide, CleanAreAllowed;
    var c, q := w.cem.engine.core, w.ToManager();
    if m.SelectControlType? {
      assert m.id == Minted(Cem, w'.cem.engine.core.minted);
      NotYetAnswered(c.state, w'.cem.pendingSelection.value, c.profile, q);
      SelectingIsNotOpening(c.state);
      if !w'.rm.engine.IsClosed() { NothingSelected(w); }
    }
    hide Heard, AllowedAlong, Numbered;
    assert forall x <- w'.ToResource() :: x == m || x in w.ToResource();
    assert HoldsResponse(w'.ToResource()) <==> HoldsResponse(w.ToResource());
  }

  lemma {:induction false} SelectingIsNotOpening(s: SessionState)
    ensures StateTable.MaySend(s.Phase(), Cem, KSelectControlType) ==> !s.Handshaking?
  {
  }

  lemma {:induction false} ManagerMovesQuietly(w: World, w': World)
    requires Sound(w) && ManagerMoves(w, w') && w'.ToResource() == w.ToResource()
    ensures Sound(w')
  {
    hide StateTable.MaySend, AwaitsSelection, Unanswered, Heard, AllowedAlong, AtMostOne, Introduces;
    assert w'.clean == w.clean;
  }

  lemma {:induction false} ManagerActs(w: World, i: Input)
    requires Sound(w) && IsLocal(i) && KeepsSelection(w.cem, i)
    ensures Sound(Next(w, AtCem(i)))
  {
    var w' := Next(w, AtCem(i));
    CemActs(w.cem, i);
    hide CemStep, StateTable.MaySend;
    if w'.ToResource() == w.ToResource() {
      ManagerMovesQuietly(w, w');
    } else {
      var m := w'.ToResource()[|w'.ToResource()| - 1];
      assert Queues(w, w', m);
      QueueingKeepsNumbers(w, w', m);
      if !w'.rm.engine.IsClosed() {
        QueueingKeepsOrder(w, w', m);
        QueueingKeepsClean(w, w', m);
      }
      if !w'.cem.engine.IsClosed() { QueueingKeepsAgreement(w, w', m); }
      hide ManagerSide, ResourceSide, CleanAreAllowed, Aligned, Numbered, AwaitsSelection, Introduces;
    }
  }

  // -------------------------------------------------------------------------
  // The resource hears
  // -------------------------------------------------------------------------

  /** `w` with the head of the manager's queue taken off and not yet given to the resource. */
  function TakenFromManager(w: World): World
    requires w.ToResource() != [] && |w.clean| == |w.ToResource()|
  {
    w.(cem := w.cem.(engine := Popped(w.cem.engine)), clean := w.clean[1..])
  }

  lemma {:induction false} RingGrowsByOne(l: LedgerState, id: Id, status: Status)
    ensures forall a <- AfterAnswered(l, id, status).answered :: a in l.answered || a.id == id
  {
  }

  /** What reading `m`, the head of its queue, does to the resource. */
  ghost predicate ResourceReads(w: World, w': World, m: Message) {
    && w.ToResource() != [] && m == w.ToResource()[0] && |w.clean| == |w.ToResource()|
    && w' == TakenFromManager(w).(rm := w'.rm)
    && w'.rm.engine.config == w.rm.engine.config && w'.rm.engine.core.role == w.rm.engine.core.role
    && (forall a <- w'.rm.engine.core.acks.answered ::
          a in w.rm.engine.core.acks.answered || (!m.ReceptionStatus? && a.id == m.id))
    && var s, s' := w.rm.engine.core.state, w'.rm.engine.core.state;
       (s'.Closed? && (s.Closed? ==> s' == s) && !(s'.reason.UnsupportedVersion? && !s.Closed?))
       || (if m.HandshakeResponse? then
             s' == Connected && Some(w'.rm.engine.core.profile) == ProfileOf(m.selected) &&
               w'.rm.negotiated == Some(m.selected)
           else
             && w'.rm.engine.core.profile == w.rm.engine.core.profile && w'.rm.negotiated == w.rm.negotiated
             && (s' == s || (m.SelectControlType? && s' == AfterSelection(m.controlType) && !s.Handshaking?)))
  }

  lemma {:induction false} ReadingKeepsQueue(w: World, w': World, m: Message)
    requires Sound(w) && !w.rm.engine.IsClosed() && ResourceReads(w, w', m) && !w'.rm.engine.IsClosed()
    ensures ResourceSide(w')
  {
    hide StateTable.MaySend, AwaitsSelection, ManagerSide, Aligned, CleanAreAllowed, Numbered;
    var q, q' := w.ToResource(), w'.ToResource();
    assert forall k :: 0 <= k < |q'| ==> q'[k] == q[k + 1] && q[k + 1] in q;
    assert m in q;
  }

  lemma {:induction false} OneFewer(q: seq<Message>, k: nat)
    requires 0 < |q| && k < |q[1..]|
    ensures HoldsSelection(q[..k + 1]) <==> q[0].SelectControlType? || HoldsSelection(q[1..][..k])
    ensures HoldsResponse(q[..k + 1]) <==> q[0].HandshakeResponse? || HoldsResponse(q[1..][..k])
  {
    var rest := q[1..][..k];
    assert q[..k + 1] == [q[0]] + rest;
    assert forall x :: x in q[..k + 1] <==> x == q[0] || x in rest;
  }

  lemma {:induction false} ResponsesFindTheResourceShaking(w: World, m: Message)
    requires ResourceSide(w) && m in w.ToResource() && m.HandshakeResponse?
    ensures w.rm.engine.core.state.Handshaking?
  {
  }

  lemma {:induction false} ReadingKeepsClean(w: World, w': World, m: Message)
    requires Sound(w) && !w.rm.engine.IsClosed() && ResourceReads(w, w', m) && !w'.rm.engine.IsClosed()
    ensures CleanAreAllowed(w')
  {
    hide StateTable.MaySend, AwaitsSelection, ManagerSide, Aligned, Numbered, ResourceSide, VersionsSettled,
      HoldsSelection, HoldsResponse;
    var q, q', s := w.ToResource(), w'.ToResource(), w.rm.engine.core.state;
    if m.HandshakeResponse? { ResponsesFindTheResourceShaking(w, m); }
    forall k | 0 <= k < |q'| && w'.clean[k] && !q'[k].ReceptionStatus?
      ensures !HoldsSelection(q'[..k])
      ensures StateTable.MaySend(Greeted(w'.rm.engine.core.state, q'[..k]).Phase(), Cem, q'[k].Kind())
    {
      OneFewer(q, k);
      assert w.clean[k + 1] && q[k + 1] == q'[k];
    }
  }

  lemma {:induction false} AnswersMayAlwaysBeSent(s: SessionState, subject: Id, status: Status, profile: WireProfile)
    ensures var k := ReceptionStatus(subject, status).Kind();
      StateTable.MaySend(s.Phase(), Rm, k) && k.ExistsIn(profile) && OpeningKind(k)
  {
  }

  /** The manager's side of a step in which the resource reads `m` and answers it. */
  lemma {:induction false} ManagerWillHearTheAnswer(w: World, w': World, m: Message, status: Status)
    requires Sound(w) && !w.cem.engine.IsClosed() && ResourceReads(w, w', m) && !m.ReceptionStatus?
    requires w'.ToManager() == w.ToManager() + [ReceptionStatus(m.id, status)]
    ensures ManagerSide(w')
  {
    hide StateTable.MaySend, Heard, AllowedAlong, AwaitsSelection, Numbered, ResourceSide, CleanAreAllowed, Aligned;
    var w1 := w'.(rm := w.rm);
    assert ManagerSide(w1);
    AnswersMayAlwaysBeSent(Heard(w.cem.engine.core.state, w.cem.pendingSelection, w.ToManager()).0, m.id, status,
      w.cem.engine.core.profile);
    ManagerWillHear(w1, w', ReceptionStatus(m.id, status));
  }

  /** The pending selection is in the queue behind anything else that is read first. */
  lemma {:induction false} OnlyTheSelectionIsAnswered(w: World, m: Message)
    requires Sound(w) && !w.rm.engine.IsClosed() && !w.cem.engine.IsClosed()
    requires w.ToResource() != [] && m == w.ToResource()[0] && !m.ReceptionStatus? && !m.SelectControlType?
    ensures var pending := Heard(w.cem.engine.core.state, w.cem.pendingSelection, w.ToManager()).1;
      pending.Some? ==> pending.value.id != m.id
  {
    hide StateTable.MaySend, Heard, AwaitsSelection, Numbered, ManagerSide, CleanAreAllowed, AtMostOne;
    var pending := Heard(w.cem.engine.core.state, w.cem.pendingSelection, w.ToManager()).1;
    if pending.Some? {
      var q := w.ToResource();
      var k :| 0 <= k < |q| && q[k] == SelectControlType(pending.value.id, pending.value.controlType);
      assert k > 0 && ChangesTheResource(q[k]);
    }
  }

  lemma {:induction false} SelectionsAreAlone(w: World, m: Message)
    requires ResourceSide(w) && w.ToResource() != [] && m == w.ToResource()[0]
    ensures m.SelectControlType? ==> !HoldsSelection(w.ToResource()[1..])
    ensures !m.HandshakeResponse? ==>
      Greeted(w.rm.engine.core.state, w.ToResource()[1..]) == Greeted(w.rm.engine.core.state, w.ToResource())
    ensures forall x :: x in w.ToResource()[1..] ==> x in w.ToResource()
    ensures forall x :: x in w.ToResource() ==> x == m || x in w.ToResource()[1..]
  {
    hide Unanswered;
    var q := w.ToResource();
    assert q == [m] + q[1..];
    assert forall k :: 0 <= k < |q[1..]| ==> q[1..][k] == q[k + 1];
  }

  /** The manager, once it has read one more answer, is where the resource is now. */
  lemma {:induction false} ReadingKeepsAlignment(w: World, w': World, m: Message, status: Status)
    requires Sound(w) && !w.rm.engine.IsClosed() && !w.cem.engine.IsClosed()
    requires ResourceReads(w, w', m) && !w'.rm.engine.IsClosed() && !m.ReceptionStatus?
    requires m.SelectControlType? ==>
      w'.rm.engine.core.state == if status.Ok? then AfterSelection(m.controlType) else w.rm.engine.core.state
    ensures var (s, p) := Heard(w.cem.engine.core.state, w.cem.pendingSelection, w.ToManager());
      var (s', p') := Resolved(s, p, ReceptionStatus(m.id, status));
      && s' == Greeted(w'.rm.engine.core.state, w'.ToResource())
      && (forall x <- w'.ToResource() :: x.SelectControlType? ==> p' == Some(CemEngine.Selection(x.id, x.controlType)))
      && (p'.Some? ==> SelectControlType(p'.value.id, p'.value.controlType) in w'.ToResource())
  {
    if !m.SelectControlType? { OnlyTheSelectionIsAnswered(w, m); }
    SelectionsAreAlone(w, m);
    hide StateTable.MaySend, Heard, AwaitsSelection, Numbered, ManagerSide, CleanAreAllowed, AtMostOne, Unanswered;
    assert m in w.ToResource();
  }

  lemma {:induction false} ReadingKeepsNumbers(w: World, w': World, m: Message)
    requires Sound(w) && ResourceReads(w, w', m)
    requires forall x <- w'.ToManager() ::
      x in w.ToManager() || (!m.ReceptionStatus? && x.ReceptionStatus? && x.subject == m.id) || x.Details?
    ensures Numbered(w')
  {
    hide StateTable.MaySend, Heard, AwaitsSelection, ManagerSide, ResourceSide, CleanAreAllowed, Aligned;
    assert m in w.ToResource();
    assert forall x <- w'.ToResource() :: x in w.ToResource();
  }

  lemma {:induction false} ResourceReadsOne(w: World, w': World, m: Message, status: Status)
    requires Sound(w) && !w.rm.engine.IsClosed() && ResourceReads(w, w', m) && !m.ReceptionStatus?
    requires !m.HandshakeResponse?
    requires w'.ToManager() == w.ToManager() + [ReceptionStatus(m.id, status)]
    requires m.SelectControlType? && !w'.rm.engine.IsClosed() ==>
      w'.rm.engine.core.state == if status.Ok? then AfterSelection(m.controlType) else w.rm.engine.core.state
    ensures Sound(w')
  {
    ReadingKeepsNumbers(w, w', m);
    if !w'.rm.engine.IsClosed() {
      ReadingKeepsQueue(w, w', m);
      ReadingKeepsClean(w, w', m);
      if !w.cem.engine.IsClosed() { ReadingKeepsAlignment(w, w', m, status); }
    }
    if !w.cem.engine.IsClosed() {
      ManagerWillHearTheAnswer(w, w', m, status);
      HeardAppend(w.cem.engine.core.state, w.cem.pendingSelection, w.ToManager(), ReceptionStatus(m.id, status));
    }
    hide StateTable.MaySend, Heard, Numbered, ManagerSide, ResourceSide, CleanAreAllowed;
  }

  lemma {:induction false} ResourceReadsNoAnswer(w: World, w': World, m: Message)
    requires Sound(w) && ResourceReads(w, w', m) && (m.ReceptionStatus? || w.rm.engine.IsClosed())
    requires w'.ToManager() == w.ToManager() && (w.rm.engine.IsClosed() ==> w'.rm == w.rm)
    ensures Sound(w')
  {
    ReadingKeepsNumbers(w, w', m);
    if !w'.rm.engine.IsClosed() {
      ReadingKeepsQueue(w, w', m);
      ReadingKeepsClean(w, w', m);
      SelectionsAreAlone(w, m);
    }
    hide StateTable.MaySend, Heard, AllowedAlong, Numbered, ResourceSide, CleanAreAllowed, AwaitsSelection;
  }

  lemma {:induction false} DetailsMayBeQueued(profile: WireProfile, id: Id, details: Body)
    ensures var k := Details(id, details).Kind(); StateTable.MaySend(StateTable.Connected, Rm, k) && k.ExistsIn(profile)
  {
  }

  /** The resource takes the handshake's answer, acknowledges it and describes itself. */
  lemma {:induction false} ResourceReadsResponse(w: World, w': World, m: Message, details: Message)
    requires Sound(w) && !w.rm.engine.IsClosed() && ResourceReads(w, w', m) && m.HandshakeResponse? && details.Details?
    requires !w'.rm.engine.IsClosed()
    requires w'.ToManager() == w.ToManager() + [ReceptionStatus(m.id, Ok)] + [details]
    ensures Sound(w')
  {
    ReadingKeepsNumbers(w, w', m);
    ReadingKeepsQueue(w, w', m);
    ReadingKeepsClean(w, w', m);
    if !w.cem.engine.IsClosed() {
      var core := w'.rm.engine.core;
      var w1 := w'.(rm := w'.rm.(engine :=
        w'.rm.engine.(core := core.(outbox := w.ToManager() + [ReceptionStatus(m.id, Ok)]))));
      ManagerWillHearTheAnswer(w, w1, m, Ok);
      ReadingKeepsAlignment(w, w', m, Ok);
      var c := w.cem.engine.core;
      HeardAppend(c.state, w.cem.pendingSelection, w.ToManager(), ReceptionStatus(m.id, Ok));
      HeardAppend(c.state, w.cem.pendingSelection, w1.ToManager(), details);
      DetailsMayBeQueued(c.profile, details.id, details.details);
      NothingPending(c.state, w.ToManager() + [ReceptionStatus(m.id, Ok)]);
      assert m in w.ToResource();
      hide StateTable.MaySend, Heard, AllowedAlong, Numbered, ResourceSide, CleanAreAllowed, AwaitsSelection,
        HoldsResponse;
      ManagerWillHear(w1, w', details);
    }
    hide StateTable.MaySend, Heard, AllowedAlong, Numbered, ResourceSide, CleanAreAllowed, AwaitsSelection;
  }

  lemma {:induction false} SelectionNeedsAConnection(e: Engine, m: Message)
    requires m.SelectControlType? && e.core.role == Rm && MayReceive(e, m)
    ensures !e.core.state.Handshaking?
  {
  }

  lemma {:induction false} ResponseIsAgreeable(w: World, m: Message)
    requires Sound(w) && !w.rm.engine.IsClosed() && w.ToResource() != [] && m == w.ToResource()[0]
    requires ChangesTheResource(m)
    ensures m.HandshakeResponse? ==> Agreeable(w.rm, m)
    ensures !IsRemembered(w.rm.engine.core.acks.answered, m.id)
  {
    hide StateTable.MaySend, Heard, AllowedAlong, Numbered, CleanAreAllowed, AwaitsSelection, ManagerSide, Aligned;
    LatestAnswerIsTheLatest(w.rm.engine.core.acks.answered, m.id);
    assert m in w.ToResource();
  }

  lemma {:induction false} ResourceHears(w: World, now: Timestamp, v: Verdict)
    requires Sound(w) && Behaves(w, ToRm(now, v))
    ensures Sound(Next(w, ToRm(now, v)))
  {
    var w' := Next(w, ToRm(now, v));
    if w.ToResource() != [] {
      var m := w.ToResource()[0];
      hide StateTable.MaySend, RmEngine.HandleMessage, Numbered, ManagerSide, ResourceSide, CleanAreAllowed, Aligned,
        AwaitsSelection;
      if w.rm.engine.IsClosed() {
        ResourceReadsNoAnswer(w, w', m);
      } else {
        hide RmEngine.HandleFrame;
        if m.ReceptionStatus? {
          RmHearsStatus(w.rm, m, now, v);
          ResourceReadsNoAnswer(w, w', m);
        } else if m.HandshakeResponse? {
          ResponseIsAgreeable(w, m);
          RmHearsResponse(w.rm, m, now, v);
          RingGrowsByOne(w.rm.engine.core.acks, m.id, Ok);
          ResourceReadsResponse(w, w', m, w'.ToManager()[|w'.ToManager()| - 1]);
        } else if m.SelectControlType? {
          ResponseIsAgreeable(w, m);
          var status := RmHearsSelection(w.rm, m, now, v);
          RingGrowsByOne(w.rm.engine.core.acks, m.id, status);
          if status.Ok? { SelectionNeedsAConnection(w.rm.engine, m); }
          ResourceReadsOne(w, w', m, status);
        } else {
          var status := RmHearsOther(w.rm, m, now, v);
          RingGrowsByOne(w.rm.engine.core.acks, m.id, status);
          ResourceReadsOne(w, w', m, status);
        }
      }
    }
  }

  // -------------------------------------------------------------------------
  // The manager hears
  // -------------------------------------------------------------------------

  /** What reading `m`, the head of its queue, does to the manager, the handshake aside. */
  ghost predicate ManagerReads(w: World, w': World, m: Message) {
    && w.ToManager() != [] && m == w.ToManager()[0] && |w.clean| == |w.ToResource()|
    && w' == World(w.rm.(engine := Popped(w.rm.engine)), w'.cem, Marked(w.clean, w.cem, w'.cem))
    && w'.cem.engine.core.profile == w.cem.engine.core.profile && w'.cem.negotiated == w.cem.negotiated
    && w'.cem.engine.core.role == w.cem.engine.core.role && w'.cem.engine.core.minted == w.cem.engine.core.minted
    && AwaitsSelection(w'.cem) && w'.cem.engine.config == w.cem.engine.config
    && (w'.ToResource() == w.ToResource()
        || (|w'.ToResource()| > 0 && w'.ToResource()[|w'.ToResource()| - 1].ReceptionStatus?
            && w'.ToResource() == w.ToResource() + [w'.ToResource()[|w'.ToResource()| - 1]]))
    && (w'.cem.engine.IsClosed()
        || (w'.cem.engine.core.state, w'.cem.pendingSelection) ==
           Resolved(w.cem.engine.core.state, w.cem.pendingSelection, m))
  }

  lemma {:induction false} AnswerChangesNothing(q: seq<Message>, q': seq<Message>)
    requires q' == q || (|q'| > 0 && q'[|q'| - 1].ReceptionStatus? && q' == q + [q'[|q'| - 1]])
    ensures HoldsResponse(q') <==> HoldsResponse(q)
    ensures forall m: Message :: !m.ReceptionStatus? ==> (m in q' <==> m in q)
    ensures AtMostOne(q) ==> AtMostOne(q')
    ensures forall ring :: Unanswered(ring, q) ==> Unanswered(ring, q')
  {
    assert forall k :: 0 <= k < |q| ==> q'[k] == q[k];
    assert forall k :: |q| <= k < |q'| ==> q'[k].ReceptionStatus?;
  }

  lemma {:induction false} ReadingKeepsTheResourceSide(w: World, w': World, m: Message)
    requires Sound(w) && ManagerReads(w, w', m)
    ensures Numbered(w')
    ensures !w'.rm.engine.IsClosed() ==> ResourceSide(w') && CleanAreAllowed(w')
  {
    AnswerChangesNothing(w.ToResource(), w'.ToResource());
    if w'.ToResource() != w.ToResource() && !w.rm.engine.IsClosed() {
      OneMoreInTurn(w.rm.engine.core.state, w.ToResource(), w.clean, w'.ToResource()[|w'.ToResource()| - 1],
        w.cem.pendingSelection.None?);
      assert w'.clean == w.clean + [w.cem.pendingSelection.None?];
    }
    hide StateTable.MaySend, Heard, AllowedAlong, AwaitsSelection, ManagerSide, Aligned, AtMostOne, Unanswered,
      Resolved, AllowedInTurn;
    assert forall x <- w'.ToManager() :: x in w.ToManager();
  }

  lemma {:induction false} ReadingKeepsTheManagerSide(w: World, w': World, m: Message)
    requires Sound(w) && !w.cem.engine.IsClosed() && ManagerReads(w, w', m) && !w'.cem.engine.IsClosed()
    ensures ManagerSide(w')
    ensures !w'.rm.engine.IsClosed() ==> Aligned(w')
  {
    AnswerChangesNothing(w.ToResource(), w'.ToResource());
    hide StateTable.MaySend, AwaitsSelection, Numbered, ResourceSide, CleanAreAllowed, AtMostOne, Unanswered;
    assert forall x <- w'.ToManager() :: x in w.ToManager();
  }

  lemma {:induction false} ManagerReadsOne(w: World, w': World, m: Message)
    requires Sound(w) && ManagerReads(w, w', m) && (w.cem.engine.IsClosed() ==> w'.cem.engine.IsClosed())
    ensures Sound(w')
  {
    ReadingKeepsTheResourceSide(w, w', m);
    if !w'.cem.engine.IsClosed() { ReadingKeepsTheManagerSide(w, w', m); }
    hide StateTable.MaySend, AwaitsSelection, Numbered, ResourceSide, CleanAreAllowed, ManagerSide, Aligned, Resolved;
  }

  lemma {:induction false} OpeningIsAllowed(profile: WireProfile, q: seq<Message>)
    requires forall m <- q :: OpeningKind(m.Kind())
    ensures AllowedAlong(Connected, None, profile, q)
  {
    if q != [] {
      assert q[0] in q;
      assert forall m <- q[1..] :: m in q;
      OpeningIsAllowed(profile, q[1..]);
    }
  }

  ghost predicate FirstOffered(ours: seq<Version>, theirs: seq<Version>, k: nat)
    requires k < |ours|
  {
    RmEngine.Offered(theirs, ours[k]) && forall j :: 0 <= j < k ==> !RmEngine.Offered(theirs, ours[j])
  }

  /** The version chosen is the first of ours that they offer, and one is chosen if there is one. */
  lemma {:induction false} ChosenIsFirst(ours: seq<Version>, theirs: seq<Version>)
    ensures CemEngine.Choose(ours, theirs).None? <==> forall o <- ours :: !RmEngine.Offered(theirs, o)
    ensures CemEngine.Choose(ours, theirs).Some? ==>
      exists k :: 0 <= k < |ours| && FirstOffered(ours, theirs, k) && ours[k] == CemEngine.Choose(ours, theirs).value
  {
    if ours != [] {
      var rest := ours[1..];
      ChosenIsFirst(rest, theirs);
      assert ours == [ours[0]] + rest;
      var first := ours[0];
      assert forall t <- theirs :: Matches(first, t) <==> Matches(t, first);
      if RmEngine.Offered(theirs, ours[0]) {
        assert exists t <- theirs :: Matches(ours[0], t);
        assert FirstOffered(ours, theirs, 0);
      } else {
        var c := CemEngine.Choose(rest, theirs);
        if c.Some? {
          var k :| 0 <= k < |rest| && FirstOffered(rest, theirs, k) && rest[k] == c.value;
          forall j | 0 <= j < k + 1 ensures !RmEngine.Offered(theirs, ours[j]) {
            if j > 0 { assert ours[j] == rest[j - 1]; }
          }
          assert FirstOffered(ours, theirs, k + 1);
        }
      }
    }
  }

  /** The manager, connected by the handshake it has just read. */
  ghost predicate ManagerGreets(w: World, w': World, answer: Message) {
    && w.ToManager() != [] && w.ToManager()[0].Handshake? && w.ToManager()[0].versions.Some?
    && |w.clean| == |w.ToResource()| && answer.ReceptionStatus?
    && Greets(w.cem, w'.cem, w.ToManager()[0].versions.value, answer) && AwaitsSelection(w'.cem)
    && w' == World(w.rm.(engine := Popped(w.rm.engine)), w'.cem, Marked(w.clean, w.cem, w'.cem))
  }

  lemma {:induction false} GreetingFindsTheResourceShaking(w: World)
    requires Sound(w) && !w.cem.engine.IsClosed() && w.ToManager() != [] && w.ToManager()[0].Handshake?
    ensures w.cem.engine.core.state.Handshaking? && w.cem.pendingSelection.None?
    ensures !w.rm.engine.IsClosed() ==>
      w.rm.engine.core.state.Handshaking? && !HoldsResponse(w.ToResource()) && !HoldsSelection(w.ToResource())
  {
    hide AllowedAlong, AwaitsSelection, AtMostOne, Unanswered, StateTable.MaySend;
    NothingPending(w.cem.engine.core.state, w.ToManager());
  }

  /** A response put at the end of a queue that holds none, under an identifier of its own. */
  lemma {:induction false} ResponseJoins(ring: seq<Answer>, q: seq<Message>, m: Message)
    requires m.HandshakeResponse? && AtMostOne(q) && Unanswered(ring, q) && !HoldsResponse(q)
    requires forall a <- ring :: a.id != m.id
    requires forall x <- q :: !x.ReceptionStatus? ==> x.id != m.id
    ensures AtMostOne(q + [m]) && Unanswered(ring, q + [m])
    ensures HoldsSelection(q + [m]) <==> HoldsSelection(q)
    ensures forall x <- q + [m] :: x.HandshakeResponse? ==> x == m
    ensures m in q + [m]
  {
    var q' := q + [m];
    assert forall k :: 0 <= k < |q| ==> q'[k] == q[k] && q[k] in q;
    assert q'[|q|] == m;
  }

  lemma {:induction false} GreetingKeepsNumbers(w: World, w': World, answer: Message)
    requires Sound(w) && !w.cem.engine.IsClosed() && ManagerGreets(w, w', answer)
    ensures Numbered(w')
  {
    hide StateTable.MaySend, Heard, AllowedAlong, AwaitsSelection, ManagerSide, Aligned, ResourceSide,
      CleanAreAllowed, CemEngine.Choose;
    assert forall x <- w'.ToManager() :: x in w.ToManager();
  }

  lemma {:induction false} GreetingKeepsTheResourceSide(w: World, w': World, answer: Message)
    requires Sound(w) && !w.cem.engine.IsClosed() && ManagerGreets(w, w', answer) && !w'.rm.engine.IsClosed()
    requires w.ToManager()[0].versions == Some(w.rm.engine.config.versions)
    ensures ResourceSide(w')
  {
    var hr := w'.ToResource()[|w'.ToResource()| - 1];
    GreetingFindsTheResourceShaking(w);
    ChosenIsFirst(w.cem.engine.config.versions, w.rm.engine.config.versions);
    AnswerChangesNothing(w.ToResource(), w.ToResource() + [answer]);
    hide StateTable.MaySend, Heard, AllowedAlong, AwaitsSelection, ManagerSide, Aligned, CleanAreAllowed,
      CemEngine.Choose, AtMostOne, Unanswered,
      HoldsResponse, HoldsSelection;
    ResponseJoins(w.rm.engine.core.acks.answered, w.ToResource() + [answer], hr);
  }

  lemma {:induction false} ResponsesMayAlwaysBeSent()
    ensures StateTable.MaySend(StateTable.Negotiating, Cem, KHandshakeResponse)
  {
  }

  lemma {:induction false} GreetingKeepsClean(w: World, w': World, answer: Message)
    requires Sound(w) && !w.cem.engine.IsClosed() && ManagerGreets(w, w', answer) && !w'.rm.engine.IsClosed()
    ensures |w'.clean| == |w'.ToResource()| && CleanAreAllowed(w')
  {
    GreetingFindsTheResourceShaking(w);
    ResponsesMayAlwaysBeSent();
    var s, q, q1, hr := w.rm.engine.core.state, w.ToResource(), w.ToResource() + [answer],
      w'.ToResource()[|w'.ToResource()| - 1];
    AnswerChangesNothing(q, q1);
    StillShaking(s, q1);
    OneMoreInTurn(s, q, w.clean, answer, true);
    assert !HoldsSelection(q1) by { assert forall x <- q1 :: x.SelectControlType? ==> x in q; }
    OneMoreInTurn(s, q1, w.clean + [true], hr, true);
    hide StateTable.MaySend, AwaitsSelection, ManagerSide, Aligned, Numbered, ResourceSide, AllowedInTurn,
      CemEngine.Choose;
    assert w'.clean == w.clean + [true] + [true];
  }

  lemma {:induction false} StillShaking(s: SessionState, q: seq<Message>)
    requires s.Handshaking? && !HoldsResponse(q)
    ensures Greeted(s, q) == s && Greeted(s, q).Phase() == StateTable.Negotiating
  {
  }

  lemma {:induction false} GreetingAligns(w: World, w': World, answer: Message)
    requires Sound(w) && !w.cem.engine.IsClosed() && ManagerGreets(w, w', answer)
    requires Heard(Connected, None, w'.ToManager()) == (Connected, None)
    ensures !w'.rm.engine.IsClosed() ==> Aligned(w')
  {
    GreetingFindsTheResourceShaking(w);
    hide StateTable.MaySend, AwaitsSelection, Unanswered, Numbered, ResourceSide, CemEngine.Choose, CleanAreAllowed,
      Heard, AllowedAlong, ManagerSide;
    var q' := w'.ToResource();
    assert q'[|q'| - 1] in q';
    assert forall x <- q' :: x in w.ToResource() || x == answer || x == q'[|q'| - 1];
  }

  lemma {:induction false} ManagerGreetsSoundly(w: World, w': World, answer: Message)
    requires Sound(w) && !w.cem.engine.IsClosed() && ManagerGreets(w, w', answer)
    requires w.ToManager()[0].versions == Some(w.rm.engine.config.versions)
    ensures Sound(w')
  {
    GreetingFindsTheResourceShaking(w);
    GreetingKeepsNumbers(w, w', answer);
    if !w'.rm.engine.IsClosed() {
      GreetingKeepsTheResourceSide(w, w', answer);
      GreetingKeepsClean(w, w', answer);
    }
    hide StateTable.MaySend, AwaitsSelection, Unanswered, Numbered, ResourceSide, CemEngine.Choose, CleanAreAllowed,
      Heard, AllowedAlong, Aligned;
    assert forall x <- w'.ToManager() :: x in w.ToManager();
    OpeningIsAllowed(w'.cem.engine.core.profile, w'.ToManager());
    NothingPending(Connected, w'.ToManager());
    GreetingAligns(w, w', answer);
  }

  lemma {:induction false} ManagerHears(w: World, now: Timestamp, v: Verdict)
    requires Sound(w)
    ensures Sound(Next(w, ToCem(now, v)))
  {
    var w' := Next(w, ToCem(now, v));
    if w.ToManager() != [] {
      var m := w.ToManager()[0];
      hide StateTable.MaySend, CemEngine.HandleMessage, Numbered, ResourceSide, CleanAreAllowed, Aligned,
        AwaitsSelection;
      if w.cem.engine.IsClosed() {
        ManagerReadsOne(w, w', m);
      } else {
        hide CemEngine.HandleFrame;
        if m.ReceptionStatus? {
          CemHearsStatus(w.cem, m, now, v);
          ManagerReadsOne(w, w', m);
        } else if m.Handshake? {
          var status := CemHearsHandshake(w.cem, m, now, v);
          if Greets(w.cem, w'.cem, m.versions.value, ReceptionStatus(m.id, status)) {
            ManagerGreetsSoundly(w, w', ReceptionStatus(m.id, status));
          } else {
            ManagerReadsOne(w, w', m);
          }
        } else {
          var status := CemHearsOther(w.cem, m, now, v);
          ManagerReadsOne(w, w', m);
        }
      }
    }
  }

  // -------------------------------------------------------------------------
  // Every run
  // -------------------------------------------------------------------------

  lemma {:induction false} StartIsSound(rmConfig: Config, details: Body, cemConfig: Config, rmNow: Timestamp,
                                        cemNow: Timestamp)
    requires rmConfig.negotiation == cemConfig.negotiation
    ensures Sound(Start(rmConfig, details, cemConfig, rmNow, cemNow))
  {
    var w := Start(rmConfig, details, cemConfig, rmNow, cemNow);
    RmOpens(rmConfig, details, rmNow);
    CemOpens(cemConfig, cemNow);
    hide RmEngine.Open, CemEngine.Open, CemEngine.Choose, Registry.Recorded;
    assert Start(rmConfig, details, cemConfig, rmNow, cemNow).ToManager()[1..] == [];
    assert CemEngine.Fresh(cemConfig).engine.core.outbox == [];
    hide RmEngine.Fresh, CemEngine.Fresh;
    var q := w.ToManager();
    var (s, p) := Resolved(w.cem.engine.core.state, None, q[0]);
    assert Heard(s, p, q[1..]) == (s, p) && AllowedAlong(s, p, w.cem.engine.core.profile, q[1..]);
    assert Heard(w.cem.engine.core.state, None, q) == (s, p);
    DetailsMayBeQueued(w.cem.engine.core.profile, Minted(Rm, 1), details);
  }

  lemma {:induction false} EveryRunIsSound(w: World, actions: seq<Action>)
    requires Sound(w) && AllBehave(w, actions)
    ensures Sound(After(w, actions))
  {
    hide Sound, Next;
    if actions != [] {
      var n := |actions| - 1;
      EveryRunIsSound(w, actions[..n]);
      hide Behaves;
      var before := After(w, actions[..n]);
      NextIsSound(before, actions[n]);
    }
  }

  lemma {:induction false} NextIsSound(w: World, a: Action)
    requires Sound(w) && Behaves(w, a)
    ensures Sound(Next(w, a))
  {
    match a
    case ToRm(now, v) => ResourceHears(w, now, v);
    case ToCem(now, v) => ManagerHears(w, now, v);
    case AtRm(i) => hide Sound, Next; ResourceActs(w, i);
    case AtCem(i) => hide Sound, Next; ManagerActs(w, i);
  }

  /** Two sides opened in one negotiation mode, after any run that keeps the rules above. */
  ghost predicate Reached(w: World) {
    exists rmConfig, details, cemConfig, rmNow, cemNow, actions ::
      IsRun(rmConfig, details, cemConfig, rmNow, cemNow, actions, w)
  }

  predicate IsRun(rmConfig: Config, details: Body, cemConfig: Config, rmNow: Timestamp, cemNow: Timestamp,
                  actions: seq<Action>, w: World)
  {
    && rmConfig.negotiation == cemConfig.negotiation
    && AllBehave(Start(rmConfig, details, cemConfig, rmNow, cemNow), actions)
    && w == After(Start(rmConfig, details, cemConfig, rmNow, cemNow), actions)
  }

  lemma {:induction false} ReachedIsSound(w: World)
    requires Reached(w)
    ensures Sound(w)
  {
    hide Sound, Start, After, AllBehave;
    var rmConfig, details, cemConfig, rmNow, cemNow, actions :|
      IsRun(rmConfig, details, cemConfig, rmNow, cemNow, actions, w);
    StartIsSound(rmConfig, details, cemConfig, rmNow, cemNow);
    EveryRunIsSound(Start(rmConfig, details, cemConfig, rmNow, cemNow), actions);
  }

  lemma {:induction false} WhatTheManagerMaySend(phase: StateTable.Phase, m: Message, profile: WireProfile)
    ensures StateTable.MaySend(phase, Cem, m.Kind()) ==> m.Kind().ExistsIn(profile)
    ensures m.ReceptionStatus? ==> StateTable.MaySend(phase, Cem, m.Kind())
  {
  }

  lemma {:induction false} HeadIsInOrder(w: World)
    requires Sound(w) && w.ToManager() != [] && !w.cem.engine.IsClosed()
    ensures MayReceive(w.cem.engine, w.ToManager()[0])
    ensures w.ToManager()[0].Kind().ExistsIn(w.cem.engine.core.profile)
  {
    hide Numbered, ResourceSide, CleanAreAllowed, Aligned, VersionsSettled, AwaitsSelection, StateTable.MaySend;
    var m := w.ToManager()[0];
    assert m in w.ToManager();
    if w.cem.engine.core.state.Handshaking? { OpeningMayBeHeard(m, w.cem.engine.core.profile); }
  }

  lemma {:induction false} HandshakesNameVersions(w: World)
    requires Sound(w) && w.ToManager() != [] && !w.cem.engine.IsClosed() && w.ToManager()[0].Handshake?
    ensures w.ToManager()[0].versions.Some?
  {
    hide Numbered, ResourceSide, CleanAreAllowed, Aligned, VersionsSettled, AwaitsSelection, StateTable.MaySend,
      AllowedAlong;
  }

  /** Every message the resource lets out is one the manager's state table and wire allow
      when it arrives, whatever both sides were doing meanwhile. */
  lemma {:induction false} TheResourceIsAlwaysInOrder(w: World)
    requires Reached(w) && w.ToManager() != [] && !w.cem.engine.IsClosed()
    ensures MayReceive(w.cem.engine, w.ToManager()[0])
    ensures w.ToManager()[0].Kind().ExistsIn(w.cem.engine.core.profile)
  {
    ReachedIsSound(w);
    HeadIsInOrder(w);
    hide Reached, Sound, MayReceive;
  }

  lemma {:induction false} OpeningMayBeHeard(m: Message, profile: WireProfile)
    requires OpeningKind(m.Kind())
    ensures StateTable.MaySend(StateTable.Negotiating, Rm, m.Kind()) && m.Kind().ExistsIn(profile)
  {
  }

  /** So is every message the manager lets out while it has no selection pending. */
  lemma {:induction false} TheManagerIsInOrderUnlessSelecting(w: World)
    requires Reached(w) && w.ToResource() != [] && !w.rm.engine.IsClosed()
    ensures |w.clean| == |w.ToResource()|
    ensures w.clean[0] ==>
      MayReceive(w.rm.engine, w.ToResource()[0]) && w.ToResource()[0].Kind().ExistsIn(w.rm.engine.core.profile)
  {
    ReachedIsSound(w);
    hide Reached, Numbered, ResourceSide, ManagerSide, Aligned, VersionsSettled, AwaitsSelection, StateTable.MaySend;
    assert w.ToResource()[..0] == [];
    WhatTheManagerMaySend(w.rm.engine.core.state.Phase(), w.ToResource()[0], w.rm.engine.core.profile);
  }

  /** With nothing under way and neither side closed, both sides are in the same state and on
      the same wire. */
  lemma {:induction false} QuietSidesAgree(w: World)
    requires Reached(w) && w.ToManager() == [] && w.ToResource() == [] && w.cem.pendingSelection.None?
    requires !w.rm.engine.IsClosed() && !w.cem.engine.IsClosed()
    ensures w.rm.engine.core.state == w.cem.engine.core.state
    ensures !w.rm.engine.core.state.Handshaking? ==>
      w.rm.engine.core.profile == w.cem.engine.core.profile && w.rm.negotiated == w.cem.negotiated
  {
    ReachedIsSound(w);
    hide Reached, Numbered, CleanAreAllowed, ManagerSide;
  }

  /** The resource never turns the manager's version down, and once it is connected both hold
      one version and one profile: with a handshake, the manager's first version on offer. */
  lemma {:induction false} VersionsAgree(w: World)
    requires Reached(w)
    ensures w.rm.engine.IsClosed() ==> !w.rm.engine.core.state.reason.UnsupportedVersion?
    ensures !w.rm.engine.IsClosed() && !w.rm.engine.core.state.Handshaking? ==>
      w.rm.engine.core.profile == w.cem.engine.core.profile && w.rm.negotiated == w.cem.negotiated
    ensures w.cem.engine.config.negotiation.ByHandshake? && w.cem.negotiated.Some? ==>
      var ours, theirs := w.cem.engine.config.versions, w.rm.engine.config.versions;
      exists k :: 0 <= k < |ours| && FirstOffered(ours, theirs, k) && w.cem.negotiated == Some(ours[k])
  {
    ReachedIsSound(w);
    hide Reached, Numbered, CleanAreAllowed, ManagerSide, Aligned;
    ChosenIsFirst(w.cem.engine.config.versions, w.rm.engine.config.versions);
  }

  /** The manager gives up on a handshake exactly when nothing of its own is on offer or when
      the first that is has no wire, even if a later one has. */
  lemma {:induction false} FirstCommonVersionDecides(s: CemEngine.State, now: Timestamp)
    requires !s.engine.IsClosed() && s.engine.core.role == Cem
    ensures var ours, theirs := s.engine.config.versions, s.peerVersions;
      CemEngine.AnswerHandshake(s, now).engine.IsClosed() <==>
      ((forall o <- ours :: !RmEngine.Offered(theirs, o))
       || exists k :: 0 <= k < |ours| && FirstOffered(ours, theirs, k) && ProfileOf(ours[k]).None?)
  {
    var ours, theirs := s.engine.config.versions, s.peerVersions;
    AnsweringGreets(s, now);
    ChosenIsFirst(ours, theirs);
    hide CemEngine.AnswerHandshake, CemEngine.Choose;
    assert forall j, k ::
      0 <= j < |ours| && 0 <= k < |ours| && FirstOffered(ours, theirs, j) && FirstOffered(ours, theirs, k) ==> j == k;
  }

  lemma {:induction false} ALaterVersionIsNotTried(s: CemEngine.State, now: Timestamp)
    requires !s.engine.IsClosed() && s.engine.core.role == Cem
    requires s.engine.config.versions == ["2.0.0", "1.0.0"] == s.peerVersions
    ensures CemEngine.AnswerHandshake(s, now).engine.core.state == Closed(NoCommonVersion)
    ensures RmEngine.Offered(s.peerVersions, "1.0.0") && ProfileOf("1.0.0").Some?
  {
    AnsweringGreets(s, now);
    assert s.peerVersions[0] == "2.0.0" && s.peerVersions[1] == "1.0.0";
    assert Matches(s.peerVersions[0], "2.0.0") && Matches(s.peerVersions[1], "1.0.0");
    assert CemEngine.Choose(s.engine.config.versions, s.peerVersions) == Some("2.0.0");
    hide CemEngine.AnswerHandshake;
  }
}
