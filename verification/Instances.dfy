/** Runs from the very start in which the two sides part, one for each assumption of their agreement. */
module Instances {
  import opened Ids
  import opened Time
  import opened Messages
  import opened Ledger
  import opened Session
  import opened SessionRuns
  import opened Exchange
  import opened TwoParty
  import opened Selections
  import opened Disagreement
  import RmEngine
  import CemEngine

  const FINE := Verdict(false, false, None, false)
  const LATER := Verdict(false, false, Some(TemporaryError), false)
  const SO_BE_IT := Verdict(false, false, Some(Ok), false)

  lemma {:induction false} DetailsAreAcknowledged(s: CemEngine.State, m: Message, now: Timestamp)
    requires m.Details? && s.engine.core.state == Connected && s.engine.core.role == Cem
    requires s.engine.core.acks.answered == []
    ensures var s' := CemEngine.HandleFrame(s, Wire(m, false), now, FINE);
      && s'.engine.core.state == Connected && s'.pendingSelection == s.pendingSelection
      && s'.engine.core.outbox == s.engine.core.outbox + [ReceptionStatus(m.id, Ok)]
      && s'.engine.config == s.engine.config
  {
    hide Registry.Recorded;
  }

  lemma {:induction false} OkIsNoted(s: RmEngine.State, subject: Id, now: Timestamp)
    requires !s.engine.IsClosed()
    ensures var s' := RmEngine.HandleFrame(s, Wire(ReceptionStatus(subject, Ok), false), now, FINE);
      s'.engine.core.state == s.engine.core.state && s'.engine.core.outbox == s.engine.core.outbox
  {
  }

  /** Two sides that agreed on a wire beforehand, once the resource has described itself. */
  function Settled(config: Config, details: Body, cemConfig: Config, now: Timestamp): World {
    Next(Next(Start(config, details, cemConfig, now, now), ToCem(now, FINE)), ToRm(now, FINE))
  }

  lemma {:induction false} AgreedBeforehand(config: Config, details: Body, cemConfig: Config, now: Timestamp)
    requires config.negotiation == cemConfig.negotiation && config.negotiation.PreNegotiated?
    ensures var w := Start(config, details, cemConfig, now, now);
      && Sound(w) && |w.ToManager()| == 1 && w.ToManager()[0].Details? && w.ToResource() == []
      && w.rm.engine.core.state == Connected == w.cem.engine.core.state && w.cem.pendingSelection.None?
      && w.cem.engine.core.role == Cem && w.cem.engine.core.acks.answered == [] && w.cem.engine.config == cemConfig
  {
    StartIsSound(config, details, cemConfig, now, now);
    RmOpens(config, details, now);
    CemOpens(cemConfig, now);
    hide RmEngine.Open, CemEngine.Open, Sound, Marked;
  }

  lemma {:induction false} SettledSidesAreQuiet(config: Config, details: Body, cemConfig: Config, now: Timestamp)
    requires config.negotiation == cemConfig.negotiation && config.negotiation.PreNegotiated?
    ensures var w := Settled(config, details, cemConfig, now);
      Sound(w) && Quiet(w) && w.rm.engine.core.state == Connected == w.cem.engine.core.state &&
        w.cem.engine.config == cemConfig
  {
    var w0 := Start(config, details, cemConfig, now, now);
    AgreedBeforehand(config, details, cemConfig, now);
    hide Start, Sound;
    DetailsDrain(w0, now);
  }

  lemma {:induction false} DetailsDrain(w: World, now: Timestamp)
    requires Sound(w) && |w.ToManager()| == 1 && w.ToManager()[0].Details? && w.ToResource() == []
    requires w.rm.engine.core.state == Connected == w.cem.engine.core.state && w.cem.pendingSelection.None?
    requires w.cem.engine.core.role == Cem && w.cem.engine.core.acks.answered == []
    ensures var w' := Next(Next(w, ToCem(now, FINE)), ToRm(now, FINE));
      && Sound(w') && Quiet(w') && w'.rm.engine.core.state == Connected == w'.cem.engine.core.state
      && w'.cem.engine.config == w.cem.engine.config
  {
    hide Sound;
    var m := w.ToManager()[0];
    ManagerHears(w, now, FINE);
    DetailsAreAcknowledged(w.cem, m, now);
    var w1 := Next(w, ToCem(now, FINE));
    hide CemEngine.HandleFrame;
    assert [] + [ReceptionStatus(m.id, Ok)] == [ReceptionStatus(m.id, Ok)];
    OkIsNoted(w1.rm, m.id, now);
    ResourceHears(w1, now, FINE);
    hide RmEngine.HandleFrame;
  }

  lemma {:induction false} AConnectedManagerMaySelect(s: CemEngine.State, c: ControlType, now: Timestamp)
    requires s.engine.core.state == Connected && s.engine.core.role == Cem
    ensures CemEngine.Select(s, c, now, FINE).1.Accepted?
  {
    hide Dispatch;
  }

  function Selecting(c: ControlType, now: Timestamp): Action { AtCem(SelectType(c, now, FINE)) }

  /** Select a control type, take that back before the answer is in, and have only that refused. */
  lemma {:induction false} TwoSelectionsPartTheSides(config: Config, details: Body, cemConfig: Config, now: Timestamp)
    requires config.negotiation == cemConfig.negotiation && config.negotiation.PreNegotiated?
    ensures var w := Next(Next(Settled(config, details, cemConfig, now), Selecting(Frbc, now)),
      Selecting(NoSelection, now));
      var w' := After(After(w, [ToRm(now, FINE), ToRm(now, LATER)]), [ToCem(now, FINE), ToCem(now, FINE)]);
      Quiet(w') && w'.rm.engine.core.state != w'.cem.engine.core.state
  {
    var w := Settled(config, details, cemConfig, now);
    SettledSidesAreQuiet(config, details, cemConfig, now);
    hide Settled, Sound, Quiet, Asking, Next, After, Asks;
    SelectingTwice(w, now);
    BothAreAsked(w, Selecting(Frbc, now), Selecting(NoSelection, now));
    var w2 := Next(Next(w, Selecting(Frbc, now)), Selecting(NoSelection, now));
    var readings, hearings := [ToRm(now, FINE), ToRm(now, LATER)], [ToCem(now, FINE), ToCem(now, FINE)];
    OnlyTheSecondIsRefused(w2, now, readings, hearings, After(After(w2, readings), hearings));
  }

  lemma {:induction false} OnlyTheSecondIsRefused(w: World, now: Timestamp, readings: seq<Action>,
                                                  hearings: seq<Action>, w': World)
    requires Asking(w, Connected) && |w.ToResource()| == 2 && AreSelections(w.ToResource())
    requires w.ToResource()[0].controlType == Frbc && w.ToResource()[1].controlType == NoSelection
    requires readings == [ToRm(now, FINE), ToRm(now, LATER)] && hearings == [ToCem(now, FINE), ToCem(now, FINE)]
    requires w' == After(After(w, readings), hearings)
    ensures Quiet(w') && w'.rm.engine.core.state != w'.cem.engine.core.state
  {
    hide After, Asking;
    TwoSelectionsSettle(w, Connected, readings, hearings, w');
  }

  lemma {:induction false} SelectingTwice(w: World, now: Timestamp)
    requires Sound(w) && Quiet(w) && w.rm.engine.core.state == Connected
    ensures Asks(w, Selecting(Frbc, now)) && Asks(Next(w, Selecting(Frbc, now)), Selecting(NoSelection, now))
  {
    QuietSidesMayAsk(w);
    hide Sound, Next, CemEngine.Select, AreNew, AwaitsSelection;
    AConnectedManagerMaySelect(w.cem, Frbc, now);
    OneMoreAsked(w, Connected, Frbc, now, FINE);
    AConnectedManagerMaySelect(Next(w, Selecting(Frbc, now)).cem, NoSelection, now);
  }

  /** One selection has just been sent. */
  ghost predicate OneOnItsWay(w: World) {
    && Sound(w) && !w.rm.engine.IsClosed() && !w.cem.engine.IsClosed() && w.ToManager() == []
    && |w.ToResource()| == 1 && w.ToResource()[0].SelectControlType? && w.ToResource()[0].controlType == Frbc
    && w.rm.engine.core.state == Connected && MayReceive(w.rm.engine, w.ToResource()[0])
  }

  lemma {:induction false} SelectingOnce(w: World, now: Timestamp)
    requires Sound(w) && Quiet(w) && w.rm.engine.core.state == Connected
    ensures var w' := Next(w, Selecting(Frbc, now));
      OneOnItsWay(w') && Lapses(w'.cem, w'.ToResource()[0].id, DeadlineAfter(now, w.cem.engine.config.ackTimeout))
  {
    SelectingIsSound(w, now);
    QuietSidesMayAsk(w);
    hide Sound, AreNew, AwaitsSelection, Next, CemEngine.Select, Lapses;
    AConnectedManagerMaySelect(w.cem, Frbc, now);
    OneMoreAsked(w, Connected, Frbc, now, FINE);
    AtTheDeadline(w.cem, Frbc, now);
    var w' := Next(w, Selecting(Frbc, now));
    var m := SelectControlType(MintedId(w.cem.engine.core), Frbc);
    assert w'.ToResource() == [m] by { assert [] + [m] == [m]; }
    assert w'.cem == CemEngine.Select(w.cem, Frbc, now, FINE).0 by { AskingIsAStep(w, Frbc, now, FINE); }
    SelectionsAreTakenWhenConnected(w'.rm.engine, m);
  }

  lemma {:induction false} SelectingIsSound(w: World, now: Timestamp)
    requires Sound(w) && Quiet(w)
    ensures Sound(Next(w, Selecting(Frbc, now)))
  {
    hide Sound, Next;
    ManagerActs(w, SelectType(Frbc, now, FINE));
  }

  /** What has just been sent lapses when its time is up. */
  lemma {:induction false} AtTheDeadline(s: CemEngine.State, c: ControlType, now: Timestamp)
    requires CemEngine.Select(s, c, now, FINE).1.Accepted?
    ensures Lapses(CemEngine.Select(s, c, now, FINE).0, MintedId(s.engine.core),
      DeadlineAfter(now, s.engine.config.ackTimeout))
  {
    var pending := CemEngine.Select(s, c, now, FINE).0.engine.core.acks.pending;
    assert pending[|s.engine.core.acks.pending|].deadline == DeadlineAfter(now, s.engine.config.ackTimeout);
    assert pending[|s.engine.core.acks.pending|] in pending;
  }

  lemma {:induction false} ALateAnswer(w: World, now: Timestamp, late: Timestamp)
    requires OneOnItsWay(w) && Lapses(w.cem, w.ToResource()[0].id, late)
    ensures var w' := Next(Next(Next(w, ToRm(now, FINE)), AtCem(LetTimePass(late))), ToCem(late, FINE));
      Quiet(w') && w'.rm.engine.core.state != w'.cem.engine.core.state
  {
    hide Next, Sound, MayReceive, Lapses;
    AnExpiredSelectionIsForgotten(w, now, FINE, late, late, FINE);
  }

  lemma {:induction false} AnOkOfThePolicys(w: World, now: Timestamp)
    requires OneOnItsWay(w)
    ensures var w' := Next(Next(w, ToRm(now, SO_BE_IT)), ToCem(now, FINE));
      Quiet(w') && w'.rm.engine.core.state != w'.cem.engine.core.state
  {
    hide Next, Sound, MayReceive;
    AnOkFromThePolicySplitsTheSides(w, now, SO_BE_IT, FINE);
  }

  /** Select a control type and let the answer arrive when the time for it is up. */
  lemma {:induction false} ALateAnswerPartsTheSides(config: Config, details: Body, cemConfig: Config, now: Timestamp)
    requires config.negotiation == cemConfig.negotiation && config.negotiation.PreNegotiated?
    ensures var w := Next(Settled(config, details, cemConfig, now), Selecting(Frbc, now));
      var late := DeadlineAfter(now, cemConfig.ackTimeout);
      var w' := Next(Next(Next(w, ToRm(now, FINE)), AtCem(LetTimePass(late))), ToCem(late, FINE));
      Quiet(w') && w'.rm.engine.core.state != w'.cem.engine.core.state
  {
    var w := Settled(config, details, cemConfig, now);
    SettledSidesAreQuiet(config, details, cemConfig, now);
    hide *;
    SelectingOnce(w, now);
    ALateAnswer(Next(w, Selecting(Frbc, now)), now, DeadlineAfter(now, cemConfig.ackTimeout));
  }

  /** Select a control type and have the resource's policy answer it `Ok`. */
  lemma {:induction false} APolicySayingOkPartsTheSides(config: Config, details: Body, cemConfig: Config,
                                                        now: Timestamp)
    requires config.negotiation == cemConfig.negotiation && config.negotiation.PreNegotiated?
    ensures var w := Next(Settled(config, details, cemConfig, now), Selecting(Frbc, now));
      var w' := Next(Next(w, ToRm(now, SO_BE_IT)), ToCem(now, FINE));
      Quiet(w') && w'.rm.engine.core.state != w'.cem.engine.core.state
  {
    var w := Settled(config, details, cemConfig, now);
    SettledSidesAreQuiet(config, details, cemConfig, now);
    hide *;
    SelectingOnce(w, now);
    AnOkOfThePolicys(Next(w, Selecting(Frbc, now)), now);
  }

  // -------------------------------------------------------------------------
  // A refused `HandshakeResponse`
  // -------------------------------------------------------------------------

  /** The manager takes a handshake it can agree on. */
  lemma {:induction false} AHandshakeIsAnswered(s: CemEngine.State, m: Message, now: Timestamp)
    requires m.Handshake? && m.versions.Some? && s.engine.core.state.Handshaking? && s.engine.core.role == Cem
    requires s.engine.core.acks.answered == []
    requires var chosen := CemEngine.Choose(s.engine.config.versions, m.versions.value);
      chosen.Some? && ProfileOf(chosen.value).Some?
    ensures Greets(s, CemEngine.HandleFrame(s, Wire(m, false), now, FINE), m.versions.value, ReceptionStatus(m.id, Ok))
  {
    ScreenAnswers(s.engine, m, FINE);
    AnsweringGreets(s.(engine := Screen(s.engine, m, FINE).0, peerVersions := m.versions.value), now);
    hide Screen, CemEngine.AnswerHandshake, CemEngine.Choose;
    assert MayReceive(s.engine, m) && m.Kind().ExistsIn(s.engine.core.profile);
  }

  /** The resource takes note of the manager's own handshake. */
  lemma {:induction false} TheOtherHandshakeIsNoted(s: RmEngine.State, m: Message, now: Timestamp)
    requires m.Handshake? && s.engine.core.state.Handshaking? && s.engine.core.role == Rm
    requires s.engine.core.acks.answered == []
    ensures var s' := RmEngine.HandleFrame(s, Wire(m, false), now, FINE);
      && s'.engine.core.state.Handshaking? && s'.engine.core.role == Rm
      && s'.engine.core.outbox == s.engine.core.outbox + [ReceptionStatus(m.id, Ok)]
  {
    ScreenAnswers(s.engine, m, FINE);
    hide Screen;
    assert MayReceive(s.engine, m) && m.Kind().ExistsIn(s.engine.core.profile);
  }

  lemma {:induction false} TheResponseIsPutOff(s: RmEngine.State, m: Message, now: Timestamp)
    requires m.HandshakeResponse? && s.engine.core.state.Handshaking? && s.engine.core.role == Rm
    requires !IsRemembered(s.engine.core.acks.answered, m.id)
    ensures var s' := RmEngine.HandleFrame(s, Wire(m, false), now, LATER);
      && s'.engine.core.state.Handshaking?
      && s'.engine.core.outbox == s.engine.core.outbox + [ReceptionStatus(m.id, TemporaryError)]
  {
    hide LatestAnswer, AfterAnswered;
    assert MayReceive(s.engine, m) && m.Kind().ExistsIn(s.engine.core.profile);
  }

  /** Both sides wait for the other's handshake to be answered. */
  ghost predicate BothShaking(w: World) {
    && Sound(w) && w.rm.engine.core.state.Handshaking? && w.rm.engine.core.role == Rm
    && w.rm.engine.core.acks.answered == []
    && w.cem.engine.core.state.Handshaking? && w.cem.engine.core.role == Cem && w.cem.engine.core.acks.answered == []
    && w.cem.pendingSelection.None?
    && |w.ToManager()| == 1 && w.ToManager()[0] == Handshake(Minted(Rm, 1), Rm, Some(w.rm.engine.config.versions))
    && |w.ToResource()| == 1 && w.ToResource()[0].Handshake?
  }

  lemma {:induction false} StartsShaking(config: Config, details: Body, cemConfig: Config, now: Timestamp)
    requires config.negotiation == cemConfig.negotiation == ByHandshake
    ensures var w := Start(config, details, cemConfig, now, now);
      BothShaking(w) && w.rm.engine.config == config && w.cem.engine.config == cemConfig
  {
    StartIsSound(config, details, cemConfig, now, now);
    RmOpens(config, details, now);
    CemOpens(cemConfig, now);
    hide RmEngine.Open, CemEngine.Open, Sound, Marked;
  }

  /** The manager has chosen a version and only says so; the resource has still to read that. */
  ghost predicate OnlyTheResponseIsLeft(w: World) {
    && Sound(w) && w.rm.engine.core.state.Handshaking? && w.cem.engine.core.state == Connected
    && w.cem.pendingSelection.None?
    && |w.ToManager()| == 1 && w.ToManager()[0].ReceptionStatus? && w.ToManager()[0].status == Ok
    && |w.ToResource()| == 1 && w.ToResource()[0].HandshakeResponse?
  }

  lemma {:induction false} TheManagerChooses(w: World, now: Timestamp)
    requires BothShaking(w)
    requires var chosen := CemEngine.Choose(w.cem.engine.config.versions, w.rm.engine.config.versions);
      chosen.Some? && ProfileOf(chosen.value).Some?
    ensures var w', q := Next(w, ToCem(now, FINE)), Next(w, ToCem(now, FINE)).ToResource();
      && Sound(w') && w'.rm == w.rm.(engine := Popped(w.rm.engine)) && w'.ToManager() == []
      && w'.cem.engine.core.state == Connected && w'.cem.pendingSelection.None?
      && |q| == 3 && q[0] == w.ToResource()[0] && q[1].ReceptionStatus? && q[1].status == Ok && q[2].HandshakeResponse?
  {
    hide Sound, CemEngine.HandleFrame, CemEngine.Choose, Marked;
    AHandshakeIsAnswered(w.cem, w.ToManager()[0], now);
    ManagerHears(w, now, FINE);
  }

  lemma {:induction false} TheResourceCatchesUp(w: World, now: Timestamp)
    requires Sound(w) && w.rm.engine.core.state.Handshaking? && w.rm.engine.core.role == Rm
    requires w.rm.engine.core.acks.answered == []
    requires w.ToManager() == [] && w.cem.engine.core.state == Connected && w.cem.pendingSelection.None?
    requires var q := w.ToResource();
      |q| == 3 && q[0].Handshake? && q[1].ReceptionStatus? && q[1].status == Ok && q[2].HandshakeResponse?
    ensures OnlyTheResponseIsLeft(Next(Next(w, ToRm(now, FINE)), ToRm(now, FINE)))
  {
    var q := w.ToResource();
    hide Sound;
    ResourceHears(w, now, FINE);
    TheOtherHandshakeIsNoted(w.rm, q[0], now);
    var w1 := Next(w, ToRm(now, FINE));
    assert [] + [ReceptionStatus(q[0].id, Ok)] == [ReceptionStatus(q[0].id, Ok)];
    hide RmEngine.HandleFrame;
    assert w1.ToResource() == [q[1], q[2]];
    ResourceHears(w1, now, FINE);
    OkIsNoted(w1.rm, q[1].subject, now);
  }

  lemma {:induction false} TheResponseFails(w: World, now: Timestamp)
    requires OnlyTheResponseIsLeft(w)
    ensures var w' := Next(w, ToRm(now, LATER));
      && w'.rm.engine.core.state.Handshaking? && w'.cem.engine.core.state == Connected && w'.cem.pendingSelection.None?
      && w'.ToResource() == [] && |w'.ToManager()| == 2
      && w'.ToManager()[0].ReceptionStatus? && !EndsTheSession(w'.ToManager()[0])
      && w'.ToManager()[1].ReceptionStatus? && !EndsTheSession(w'.ToManager()[1])
  {
    var m := w.ToResource()[0];
    ResponseIsAgreeable(w, m);
    hide Sound;
    TheResponseIsPutOff(w.rm, m, now);
    hide RmEngine.HandleFrame;
  }

  lemma {:induction false} TheManagerCarriesOn(w: World, now: Timestamp)
    requires w.cem.engine.core.state == Connected && w.cem.pendingSelection.None? && w.ToManager() != []
    requires w.ToManager()[0].ReceptionStatus? && !EndsTheSession(w.ToManager()[0])
    ensures var w' := Next(w, ToCem(now, FINE));
      && w'.cem.engine.core.state == Connected && w'.cem.pendingSelection.None?
      && w'.ToManager() == w.ToManager()[1..] && w'.ToResource() == w.ToResource()
      && w'.rm.engine.core.state == w.rm.engine.core.state
  {
    CemHearsStatus(w.cem, w.ToManager()[0], now, FINE);
    OnlyAPermanentErrorEnds(w.cem, w.ToManager()[0], now, FINE);
    hide CemEngine.HandleFrame;
  }

  /** Everything from the start to the `HandshakeResponse`, which the resource puts off. */
  function PutOff(config: Config, details: Body, cemConfig: Config, now: Timestamp): World {
    var greeted := Next(Start(config, details, cemConfig, now, now), ToCem(now, FINE));
    Next(Next(Next(greeted, ToRm(now, FINE)), ToRm(now, FINE)), ToRm(now, LATER))
  }

  /** A resource that answers the `HandshakeResponse` with a temporary error waits for what the
      manager has already sent. */
  lemma {:induction false} APutOffResponsePartsTheSides(config: Config, details: Body, cemConfig: Config,
                                                        now: Timestamp)
    requires config.negotiation == cemConfig.negotiation == ByHandshake
    requires var chosen := CemEngine.Choose(cemConfig.versions, config.versions);
      chosen.Some? && ProfileOf(chosen.value).Some?
    ensures var w := Next(Next(PutOff(config, details, cemConfig, now), ToCem(now, FINE)), ToCem(now, FINE));
      Quiet(w) && w.rm.engine.core.state == Handshaking && w.cem.engine.core.state == Connected
  {
    StartsShaking(config, details, cemConfig, now);
    hide Start, Next, CemEngine.Choose, BothShaking, Quiet;
    ShakingThenPutOff(Start(config, details, cemConfig, now, now), now);
  }

  lemma {:induction false} ShakingThenPutOff(w: World, now: Timestamp)
    requires BothShaking(w)
    requires var chosen := CemEngine.Choose(w.cem.engine.config.versions, w.rm.engine.config.versions);
      chosen.Some? && ProfileOf(chosen.value).Some?
    ensures var w' := Next(Next(Next(Next(Next(Next(w, ToCem(now, FINE)), ToRm(now, FINE)), ToRm(now, FINE)),
                                     ToRm(now, LATER)), ToCem(now, FINE)), ToCem(now, FINE));
      Quiet(w') && w'.rm.engine.core.state == Handshaking && w'.cem.engine.core.state == Connected
  {
    hide Next, CemEngine.Choose, Sound;
    var w1 := Next(w, ToCem(now, FINE));
    TheManagerChooses(w, now);
    TheResourceCatchesUp(w1, now);
    var w3 := Next(Next(w1, ToRm(now, FINE)), ToRm(now, FINE));
    hide OnlyTheResponseIsLeft;
    TheResponseFails(w3, now);
    var w4 := Next(w3, ToRm(now, LATER));
    TheManagerCarriesOn(w4, now);
    TheManagerCarriesOn(Next(w4, ToCem(now, FINE)), now);
  }
}
