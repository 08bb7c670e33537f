/** Whole runs of one session: what it owes its peer, and what it remembers of it. */
module History {
  import opened Ids
  import opened Time
  import opened Messages
  import opened Ledger
  import opened Session
  import opened SessionRuns
  import RmEngine
  import CemEngine

  /** A driver's move: something done to the session, or one message taken off its outbox. */
  datatype Move = Do(i: Input) | Poll

  /** A session with everything it has let out so far. */
  datatype Log = Log(side: Side, sent: seq<Message>) {
    /** Everything the session has queued since it was made. */
    function Queued(): seq<Message> { sent + side.Engine().core.outbox }
  }

  function WithOutbox(s: Side, outbox: seq<Message>): Side {
    match s
    case RmSide(rm) => RmSide(rm.(engine := rm.engine.(core := rm.engine.core.(outbox := outbox))))
    case CemSide(cem) => CemSide(cem.(engine := cem.engine.(core := cem.engine.core.(outbox := outbox))))
  }

  function Made(l: Log, move: Move): Log {
    match move
    case Do(i) => l.(side := Step(l.side, i))
    case Poll =>
      var out := l.side.Engine().core.outbox;
      if out == [] then l else Log(WithOutbox(l.side, out[1..]), l.sent + [out[0]])
  }

  function After(l: Log, moves: seq<Move>): Log {
    if moves == [] then l else Made(After(l, moves[..|moves| - 1]), moves[|moves| - 1])
  }

  predicate LeaveAnswering(moves: seq<Move>) {
    forall m <- moves :: m.Do? ==> LeavesAnswering(m.i)
  }

  /** The identifiers to be answered along a run, in the order their frames arrived. */
  function AllOwed(l: Log, moves: seq<Move>): seq<Id> {
    if moves == [] then []
    else
      var n := |moves| - 1;
      AllOwed(l, moves[..n]) + (if moves[n].Do? then Owed(After(l, moves[..n]).side, moves[n].i) else [])
  }

  /** `l'` follows `l`, having given the listed answers. */
  ghost predicate Follows(l: Log, l': Log, answers: seq<Answer>) {
    var a, b := l.side.Engine(), l'.side.Engine();
    && RingSized(a) && RingSized(b)
    && AnswersIn(l'.Queued()) == AnswersIn(l.Queued()) + answers
    && b.core.acks.answered == PushAll(a.core.acks.answered, answers)
    && l.Queued() <= l'.Queued()
    && (a.IsClosed() ==> b.core.state == a.core.state && l'.Queued() == l.Queued())
    && Endings(b.events) == Endings(a.events) + (if b.IsClosed() && !a.IsClosed() then 1 else 0)
  }

  lemma {:induction false} OneMoveFollows(l: Log, move: Move) returns (answers: seq<Answer>)
    requires RingSized(l.side.Engine()) && (move.Do? ==> LeavesAnswering(move.i))
    ensures Follows(l, Made(l, move), answers)
    ensures Subjects(answers) == if move.Do? then Owed(l.side, move.i) else []
  {
    hide Step, LeavesAnswering, Owed;
    var l' := Made(l, move);
    match move
    case Do(i) =>
      answers := StepExtends(l.side, i);
      AnswersAppend(l.sent, l.side.Engine().core.outbox);
      AnswersAppend(l.sent, l'.side.Engine().core.outbox);
    case Poll =>
      answers := [];
      assert l'.Queued() == l.Queued();
      assert AnswersIn(l.Queued()) + [] == AnswersIn(l.Queued());
  }

  lemma {:induction false} FollowsFollows(a: Log, b: Log, c: Log, x: seq<Answer>, y: seq<Answer>)
    requires Follows(a, b, x) && Follows(b, c, y)
    ensures Follows(a, c, x + y)
  {
    PushAllAppend(a.side.Engine().core.acks.answered, x, y);
    hide PushAll, AnswersIn, Endings;
  }

  lemma {:induction false} PushAllAppend(ring: seq<Answer>, x: seq<Answer>, y: seq<Answer>)
    ensures PushAll(ring, x + y) == PushAll(PushAll(ring, x), y)
  {
    if y == [] {
      assert x + y == x;
    } else {
      assert (x + y)[..|x + y| - 1] == x + y[..|y| - 1];
      PushAllAppend(ring, x, y[..|y| - 1]);
    }
  }

  lemma {:induction false} RunFollows(l: Log, moves: seq<Move>) returns (answers: seq<Answer>)
    requires RingSized(l.side.Engine()) && LeaveAnswering(moves)
    ensures Follows(l, After(l, moves), answers)
    ensures Subjects(answers) == AllOwed(l, moves)
  {
    hide Made, Owed;
    answers := [];
    if moves == [] {
      assert AnswersIn(l.Queued()) + [] == AnswersIn(l.Queued());
    } else {
      var n := |moves| - 1;
      assert forall m <- moves[..n] :: m in moves;
      var first := RunFollows(l, moves[..n]);
      var last := OneMoveFollows(After(l, moves[..n]), moves[n]);
      FollowsFollows(l, After(l, moves[..n]), After(l, moves), first, last);
      answers := first + last;
      assert Subjects(answers) == Subjects(first) + Subjects(last);
    }
  }

  /** Either side, before anything has happened to it. */
  predicate JustMade(l: Log) {
    && l.sent == []
    && match l.side
       case RmSide(rm) => rm == RmEngine.Fresh(rm.engine.config, rm.details)
       case CemSide(cem) => cem == CemEngine.Fresh(cem.engine.config)
  }

  lemma {:induction false} JustMadeIsBlank(l: Log)
    requires JustMade(l)
    ensures var e := l.side.Engine();
      RingSized(e) && e.core.acks.answered == [] && l.Queued() == [] && e.events == [] && !e.IsClosed()
  {
  }

  /** Each frame fed to a session that is open gets exactly one reception status, in the order of
      arrival and under the frame's own identifier, unless it is a reception status itself; and
      the session queues no other reception status. */
  lemma {:induction false} OneAnswerPerFrame(l: Log, moves: seq<Move>)
    requires JustMade(l) && LeaveAnswering(moves)
    ensures Subjects(AnswersIn(After(l, moves).Queued())) == AllOwed(l, moves)
  {
    JustMadeIsBlank(l);
    var answers := RunFollows(l, moves);
    assert [] + answers == answers;
  }

  /** The end of a session is reported exactly once, when it ends, and from then on nothing is
      queued and the reason does not change. */
  lemma {:induction false} TheEndIsFinal(l: Log, moves: seq<Move>, more: seq<Move>)
    requires JustMade(l) && LeaveAnswering(moves) && LeaveAnswering(more)
    ensures var ended := After(l, moves);
      Endings(ended.side.Engine().events) == (if ended.side.Engine().IsClosed() then 1 else 0)
    ensures After(l, moves).side.Engine().IsClosed() ==>
      var ended, later := After(l, moves), After(After(l, moves), more);
      later.side.Engine().core.state == ended.side.Engine().core.state && later.Queued() == ended.Queued()
      && Endings(later.side.Engine().events) == 1
  {
    JustMadeIsBlank(l);
    var answers := RunFollows(l, moves);
    var others := RunFollows(After(l, moves), more);
  }

  // -------------------------------------------------------------------------
  // The ring of answers
  // -------------------------------------------------------------------------

  lemma {:induction false} PushingKeepsTheLast(answers: seq<Answer>)
    ensures PushAll([], answers) == Last(answers, ANSWERS_REMEMBERED)
  {
    if answers != [] {
      var n := |answers| - 1;
      PushingKeepsTheLast(answers[..n]);
      assert answers == answers[..n] + [answers[n]];
      assert Push(Last(answers[..n], ANSWERS_REMEMBERED), answers[n]) == Last(answers, ANSWERS_REMEMBERED);
    }
  }

  /** What a session remembers is always the last 256 answers it has queued, so a look-up finds
      the latest of them for an identifier. */
  lemma {:induction false} TheRingIsTheRecentPast(l: Log, moves: seq<Move>)
    requires JustMade(l) && LeaveAnswering(moves)
    ensures After(l, moves).side.Engine().core.acks.answered == Last(AnswersIn(After(l, moves).Queued()), 256)
  {
    JustMadeIsBlank(l);
    var answers := RunFollows(l, moves);
    assert [] + answers == answers;
    PushingKeepsTheLast(answers);
  }

  /** Nothing but one more answer came of it. */
  ghost predicate OnlyAnsweredAgain(s: Side, s': Side, subject: Id, status: Status) {
    && s'.Engine().core == Acknowledged(s.Engine().core, subject, status)
    && match s
       case RmSide(rm) => s'.RmSide? && s'.rm == rm.(engine := s'.rm.engine)
       case CemSide(cem) => s'.CemSide? && s'.cem == cem.(engine := s'.cem.engine)
  }

  /** A message that decodes and whose identifier is still remembered is answered as before and
      not acted on: state, wire, registry, ledger and counter are as they were. */
  lemma {:induction false} ARedeliveryIsOnlyAnswered(s: Side, m: Message, pruned: bool, now: Timestamp, v: Verdict)
    requires !s.Engine().IsClosed() && !m.ReceptionStatus? && m.Kind().ExistsIn(s.Engine().core.profile)
    requires LatestAnswer(s.Engine().core.acks.answered, m.id).Some?
    ensures OnlyAnsweredAgain(s, Step(s, FeedText(Wire(m, pruned), now, v)), m.id,
      LatestAnswer(s.Engine().core.acks.answered, m.id).value)
  {
    hide LatestAnswer, AfterAnswered, MayReceive;
  }

  lemma {:induction false} PushedStays(ring: seq<Answer>, k: nat, answers: seq<Answer>)
    requires |ring| <= ANSWERS_REMEMBERED && k < |ring| && |ring| - k + |answers| <= ANSWERS_REMEMBERED
    ensures |PushAll(ring, answers)| <= ANSWERS_REMEMBERED
    ensures exists j :: 0 <= j < |PushAll(ring, answers)| && PushAll(ring, answers)[j] == ring[k]
                        && |PushAll(ring, answers)| - j == |ring| - k + |answers|
  {
    if answers == [] {
      assert PushAll(ring, answers)[k] == ring[k];
    } else {
      var n := |answers| - 1;
      PushedStays(ring, k, answers[..n]);
      var before := PushAll(ring, answers[..n]);
      var j :| 0 <= j < |before| && before[j] == ring[k] && |before| - j == |ring| - k + n;
      var after := Push(before, answers[n]);
      var j' := if |before| + 1 <= ANSWERS_REMEMBERED then j else j - 1;
      assert after[j'] == ring[k];
    }
  }

  /** A message is acted on at most once: whenever fewer than 256 answers have been given since it
      was first read, reading it again only answers it again. */
  lemma {:induction false} ActedOnAtMostOnce(l: Log, first: Frame, now: Timestamp, v: Verdict, moves: seq<Move>,
                                             again: Message, pruned: bool,
                          later: Timestamp, u: Verdict)
    requires RingSized(l.side.Engine()) && !l.side.Engine().IsClosed() && LeaveAnswering(moves)
    requires first.Wire? && !first.message.ReceptionStatus? && !again.ReceptionStatus? && again.id == first.message.id
    requires var read := Made(l, Do(FeedText(first, now, v)));
      |AllOwed(read, moves)| < 256 && !After(read, moves).side.Engine().IsClosed()
      && again.Kind().ExistsIn(After(read, moves).side.Engine().core.profile)
    ensures var s := After(Made(l, Do(FeedText(first, now, v))), moves).side;
      LatestAnswer(s.Engine().core.acks.answered, again.id).Some?
      && OnlyAnsweredAgain(s, Step(s, FeedText(Wire(again, pruned), later, u)), again.id,
                           LatestAnswer(s.Engine().core.acks.answered, again.id).value)
  {
    var read := Made(l, Do(FeedText(first, now, v)));
    var once := OneMoveFollows(l, Do(FeedText(first, now, v)));
    assert Owed(l.side, FeedText(first, now, v)) == [again.id];
    assert once == [once[0]] && Subjects(once)[0] == again.id;
    var since := RunFollows(read, moves);
    var s := After(read, moves).side;
    var ring := read.side.Engine().core.acks.answered;
    hide Step, Made, After, Follows, AllOwed, OnlyAnsweredAgain;
    TheAnswerIsLast(l, read, once);
    TheAnswersAccumulate(read, After(read, moves), since);
    PushedStays(ring, |ring| - 1, since);
    LatestAnswerIsTheLatest(s.Engine().core.acks.answered, again.id);
    ARedeliveryIsOnlyAnswered(s, again, pruned, later, u);
  }

  lemma {:induction false} TheAnswerIsLast(l: Log, l': Log, answers: seq<Answer>)
    requires Follows(l, l', answers) && |answers| == 1
    ensures var ring := l'.side.Engine().core.acks.answered;
      0 < |ring| <= ANSWERS_REMEMBERED && ring[|ring| - 1] == answers[0]
  {
    assert answers[..0] == [];
    assert PushAll(l.side.Engine().core.acks.answered, []) == l.side.Engine().core.acks.answered;
  }

  lemma {:induction false} TheAnswersAccumulate(l: Log, l': Log, answers: seq<Answer>)
    requires Follows(l, l', answers)
    ensures l'.side.Engine().core.acks.answered == PushAll(l.side.Engine().core.acks.answered, answers)
  {
  }
}
