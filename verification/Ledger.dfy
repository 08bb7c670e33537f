/** What has been sent and not yet acknowledged, and how inbound messages were answered. */
module Ledger {
  import opened Ids
  import opened Time
  import opened Messages

  datatype Handle = Handle(id: Id, kind: MessageKind)

  datatype Outstanding = Outstanding(handle: Handle, sentAt: Timestamp, deadline: Timestamp)

  datatype Answer = Answer(id: Id, status: Status)

  datatype Outcome =
    | AckAccepted(handle: Handle, latency: Duration)
    | AckRefused(handle: Handle, status: Status, consequence: Consequence, latency: Duration)
    | AckTimedOut(handle: Handle)
    | AckUnmatched(subject: Id, status: Status)

  /** The ledger as a value. */
  datatype LedgerState = LedgerState(pending: seq<Outstanding>, answered: seq<Answer>, maxAnswered: nat)

  function AfterSent(l: LedgerState, h: Handle, sentAt: Timestamp, deadline: Timestamp): LedgerState {
    l.(pending := l.pending + [Outstanding(h, sentAt, deadline)])
  }

  /** Where the first message with this identifier waits, or the length when none does. */
  function Position(pending: seq<Outstanding>, id: Id): (p: nat)
    ensures p <= |pending|
    ensures p < |pending| ==> pending[p].handle.id == id
    ensures forall j :: 0 <= j < p ==> pending[j].handle.id != id
  {
    if pending == [] then 0
    else if pending[0].handle.id == id then 0
    else 1 + Position(pending[1..], id)
  }

  function WithoutAt(pending: seq<Outstanding>, p: nat): seq<Outstanding>
    requires p < |pending|
  {
    pending[..p] + pending[p + 1..]
  }

  function AfterReceived(l: LedgerState, subject: Id, status: Status, now: Timestamp): (LedgerState, Outcome) {
    var p := Position(l.pending, subject);
    if p == |l.pending| then (l, AckUnmatched(subject, status))
    else
      var entry := l.pending[p];
      var latency := SaturatingDurationSince(now, entry.sentAt);
      (l.(pending := WithoutAt(l.pending, p)),
       if status.Ok? then AckAccepted(entry.handle, latency)
       else AckRefused(entry.handle, status, ConsequenceOf(status), latency))
  }

  /** An answer settles the first message waiting under the identifier, timed from when that was sent,
      and leaves every other waiting. */
  lemma {:induction false} TheFirstIsSettled(l: LedgerState, p: nat, status: Status, now: Timestamp)
    requires p < |l.pending| && forall j :: 0 <= j < p ==> l.pending[j].handle.id != l.pending[p].handle.id
    ensures var (l', outcome) := AfterReceived(l, l.pending[p].handle.id, status, now);
      var latency := SaturatingDurationSince(now, l.pending[p].sentAt);
      && l' == l.(pending := l.pending[..p] + l.pending[p + 1..])
      && outcome == if status == Ok then AckAccepted(l.pending[p].handle, latency)
                    else AckRefused(l.pending[p].handle, status, ConsequenceOf(status), latency)
  {
    hide SaturatingDurationSince;
  }

  /** What is sent and then answered leaves the ledger as it was, and the time between the two is told. */
  lemma {:induction false} AnsweringUndoesSending(l: LedgerState, h: Handle, sentAt: Timestamp, deadline: Timestamp,
                                                  status: Status, now: Timestamp)
    requires forall o <- l.pending :: o.handle.id != h.id
    ensures var (l', outcome) := AfterReceived(AfterSent(l, h, sentAt, deadline), h.id, status, now);
      var latency := SaturatingDurationSince(now, sentAt);
      && l' == l
      && outcome == if status == Ok then AckAccepted(h, latency)
                    else AckRefused(h, status, ConsequenceOf(status), latency)
  {
    var sent := AfterSent(l, h, sentAt, deadline);
    assert forall j :: 0 <= j < |l.pending| ==> sent.pending[j] == l.pending[j] && l.pending[j] in l.pending;
    TheFirstIsSettled(sent, |l.pending|, status, now);
    assert sent.pending[..|l.pending|] + sent.pending[|l.pending| + 1..] == l.pending;
    hide SaturatingDurationSince, AfterReceived;
  }

  /** A message is overdue from its deadline on. */
  lemma {:induction false} DueAtTheDeadline(l: LedgerState, h: Handle, sentAt: Timestamp, deadline: Timestamp,
                                            now: Timestamp)
    requires AfterExpire(l, now).1 == []
    ensures AfterExpire(AfterSent(l, h, sentAt, deadline), now).1 == if deadline.AtMost(now) then [h] else []
  {
    var sent := AfterSent(l, h, sentAt, deadline);
    assert sent.pending[..|l.pending|] == l.pending;
  }

  /** With nothing waiting under it, an identifier settles nothing. */
  lemma {:induction false} NothingIsSettled(l: LedgerState, subject: Id, status: Status, now: Timestamp)
    requires forall o <- l.pending :: o.handle.id != subject
    ensures AfterReceived(l, subject, status, now) == (l, AckUnmatched(subject, status))
  {
    assert forall j :: 0 <= j < |l.pending| ==> l.pending[j] in l.pending;
  }

  predicate Due(o: Outstanding, now: Timestamp) { o.deadline.AtMost(now) }

  /** The entries still waiting at `now`, in order. */
  function Waiting(pending: seq<Outstanding>, now: Timestamp): (r: seq<Outstanding>)
    ensures |r| <= |pending|
    ensures forall o <- r :: o in pending && !Due(o, now)
    ensures forall o <- pending :: !Due(o, now) ==> o in r
  {
    if pending == [] then []
    else
      var n := |pending| - 1;
      var front := Waiting(pending[..n], now);
      if Due(pending[n], now) then front else front + [pending[n]]
  }

  /** The handles of the entries due at `now`, in order. */
  function DueHandles(pending: seq<Outstanding>, now: Timestamp): seq<Handle> {
    if pending == [] then []
    else
      var n := |pending| - 1;
      var front := DueHandles(pending[..n], now);
      if Due(pending[n], now) then front + [pending[n].handle] else front
  }

  function AfterExpire(l: LedgerState, now: Timestamp): (LedgerState, seq<Handle>) {
    (l.(pending := Waiting(l.pending, now)), DueHandles(l.pending, now))
  }

  function Earlier(a: Option<Timestamp>, b: Option<Timestamp>): Option<Timestamp> {
    match (a, b)
    case (Some(x), Some(y)) => if y.Before(x) then b else a
    case (None, _) => b
    case (_, None) => a
  }

  /** The earliest deadline still outstanding. */
  function EarliestDeadline(pending: seq<Outstanding>): (r: Option<Timestamp>)
    ensures r.None? <==> pending == []
    ensures r.Some? ==> exists o <- pending :: o.deadline == r.value
    ensures r.Some? ==> forall o <- pending :: r.value.AtMost(o.deadline)
  {
    if pending == [] then None
    else
      var n := |pending| - 1;
      Earlier(EarliestDeadline(pending[..n]), Some(pending[n].deadline))
  }

  function AfterAnswered(l: LedgerState, id: Id, status: Status): LedgerState {
    var kept := if |l.answered| >= l.maxAnswered && l.answered != [] then l.answered[1..] else l.answered;
    l.(answered := kept + [Answer(id, status)])
  }

  /** How this identifier was answered last, if the ring still holds it. */
  function LatestAnswer(answered: seq<Answer>, id: Id): Option<Status> {
    if answered == [] then None
    else
      var n := |answered| - 1;
      if answered[n].id == id then Some(answered[n].status) else LatestAnswer(answered[..n], id)
  }

  // -------------------------------------------------------------------------
  // The ledger as the engines hold it
  // -------------------------------------------------------------------------

  class AckLedger {
    var pending: seq<Outstanding>
    var answered: seq<Answer>
    const maxAnswered: nat

    function View(): LedgerState
      reads this
    {
      LedgerState(pending, answered, maxAnswered)
    }

    constructor (maxAnswered: nat)
      ensures View() == LedgerState([], [], maxAnswered)
    {
      pending, answered := [], [];
      this.maxAnswered := maxAnswered;
    }

    method Sent(h: Handle, sentAt: Timestamp, deadline: Timestamp)
      modifies this
      ensures View() == AfterSent(old(View()), h, sentAt, deadline)
    {
      pending := pending + [Outstanding(h, sentAt, deadline)];
    }

    method Received(subject: Id, status: Status, now: Timestamp) returns (outcome: Outcome)
      modifies this
      ensures (View(), outcome) == AfterReceived(old(View()), subject, status, now)
    {
      var p := 0;
      while p < |pending| && pending[p].handle.id != subject
        invariant 0 <= p <= |pending|
        invariant Position(pending, subject) == p + Position(pending[p..], subject)
      {
        assert pending[p..][1..] == pending[p + 1..];
        p := p + 1;
      }
      if p == |pending| { return AckUnmatched(subject, status); }
      var entry := pending[p];
      pending := pending[..p] + pending[p + 1..];
      var latency := SaturatingDurationSince(now, entry.sentAt);
      if status.Ok? {
        outcome := AckAccepted(entry.handle, latency);
      } else {
        outcome := AckRefused(entry.handle, status, ConsequenceOf(status), latency);
      }
    }

    method Expire(now: Timestamp) returns (out: seq<Handle>)
      modifies this
      ensures (View(), out) == AfterExpire(old(View()), now)
    {
      out := [];
      var kept: seq<Outstanding> := [];
      var k := 0;
      while k < |pending|
        invariant 0 <= k <= |pending|
        invariant kept == Waiting(pending[..k], now) && out == DueHandles(pending[..k], now)
        invariant View() == old(View())
      {
        assert pending[..k + 1][..k] == pending[..k];
        if Due(pending[k], now) {
          out := out + [pending[k].handle];
        } else {
          kept := kept + [pending[k]];
        }
        k := k + 1;
      }
      assert pending[..k] == pending;
      pending := kept;
    }

    method NextDeadline() returns (r: Option<Timestamp>)
      ensures r == EarliestDeadline(pending)
    {
      r := None;
      var k := 0;
      while k < |pending|
        invariant 0 <= k <= |pending|
        invariant r == EarliestDeadline(pending[..k])
      {
        assert pending[..k + 1][..k] == pending[..k];
        r := Earlier(r, Some(pending[k].deadline));
        k := k + 1;
      }
      assert pending[..k] == pending;
    }

    method Answered(id: Id, status: Status)
      modifies this
      ensures View() == AfterAnswered(old(View()), id, status)
    {
      if |answered| >= maxAnswered && answered != [] {
        answered := answered[1..];
      }
      answered := answered + [Answer(id, status)];
    }

    method PreviousAnswer(id: Id) returns (r: Option<Status>)
      ensures r == LatestAnswer(answered, id)
    {
      var k := |answered|;
      assert answered[..k] == answered;
      while k > 0 && answered[k - 1].id != id
        invariant 0 <= k <= |answered|
        invariant LatestAnswer(answered, id) == LatestAnswer(answered[..k], id)
      {
        assert answered[..k][..k - 1] == answered[..k - 1];
        k := k - 1;
      }
      r := if k == 0 then None else Some(answered[k - 1].status);
    }
  }

  // -------------------------------------------------------------------------
  // Conservation over whole runs
  // -------------------------------------------------------------------------

  datatype Op =
    | OpSent(handle: Handle, sentAt: Timestamp, deadline: Timestamp)
    | OpReceived(subject: Id, status: Status, at: Timestamp)
    | OpExpire(now: Timestamp)
    | OpAnswered(id: Id, answer: Status)

  /** What became of every handle so far. */
  datatype Tally = Tally(sent: multiset<Handle>, accepted: multiset<Handle>, refused: multiset<Handle>,
    expired: multiset<Handle>)

  const NOTHING := Tally(multiset{}, multiset{}, multiset{}, multiset{})

  function Apply(l: LedgerState, op: Op): LedgerState {
    match op
    case OpSent(h, s, d) => AfterSent(l, h, s, d)
    case OpReceived(id, s, now) => AfterReceived(l, id, s, now).0
    case OpExpire(now) => AfterExpire(l, now).0
    case OpAnswered(id, s) => AfterAnswered(l, id, s)
  }

  function Count(t: Tally, l: LedgerState, op: Op): Tally {
    match op
    case OpSent(h, _, _) => t.(sent := t.sent + multiset{h})
    case OpReceived(id, s, now) =>
      (match AfterReceived(l, id, s, now).1
       case AckAccepted(h, _) => t.(accepted := t.accepted + multiset{h})
       case AckRefused(h, _, _, _) => t.(refused := t.refused + multiset{h})
       case _ => t)
    case OpExpire(now) => t.(expired := t.expired + multiset(AfterExpire(l, now).1))
    case OpAnswered(_, _) => t
  }

  function Run(l: LedgerState, ops: seq<Op>): (LedgerState, Tally) {
    if ops == [] then (l, NOTHING)
    else
      var before := Run(l, ops[..|ops| - 1]);
      var op := ops[|ops| - 1];
      (Apply(before.0, op), Count(before.1, before.0, op))
  }

  function Handles(pending: seq<Outstanding>): (hs: seq<Handle>)
    ensures |hs| == |pending|
    ensures forall k :: 0 <= k < |pending| ==> hs[k] == pending[k].handle
  {
    seq(|pending|, k requires 0 <= k < |pending| => pending[k].handle)
  }

  ghost predicate Balanced(l: LedgerState, t: Tally) {
    t.sent == multiset(Handles(l.pending)) + t.accepted + t.refused + t.expired
  }

  lemma {:induction false} HandlesSplit(pending: seq<Outstanding>, p: nat)
    requires p < |pending|
    ensures multiset(Handles(pending)) == multiset(Handles(WithoutAt(pending, p))) + multiset{pending[p].handle}
  {
    var a, b := Handles(pending)[..p], Handles(pending)[p + 1..];
    assert Handles(pending) == a + [pending[p].handle] + b;
    assert Handles(WithoutAt(pending, p)) == a + b;
    assert multiset(a + [pending[p].handle] + b) == multiset(a) + multiset{pending[p].handle} + multiset(b);
  }

  lemma {:induction false} HandlesGrow(pending: seq<Outstanding>, o: Outstanding)
    ensures Handles(pending + [o]) == Handles(pending) + [o.handle]
  {
  }

  lemma {:induction false} ExpireSplits(pending: seq<Outstanding>, now: Timestamp)
    ensures multiset(Handles(pending)) == multiset(Handles(Waiting(pending, now))) + multiset(DueHandles(pending, now))
  {
    if pending != [] {
      var n := |pending| - 1;
      ExpireSplits(pending[..n], now);
      HandlesGrow(pending[..n], pending[n]);
      HandlesGrow(Waiting(pending[..n], now), pending[n]);
      assert pending == pending[..n] + [pending[n]];
      hide Handles, Due;
    }
  }

  lemma {:induction false} SendingKeepsBalance(l: LedgerState, t: Tally, h: Handle, s: Timestamp, d: Timestamp)
    requires Balanced(l, t)
    ensures Balanced(AfterSent(l, h, s, d), t.(sent := t.sent + multiset{h}))
  {
    assert Handles(AfterSent(l, h, s, d).pending) == Handles(l.pending) + [h];
  }

  lemma {:induction false} ReceivingKeepsBalance(l: LedgerState, t: Tally, id: Id, s: Status, now: Timestamp)
    requires Balanced(l, t)
    ensures Balanced(AfterReceived(l, id, s, now).0, Count(t, l, OpReceived(id, s, now)))
  {
    var p := Position(l.pending, id);
    if p < |l.pending| { HandlesSplit(l.pending, p); }
    hide Handles, WithoutAt, SaturatingDurationSince;
  }

  lemma {:induction false} StepKeepsBalance(l: LedgerState, t: Tally, op: Op)
    requires Balanced(l, t)
    ensures Balanced(Apply(l, op), Count(t, l, op))
  {
    match op
    case OpSent(h, s, d) => SendingKeepsBalance(l, t, h, s, d);
    case OpReceived(id, s, now) => ReceivingKeepsBalance(l, t, id, s, now);
    case OpExpire(now) => ExpireSplits(l.pending, now); hide Handles, Waiting, DueHandles;
    case OpAnswered(id, s) =>
  }

  /** Every handle ever sent is pending, accepted, refused or expired, exactly once. */
  lemma {:induction false} NothingIsLostOrResolvedTwice(max: nat, ops: seq<Op>)
    ensures var (l, t) := Run(LedgerState([], [], max), ops);
      t.sent == multiset(Handles(l.pending)) + t.accepted + t.refused + t.expired
  {
    if ops != [] {
      NothingIsLostOrResolvedTwice(max, ops[..|ops| - 1]);
      var (l, t) := Run(LedgerState([], [], max), ops[..|ops| - 1]);
      StepKeepsBalance(l, t, ops[|ops| - 1]);
    } else {
      assert Handles([]) == [];
    }
  }

  /** Time passing resolves something exactly when a deadline has been reached, leaves nothing
      due behind, and never produces an answer: the timed-out outcome is unreachable here. */
  lemma {:induction false} ExpireIsExact(l: LedgerState, now: Timestamp)
    ensures AfterExpire(l, now).1 != [] <==>
      EarliestDeadline(l.pending).Some? && EarliestDeadline(l.pending).value.AtMost(now)
    ensures var next := EarliestDeadline(AfterExpire(l, now).0.pending); next.Some? ==> now.Before(next.value)
    ensures AfterExpire(l, now).1 == [] ==> AfterExpire(l, now).0 == l
  {
    SomethingIsDue(l.pending, now);
    var next := EarliestDeadline(l.pending);
    if next.Some? {
      var o :| o in l.pending && o.deadline == next.value;
      forall o <- l.pending ensures next.value.AtMost(o.deadline) {}
      if exists o <- l.pending :: Due(o, now) {
        var d :| d in l.pending && Due(d, now);
        OrderIsChronological(next.value, d.deadline);
        OrderIsChronological(d.deadline, now);
        OrderIsChronological(next.value, now);
      }
    }
    var after := EarliestDeadline(Waiting(l.pending, now));
    if after.Some? {
      var o :| o in Waiting(l.pending, now) && o.deadline == after.value;
      OrderIsChronological(o.deadline, now);
      OrderIsChronological(now, o.deadline);
    }
  }

  lemma {:induction false} SomethingIsDue(pending: seq<Outstanding>, now: Timestamp)
    ensures DueHandles(pending, now) != [] <==> exists o <- pending :: Due(o, now)
    ensures DueHandles(pending, now) == [] ==> Waiting(pending, now) == pending
  {
    if pending != [] {
      var n := |pending| - 1;
      SomethingIsDue(pending[..n], now);
      assert pending == pending[..n] + [pending[n]];
    }
  }

  lemma {:induction false} AnswersAreNeverTimeouts(l: LedgerState, subject: Id, status: Status, now: Timestamp)
    ensures !AfterReceived(l, subject, status, now).1.AckTimedOut?
  {
  }

  // -------------------------------------------------------------------------
  // The bounded ring refines an unbounded history
  // -------------------------------------------------------------------------

  /** Every answer given along a run, oldest first. */
  function History(ops: seq<Op>): seq<Answer> {
    if ops == [] then []
    else
      var n := |ops| - 1;
      History(ops[..n]) + (if ops[n].OpAnswered? then [Answer(ops[n].id, ops[n].answer)] else [])
  }

  function Last<T>(s: seq<T>, n: nat): seq<T> {
    if |s| <= n then s else s[|s| - n..]
  }

  lemma {:induction false} RingIsTheRecentHistory(max: nat, ops: seq<Op>)
    requires max > 0
    ensures Run(LedgerState([], [], max), ops).0.answered == Last(History(ops), max)
    ensures Run(LedgerState([], [], max), ops).0.maxAnswered == max
  {
    if ops != [] {
      var n := |ops| - 1;
      RingIsTheRecentHistory(max, ops[..n]);
      var l := Run(LedgerState([], [], max), ops[..n]).0;
      StepOnTheRing(l, ops[n]);
      hide Apply;
      if ops[n].OpAnswered? { LastOfLonger(History(ops[..n]), Answer(ops[n].id, ops[n].answer), max); }
    }
  }

  lemma {:induction false} StepOnTheRing(l: LedgerState, op: Op)
    ensures Apply(l, op).maxAnswered == l.maxAnswered
    ensures Apply(l, op).answered == if op.OpAnswered? then AfterAnswered(l, op.id, op.answer).answered else l.answered
  {
    hide Waiting, DueHandles, Position, SaturatingDurationSince;
  }

  lemma {:induction false} LastOfLonger(history: seq<Answer>, a: Answer, max: nat)
    requires max > 0
    ensures AfterAnswered(LedgerState([], Last(history, max), max), a.id, a.status).answered == Last(history + [a], max)
  {
  }

  /** `answered[k]` is the last answer to this identifier. */
  ghost predicate IsLatest(answered: seq<Answer>, id: Id, k: int) {
    0 <= k < |answered| && answered[k].id == id && forall j :: k < j < |answered| ==> answered[j].id != id
  }

  /** The ring gives the latest recorded answer, and gives one exactly for what it still holds. */
  lemma {:induction false} LatestAnswerIsTheLatest(answered: seq<Answer>, id: Id)
    ensures LatestAnswer(answered, id).Some? <==> exists a <- answered :: a.id == id
    ensures LatestAnswer(answered, id).Some? ==>
      exists k :: IsLatest(answered, id, k) && answered[k].status == LatestAnswer(answered, id).value
  {
    if answered != [] {
      var n := |answered| - 1;
      var front := answered[..n];
      assert answered == front + [answered[n]];
      LatestAnswerIsTheLatest(front, id);
      if answered[n].id == id {
        assert IsLatest(answered, id, n);
      } else if LatestAnswer(front, id).Some? {
        var k :| IsLatest(front, id, k) && front[k].status == LatestAnswer(front, id).value;
        assert IsLatest(answered, id, k);
      }
    }
  }
}
