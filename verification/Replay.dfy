/** Replaying a recorded conversation: the indexes it looks answers up in say what a scan of every
    line would say, and every message that needs an answer is accounted for. */
module Replay {
  import opened Time
  import opened Messages

  datatype Direction = RmToCem | CemToRm {
    function Other(): Direction { if RmToCem? then CemToRm else RmToCem }
  }

  /** Identifiers, as the numbers that order them; zero is the nil identifier. */
  datatype Key = Key(direction: Direction, id: nat)

  const NIL_ID: nat := 0

  /** One line of a transcript, with what the decoder and the observer make of it: the answer it
      gives if it is a status that decodes, its own identifier if it is anything else, the message
      the observer reads, the status it would answer with, and the rules it finds broken. */
  datatype Line = Line(
    direction: Direction,
    answer: Option<(nat, Status)>,
    peeked: Option<nat>,
    observed: Option<Observed>,
    expected: Status,
    violations: seq<nat>)

  datatype Observed = AStatus(subject: nat) | AMessage(id: nat)

  datatype Finding =
    | Violation(line: nat, rule: nat)
    | StatusDiffers(line: nat, recorded: Status, expected: Status)
    | Unanswered(line: nat, id: nat)
    | UnmatchedAnswer(line: nat, subject: nat)

  datatype Report = Report(findings: seq<Finding>, lines: nat, answered: nat)

  // -------------------------------------------------------------------------
  // Sorted indexes
  // -------------------------------------------------------------------------

  datatype Entry<V> = Entry(key: Key, value: V)

  function Rank(d: Direction): nat { if d.CemToRm? then 0 else 1 }

  predicate AtMost(a: Key, b: Key) {
    Rank(a.direction) < Rank(b.direction) || (a.direction == b.direction && a.id <= b.id)
  }

  ghost predicate Sorted<V>(v: seq<Entry<V>>) {
    forall i, j :: 0 <= i < j < |v| ==> AtMost(v[i].key, v[j].key)
  }

  method Sort<V>(v: seq<Entry<V>>) returns (r: seq<Entry<V>>)
    ensures Sorted(r)
    ensures forall e :: e in r <==> e in v
  {
    r := [];
    var k := 0;
    while k < |v|
      invariant 0 <= k <= |v| && Sorted(r)
      invariant forall e :: e in r <==> e in v[..k]
    {
      assert v[..k + 1] == v[..k] + [v[k]];
      r := InsertSorted(r, v[k]);
      k := k + 1;
    }
    assert v[..k] == v;
  }

  method InsertSorted<V>(v: seq<Entry<V>>, x: Entry<V>) returns (r: seq<Entry<V>>)
    requires Sorted(v)
    ensures Sorted(r)
    ensures forall e :: e in r <==> e in v || e == x
  {
    hide AtMost;
    var k := |v|;
    while k > 0 && !AtMost(v[k - 1].key, x.key)
      invariant 0 <= k <= |v|
      invariant forall j :: k <= j < |v| ==> AtMost(x.key, v[j].key)
    {
      OrderIsTransitive(v[k - 1].key, x.key, x.key);
      k := k - 1;
    }
    Spliced(v, k, x);
    r := v[..k] + [x] + v[k..];
  }

  lemma {:induction false} OrderIsTransitive(a: Key, b: Key, c: Key)
    ensures AtMost(a, b) && AtMost(b, c) ==> AtMost(a, c)
    ensures AtMost(a, b) || AtMost(b, a)
  {
  }

  lemma {:induction false} Spliced<V>(v: seq<Entry<V>>, k: nat, x: Entry<V>)
    requires Sorted(v) && k <= |v| && (k > 0 ==> AtMost(v[k - 1].key, x.key))
    requires forall j :: k <= j < |v| ==> AtMost(x.key, v[j].key)
    ensures Sorted(v[..k] + [x] + v[k..])
    ensures forall e :: e in v[..k] + [x] + v[k..] <==> e in v || e == x
  {
    hide AtMost;
    var a, b := v[..k], v[k..];
    var r := a + [x] + b;
    assert v == a + b;
    assert forall e :: e in a + b <==> e in a || e in b;
    forall j | 0 <= j < k ensures AtMost(v[j].key, x.key) { OrderIsTransitive(v[j].key, v[k - 1].key, x.key); }
    assert forall i :: 0 <= i < |r| ==> r[i] == if i < k then v[i] else if i == k then x else v[i - 1];
  }

  /** Any one entry with the key, if there is one. */
  method Search<V>(v: seq<Entry<V>>, key: Key) returns (found: Option<V>)
    requires Sorted(v)
    ensures found.Some? ==> Entry(key, found.value) in v
    ensures found.None? ==> forall e <- v :: e.key != key
  {
    var lo, hi := 0, |v|;
    while lo < hi
      invariant 0 <= lo <= hi <= |v|
      invariant forall j :: 0 <= j < lo ==> v[j].key != key
      invariant forall j :: hi <= j < |v| ==> v[j].key != key
    {
      var mid := (lo + hi) / 2;
      if v[mid].key == key { return Some(v[mid].value); }
      if AtMost(v[mid].key, key) { lo := mid + 1; } else { hi := mid; }
    }
    found := None;
  }

  // -------------------------------------------------------------------------
  // What a scan of the whole transcript says
  // -------------------------------------------------------------------------

  /** Some line going this way answers this identifier with this status. */
  ghost predicate Answers(lines: seq<Line>, direction: Direction, id: nat, status: Status) {
    exists l <- lines :: l.direction == direction && l.answer == Some((id, status))
  }

  /** Some line going this way, not an answer, bears this identifier. */
  ghost predicate Sent(lines: seq<Line>, direction: Direction, id: nat) {
    exists l <- lines :: l.direction == direction && l.answer.None? && l.peeked == Some(id)
  }

  /** What is about the receiver is nothing an observer can disagree with. */
  predicate Disagrees(recorded: Status, expected: Status) {
    recorded != expected && !recorded.TemporaryError? && !recorded.PermanentError?
  }

  function ViolationsOf(line: nat, rules: seq<nat>): seq<Finding> {
    seq(|rules|, k requires 0 <= k < |rules| => Violation(line, rules[k]))
  }

  /** The findings about line `n`, by a scan of every other line. */
  ghost predicate Judged(lines: seq<Line>, n: nat, found: seq<Finding>)
    requires n < |lines|
  {
    var l := lines[n];
    var own := ViolationsOf(n + 1, l.violations);
    match l.observed
    case None => found == own
    case Some(AStatus(subject)) =>
      found == own + if subject != NIL_ID && !Sent(lines, l.direction.Other(), subject)
        then [UnmatchedAnswer(n + 1, subject)] else []
    case Some(AMessage(id)) =>
      || (found == own + [Unanswered(n + 1, id)] && forall s :: !Answers(lines, l.direction.Other(), id, s))
      || exists s :: Answers(lines, l.direction.Other(), id, s)
           && found == own + if Disagrees(s, l.expected) then [StatusDiffers(n + 1, s, l.expected)] else []
  }

  function Joined(byLine: seq<seq<Finding>>): seq<Finding> {
    if byLine == [] then [] else Joined(byLine[..|byLine| - 1]) + byLine[|byLine| - 1]
  }

  function CountUnanswered(findings: seq<Finding>): nat {
    if findings == [] then 0
    else CountUnanswered(findings[..|findings| - 1]) + (if findings[|findings| - 1].Unanswered? then 1 else 0)
  }

  /** How many lines carry a message that needs an answer. */
  function Needing(lines: seq<Line>): nat {
    if lines == [] then 0
    else
      var l := lines[|lines| - 1];
      Needing(lines[..|lines| - 1]) + (if l.observed.Some? && l.observed.value.AMessage? then 1 else 0)
  }

  // -------------------------------------------------------------------------
  // The replay
  // -------------------------------------------------------------------------

  ghost predicate IndexesAnswers(lines: seq<Line>, index: seq<Entry<Status>>) {
    forall d, id, s :: Entry(Key(d, id), s) in index <==> Answers(lines, d, id, s)
  }

  ghost predicate IndexesSent(lines: seq<Line>, index: seq<Entry<()>>) {
    forall d, id :: HasKey(index, Key(d, id)) <==> Sent(lines, d, id)
  }

  ghost predicate HasKey<V>(index: seq<Entry<V>>, key: Key) { exists e <- index :: e.key == key }

  lemma {:induction false} OneMoreKey<V>(index: seq<Entry<V>>, e: Entry<V>)
    ensures forall key :: HasKey(index + [e], key) <==> HasKey(index, key) || key == e.key
  {
    forall key ensures HasKey(index + [e], key) <==> HasKey(index, key) || key == e.key {
      if HasKey(index, key) {
        var x :| x in index && x.key == key;
        assert x in index + [e];
      }
      assert (index + [e])[|index|] == e;
    }
  }

  /** One pass over the transcript, and two sorts. */
  method BuildIndexes(lines: seq<Line>) returns (answers: seq<Entry<Status>>, sent: seq<Entry<()>>)
    ensures Sorted(answers) && Sorted(sent) && IndexesAnswers(lines, answers) && IndexesSent(lines, sent)
  {
    var a: seq<Entry<Status>>, s: seq<Entry<()>> := [], [];
    var k := 0;
    while k < |lines|
      invariant 0 <= k <= |lines|
      invariant IndexesAnswers(lines[..k], a) && IndexesSent(lines[..k], s)
    {
      var l := lines[k];
      assert lines[..k + 1] == lines[..k] + [l];
      if l.answer.Some? {
        a := a + [Entry(Key(l.direction, l.answer.value.0), l.answer.value.1)];
      } else if l.peeked.Some? {
        OneMoreKey(s, Entry(Key(l.direction, l.peeked.value), ()));
        s := s + [Entry(Key(l.direction, l.peeked.value), ())];
      }
      k := k + 1;
    }
    assert lines[..k] == lines;
    answers := Sort(a);
    sent := Sort(s);
  }

  /** What one line gives rise to, looked up in the indexes. */
  method JudgeLine(lines: seq<Line>, n: nat, answers: seq<Entry<Status>>, sent: seq<Entry<()>>)
    returns (found: seq<Finding>, answered: bool)
    requires n < |lines| && Sorted(answers) && Sorted(sent) && IndexesAnswers(lines, answers)
    requires IndexesSent(lines, sent)
    ensures Judged(lines, n, found)
    ensures answered <==> lines[n].observed.Some? && lines[n].observed.value.AMessage? && CountUnanswered(found) == 0
    ensures CountUnanswered(found) <= 1
    ensures CountUnanswered(found) == 1 ==> lines[n].observed.Some? && lines[n].observed.value.AMessage?
  {
    var l := lines[n];
    found, answered := ViolationsOf(n + 1, l.violations), false;
    NoneUnanswered(n + 1, l.violations);
    assert found + [] == found;
    match l.observed {
      case None =>
      case Some(AStatus(subject)) =>
        var was := Search(sent, Key(l.direction.Other(), subject));
        assert was.Some? <==> Sent(lines, l.direction.Other(), subject);
        if was.None? && subject != NIL_ID { found := Extended(found, UnmatchedAnswer(n + 1, subject)); }
      case Some(AMessage(id)) =>
        var recorded := Search(answers, Key(l.direction.Other(), id));
        if recorded.None? {
          assert forall s :: Entry(Key(l.direction.Other(), id), s) !in answers;
          found := Extended(found, Unanswered(n + 1, id));
        } else {
          answered := true;
          assert Answers(lines, l.direction.Other(), id, recorded.value);
          if Disagrees(recorded.value, l.expected) {
            found := Extended(found, StatusDiffers(n + 1, recorded.value, l.expected));
          }
        }
    }
  }

  function Extended(findings: seq<Finding>, f: Finding): (r: seq<Finding>)
    ensures r == findings + [f]
    ensures CountUnanswered(r) == CountUnanswered(findings) + (if f.Unanswered? then 1 else 0)
  {
    assert (findings + [f])[..|findings|] == findings;
    findings + [f]
  }

  lemma {:induction false} NoneUnanswered(line: nat, rules: seq<nat>)
    ensures CountUnanswered(ViolationsOf(line, rules)) == 0
    decreases |rules|
  {
    if rules != [] {
      var n := |rules| - 1;
      assert ViolationsOf(line, rules)[..n] == ViolationsOf(line, rules[..n]);
      NoneUnanswered(line, rules[..n]);
    }
  }

  lemma {:induction false} CountsAdd(a: seq<Finding>, b: seq<Finding>)
    ensures CountUnanswered(a + b) == CountUnanswered(a) + CountUnanswered(b)
  {
    if b == [] {
      assert a + b == a;
    } else {
      assert (a + b)[..|a + b| - 1] == a + b[..|b| - 1];
      CountsAdd(a, b[..|b| - 1]);
    }
  }

  lemma {:induction false} NoneInNothing()
    ensures CountUnanswered([]) == 0
  {
  }

  /** Replay the transcript: each line is judged as a scan of every line would judge it, and each
      message that needs an answer is counted as answered or reported as unanswered, never both. */
  method ReplayWith(lines: seq<Line>) returns (report: Report, ghost byLine: seq<seq<Finding>>)
    ensures report.lines == |lines| == |byLine|
    ensures report.findings == Joined(byLine) && forall n :: 0 <= n < |lines| ==> Judged(lines, n, byLine[n])
    ensures report.answered + CountUnanswered(report.findings) == Needing(lines)
  {
    var answers, sent := BuildIndexes(lines);
    hide Judged, IndexesAnswers, IndexesSent, Sorted, CountUnanswered;
    var findings: seq<Finding>, answered := [], 0;
    NoneInNothing();
    byLine := [];
    var n := 0;
    while n < |lines|
      invariant 0 <= n <= |lines| && |byLine| == n
      invariant findings == Joined(byLine) && forall k :: 0 <= k < n ==> Judged(lines, k, byLine[k])
      invariant answered + CountUnanswered(findings) == Needing(lines[..n])
    {
      var found, one := JudgeLine(lines, n, answers, sent);
      CountsAdd(findings, found);
      assert (byLine + [found])[..n] == byLine;
      assert lines[..n + 1][..n] == lines[..n];
      findings, byLine := findings + found, byLine + [found];
      if one { answered := answered + 1; }
      n := n + 1;
    }
    assert lines[..n] == lines;
    report := Report(findings, |lines|, answered);
  }

  /** The findings come out in line order as they are, so sorting them by line changes nothing. */
  lemma {:induction false} FindingsAreInLineOrder(lines: seq<Line>, byLine: seq<seq<Finding>>)
    requires |byLine| <= |lines| && forall n :: 0 <= n < |byLine| ==> Judged(lines, n, byLine[n])
    ensures forall i, j :: 0 <= i < j < |Joined(byLine)| ==> Joined(byLine)[i].line <= Joined(byLine)[j].line
    ensures forall f <- Joined(byLine) :: f.line <= |byLine|
    decreases |byLine|
  {
    if byLine != [] {
      var n := |byLine| - 1;
      assert forall k :: 0 <= k < n ==> byLine[..n][k] == byLine[k];
      FindingsAreInLineOrder(lines, byLine[..n]);
      assert Judged(lines, n, byLine[n]);
      assert forall f <- byLine[n] :: f.line == n + 1;
      var front := Joined(byLine[..n]);
      assert forall i :: 0 <= i < |front| ==> front[i] in front;
      assert forall j :: 0 <= j < |byLine[n]| ==> byLine[n][j] in byLine[n];
    }
  }

  /** Some line answers this message as it should be answered, or says that the receiver could not. */
  ghost predicate AnsweredWell(lines: seq<Line>, l: Line, id: nat) {
    exists s :: Answers(lines, l.direction.Other(), id, s)
      && (s == l.expected || s == TemporaryError || s == PermanentError)
  }

  /** No message of the transcript is answered twice over, differently. */
  ghost predicate AnswersAreOne(lines: seq<Line>) {
    forall d, id, s, t :: Answers(lines, d, id, s) && Answers(lines, d, id, t) ==> s == t
  }

  /** A transcript is without findings exactly when no line breaks a rule, every answer is to a message
      that was sent the other way or to none that could be named, and every message is answered well. */
  lemma {:induction false} ConformingExactly(lines: seq<Line>, byLine: seq<seq<Finding>>)
    requires |byLine| == |lines| && forall n :: 0 <= n < |lines| ==> Judged(lines, n, byLine[n])
    requires AnswersAreOne(lines)
    ensures Joined(byLine) == [] <==> forall n :: 0 <= n < |lines| ==> IsInOrder(lines, lines[n])
  {
    NothingJoined(byLine);
    hide Joined;
    forall n | 0 <= n < |lines| ensures byLine[n] == [] <==> IsInOrder(lines, lines[n]) {
      assert Judged(lines, n, byLine[n]);
      hide AnswersAreOne, Answers, Sent;
      OneAnswer(lines, lines[n]);
    }
  }

  ghost predicate IsInOrder(lines: seq<Line>, l: Line) {
    l.violations == [] &&
    match l.observed
    case None => true
    case Some(AStatus(subject)) => subject == 0 || Sent(lines, l.direction.Other(), subject)
    case Some(AMessage(id)) => AnsweredWell(lines, l, id)
  }

  lemma {:induction false} OneAnswer(lines: seq<Line>, l: Line)
    requires AnswersAreOne(lines)
    ensures forall id, s :: Answers(lines, l.direction.Other(), id, s) ==>
      (AnsweredWell(lines, l, id) <==> s == l.expected || s == TemporaryError || s == PermanentError)
  {
    hide Answers;
  }

  lemma {:induction false} NothingJoined(byLine: seq<seq<Finding>>)
    ensures Joined(byLine) == [] <==> forall n :: 0 <= n < |byLine| ==> byLine[n] == []
  {
    if byLine != [] {
      var n := |byLine| - 1;
      NothingJoined(byLine[..n]);
      assert forall k :: 0 <= k < n ==> byLine[..n][k] == byLine[k];
    }
  }
}
