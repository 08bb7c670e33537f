/** Power Profile Based Control: when each chosen sequence of a profile may run. */
module Scheduling {
  import opened Ids
  import opened Time

  datatype Element = Element(duration: Duration, power: Body)

  datatype Sequence = Sequence(id: Id, elements: seq<Element>, maxPauseBefore: Option<Duration>)

  datatype Container = Container(id: Id, sequences: seq<Sequence>)

  datatype Profile = Profile(id: Id, startTime: Timestamp, endTime: Timestamp, containers: seq<Container>)

  datatype Window = Window(container: Id, sequence: Id, earliestStart: Timestamp, latestStart: Timestamp,
                           duration: Duration, maxPauseBefore: Option<Duration>)
  {
    predicate IsFeasible() { earliestStart.AtMost(latestStart) }
  }

  datatype ResolveError =
    | WrongContainer(position: nat, expected: Id, found: Option<Id>)
    | UnknownSequence(sequence: Id)

  datatype ScheduleProblem =
    | NotSchedulable(error: ResolveError)
    | WrongCount(given: nat, needed: nat)
    | TooEarly(early: Id)
    | Overruns(late: Id)
    | PauseTooLong(idle: Id)

  datatype Result<+T, +E> = Ok(value: T) | Err(error: E)

  /** How long a sequence takes; an element whose addition overflows is skipped. */
  function TotalDuration(elements: seq<Element>): Duration {
    if elements == [] then 0
    else
      var acc := TotalDuration(elements[..|elements| - 1]);
      match CheckedU64(acc + elements[|elements| - 1].duration)
      case Some(sum) => sum
      case None => acc
  }

  function FindContainer(containers: seq<Container>, id: Id): Option<Container> {
    if containers == [] then None
    else if containers[0].id == id then Some(containers[0])
    else FindContainer(containers[1..], id)
  }

  function FindSequence(sequences: seq<Sequence>, id: Id): Option<Sequence> {
    if sequences == [] then None
    else if sequences[0].id == id then Some(sequences[0])
    else FindSequence(sequences[1..], id)
  }

  /** A choice of sequence, read against the profile. */
  datatype Choice = Choice(container: Id, sequence: Sequence) {
    function Duration(): Duration { TotalDuration(sequence.elements) }
  }

  function ResolveChoice(profile: Profile, chosen: (Id, Id)): Option<Choice> {
    match FindContainer(profile.containers, chosen.0)
    case None => None
    case Some(container) =>
      match FindSequence(container.sequences, chosen.1)
      case None => None
      case Some(sequence) => Some(Choice(container.id, sequence))
  }

  // -------------------------------------------------------------------------
  // What `schedule` computes
  // -------------------------------------------------------------------------

  /** The first position at or after `k` where the choices do not follow the profile's order. */
  function Mismatch(profile: Profile, chosen: seq<(Id, Id)>, k: nat): Option<ResolveError>
    requires k <= |profile.containers|
    decreases |profile.containers| - k
  {
    if k == |profile.containers| then
      if |chosen| > k then Some(WrongContainer(k, profile.id, Some(chosen[k].0))) else None
    else
      var found := if k < |chosen| then Some(chosen[k].0) else None;
      if found != Some(profile.containers[k].id)
      then Some(WrongContainer(k, profile.containers[k].id, found))
      else Mismatch(profile, chosen, k + 1)
  }

  function ResolveAll(profile: Profile, chosen: seq<(Id, Id)>): (r: Result<seq<Choice>, ResolveError>)
    ensures r.Ok? ==> |r.value| == |chosen|
  {
    if chosen == [] then Ok([])
    else
      var n := |chosen| - 1;
      match ResolveAll(profile, chosen[..n])
      case Err(e) => Err(e)
      case Ok(front) =>
        match ResolveChoice(profile, chosen[n])
        case None => Err(UnknownSequence(chosen[n].1))
        case Some(choice) => Ok(front + [choice])
  }

  /** The time everything from choice `k` on needs. */
  function Needed(choices: seq<Choice>, k: nat): (n: nat)
    requires k <= |choices|
    decreases |choices| - k
  {
    if k == |choices| then 0 else choices[k].Duration() + Needed(choices, k + 1)
  }

  function Earliest(profile: Profile, choices: seq<Choice>, k: nat): Timestamp
    requires k < |choices|
  {
    if k == 0 then profile.startTime
    else
      var previous := Earliest(profile, choices, k - 1);
      match CheckedAdd(previous, choices[k - 1].Duration())
      case Some(t) => t
      case None => previous
  }

  function Latest(profile: Profile, needed: Duration): Timestamp {
    match CheckedSub(profile.endTime, needed)
    case Some(t) => t
    case None => profile.startTime
  }

  function WindowAt(profile: Profile, choices: seq<Choice>, k: nat): Window
    requires k < |choices| && Needed(choices, k) <= U64_MAX
  {
    var c := choices[k];
    Window(c.container, c.sequence.id, Earliest(profile, choices, k), Latest(profile, Needed(choices, k)),
           c.Duration(), c.sequence.maxPauseBefore)
  }

  lemma {:induction false} NeededDecreases(choices: seq<Choice>, k: nat, j: nat)
    requires k <= j <= |choices|
    ensures Needed(choices, j) <= Needed(choices, k)
    decreases j - k
  {
    if k < j { NeededDecreases(choices, k + 1, j); }
  }

  function Windows(profile: Profile, choices: seq<Choice>): (ws: seq<Window>)
    requires Needed(choices, 0) <= U64_MAX
    ensures |ws| == |choices|
    ensures forall k :: 0 <= k < |choices| ==> Needed(choices, k) <= U64_MAX && ws[k] == WindowAt(profile, choices, k)
  {
    assert forall k :: 0 <= k < |choices| ==> Needed(choices, k) <= U64_MAX by {
      forall k | 0 <= k < |choices| ensures Needed(choices, k) <= U64_MAX { NeededDecreases(choices, 0, k); }
    }
    seq(|choices|, k requires 0 <= k < |choices| => WindowAt(profile, choices, k))
  }

  function Scheduled(profile: Profile, chosen: seq<(Id, Id)>): Result<seq<Window>, ResolveError> {
    match Mismatch(profile, chosen, 0)
    case Some(e) => Err(e)
    case None =>
      match ResolveAll(profile, chosen)
      case Err(e) => Err(e)
      case Ok(choices) =>
        if Needed(choices, 0) <= U64_MAX then Ok(Windows(profile, choices)) else Err(UnknownSequence(profile.id))
  }

  // -------------------------------------------------------------------------
  // `schedule` as it runs: a check, a resolving pass, a backward and a forward pass
  // -------------------------------------------------------------------------

  method CheckOrder(profile: Profile, chosen: seq<(Id, Id)>) returns (r: Option<ResolveError>)
    ensures r == Mismatch(profile, chosen, 0)
  {
    var position := 0;
    while position < |profile.containers|
      invariant 0 <= position <= |profile.containers|
      invariant Mismatch(profile, chosen, 0) == Mismatch(profile, chosen, position)
    {
      var found := if position < |chosen| then Some(chosen[position].0) else None;
      if found != Some(profile.containers[position].id) {
        return Some(WrongContainer(position, profile.containers[position].id, found));
      }
      position := position + 1;
    }
    if |chosen| > |profile.containers| {
      return Some(WrongContainer(position, profile.id, Some(chosen[position].0)));
    }
    return None;
  }

  lemma {:induction false} ResolveFailsTogether(profile: Profile, chosen: seq<(Id, Id)>, k: nat)
    requires k <= |chosen| && ResolveAll(profile, chosen[..k]).Err?
    ensures ResolveAll(profile, chosen) == ResolveAll(profile, chosen[..k])
    decreases |chosen| - k
  {
    if k == |chosen| {
      assert chosen[..k] == chosen;
    } else {
      assert chosen[..k + 1][..k] == chosen[..k];
      ResolveFailsTogether(profile, chosen, k + 1);
    }
  }

  method ResolveEach(profile: Profile, chosen: seq<(Id, Id)>) returns (r: Result<seq<Choice>, ResolveError>)
    ensures r == ResolveAll(profile, chosen)
  {
    var resolved: seq<Choice> := [];
    var k := 0;
    while k < |chosen|
      invariant 0 <= k <= |chosen|
      invariant ResolveAll(profile, chosen[..k]) == Ok(resolved)
    {
      assert chosen[..k + 1][..k] == chosen[..k];
      var choice := ResolveChoice(profile, chosen[k]);
      if choice.None? {
        ResolveFailsTogether(profile, chosen, k + 1);
        return Err(UnknownSequence(chosen[k].1));
      }
      resolved := resolved + [choice.value];
      k := k + 1;
    }
    assert chosen[..k] == chosen;
    return Ok(resolved);
  }

  /** Backwards: how much time everything from each choice onwards needs. */
  method BackwardPass(choices: seq<Choice>) returns (r: Option<seq<Duration>>)
    ensures r.Some? <==> Needed(choices, 0) <= U64_MAX
    ensures r.Some? ==> |r.value| == |choices|
    ensures r.Some? ==> forall k :: 0 <= k < |choices| ==> r.value[k] == Needed(choices, k)
  {
    var reversed: seq<Duration> := [];
    var running: Duration := 0;
    var k := |choices|;
    while k > 0
      invariant 0 <= k <= |choices| && |reversed| == |choices| - k
      invariant running == Needed(choices, k)
      invariant forall j :: k <= j < |choices| ==> reversed[|choices| - 1 - j] == Needed(choices, j)
    {
      k := k - 1;
      var sum := CheckedU64(running + choices[k].Duration());
      if sum.None? {
        NeededDecreases(choices, 0, k);
        return None;
      }
      running := sum.value;
      reversed := reversed + [running];
    }
    return Some(seq(|choices|, i requires 0 <= i < |choices| => reversed[|choices| - 1 - i]));
  }

  /** Forwards: each window opens when its predecessor's earliest run finishes. */
  method ForwardPass(profile: Profile, choices: seq<Choice>, tail: seq<Duration>) returns (out: seq<Window>)
    requires Needed(choices, 0) <= U64_MAX && |tail| == |choices|
    requires forall k :: 0 <= k < |choices| ==> tail[k] == Needed(choices, k)
    ensures out == Windows(profile, choices)
  {
    hide CheckedAdd, CheckedSub;
    out := [];
    var k := 0;
    while k < |choices|
      invariant 0 <= k <= |choices| && |out| == k
      invariant forall j :: 0 <= j < k ==> out[j] == Windows(profile, choices)[j]
    {
      var earliest := profile.startTime;
      if k > 0 {
        var previous := out[k - 1];
        var next := CheckedAdd(previous.earliestStart, previous.duration);
        earliest := if next.Some? then next.value else previous.earliestStart;
      }
      var c := choices[k];
      var w := Window(c.container, c.sequence.id, earliest, Latest(profile, tail[k]), c.Duration(),
        c.sequence.maxPauseBefore);
      assert w == Windows(profile, choices)[k];
      out := out + [w];
      k := k + 1;
    }
  }

  method Schedule(profile: Profile, chosen: seq<(Id, Id)>) returns (r: Result<seq<Window>, ResolveError>)
    ensures r == Scheduled(profile, chosen)
  {
    var mismatch := CheckOrder(profile, chosen);
    if mismatch.Some? { return Err(mismatch.value); }
    var resolved := ResolveEach(profile, chosen);
    if resolved.Err? { return Err(resolved.error); }
    var tail := BackwardPass(resolved.value);
    if tail.None? { return Err(UnknownSequence(profile.id)); }
    var windows := ForwardPass(profile, resolved.value, tail.value);
    return Ok(windows);
  }

  function IsSchedulable(profile: Profile, chosen: seq<(Id, Id)>): bool {
    var s := Scheduled(profile, chosen);
    s.Ok? && forall w <- s.value :: w.IsFeasible()
  }

  // -------------------------------------------------------------------------
  // Feasibility of given starts
  // -------------------------------------------------------------------------

  /** Checking the starts from position `k` on, the previous sequence ending at `previousEnd`. */
  function CheckFrom(profile: Profile, ws: seq<Window>, starts: seq<Timestamp>, k: nat,
                     previousEnd: Option<Timestamp>): Result<(), ScheduleProblem>
    requires k <= |ws| == |starts|
    decreases |ws| - k
  {
    if k == |ws| then Ok(())
    else
      match CheckOne(profile, ws[k], starts[k], previousEnd)
      case Err(e) => Err(e)
      case Ok(end) => CheckFrom(profile, ws, starts, k + 1, Some(end))
  }

  function CheckOne(profile: Profile, w: Window, start: Timestamp, previousEnd: Option<Timestamp>)
    : Result<Timestamp, ScheduleProblem>
  {
    var notBefore := if previousEnd.Some? then previousEnd.value else profile.startTime;
    if start.Before(notBefore) then Err(TooEarly(w.sequence))
    else if previousEnd.Some? && w.maxPauseBefore.Some?
         && SaturatingDurationSince(start, previousEnd.value) > w.maxPauseBefore.value
            then Err(PauseTooLong(w.sequence))
    else
      var ends := CheckedAdd(start, w.duration);
      var end := if ends.Some? then ends.value else profile.endTime;
      if profile.endTime.Before(end) then Err(Overruns(w.sequence)) else Ok(end)
  }

  function Feasible(profile: Profile, chosen: seq<(Id, Id)>, starts: seq<Timestamp>): Result<(), ScheduleProblem> {
    match Scheduled(profile, chosen)
    case Err(e) => Err(NotSchedulable(e))
    case Ok(ws) =>
      if |starts| != |ws| then Err(WrongCount(|starts|, |ws|)) else CheckFrom(profile, ws, starts, 0, None)
  }

  method StartsAreFeasible(profile: Profile, chosen: seq<(Id, Id)>, starts: seq<Timestamp>)
    returns (r: Result<(), ScheduleProblem>)
    ensures r == Feasible(profile, chosen, starts)
  {
    hide Scheduled, CheckedAdd, CheckedDurationSince;
    var scheduled := Schedule(profile, chosen);
    if scheduled.Err? { return Err(NotSchedulable(scheduled.error)); }
    var ws := scheduled.value;
    if |starts| != |ws| { return Err(WrongCount(|starts|, |ws|)); }
    var previousEnd: Option<Timestamp> := None;
    var k := 0;
    while k < |ws|
      invariant 0 <= k <= |ws|
      invariant CheckFrom(profile, ws, starts, 0, None) == CheckFrom(profile, ws, starts, k, previousEnd)
    {
      var notBefore := if previousEnd.Some? then previousEnd.value else profile.startTime;
      if starts[k].Before(notBefore) { return Err(TooEarly(ws[k].sequence)); }
      if previousEnd.Some? && ws[k].maxPauseBefore.Some? {
        var idle := SaturatingDurationSince(starts[k], previousEnd.value);
        if idle > ws[k].maxPauseBefore.value { return Err(PauseTooLong(ws[k].sequence)); }
      }
      var ends := CheckedAdd(starts[k], ws[k].duration);
      var end := if ends.Some? then ends.value else profile.endTime;
      if profile.endTime.Before(end) { return Err(Overruns(ws[k].sequence)); }
      previousEnd := Some(end);
      k := k + 1;
    }
    return Ok(());
  }

  // -------------------------------------------------------------------------
  // What is chosen, read off the profile
  // -------------------------------------------------------------------------

  ghost function Sum(elements: seq<Element>): nat {
    if elements == [] then 0 else Sum(elements[..|elements| - 1]) + elements[|elements| - 1].duration
  }

  /** The time computed for a sequence is the sum of its elements exactly when a duration can hold it. */
  lemma {:induction false} TotalDurationIsTheSum(elements: seq<Element>)
    ensures TotalDuration(elements) <= Sum(elements)
    ensures TotalDuration(elements) == Sum(elements) <==> Sum(elements) <= U64_MAX
  {
    if elements != [] { TotalDurationIsTheSum(elements[..|elements| - 1]); }
  }

  /** One more element adds its time, unless no duration can hold the total; then it is skipped. */
  lemma {:induction false} OverflowsAreSkipped(elements: seq<Element>, x: Element)
    ensures var total := TotalDuration(elements);
      TotalDuration(elements + [x]) == if total + x.duration <= U64_MAX then total + x.duration else total
  {
    assert (elements + [x])[..|elements|] == elements;
  }

  /** How long a sequence takes: what its elements take together or, if no duration can hold that,
      what the code makes of it. */
  ghost function Length(s: Sequence): Duration {
    if Sum(s.elements) <= U64_MAX then Sum(s.elements) else TotalDuration(s.elements)
  }

  lemma {:induction false} LengthIsComputed(s: Sequence)
    ensures Length(s) == TotalDuration(s.elements)
  {
    TotalDurationIsTheSum(s.elements);
  }

  /** The first container of the name, and the first sequence of the name in it. */
  ghost predicate PickedAt(profile: Profile, choice: (Id, Id), i: nat, j: nat) {
    && i < |profile.containers| && j < |profile.containers[i].sequences|
    && profile.containers[i].id == choice.0 && (forall m :: 0 <= m < i ==> profile.containers[m].id != choice.0)
    && profile.containers[i].sequences[j].id == choice.1
    && (forall m :: 0 <= m < j ==> profile.containers[i].sequences[m].id != choice.1)
  }

  ghost predicate IsPicked(profile: Profile, choice: (Id, Id), s: Sequence) {
    exists i: nat, j: nat :: PickedAt(profile, choice, i, j) && profile.containers[i].sequences[j] == s
  }

  ghost predicate Has(profile: Profile, choice: (Id, Id)) { exists s :: IsPicked(profile, choice, s) }

  /** These are the sequences chosen, in order. */
  ghost predicate ArePicked(profile: Profile, chosen: seq<(Id, Id)>, picks: seq<Sequence>) {
    |picks| == |chosen| && forall k :: 0 <= k < |chosen| ==> IsPicked(profile, chosen[k], picks[k])
  }

  lemma {:induction false} OneIsPicked(profile: Profile, choice: (Id, Id), s: Sequence, t: Sequence)
    requires IsPicked(profile, choice, s) && IsPicked(profile, choice, t)
    ensures s == t
  {
    var i: nat, j: nat :| PickedAt(profile, choice, i, j) && profile.containers[i].sequences[j] == s;
    var k: nat, l: nat :| PickedAt(profile, choice, k, l) && profile.containers[k].sequences[l] == t;
    assert i == k;
    assert j == l;
  }

  lemma {:induction false} FoundContainerIsFirst(containers: seq<Container>, id: Id) returns (i: nat)
    ensures i <= |containers| && forall m :: 0 <= m < i ==> containers[m].id != id
    ensures i < |containers| ==> containers[i].id == id
    ensures FindContainer(containers, id) == if i < |containers| then Some(containers[i]) else None
  {
    i := 0;
    if containers != [] && containers[0].id != id {
      i := FoundContainerIsFirst(containers[1..], id);
      i := i + 1;
    }
  }

  lemma {:induction false} FoundSequenceIsFirst(sequences: seq<Sequence>, id: Id) returns (j: nat)
    ensures j <= |sequences| && forall m :: 0 <= m < j ==> sequences[m].id != id
    ensures j < |sequences| ==> sequences[j].id == id
    ensures FindSequence(sequences, id) == if j < |sequences| then Some(sequences[j]) else None
  {
    j := 0;
    if sequences != [] && sequences[0].id != id {
      j := FoundSequenceIsFirst(sequences[1..], id);
      j := j + 1;
    }
  }

  /** A choice resolves exactly when the profile has it, and then to it. */
  lemma {:induction false} ResolvesToThePick(profile: Profile, choice: (Id, Id))
    ensures var r := ResolveChoice(profile, choice);
      && (r.Some? ==> r.value.container == choice.0 && r.value.sequence.id == choice.1
                      && IsPicked(profile, choice, r.value.sequence))
      && (r.Some? <==> Has(profile, choice))
  {
    var i := FoundContainerIsFirst(profile.containers, choice.0);
    if i < |profile.containers| {
      var j := FoundSequenceIsFirst(profile.containers[i].sequences, choice.1);
      if j < |profile.containers[i].sequences| {
        assert PickedAt(profile, choice, i, j);
      }
    }
  }

  function SequencesOf(choices: seq<Choice>): (picks: seq<Sequence>)
    ensures |picks| == |choices| && forall k :: 0 <= k < |choices| ==> picks[k] == choices[k].sequence
  {
    seq(|choices|, k requires 0 <= k < |choices| => choices[k].sequence)
  }

  /** Resolving gives every choice in order, or stops at the first the profile does not have. */
  lemma {:induction false} ResolvingFollowsTheChoices(profile: Profile, chosen: seq<(Id, Id)>)
    ensures var r := ResolveAll(profile, chosen);
      && (r.Ok? ==> ArePicked(profile, chosen, SequencesOf(r.value))
                    && forall k :: 0 <= k < |chosen| ==> r.value[k].container == chosen[k].0)
      && (r.Err? ==> exists k: nat :: IsFirstUnknown(profile, chosen, k) && r.error == UnknownSequence(chosen[k].1))
  {
    hide IsPicked, ResolveChoice;
    forall k | 0 <= k < |chosen| ensures (exists s :: IsPicked(profile, chosen[k], s)) <==> Has(profile, chosen[k]) {}
    hide Has;
    if chosen != [] {
      var n := |chosen| - 1;
      ResolvingFollowsTheChoices(profile, chosen[..n]);
      var front := ResolveAll(profile, chosen[..n]);
      if front.Ok? {
        ResolvesToThePick(profile, chosen[n]);
        var picks := SequencesOf(front.value);
        assert forall k :: 0 <= k < n ==> chosen[..n][k] == chosen[k] && IsPicked(profile, chosen[k], picks[k]);
        if ResolveChoice(profile, chosen[n]).None? { assert IsFirstUnknown(profile, chosen, n); }
      } else {
        assert forall j :: 0 <= j < n ==> chosen[..n][j] == chosen[j];
        var k: nat :| IsFirstUnknown(profile, chosen[..n], k) && front.error == UnknownSequence(chosen[..n][k].1);
        assert IsFirstUnknown(profile, chosen, k);
      }
    }
  }

  /** The profile does not have choice `k`, and has every one before it. */
  ghost predicate IsFirstUnknown(profile: Profile, chosen: seq<(Id, Id)>, k: nat) {
    k < |chosen| && !Has(profile, chosen[k]) && forall j :: 0 <= j < k ==> Has(profile, chosen[j])
  }

  /** Choice `k` is not for the profile's container `k`, and every one before it is. */
  ghost predicate IsFirstMismatch(profile: Profile, chosen: seq<(Id, Id)>, k: nat) {
    && k <= |profile.containers| && k <= |chosen| && !(k == |profile.containers| == |chosen|)
    && (forall j :: 0 <= j < k ==> chosen[j].0 == profile.containers[j].id)
    && (k < |profile.containers| && k < |chosen| ==> chosen[k].0 != profile.containers[k].id)
  }

  lemma {:induction false} MismatchIsTheFirst(profile: Profile, chosen: seq<(Id, Id)>, k: nat)
    requires k <= |profile.containers| && k <= |chosen|
    requires forall j :: 0 <= j < k ==> chosen[j].0 == profile.containers[j].id
    ensures match Mismatch(profile, chosen, k)
            case None => |chosen| == |profile.containers| && forall j :: 0 <= j < |chosen| ==>
              chosen[j].0 == profile.containers[j].id
            case Some(e) => exists p: nat ::
              IsFirstMismatch(profile, chosen, p) &&
                e == WrongContainer(p, if p < |profile.containers| then profile.containers[p].id else profile.id,
                             if p < |chosen| then Some(chosen[p].0) else None)
    decreases |profile.containers| - k
  {
    if k < |profile.containers| && k < |chosen| && chosen[k].0 == profile.containers[k].id {
      MismatchIsTheFirst(profile, chosen, k + 1);
    } else if Mismatch(profile, chosen, k).Some? {
      assert IsFirstMismatch(profile, chosen, k);
    }
  }

  /** The time all of these take together. */
  ghost function Total(picks: seq<Sequence>): nat {
    if picks == [] then 0 else Length(picks[0]) + Total(picks[1..])
  }

  lemma {:induction false} NeededIsTheTotal(choices: seq<Choice>, k: nat)
    requires k <= |choices|
    ensures Needed(choices, k) == Total(SequencesOf(choices)[k..])
    decreases |choices| - k
  {
    if k < |choices| {
      LengthIsComputed(choices[k].sequence);
      NeededIsTheTotal(choices, k + 1);
      assert SequencesOf(choices)[k..][1..] == SequencesOf(choices)[k + 1..];
    }
  }

  /** What `schedule` answers, and when: windows exactly when the choices follow the profile, it has
      each of them, and all of them together take a time a duration can hold. */
  lemma {:induction false} ScheduleAnswers(profile: Profile, chosen: seq<(Id, Id)>)
    ensures match Scheduled(profile, chosen)
            case Ok(ws) =>
              && (forall p :: !IsFirstMismatch(profile, chosen, p))
              && exists picks ::
                   ArePicked(profile, chosen, picks) && Total(picks) <= U64_MAX && Describe(ws, chosen, picks)
            case Err(WrongContainer(p, expected, found)) =>
              && IsFirstMismatch(profile, chosen, p)
              && expected == (if p < |profile.containers| then profile.containers[p].id else profile.id)
              && found == if p < |chosen| then Some(chosen[p].0) else None
            case Err(UnknownSequence(id)) =>
              && (forall p :: !IsFirstMismatch(profile, chosen, p))
              && ((exists k: nat :: IsFirstUnknown(profile, chosen, k) && id == chosen[k].1)
                  || (id == profile.id && exists picks :: ArePicked(profile, chosen, picks) && Total(picks) > U64_MAX))
  {
    hide Mismatch, ResolveAll, Needed, Windows, Total, IsPicked;
    MismatchIsTheFirst(profile, chosen, 0);
    if Mismatch(profile, chosen, 0).None? {
      ResolvingFollowsTheChoices(profile, chosen);
      var r := ResolveAll(profile, chosen);
      if r.Ok? {
        NeededIsTheTotal(r.value, 0);
        assert SequencesOf(r.value)[0..] == SequencesOf(r.value);
        if Needed(r.value, 0) <= U64_MAX { WindowsDescribe(profile, chosen, r.value); }
      }
    }
  }

  /** Each window is for its choice, and carries that sequence's length and pause limit. */
  ghost predicate Describe(ws: seq<Window>, chosen: seq<(Id, Id)>, picks: seq<Sequence>) {
    |ws| == |picks| == |chosen| && forall k :: 0 <= k < |ws| ==>
      && ws[k].container == chosen[k].0 && ws[k].sequence == picks[k].id == chosen[k].1
      && ws[k].duration == Length(picks[k]) && ws[k].maxPauseBefore == picks[k].maxPauseBefore
  }

  lemma {:induction false} PickedIsNamed(profile: Profile, choice: (Id, Id), s: Sequence)
    requires IsPicked(profile, choice, s)
    ensures s.id == choice.1
  {
  }

  lemma {:induction false} WindowsDescribe(profile: Profile, chosen: seq<(Id, Id)>, choices: seq<Choice>)
    requires Needed(choices, 0) <= U64_MAX && ArePicked(profile, chosen, SequencesOf(choices))
    requires forall k :: 0 <= k < |choices| ==> choices[k].container == chosen[k].0
    ensures Describe(Windows(profile, choices), chosen, SequencesOf(choices))
  {
    hide Earliest, Latest, Length, TotalDuration, IsPicked;
    forall k | 0 <= k < |choices|
      ensures Windows(profile, choices)[k].duration == Length(choices[k].sequence) &&
        choices[k].sequence.id == chosen[k].1
    {
      LengthIsComputed(choices[k].sequence);
      assert SequencesOf(choices)[k] == choices[k].sequence;
      PickedIsNamed(profile, chosen[k], choices[k].sequence);
    }
  }

  /** The windows a schedule gives describe the sequences chosen, whoever picks them. */
  lemma {:induction false} ScheduleDescribes(profile: Profile, chosen: seq<(Id, Id)>, picks: seq<Sequence>)
    requires Scheduled(profile, chosen).Ok? && ArePicked(profile, chosen, picks)
    ensures ResolveAll(profile, chosen).Ok? && SequencesOf(ResolveAll(profile, chosen).value) == picks
    ensures Total(picks) == Needed(ResolveAll(profile, chosen).value, 0)
    ensures Describe(Scheduled(profile, chosen).value, chosen, picks)
  {
    hide IsPicked, Windows, Total, Needed, Describe;
    var choices := ResolveAll(profile, chosen).value;
    ResolvingFollowsTheChoices(profile, chosen);
    forall k | 0 <= k < |picks| ensures picks[k] == SequencesOf(choices)[k] {
      OneIsPicked(profile, chosen[k], picks[k], SequencesOf(choices)[k]);
    }
    assert SequencesOf(choices) == picks && picks[0..] == picks;
    NeededIsTheTotal(choices, 0);
    WindowsDescribe(profile, chosen, choices);
  }

  // -------------------------------------------------------------------------
  // What running a profile means, in mathematical instants
  // -------------------------------------------------------------------------

  ghost function EndInstant(s: Sequence, start: Timestamp): int {
    start.Instant() + Length(s) * NANOS_PER_MILLI
  }

  /** When sequence `k` may start at the soonest: when the profile opens, or its predecessor ends. */
  ghost function Ready(profile: Profile, picks: seq<Sequence>, starts: seq<Timestamp>, k: nat): int
    requires |picks| == |starts| && k < |picks|
  {
    if k == 0 then profile.startTime.Instant() else EndInstant(picks[k - 1], starts[k - 1])
  }

  ghost predicate PausesTooLong(profile: Profile, picks: seq<Sequence>, starts: seq<Timestamp>, k: nat)
    requires |picks| == |starts| && k < |picks|
  {
    k > 0 && picks[k].maxPauseBefore.Some?
    && (starts[k].Instant() - Ready(profile, picks, starts, k)) / NANOS_PER_MILLI > picks[k].maxPauseBefore.value
  }

  /** Sequence `k` starts after its predecessor ended (or the profile opened), pauses no
      longer than it allows, and finishes before the profile closes. */
  ghost predicate RunsAt(profile: Profile, picks: seq<Sequence>, starts: seq<Timestamp>, k: nat)
    requires |picks| == |starts| && k < |picks|
  {
    && Ready(profile, picks, starts, k) <= starts[k].Instant()
    && EndInstant(picks[k], starts[k]) <= profile.endTime.Instant()
    && !PausesTooLong(profile, picks, starts, k)
  }

  ghost predicate Runs(profile: Profile, picks: seq<Sequence>, starts: seq<Timestamp>) {
    |picks| == |starts| && forall k :: 0 <= k < |picks| ==> RunsAt(profile, picks, starts, k)
  }

  /** Every start leaves its end inside the range a timestamp can hold. */
  ghost predicate EndsRepresentable(picks: seq<Sequence>, starts: seq<Timestamp>) {
    |picks| == |starts| && forall k :: 0 <= k < |picks| ==> Representable(EndInstant(picks[k], starts[k]))
  }

  /** The pause before sequence `k`, where a limit applies, is one a `Duration` can hold. */
  ghost predicate PauseMeasurable(picks: seq<Sequence>, starts: seq<Timestamp>, k: nat)
    requires |picks| == |starts| && k < |picks|
  {
    k > 0 && picks[k].maxPauseBefore.Some? ==>
      (starts[k].Instant() - EndInstant(picks[k - 1], starts[k - 1])) / NANOS_PER_MILLI <= U64_MAX
  }

  /** Every end is representable and every limited pause is measurable. */
  ghost predicate WithinMachineRange(picks: seq<Sequence>, starts: seq<Timestamp>) {
    EndsRepresentable(picks, starts) && forall k :: 0 <= k < |picks| ==> PauseMeasurable(picks, starts, k)
  }

  ghost predicate EndIs(profile: Profile, picks: seq<Sequence>, starts: seq<Timestamp>, k: nat,
                        previousEnd: Option<Timestamp>)
    requires k <= |picks| == |starts|
  {
    if k == 0 then previousEnd == None
    else previousEnd.Some? && previousEnd.value.Instant() == EndInstant(picks[k - 1], starts[k - 1])
  }

  /** What is wrong with starting sequence `k` where it starts. */
  ghost function Objection(profile: Profile, picks: seq<Sequence>, starts: seq<Timestamp>, k: nat): ScheduleProblem
    requires |picks| == |starts| && k < |picks|
  {
    if starts[k].Instant() < Ready(profile, picks, starts, k) then TooEarly(picks[k].id)
    else if PausesTooLong(profile, picks, starts, k) then PauseTooLong(picks[k].id)
    else Overruns(picks[k].id)
  }

  /** From sequence `from` on, `j` is the first that cannot start where it does, and `e` says why. */
  ghost predicate IsRefusedAt(profile: Profile, picks: seq<Sequence>, starts: seq<Timestamp>, from: nat, j: nat,
                              e: ScheduleProblem)
    requires |picks| == |starts|
  {
    && from <= j < |picks| && !RunsAt(profile, picks, starts, j)
    && (forall i :: from <= i < j ==> RunsAt(profile, picks, starts, i))
    && e == Objection(profile, picks, starts, j)
  }

  lemma {:induction false} CheckOneIsRunsAt(profile: Profile, w: Window, picks: seq<Sequence>, starts: seq<Timestamp>,
                                            k: nat, previousEnd: Option<Timestamp>)
    requires EndsRepresentable(picks, starts) && k < |picks| && PauseMeasurable(picks, starts, k)
    requires w.sequence == picks[k].id && w.duration == Length(picks[k]) && w.maxPauseBefore == picks[k].maxPauseBefore
    requires EndIs(profile, picks, starts, k, previousEnd)
    ensures var r := CheckOne(profile, w, starts[k], previousEnd);
      (r.Ok? <==> RunsAt(profile, picks, starts, k))
      && (r.Ok? ==> EndIs(profile, picks, starts, k + 1, Some(r.value)))
      && (r.Err? ==> r.error == Objection(profile, picks, starts, k))
  {
    hide CheckedAdd, CheckedDurationSince, Length, Representable;
    var notBefore := if previousEnd.Some? then previousEnd.value else profile.startTime;
    OrderIsChronological(starts[k], notBefore);
    assert CheckedAdd(starts[k], w.duration).Some?;
    OrderIsChronological(profile.endTime, CheckedAdd(starts[k], w.duration).value);
  }

  lemma {:induction false} CheckFromIsRuns(profile: Profile, ws: seq<Window>, chosen: seq<(Id, Id)>,
                                           picks: seq<Sequence>, starts: seq<Timestamp>, k: nat,
                                           previousEnd: Option<Timestamp>)
    requires WithinMachineRange(picks, starts) && Describe(ws, chosen, picks) && k <= |ws|
    requires EndIs(profile, picks, starts, k, previousEnd)
    ensures CheckFrom(profile, ws, starts, k, previousEnd).Ok?
       <==> forall j :: k <= j < |ws| ==> RunsAt(profile, picks, starts, j)
    decreases |ws| - k
  {
    hide CheckOne, RunsAt, Objection, Length, EndsRepresentable;
    if k < |ws| {
      RangeCounts(picks, starts);
      CheckOneIsRunsAt(profile, ws[k], picks, starts, k, previousEnd);
      var one := CheckOne(profile, ws[k], starts[k], previousEnd);
      if one.Ok? { CheckFromIsRuns(profile, ws, chosen, picks, starts, k + 1, Some(one.value)); }
    }
  }

  /** The first sequence from `k` on that cannot start where it does. */
  lemma {:induction false} FirstRefused(profile: Profile, ws: seq<Window>, chosen: seq<(Id, Id)>,
                                        picks: seq<Sequence>, starts: seq<Timestamp>, k: nat,
                                        previousEnd: Option<Timestamp>) returns (j: nat)
    requires WithinMachineRange(picks, starts) && Describe(ws, chosen, picks) && k <= |ws|
    requires EndIs(profile, picks, starts, k, previousEnd) && CheckFrom(profile, ws, starts, k, previousEnd).Err?
    ensures |picks| == |starts|
    ensures IsRefusedAt(profile, picks, starts, k, j, CheckFrom(profile, ws, starts, k, previousEnd).error)
    decreases |ws| - k
  {
    hide CheckOne, RunsAt, Objection, Length, EndsRepresentable, PauseMeasurable;
    RangeCounts(picks, starts);
    CheckOneIsRunsAt(profile, ws[k], picks, starts, k, previousEnd);
    var one := CheckOne(profile, ws[k], starts[k], previousEnd);
    j := k;
    if one.Ok? { j := FirstRefused(profile, ws, chosen, picks, starts, k + 1, Some(one.value)); }
  }

  lemma {:induction false} RunsStayWithinMachineRange(profile: Profile, picks: seq<Sequence>, starts: seq<Timestamp>)
    requires Runs(profile, picks, starts)
    ensures WithinMachineRange(picks, starts)
  {
    forall k | 0 <= k < |picks|
      ensures Representable(EndInstant(picks[k], starts[k])) && PauseMeasurable(picks, starts, k)
    {
      assert RunsAt(profile, picks, starts, k);
      var end := EndInstant(picks[k], starts[k]);
      TimestampIsRepresentable(starts[k]);
      TimestampIsRepresentable(profile.endTime);
      Monotone(starts[k].Instant(), end, profile.endTime.Instant());
    }
  }

  /** The feasibility rule accepts exactly the start vectors that run the sequences chosen, except that
      it also lets through vectors with an end no timestamp can hold or a pause no duration can. */
  lemma {:induction false} FeasibilityIsExact(profile: Profile, chosen: seq<(Id, Id)>, picks: seq<Sequence>,
                                              starts: seq<Timestamp>)
    requires Scheduled(profile, chosen).Ok? && ArePicked(profile, chosen, picks)
    ensures Runs(profile, picks, starts) <==> Feasible(profile, chosen, starts).Ok? && WithinMachineRange(picks, starts)
  {
    ScheduleDescribes(profile, chosen, picks);
    hide Scheduled, RunsAt, ArePicked, EndsRepresentable;
    var ws := Scheduled(profile, chosen).value;
    if Runs(profile, picks, starts) { RunsStayWithinMachineRange(profile, picks, starts); }
    if WithinMachineRange(picks, starts) {
      assert |picks| == |starts| by { RangeCounts(picks, starts); }
      CheckFromIsRuns(profile, ws, chosen, picks, starts, 0, None);
    }
  }

  lemma {:induction false} RangeCounts(picks: seq<Sequence>, starts: seq<Timestamp>)
    requires WithinMachineRange(picks, starts)
    ensures |picks| == |starts|
  {
  }

  /** A refusal names the first sequence that cannot start where it does, and says what is wrong there. */
  lemma {:induction false} RefusalsNameTheFirst(profile: Profile, chosen: seq<(Id, Id)>, picks: seq<Sequence>,
                                                starts: seq<Timestamp>)
    requires Scheduled(profile, chosen).Ok? && ArePicked(profile, chosen, picks)
    ensures |starts| != |picks| ==> Feasible(profile, chosen, starts) == Err(WrongCount(|starts|, |picks|))
    ensures WithinMachineRange(picks, starts) && Feasible(profile, chosen, starts).Err? ==>
      && |picks| == |starts|
      && exists k: nat :: IsRefusedAt(profile, picks, starts, 0, k, Feasible(profile, chosen, starts).error)
  {
    ScheduleDescribes(profile, chosen, picks);
    hide Scheduled, RunsAt, Objection, ArePicked, EndsRepresentable;
    if WithinMachineRange(picks, starts) && Feasible(profile, chosen, starts).Err? {
      RangeCounts(picks, starts);
      var k := FirstRefused(profile, Scheduled(profile, chosen).value, chosen, picks, starts, 0, None);
    }
  }

  // -------------------------------------------------------------------------
  // The windows are exact
  // -------------------------------------------------------------------------

  /** Neither pass falls back: the whole run fits after the opening and before the closing time. */
  predicate NoFallback(profile: Profile, total: Duration) {
    CheckedAdd(profile.startTime, total).Some? && CheckedSub(profile.endTime, total).Some?
  }

  ghost function Slack(profile: Profile, total: Duration): int {
    profile.endTime.Instant() - profile.startTime.Instant() - total * NANOS_PER_MILLI
  }

  /** Where window `k` opens, and where the window before it does. */
  ghost predicate OpensAfter(profile: Profile, picks: seq<Sequence>, ws: seq<Window>, k: nat)
    requires k < |picks| == |ws|
  {
    if k == 0 then ws[k].earliestStart == profile.startTime
    else
      var ends := EndInstant(picks[k - 1], ws[k - 1].earliestStart);
      if Representable(ends) then ws[k].earliestStart.Instant() == ends
      else ws[k].earliestStart == ws[k - 1].earliestStart
  }

  ghost predicate ClosesBefore(profile: Profile, picks: seq<Sequence>, ws: seq<Window>, k: nat)
    requires k < |picks| == |ws|
  {
    var closes := profile.endTime.Instant() - Total(picks[k..]) * NANOS_PER_MILLI;
    if Representable(closes) then ws[k].latestStart.Instant() == closes else ws[k].latestStart == profile.startTime
  }

  /** Each window opens when the sequence before it, run at its earliest, ends, and closes when the rest
      still fits; a bound no timestamp can hold falls back on the bound before it and on the opening. */
  lemma {:induction false} WindowBounds(profile: Profile, chosen: seq<(Id, Id)>, picks: seq<Sequence>, k: nat)
    requires Scheduled(profile, chosen).Ok? && ArePicked(profile, chosen, picks) && k < |picks|
    ensures var ws := Scheduled(profile, chosen).value;
      |ws| == |picks| && OpensAfter(profile, picks, ws, k) && ClosesBefore(profile, picks, ws, k)
  {
    ScheduleDescribes(profile, chosen, picks);
    var choices := ResolveAll(profile, chosen).value;
    assert Scheduled(profile, chosen).value == Windows(profile, choices) && Needed(choices, 0) <= U64_MAX;
    hide *;
    ChoiceBounds(profile, choices, picks, k);
  }

  lemma {:induction false} ChoiceBounds(profile: Profile, choices: seq<Choice>, picks: seq<Sequence>, k: nat)
    requires Needed(choices, 0) <= U64_MAX && picks == SequencesOf(choices) && k < |choices|
    ensures var ws := Windows(profile, choices);
      |ws| == |picks| && OpensAfter(profile, picks, ws, k) && ClosesBefore(profile, picks, ws, k)
  {
    hide CheckedAdd, CheckedSub, Needed, Total, Length, Earliest, Latest, Representable;
    NeededIsTheTotal(choices, k);
    NeededDecreases(choices, 0, k);
    LatestStep(profile, Needed(choices, k));
    EarliestStep(profile, choices, k);
  }

  lemma {:induction false} EarliestStep(profile: Profile, choices: seq<Choice>, k: nat)
    requires k < |choices|
    ensures k == 0 ==> Earliest(profile, choices, k) == profile.startTime
    ensures k > 0 ==>
      var before := Earliest(profile, choices, k - 1);
      var ends := EndInstant(choices[k - 1].sequence, before);
      if Representable(ends) then Earliest(profile, choices, k).Instant() == ends
      else Earliest(profile, choices, k) == before
  {
    hide CheckedAdd, Length;
    if k > 0 { LengthIsComputed(choices[k - 1].sequence); }
  }

  lemma {:induction false} LatestStep(profile: Profile, needed: Duration)
    ensures var opens := profile.endTime.Instant() - needed * NANOS_PER_MILLI;
      if Representable(opens) then Latest(profile, needed).Instant() == opens
      else Latest(profile, needed) == profile.startTime
  {
    hide CheckedSub;
  }

  lemma {:induction false} Monotone(a: int, b: int, c: int)
    requires a <= b <= c && Representable(a) && Representable(c)
    ensures Representable(b)
  {
  }

  lemma {:induction false} EarliestInstant(profile: Profile, choices: seq<Choice>, k: nat)
    requires k < |choices| && Needed(choices, 0) <= U64_MAX && NoFallback(profile, Needed(choices, 0))
    ensures Earliest(profile, choices, k).Instant()
         == profile.startTime.Instant() + (Needed(choices, 0) - Needed(choices, k)) * NANOS_PER_MILLI
  {
    hide CheckedAdd, CheckedSub;
    if k > 0 {
      EarliestInstant(profile, choices, k - 1);
      NeededDecreases(choices, 0, k);
      var s, total := profile.startTime.Instant(), Needed(choices, 0);
      TimestampIsRepresentable(profile.startTime);
      Monotone(s, s + (total - Needed(choices, k)) * NANOS_PER_MILLI, s + total * NANOS_PER_MILLI);
    }
  }

  lemma {:induction false} LatestInstant(profile: Profile, total: Duration, needed: Duration)
    requires needed <= total && NoFallback(profile, total)
    ensures Latest(profile, needed).Instant() == profile.endTime.Instant() - needed * NANOS_PER_MILLI
  {
    hide CheckedAdd, CheckedSub;
    var e := profile.endTime.Instant();
    TimestampIsRepresentable(profile.endTime);
    Monotone(e - total * NANOS_PER_MILLI, e - needed * NANOS_PER_MILLI, e);
  }

  /** Every window leaves the same room: what the profile has beyond the work in it. */
  lemma {:induction false} EveryWindowHasTheSameSlack(profile: Profile, choices: seq<Choice>, k: nat)
    requires k < |choices| && Needed(choices, 0) <= U64_MAX && NoFallback(profile, Needed(choices, 0))
    ensures var w := Windows(profile, choices)[k];
      w.latestStart.Instant() - w.earliestStart.Instant() == Slack(profile, Needed(choices, 0))
  {
    hide CheckedAdd, CheckedSub, NoFallback;
    NeededDecreases(choices, 0, k);
    EarliestInstant(profile, choices, k);
    LatestInstant(profile, Needed(choices, 0), Needed(choices, k));
  }

  /** A start in a run is never before the earliest one the forward pass found. */
  lemma {:induction false} NeverBeforeEarliest(profile: Profile, choices: seq<Choice>, starts: seq<Timestamp>, k: nat)
    requires Needed(choices, 0) <= U64_MAX && Runs(profile, SequencesOf(choices), starts) && k < |choices|
    ensures starts[k].Instant()
         >= profile.startTime.Instant() + (Needed(choices, 0) - Needed(choices, k)) * NANOS_PER_MILLI
  {
    hide CheckedAdd, CheckedSub, Earliest, Latest, Length;
    assert RunsAt(profile, SequencesOf(choices), starts, k);
    if k > 0 {
      NeverBeforeEarliest(profile, choices, starts, k - 1);
      LengthIsComputed(choices[k - 1].sequence);
    }
  }

  lemma {:induction false} NeverAfterLatest(profile: Profile, choices: seq<Choice>, starts: seq<Timestamp>, k: nat)
    requires Needed(choices, 0) <= U64_MAX && Runs(profile, SequencesOf(choices), starts) && k < |choices|
    ensures starts[k].Instant() <= profile.endTime.Instant() - Needed(choices, k) * NANOS_PER_MILLI
    decreases |choices| - k
  {
    hide CheckedAdd, CheckedSub, Earliest, Latest, Length;
    assert RunsAt(profile, SequencesOf(choices), starts, k);
    LengthIsComputed(choices[k].sequence);
    if k + 1 < |choices| {
      NeverAfterLatest(profile, choices, starts, k + 1);
      assert RunsAt(profile, SequencesOf(choices), starts, k + 1);
    } else {
      assert Needed(choices, k) == choices[k].Duration();
    }
  }

  ghost function TimestampAt(instant: int): Timestamp {
    if Representable(instant) then Timestamp(instant / NANOS_PER_SECOND, instant % NANOS_PER_SECOND) else UNIX_EPOCH
  }

  lemma {:induction false} TimestampAtIs(instant: int)
    requires Representable(instant)
    ensures TimestampAt(instant).Instant() == instant
  {
  }

  ghost function ShiftedAt(profile: Profile, choices: seq<Choice>, shift: nat, k: nat): Timestamp
    requires k < |choices|
  {
    hide CheckedAdd, TimestampAt;
    TimestampAt(Earliest(profile, choices, k).Instant() + shift)
  }

  /** The earliest schedule, moved later as a whole by `shift` nanoseconds. */
  ghost function Shifted(profile: Profile, choices: seq<Choice>, shift: nat): (starts: seq<Timestamp>)
    ensures |starts| == |choices|
  {
    seq(|choices|, k requires 0 <= k < |choices| => ShiftedAt(profile, choices, shift, k))
  }

  lemma {:induction false} ShiftFits(profile: Profile, choices: seq<Choice>, shift: nat, k: nat)
    requires Needed(choices, 0) <= U64_MAX && NoFallback(profile, Needed(choices, 0))
    requires shift <= Slack(profile, Needed(choices, 0)) && k < |choices|
    ensures TimestampAt(Earliest(profile, choices, k).Instant() + shift).Instant()
         == Earliest(profile, choices, k).Instant() + shift
  {
    hide CheckedAdd, CheckedSub, NoFallback, Representable, TimestampAt;
    EarliestInstant(profile, choices, k);
    NeededDecreases(choices, 0, k);
    TimestampAtIs(Earliest(profile, choices, k).Instant() + shift) by {
    TimestampIsRepresentable(profile.startTime);
    TimestampIsRepresentable(profile.endTime);
    Monotone(profile.startTime.Instant(), Earliest(profile, choices, k).Instant() + shift, profile.endTime.Instant());
    }
  }

  /** Moving the earliest schedule as a whole keeps every gap at zero, so no pause limit objects. */
  lemma {:induction false} ShiftedRuns(profile: Profile, choices: seq<Choice>, shift: nat)
    requires Needed(choices, 0) <= U64_MAX && NoFallback(profile, Needed(choices, 0))
    requires shift <= Slack(profile, Needed(choices, 0))
    ensures Runs(profile, SequencesOf(choices), Shifted(profile, choices, shift))
  {
    hide CheckedAdd, CheckedSub, NoFallback, Earliest, Shifted, TimestampAt, Length;
    var picks, starts := SequencesOf(choices), Shifted(profile, choices, shift);
    forall k | 0 <= k < |picks| ensures RunsAt(profile, picks, starts, k) {
      ShiftedStart(profile, choices, shift, k);
      NeededDecreases(choices, 0, k + 1);
      LengthIsComputed(choices[k].sequence);
      if k > 0 {
        ShiftedStart(profile, choices, shift, k - 1);
        LengthIsComputed(choices[k - 1].sequence);
        assert starts[k].Instant() == EndInstant(picks[k - 1], starts[k - 1]);
      }
    }
  }

  lemma {:induction false} ShiftedStart(profile: Profile, choices: seq<Choice>, shift: nat, k: nat)
    requires Needed(choices, 0) <= U64_MAX && NoFallback(profile, Needed(choices, 0))
    requires shift <= Slack(profile, Needed(choices, 0)) && k < |choices|
    ensures Shifted(profile, choices, shift)[k].Instant()
         == profile.startTime.Instant() + (Needed(choices, 0) - Needed(choices, k)) * NANOS_PER_MILLI + shift
  {
    hide CheckedAdd, CheckedSub, NoFallback, Earliest, TimestampAt;
    ShiftFits(profile, choices, shift, k);
    EarliestInstant(profile, choices, k);
  }

  lemma {:induction false} ChoicesFillTheirWindows(profile: Profile, choices: seq<Choice>, k: nat, t: Timestamp)
    requires k < |choices| && Needed(choices, 0) <= U64_MAX && NoFallback(profile, Needed(choices, 0))
    ensures var w := Windows(profile, choices)[k];
      (exists starts :: Runs(profile, SequencesOf(choices), starts) && starts[k] == t)
      <==> w.earliestStart.AtMost(t) && t.AtMost(w.latestStart)
  {
    hide CheckedAdd, CheckedSub, NoFallback, Earliest, Latest, Shifted, Needed, TimestampAt;
    var w, picks, total := Windows(profile, choices)[k], SequencesOf(choices), Needed(choices, 0);
    NeededDecreases(choices, 0, k);
    EarliestInstant(profile, choices, k);
    LatestInstant(profile, total, Needed(choices, k));
    OrderIsChronological(w.earliestStart, t);
    OrderIsChronological(t, w.latestStart);
    forall starts | Runs(profile, picks, starts) && starts[k] == t
      ensures w.earliestStart.AtMost(t) && t.AtMost(w.latestStart)
    {
      NeverBeforeEarliest(profile, choices, starts, k);
      NeverAfterLatest(profile, choices, starts, k);
    }
    if w.earliestStart.AtMost(t) && t.AtMost(w.latestStart) {
      EveryWindowHasTheSameSlack(profile, choices, k);
      var shift := t.Instant() - w.earliestStart.Instant();
      ShiftedRuns(profile, choices, shift);
      ShiftedStart(profile, choices, shift, k);
      SameInstantSameTimestamp(Shifted(profile, choices, shift)[k], t);
      assert Runs(profile, picks, Shifted(profile, choices, shift));
    }
  }

  /** The start times a chosen sequence takes over all runs are exactly its window. */
  lemma {:induction false} WindowsAreExact(profile: Profile, chosen: seq<(Id, Id)>, picks: seq<Sequence>, k: nat,
                                           t: Timestamp)
    requires Scheduled(profile, chosen).Ok? && ArePicked(profile, chosen, picks) && k < |picks|
    requires Total(picks) <= U64_MAX && NoFallback(profile, Total(picks))
    ensures var ws := Scheduled(profile, chosen).value;
      |ws| == |picks| &&
      ((exists starts :: Runs(profile, picks, starts) && starts[k] == t)
       <==> ws[k].earliestStart.AtMost(t) && t.AtMost(ws[k].latestStart))
  {
    ScheduleDescribes(profile, chosen, picks);
    hide Runs, ArePicked, Total, Needed, NoFallback, Mismatch, SequencesOf, ResolveAll;
    ChoicesFillTheirWindows(profile, ResolveAll(profile, chosen).value, k, t);
  }

  /** The same over the vectors the feasibility rule accepts: they fill each window, and nothing else. */
  lemma {:induction false} AcceptedStartsFillTheWindow(profile: Profile, chosen: seq<(Id, Id)>, picks: seq<Sequence>,
                                                       k: nat, t: Timestamp)
    requires Scheduled(profile, chosen).Ok? && ArePicked(profile, chosen, picks) && k < |picks|
    requires Total(picks) <= U64_MAX && NoFallback(profile, Total(picks))
    ensures var ws := Scheduled(profile, chosen).value;
      |ws| == |picks| &&
      ((exists starts :: Feasible(profile, chosen, starts).Ok? && WithinMachineRange(picks, starts) && starts[k] == t)
       <==> ws[k].earliestStart.AtMost(t) && t.AtMost(ws[k].latestStart))
  {
    hide NoFallback, Total, Runs, WithinMachineRange, Feasible, Scheduled, ArePicked;
    WindowsAreExact(profile, chosen, picks, k, t);
    forall starts
      ensures Runs(profile, picks, starts) <==>
        Feasible(profile, chosen, starts).Ok? && WithinMachineRange(picks, starts)
    {
      FeasibilityIsExact(profile, chosen, picks, starts);
    }
  }

  /** Every window is feasible exactly when there is a way to run the sequences chosen. */
  lemma {:induction false} SchedulableMeansRunnable(profile: Profile, chosen: seq<(Id, Id)>, picks: seq<Sequence>)
    requires Scheduled(profile, chosen).Ok? && ArePicked(profile, chosen, picks)
    requires Total(picks) <= U64_MAX && NoFallback(profile, Total(picks))
    ensures IsSchedulable(profile, chosen) <==> exists starts :: Runs(profile, picks, starts)
  {
    ScheduleDescribes(profile, chosen, picks);
    hide CheckedAdd, CheckedSub, NoFallback, Earliest, Latest, Needed, ArePicked, Total, RunsAt;
    var choices := ResolveAll(profile, chosen).value;
    var ws := Windows(profile, choices);
    if IsSchedulable(profile, chosen) {
      if choices == [] {
        assert Runs(profile, picks, []);
      } else {
        EveryWindowHasTheSameSlack(profile, choices, 0);
        assert ws[0] in ws && ws[0].IsFeasible();
        OrderIsChronological(ws[0].earliestStart, ws[0].latestStart);
        ChoicesFillTheirWindows(profile, choices, 0, ws[0].earliestStart);
      }
    }
    forall starts | Runs(profile, picks, starts) ensures IsSchedulable(profile, chosen) {
      forall k | 0 <= k < |ws| ensures ws[k].IsFeasible() {
        ChoicesFillTheirWindows(profile, choices, k, starts[k]);
        OrderIsChronological(ws[k].earliestStart, starts[k]);
        OrderIsChronological(starts[k], ws[k].latestStart);
        OrderIsChronological(ws[k].earliestStart, ws[k].latestStart);
      }
    }
  }

  // -------------------------------------------------------------------------
  // Where the feasibility rule and the windows part
  // -------------------------------------------------------------------------

  const LAST := Timestamp(I64_MAX, 0)

  ghost function SingleSequence(seconds: nat): Profile
    requires seconds * 1000 <= U64_MAX
  {
    Profile(Named("p"), UNIX_EPOCH, UNIX_EPOCH,
            [Container(Named("c"), [Sequence(Named("s"), [Element(seconds * 1000, 0)], None)])])
  }

  /** A sequence of one second in an empty window: not schedulable, and yet the rule accepts
      the last representable second as its start, because the end overflows. */
  lemma {:induction false} OverflowingEndIsAccepted()
    ensures !IsSchedulable(SingleSequence(1), [(Named("c"), Named("s"))])
    ensures Feasible(SingleSequence(1), [(Named("c"), Named("s"))], [LAST]).Ok?
  {
    var profile, chosen := SingleSequence(1), [(Named("c"), Named("s"))];
    var sequence := profile.containers[0].sequences[0];
    var choice := Choice(Named("c"), sequence);
    assert TotalDuration([]) == 0;
    assert choice.Duration() == 1000;
    assert chosen[..0] == [];
    assert ResolveAll(profile, chosen[..0]) == Ok([]);
    assert FindContainer(profile.containers, Named("c")) == Some(profile.containers[0]);
    assert ResolveChoice(profile, chosen[0]) == Some(choice);
    assert [] + [choice] == [choice];
    assert ResolveAll(profile, chosen) == Ok([choice]);
    assert Needed([choice], 0) == 1000 by { assert Needed([choice], 1) == 0; }
    assert Mismatch(profile, chosen, 0) == Mismatch(profile, chosen, 1) == None;
    var w := WindowAt(profile, [choice], 0);
    assert w == Windows(profile, [choice])[0];
    assert Scheduled(profile, chosen).value == [w];
    assert w in [w] && !w.IsFeasible();
    assert CheckOne(profile, w, LAST, None) == Ok(profile.endTime);
  }

  /** A gap longer than any `Duration` counts as no gap at all, so no pause limit sees it. */
  lemma {:induction false} UnmeasurableGapCountsAsZero(w: Window, profile: Profile, start: Timestamp,
                                                       previousEnd: Timestamp)
    requires (start.Instant() - previousEnd.Instant()) / NANOS_PER_MILLI > U64_MAX
    ensures CheckOne(profile, w, start, Some(previousEnd)) != Err(PauseTooLong(w.sequence))
    ensures SaturatingDurationSince(start, previousEnd) == 0
  {
    hide CheckedDurationSince, CheckedAdd;
  }

  const BEFORE := Sequence(Named("s"), [Element(1000, 0)], None)
  const AT_ONCE := Sequence(Named("t"), [Element(1000, 0)], Some(0))
  const FAR := Timestamp(100_000_000_000_000_000, 0)

  /** Two sequences of a second, the second of which is to follow the first without a pause. */
  const IN_A_ROW := Profile(Named("p"), UNIX_EPOCH, LAST,
    [Container(Named("c"), [BEFORE]), Container(Named("d"), [AT_ONCE])])

  lemma {:induction false} OneSecondEach()
    ensures Choice(Named("c"), BEFORE).Duration() == 1000 && Choice(Named("d"), AT_ONCE).Duration() == 1000
  {
    assert TotalDuration([]) == 0;
    assert BEFORE.elements[..0] == [] && AT_ONCE.elements[..0] == [];
  }

  lemma {:induction false} InARowResolves()
    ensures ResolveAll(IN_A_ROW, [(Named("c"), Named("s")), (Named("d"), Named("t"))])
         == Ok([Choice(Named("c"), BEFORE), Choice(Named("d"), AT_ONCE)])
    ensures Mismatch(IN_A_ROW, [(Named("c"), Named("s")), (Named("d"), Named("t"))], 0) == None
  {
    var chosen := [(Named("c"), Named("s")), (Named("d"), Named("t"))];
    var containers := IN_A_ROW.containers;
    assert FindContainer(containers, Named("d")) == FindContainer(containers[1..], Named("d")) == Some(containers[1]);
    assert ResolveChoice(IN_A_ROW, chosen[1]) == Some(Choice(Named("d"), AT_ONCE));
    assert chosen[..1] == [chosen[0]] && chosen[..1][..0] == [];
    assert ResolveAll(IN_A_ROW, []) == Ok([]) && [] + [Choice(Named("c"), BEFORE)] == [Choice(Named("c"), BEFORE)];
    assert ResolveAll(IN_A_ROW, chosen[..1]) == Ok([Choice(Named("c"), BEFORE)]);
    assert [Choice(Named("c"), BEFORE)] + [Choice(Named("d"), AT_ONCE)] ==
      [Choice(Named("c"), BEFORE), Choice(Named("d"), AT_ONCE)];
    assert ResolveChoice(IN_A_ROW, chosen[0]) == Some(Choice(Named("c"), BEFORE));
    assert Mismatch(IN_A_ROW, chosen, 0) == Mismatch(IN_A_ROW, chosen, 1) == Mismatch(IN_A_ROW, chosen, 2) == None;
  }

  lemma {:induction false} InARowWindows(choices: seq<Choice>)
    requires choices == [Choice(Named("c"), BEFORE), Choice(Named("d"), AT_ONCE)]
    ensures Needed(choices, 0) <= U64_MAX && |Windows(IN_A_ROW, choices)| == 2
    ensures Windows(IN_A_ROW, choices)[0].duration == 1000 == Windows(IN_A_ROW, choices)[1].duration
  {
    OneSecondEach();
    assert Needed(choices, 2) == 0 && Needed(choices, 1) == 1000 && Needed(choices, 0) == 2000;
    hide TotalDuration, CheckedAdd, CheckedSub;
  }

  /** A gap no duration can hold is let through whatever the pause allowed. */
  lemma {:induction false} AFarStartIsLetThrough(w: Window)
    requires w.duration == 1000
    ensures CheckOne(IN_A_ROW, w, FAR, Some(Timestamp(1, 0))).Ok?
  {
    UnmeasurableGapCountsAsZero(w, IN_A_ROW, FAR, Timestamp(1, 0));
    hide SaturatingDurationSince;
  }

  lemma {:induction false} TheFirstStartIsInTime(w: Window)
    requires w.duration == 1000
    ensures CheckOne(IN_A_ROW, w, UNIX_EPOCH, None) == Ok(Timestamp(1, 0))
  {
  }

  lemma {:induction false} AFarStartIsChecked(ws: seq<Window>)
    requires |ws| == 2 && ws[0].duration == 1000 == ws[1].duration
    ensures CheckFrom(IN_A_ROW, ws, [UNIX_EPOCH, FAR], 0, None).Ok?
  {
    TheFirstStartIsInTime(ws[0]);
    AFarStartIsLetThrough(ws[1]);
    hide CheckOne;
    var starts, end := [UNIX_EPOCH, FAR], Timestamp(1, 0);
    var landed := CheckOne(IN_A_ROW, ws[1], FAR, Some(end));
    assert CheckFrom(IN_A_ROW, ws, starts, 2, Some(landed.value)).Ok?;
    assert CheckFrom(IN_A_ROW, ws, starts, 1, Some(end)).Ok?;
  }

  /** A sequence that allows no pause is accepted over three billion years after the one before it. */
  lemma {:induction false} AnUnmeasurablePauseIsAccepted()
    ensures Feasible(IN_A_ROW, [(Named("c"), Named("s")), (Named("d"), Named("t"))], [UNIX_EPOCH, FAR]).Ok?
    ensures FAR.Instant() - UNIX_EPOCH.Instant() > 1000 * NANOS_PER_MILLI && AT_ONCE.maxPauseBefore == Some(0)
  {
    var choices := [Choice(Named("c"), BEFORE), Choice(Named("d"), AT_ONCE)];
    InARowResolves();
    InARowWindows(choices);
    hide Windows, Needed, CheckFrom, ResolveAll, Mismatch;
    AFarStartIsChecked(Windows(IN_A_ROW, choices));
  }

  // -------------------------------------------------------------------------
  // Power at an offset
  // -------------------------------------------------------------------------

  ghost function Elapsed(elements: seq<Element>, k: nat): nat
    requires k <= |elements|
  {
    if k == 0 then 0 else Elapsed(elements, k - 1) + elements[k - 1].duration
  }

  /** The element in force: `offset` lies after the elements before it and inside it. */
  ghost predicate InForce(elements: seq<Element>, offset: Duration, k: nat) {
    k < |elements| && Elapsed(elements, k) <= offset < Elapsed(elements, k + 1)
  }

  function SaturatingAdd(a: Duration, b: Duration): (r: Duration) {
    if a + b <= U64_MAX then a + b else U64_MAX
  }

  method SequencePowerAt(elements: seq<Element>, offset: Duration) returns (power: Option<Body>)
    ensures offset < U64_MAX ==>
      (power.Some? <==> exists k: nat :: InForce(elements, offset, k))
    ensures power.Some? ==> exists k: nat :: InForce(elements, offset, k) && power.value == elements[k].power
    ensures offset == U64_MAX ==> power == None
  {
    var elapsed: Duration := 0;
    var k := 0;
    while k < |elements|
      invariant 0 <= k <= |elements|
      invariant elapsed == if Elapsed(elements, k) <= U64_MAX then Elapsed(elements, k) else U64_MAX
      invariant elapsed <= offset
      invariant offset < U64_MAX ==> Elapsed(elements, k) <= offset
    {
      var end := SaturatingAdd(elapsed, elements[k].duration);
      if offset < end {
        assert InForce(elements, offset, k);
        return Some(elements[k].power);
      }
      elapsed := end;
      k := k + 1;
    }
    if offset < U64_MAX {
      forall j: nat ensures !InForce(elements, offset, j) { if j < k { ElapsedIncreases(elements, j + 1, k); } }
    }
    return None;
  }

  lemma {:induction false} ElapsedIncreases(elements: seq<Element>, j: nat, k: nat)
    requires j <= k <= |elements|
    ensures Elapsed(elements, j) <= Elapsed(elements, k)
  {
    if j < k { ElapsedIncreases(elements, j, k - 1); }
  }
}
