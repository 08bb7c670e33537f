# s2-kit, modelled

The library this models lets a Resource Manager (RM: a battery, a heat pump) and a Customer Energy
Manager (CEM) speak S2 JSON. Its session engines are sans-I/O: every input is a call that carries
`now`, every output is queued. The model keeps that shape. `now` is a parameter; what the
validator's message rules and the application's policy say of a message is a free `Verdict`
parameter, with the state table, the roles and the wire profile computed as the code computes them;
a text frame is either a decoded message or a decode failure with its kind, identifier and status.

## How it is laid out

| files | subject |
|---|---|
| `Time`, `Calendar`, `Rfc3339` | checked timestamp arithmetic, civil dates, the text form of RFC 3339 section 5.6 |
| `Ids`, `Messages` | identifiers, all message kinds, protocol versions, the state table |
| `Ledger`, `Tables`, `Registry`, `RegistryRuns`, `RegistryLaws` | the acknowledgement ledger and its ring, the bounded tables, the queue of future descriptions, what every run keeps of them, and what a look-up finds after any run |
| `Session`, `SessionCore`, `RmSession`, `CemSession` | both engines, as functions of their whole state and as objects whose methods compute those functions in place |
| `SessionRuns`, `History`, `Doings`, `Hearing`, `Timeouts` | every run of one session: what it owes, remembers, does and tells; its deadlines, and a set of sessions driven as one |
| `Selections`, `Disagreement`, `Stranding`, `Drifting`, `Instances` | exactly when the two sides part once an assumption of their agreement is dropped, and runs from the start in which they do |
| `Exchange`, `TwoParty`, `Replication`, `Settling`, `Conversation` | two engines joined by queues: what crosses is in order, quiet sides agree, the manager's picture is the resource's own, and delivering comes to rest |
| `Scheduling` | PPBC scheduling: the two passes, the rule for given starts, and why the windows are exact |
| `Prune`, `Replay` | the lenient JSON pruner, and the replay of a recorded conversation |

Each object class gives its whole state as a value (`View`), and each of its methods states its new
view as a function of the old one; the theorems are about those functions.

## The main results

* **Order and agreement of two parties.** `TwoParty.Sound` is one invariant: reading the messages
  still on their way turns the manager's state and pending selection into the resource's. It holds in
  every run in which the two sides start in one negotiation mode, the queues are reliable and FIFO,
  applications send no handshake, status or selection of their own making and name their messages
  outside the engines' numbering, at most one selection is live and none expires, the
  `HandshakeResponse` is not refused, and a resource's policy does not answer a selection `OK`
  itself. Each side may close, lose its transport, refuse messages or end the session at any point.
* **Where agreement fails.** Past the handshake, with the conditions on selections, deadlines and
  policies all dropped and deliveries interleaved anyhow, open sides that agreed differ exactly when
  the last selection the resource took leads elsewhere than the last one whose `OK` the manager heard
  while it was pending (`Drifting.SidesDriftApartExactly`). Two schedules decide it from the
  verdicts and deadlines alone. Several selections sent, then all read, then all answers heard: the
  last does not take effect and an earlier one moved the resource, or a policy answers the last `OK`
  and the resource stands elsewhere. One selection read, time passed, its answer heard: its deadline
  had passed and the resource moved by it, or it had not and a policy answered `OK` to what would
  have moved the resource. A `HandshakeResponse` refused or answered by policy parts the sides in
  every later run. `Instances` reaches each failure from the very start.
* **Nothing else is done.** Over every run of either side, whatever its inputs, what its application
  is told, what it queues, what its registry records and what its ledger books are exactly what each
  input brings about; and a registry look-up finds the last thing said of its key.
* **Replication.** With one clock, no refusals by the manager, and each side withdrawing only its own
  objects, the manager's resource-owned fields with the queue folded in are the resource's, always.
* **Rest.** Any pair of queues comes to rest, `pump` within three rounds.
* **Exact windows.** `schedule` gives, for each choice, precisely the start times it can take.
* **Exact text.** Printing then parsing a timestamp is the identity exactly on four-digit UTC years,
  and the parser accepts exactly the grammar with fields in range.

## Where the code differs from what is written about it

* A comma is taken for the fraction's decimal sign as well as a full stop, which is wider than
  `time-secfrac` in section 5.6 of RFC 3339; a leap second is taken anywhere and collapses onto 59.
* The counter of acknowledgement timeouts never moves: expiry reports an event and does not count it,
  and no received status yields the timed-out outcome (`Ledger.AnswersAreNeverTimeouts`).
* Descriptions that fall due together are applied in queue order, so an older one can replace a newer
  one (`RegistryRuns.ActivationCanInstallTheStaleOne`); `RegistryRuns.NewestInForceExactlyWhenQueuedLast`
  says when it does not.
* A policy that answers `OK` acknowledges a message without the engine acting on it
  (`Disagreement.APolicyMustNotSayOk`).
* `send` of a `ReceptionStatus` queues it and yet returns the error of a closed session; the model
  keeps that result. `total_duration` skips an element whose addition overflows, and a start whose
  end overflows counts as ending with the profile; the model keeps both.
* `unix_millis` gives nothing for the lowest partial second of 64-bit milliseconds.

## Model

| member | source | states |
|---|---|---|
| `Time.OrderIsChronological` | src/types/time.rs:165-172 | the derived field-by-field order of timestamps is the order of the instants they denote |
| `Time.CheckedAdd` | src/types/time.rs:266-286 | `t + d` is the exact instant, and is refused exactly when no timestamp can hold it |
| `Time.CheckedSub` | src/types/time.rs:288-311 | `t - d` is the exact instant, and is refused exactly when no timestamp can hold it |
| `Time.CheckedDurationSince` | src/types/time.rs:313-337 | the gap between two instants rounded down to a millisecond, and nothing exactly when it is negative or over 64 bits |
| `Time.AddThenSubtract` | src/types/time.rs:266-311 | adding a duration and subtracting it returns, and the measured span is the one added |
| `Time.MeasureThenAdd` | src/types/time.rs:313-337 | adding back a measured span lands less than a millisecond short and never beyond |
| `Time.FromUnixMillis` | src/types/time.rs:208-216 | milliseconds since the epoch, negative ones included, become the instant they count |
| `Time.UnixMillisRoundTrip` | src/types/time.rs:208-242 | milliseconds survive the trip, except in the lowest partial second of 64-bit milliseconds, where nothing comes back |
| `Calendar.CivilRoundTrip` | src/types/time.rs:584-611 | every valid proleptic Gregorian date, of any year, comes back from its day number |
| `Calendar.DaysRoundTrip` | src/types/time.rs:584-611 | every integer day number comes back from its date, and that date is valid |
| `Calendar.DayNumbersAreOrdered` | src/types/time.rs:584-598 | a date is earlier than another exactly when its day number is smaller |
| `Calendar.DaysCountTheCalendar` | src/types/time.rs:584-598 | each next day by the calendar (month lengths and leap years alone) is one more day: the arithmetic counts the calendar |
| `Calendar.EpochIsDayZero` | src/types/time.rs:579-598 | 1970-01-01 is day zero |
| `Calendar.LeapYears` | src/types/time.rs:565-567 | the leap rule on truncating remainders is the Gregorian one for every year, negative ones included |
| `Calendar.CivilTimeNamesTheSecond` | src/types/time.rs:353-367 | the civil fields of a timestamp are in range and name exactly its second |
| `Calendar.CivilOrderIsChronological` | src/types/time.rs:353-367 | comparing civil fields orders timestamps as the instants are ordered |
| `Rfc3339.ReadDigits` | src/types/time.rs:444-460 | the digit loop returns the number the digits write and fails on the first byte that is none |
| `Rfc3339.ReadFraction` | src/types/time.rs:492-502 | the fraction loop finds the end of the digits and their value in nanoseconds |
| `Rfc3339.SumDigits` | src/types/time.rs:503-509 | the shrinking-scale sum is the fraction truncated to nine places |
| `Rfc3339.ReadZone` | src/types/time.rs:511-530 | `Z`, `z` or a signed `hh:mm`, with the offset in seconds |
| `Rfc3339.ReadFields` | src/types/time.rs:463-490 | the fixed columns of the date and time, with the separators RFC 3339 section 5.6 allows |
| `Rfc3339.ParseRfc3339` | src/types/time.rs:463-563 | the whole parser, byte loops included, computes its specification |
| `Rfc3339.ParseIsMeaning` | src/types/time.rs:463-563 | a text written by the grammar of RFC 3339 section 5.6 parses to what its parts denote |
| `Rfc3339.ParsedTextIsWellShaped` | src/types/time.rs:463-563 | nothing else parses: whatever is accepted is a text of that grammar, with the meaning parsed |
| `Rfc3339.AcceptsExactly` | src/types/time.rs:463-563 | a well-shaped text is accepted exactly when its fields and offset are in range, and then denotes its local time minus the offset |
| `Rfc3339.SameInstantParsesEqual` | src/types/time.rs:546-563 | two accepted texts denoting one instant parse to one timestamp |
| `Rfc3339.TrailingZero` | src/types/time.rs:492-509 | a trailing zero in the fraction changes nothing |
| `Rfc3339.PrintedFractionIsExact` | src/types/time.rs:380-391 | the printed fraction drops only zeros: read back it is the same number of nanoseconds |
| `Rfc3339.PrintedFormParsesBack` | src/types/time.rs:369-391 | a timestamp whose UTC year is in 0..=9999 parses back from its printed form |
| `Rfc3339.PrintParseRoundTrip` | src/types/time.rs:369-391 | printing then parsing returns the timestamp exactly when its UTC year is in 0..=9999, and is an error for every other |
| `Rfc3339.OffsetCanLeaveTheYears` | fuzz/fuzz_targets/timestamp_parse.rs:15-19 | the unconditional round trip fails: a text whose offset carries it out of the year 0 parses, and its printed form does not |
| `Rfc3339.AnyOffsetSpellsTheInstant` | src/types/time.rs:463-563 | an instant written at any offset, with any separator, parses to that instant |
| `Messages.MatchesIsAnEquivalence` | src/types/mod.rs:98-127 | matching versions is an equivalence, and matching versions select one wire profile |
| `Messages.MatchesOf` | src/types/mod.rs:103-115 | a spelling without a leading `v` matches itself and itself with one, and nothing else |
| `Messages.ProfileVersions` | src/types/mod.rs:119-127 | exactly two spellings select a profile, its version with and without the leading `v` |
| `Messages.OnlyPermanentErrorsDisconnect` | src/types/common.rs:456-470 | which status asks the sender to go on, to try again, or to end the session |
| `Messages.TheKindsOfAControlType` | src/message.rs:366-396 | which kinds belong to which control type, each way |
| `Messages.TheWiresDiffer` | src/message.rs:439-442 | one kind is missing from the beta wire and none from the other |
| `StateTable.TheRowWhileNegotiating` | src/validate/state.rs:101-128 | before a version is agreed, which kinds each role may send, both ways |
| `StateTable.TheRowWithoutAControlType` | src/validate/state.rs:72-78 | connected with no control type to be instructed under, which kinds each role may send, both ways, and what selections lead there |
| `StateTable.TheRolesAreKept` | src/validate/state.rs:101-110 | which kinds are reserved for which role, and that only breaching that is a wrong role |
| `StateTable.TheRowOfAControlType` | src/validate/state.rs:101-157 | under an active control type, which kinds each role may send, both ways |
| `StateTable.TheTableSeparatesPhases` | src/validate/state.rs:101-157 | no control-type message is allowed unless its control type is active, and before the handshake only the handshake, a session request or an answer |
| `Ledger.AckLedger.Sent` | src/session/core.rs:271-279 | an outbound message joins the end of the pending list |
| `Ledger.AckLedger.Received` | src/session/core.rs:282-309 | the first pending entry with that identifier leaves the list and the outcome says how it was answered; the rest is untouched |
| `Ledger.AckLedger.Expire` | src/session/core.rs:312-324 | exactly the entries whose deadline has come leave, in order |
| `Ledger.AckLedger.NextDeadline` | src/session/core.rs:327-330 | the earliest deadline, or none when nothing is pending |
| `Ledger.AckLedger.Answered` | src/session/core.rs:338-343 | the answer joins the ring, the oldest leaving when it is full |
| `Ledger.AckLedger.PreviousAnswer` | src/session/core.rs:347-354 | the latest answer the ring holds for an identifier |
| `Ledger.NothingIsLostOrResolvedTwice` | src/session/core.rs:271-329 | over every run, the multiset of handles sent is pending plus accepted plus refused plus expired |
| `Ledger.TheFirstIsSettled` | src/session/core.rs:282-309 | an answer settles the first message waiting under its identifier, timed from the sending, with the consequence of its status; the rest stays |
| `Ledger.NothingIsSettled` | src/session/core.rs:282-309 | an answer to an identifier nothing waits under settles nothing and is reported as unmatched |
| `Ledger.AnsweringUndoesSending` | src/session/core.rs:271-309 | sending and answering leave the ledger as it was, and the time between them is what is told |
| `Ledger.DueAtTheDeadline` | src/session/core.rs:312-324 | a message is overdue from its deadline on |
| `Ledger.ExpireIsExact` | src/session/core.rs:312-330 | expiry yields something exactly when the next deadline has come, and leaves only later ones |
| `Ledger.AnswersAreNeverTimeouts` | src/session/core.rs:282-309 | matching a status never yields the timed-out outcome, which is the only one the counter of timeouts waits for |
| `Ledger.RingIsTheRecentHistory` | src/session/core.rs:338-343 | along every run of the ledger the ring is the last `max` answers of an unbounded history |
| `Ledger.LatestAnswerIsTheLatest` | src/session/core.rs:347-354 | a look-up succeeds exactly for identifiers still in the ring, and gives the last status recorded |
| `Tables.UpsertInPlace` | src/session/core.rs:424-437 | replace the entry with the key or append one, dropping the oldest over the bound |
| `Tables.UpsertKeepsTable` | src/session/core.rs:424-437 | keys stay unique and at most 4096 |
| `Tables.UpsertIsAnUpdate` | src/session/core.rs:430-437 | the new entry is found, and every other key finds what it found before unless it was the oldest of a full table |
| `Tables.TheLatestIsFound` | src/session/core.rs:424-437 | over any changes a look-up finds the last thing said of its key, and misses it only once more than 4096 keys were put since the table was empty |
| `Tables.RemoveKeyKeepsTable` | src/session/core.rs:661-680 | removing a key keeps a table a table |
| `Registry.RegistryTables.Schedule` | src/session/core.rs:486-513 | a queued description with the same identity is replaced; otherwise the new one joins and the furthest leaves when over 16 |
| `Registry.RegistryTables.FindFurthest` | src/session/core.rs:500-507 | the last of the entries furthest from taking effect |
| `Registry.RegistryTables.Apply` | src/session/core.rs:516-622 | what each message changes in the tables, and that it changes nothing else |
| `Registry.RegistryTables.Record` | src/session/core.rs:445-483 | identifiers are noted, and contents applied at once or queued for their `valid_from` |
| `Registry.RegistryTables.ActivateDue` | src/session/core.rs:632-647 | due descriptions leave the queue and are applied in queue order |
| `Registry.RegistryTables.NextActivation` | src/session/core.rs:650-652 | the earliest instant in the queue |
| `Registry.RegistryTables.Revoke` | src/session/core.rs:661-719 | what withdrawing an object removes, and that it removes nothing else |
| `RegistryRuns.TablesStayBounded` | src/session/core.rs:424-513 | in every run every table keeps unique keys and at most 4096 entries, and the queue at most 16 with distinct identifiers |
| `RegistryLaws.TheRegistryHoldsWhatHappened` | src/session/core.rs:445-719 | over every run each table holds the changes read off what was heard, took effect and was withdrawn |
| `RegistryLaws.ActuatorsAreFound` | src/session/core.rs:550-590 | the mode of an actuator and the end of a timer are as last said since the description in force came into force |
| `RegistryLaws.ObjectsAreFound` | src/session/core.rs:661-719 | a published object is found as last published, and not once withdrawn |
| `RegistryLaws.InstructionsAreFound` | src/session/core.rs:457-471 | what is known of an instruction is what was last said of it, and that it is revoked once withdrawn |
| `RegistryLaws.TheLastDescriptionIsInForce` | src/session/core.rs:516-550 | the description in force is the last to come into force and not withdrawn since; details and fill level are the last heard |
| `RegistryLaws.WhatWaitsIsTheLastAnnounced` | src/session/core.rs:486-513 | whatever is queued is the last announcement of its identity, neither withdrawn nor due since |
| `RegistryLaws.EnqueuedAre` | src/session/core.rs:486-513 | announcing an identity anew takes the place of what was announced and touches nothing else |
| `RegistryRuns.RevokedStaysRevoked` | src/session/core.rs:661-719 | a revoked description, live or queued, never comes back in any continuation that does not record it anew |
| `RegistryRuns.RevokingIsSelective` | src/session/core.rs:661-719 | revoking one identifier leaves every other live or queued description, and every other object, as it was |
| `RegistryRuns.QueueIsTheSoonest` | src/session/core.rs:486-513 | fed distinct identifiers, the queue is exactly the 16 soonest by `valid_from`, the earlier arrival winning ties |
| `RegistryRuns.ActivationFollowsTheQueue` | src/session/core.rs:632-647 | after an activation the description in force is the due one queued last, whatever its `valid_from` |
| `RegistryRuns.NewestInForceExactlyWhenQueuedLast` | src/session/core.rs:632-647 | the description in force after an activation is a due one of the latest `valid_from` exactly when none of its kind with a later one is queued ahead of the last one due |
| `RegistryRuns.ActivationCanInstallTheStaleOne` | src/session/core.rs:632-647 | two descriptions due at once can leave the earlier one in force |
| `Scheduling.CheckOrder` | src/model/mod.rs:589-609 | the position-by-position comparison names the first container out of order |
| `Scheduling.ResolveEach` | src/model/mod.rs:611-617 | every choice is resolved, or the first that cannot be is reported |
| `Scheduling.BackwardPass` | src/model/mod.rs:619-628 | each position gets the total time everything from it onwards needs, or the pass fails when a sum overflows |
| `Scheduling.ForwardPass` | src/model/mod.rs:630-654 | each window opens when everything before it could be done and closes when everything from it onwards still fits |
| `Scheduling.Schedule` | src/model/mod.rs:585-656 | the whole of `schedule`, error cases in the order the code meets them |
| `Scheduling.ScheduleAnswers` | src/model/mod.rs:585-656 | which of its answers `schedule` gives and when, each way: the first choice out of order, the first the profile does not have, too long a total, or windows that describe the sequences chosen |
| `Scheduling.ScheduleDescribes` | src/model/mod.rs:585-656 | each window carries the container, the sequence, the summed length and the pause limit of the sequence chosen |
| `Scheduling.WindowBounds` | src/model/mod.rs:630-654 | where each window opens and closes, with the bound it falls back on when no timestamp can hold the sum |
| `Scheduling.TotalDurationIsTheSum` | src/types/ppbc.rs:82-88 | the time computed for a sequence is the sum of its elements exactly when a duration can hold it |
| `Scheduling.OverflowsAreSkipped` | src/types/ppbc.rs:82-88 | an element whose addition overflows is skipped, any other is added |
| `Scheduling.StartsAreFeasible` | src/model/mod.rs:725-771 | the loop with its running end computes the rule stated position by position |
| `Scheduling.FeasibilityIsExact` | src/model/mod.rs:725-771 | accepted start vectors are exactly those that run the profile in order, in its window and within the pause limits, as long as every end and pause fits a machine value |
| `Scheduling.RefusalsNameTheFirst` | src/model/mod.rs:725-771 | a refusal names the first sequence that cannot start where it does and what is wrong there |
| `Scheduling.EveryWindowHasTheSameSlack` | src/model/mod.rs:630-654 | every window is equally wide: the profile's window less the total |
| `Scheduling.WindowsAreExact` | src/model/mod.rs:585-656 | the start times a choice takes over all ways to run the profile are exactly its window, pause limits included |
| `Scheduling.AcceptedStartsFillTheWindow` | src/model/mod.rs:725-771 | the same over the vectors `starts_are_feasible` accepts |
| `Scheduling.SchedulableMeansRunnable` | src/model/mod.rs:662-664 | `is_schedulable` holds exactly when some start vector runs the profile |
| `Scheduling.OverflowingEndIsAccepted` | src/model/mod.rs:757-768 | a start whose end overflows is accepted although nothing can run |
| `Scheduling.UnmeasurableGapCountsAsZero` | src/model/mod.rs:746-756 | a pause too long for a duration counts as none, so no limit refuses it |
| `Scheduling.AnUnmeasurablePauseIsAccepted` | src/model/mod.rs:725-771 | an instance: starts over three billion years apart are accepted for a sequence that allows no pause |
| `Scheduling.SequencePowerAt` | src/model/mod.rs:522-536 | the element in force at an offset is the one whose span contains it, and none after the end |
| `SessionObjects.SessionCore.NextMessageId` | src/session/core.rs:940-958 | each minted identifier carries the role and the next count |
| `SessionObjects.SessionCore.Transmit` | src/session/core.rs:972-992 | a message is recorded, queued and, if it has an identifier, registered with its deadline |
| `SessionObjects.SessionCore.Acknowledge` | src/session/core.rs:997-1020 | one status is queued and the answer remembered |
| `SessionObjects.SessionCore.NextWake` | src/session/core.rs:1030-1038 | the sooner of the next deadline and the next activation, and none once closed |
| `SessionObjects.SessionCore.PollTransmit` | src/session/core.rs:1041-1043 | the outbox gives up its head |
| `Session.BackoffIsThePrescribedOne` | src/session/core.rs:1073-1080 | capping the shift and saturating never show: the ceiling is the prescribed minimum of 600 s and 2 s doubled per attempt |
| `Session.DeadlinesAreExact` | src/session/core.rs:985-990 | a deadline is exactly the timeout after the sending, if a timestamp can hold that |
| `Session.WakesAtTheSoonest` | src/session/core.rs:1030-1038 | a session wakes at the soonest of its deadlines and activations, and never once closed |
| `Session.WhereSelectionsLead` | src/session/core.rs:84-91 | which state a selection leads to, and which row of the table each state is on |
| `SessionObjects.EngineObject.Review` | src/session/rm.rs:504-601 | how an inbound message is answered and whether it goes on to be processed: duplicate, refused, out of order, turned down by policy, accepted |
| `SessionObjects.EngineObject.Report` | src/session/rm.rs:710-746 | what the application is told of an answer, and that only a permanent error ends the session |
| `SessionObjects.EngineObject.Send` | src/session/rm.rs:772-822 | which error refuses a message, in the order the code looks, and that a message let out is queued once |
| `SessionObjects.EngineObject.LetTimePass` | src/session/rm.rs:750-759 | expired messages are reported, then due descriptions activated and reported |
| `SessionObjects.EngineObject.CloseWithReason` | src/session/rm.rs:872-890 | the first close decides the reason and is reported once with its delay; a later one does nothing |
| `RmSessions.RmSession.Open` | src/session/rm.rs:366-392 | the resource opens once, with a handshake or with its details |
| `RmSessions.RmSession.HandleText` | src/session/rm.rs:423-479 | a frame that does not decode is answered without a look-up, any other goes on, and a closed session ignores both |
| `RmSessions.RmSession.HandleMessage` | src/session/rm.rs:482-607 | the acknowledgement is queued before the message is acted on |
| `RmSessions.RmSession.Process` | src/session/rm.rs:610-703 | what each accepted kind does to the resource's session |
| `RmSessions.RmSession.Agree` | src/session/rm.rs:618-645 | the version must be one offered, in either spelling, and have a wire |
| `CemSessions.CemSession.Open` | src/session/cem.rs:361-387 | the manager opens once, with a handshake or by waiting |
| `CemSessions.CemSession.HandleText` | src/session/cem.rs:412-466 | a frame that does not decode is answered without a look-up, any other goes on, and a closed session ignores both |
| `CemSessions.CemSession.HandleMessage` | src/session/cem.rs:469-590 | the acknowledgement is queued before the message is acted on |
| `CemSessions.CemSession.ChooseVersion` | src/session/cem.rs:605-612 | the loop finds the first version of ours that is on offer |
| `CemSessions.CemSession.AnswerHandshake` | src/session/cem.rs:594-635 | the manager goes over to its choice, names it and says so, or ends the session |
| `CemSessions.CemSession.OnReceptionStatus` | src/session/cem.rs:715-777 | the state changes only when the pending selection's `OK` arrives, and a refusal drops the selection |
| `CemSessions.CemSession.HandleTimeout` | src/session/cem.rs:780-795 | a selection among the expired messages is forgotten |
| `CemSessions.CemSession.SelectControlType` | src/session/cem.rs:807-822 | the selection let out becomes the pending one |
| `CemSessions.CemSession.Instruct` | src/session/cem.rs:825-873 | with transitions enforced a blocked instruction is refused before anything else |
| `CemSessions.CemSession.Revoke` | src/session/cem.rs:876-893 | the object is withdrawn here once the request is let out |
| `SessionRuns.StepExtends` | src/session/rm.rs:423-890 | any one step of either side queues exactly the answers owed, remembers them, and reports an end exactly when it brings one about |
| `History.OneAnswerPerFrame` | src/session/rm.rs:423-607 | over every run, the statuses queued name, in order, exactly the frames fed while open that are not statuses themselves |
| `History.TheEndIsFinal` | src/session/rm.rs:872-890 | the end is reported once; afterwards nothing is queued and the reason stays |
| `History.TheRingIsTheRecentPast` | src/session/core.rs:338-354 | what a session remembers is always the last 256 answers it has queued |
| `History.ARedeliveryIsOnlyAnswered` | src/session/rm.rs:504-526 | a decodable redelivery still remembered gets the latest status and changes no state, wire, registry, ledger or counter |
| `History.ActedOnAtMostOnce` | src/session/cem.rs:488-510 | a message is acted on at most once within any 256 answers |
| `Doings.NothingElseIsDone` | src/session/rm.rs:366-890 | over every run of either side and for whatever inputs, the events told, the messages queued, the registry and the ledger are exactly those its inputs bring about, in order |
| `Doings.RefusalsChangeNothing` | src/session/rm.rs:772-822 | a message is let out exactly when the session is open, the wire and the table have it and the validator does not object; otherwise nothing changes and the first reason is given |
| `Doings.BlockedInstructionsStay` | src/session/cem.rs:825-873 | an instruction spoken against is refused exactly when transitions are enforced |
| `Doings.WhenToReconnect` | src/session/rm.rs:872-890 | no reconnection after a local close, at once when asked for, and otherwise after the delay of the attempt |
| `Hearing.InstructionsReachTheApplication` | src/session/rm.rs:693-701 | over every run the instructions the application is given are exactly those the resource takes up and can explain, in order |
| `Hearing.ReportsReachTheApplication` | src/session/cem.rs:654-712 | over every run the manager's application is told of exactly the reports taken up, each in its own terms and in order |
| `Hearing.WhatIsTakenUpIsAnsweredOk` | src/session/rm.rs:504-607 | what is taken up was not answered before and is answered `OK` |
| `Hearing.TheResourceKnows` | src/session/rm.rs:612-616 | the resource knows the versions last offered to it and whether it has been greeted |
| `Hearing.TheManagerKnows` | src/session/cem.rs:594-612 | the manager knows the versions last offered to it and whether it has greeted |
| `TwoParty.StartIsSound` | src/session/rm.rs:366-392 | two sides opened in one negotiation mode satisfy the invariant |
| `TwoParty.ResourceActs` | src/session/rm.rs:772-890 | anything the resource's application, clock or transport does keeps the invariant |
| `TwoParty.ManagerActs` | src/session/cem.rs:780-990 | anything the manager's application, clock or transport does keeps the invariant |
| `TwoParty.ResourceHears` | src/session/rm.rs:482-703 | the resource reading its next message keeps the invariant |
| `TwoParty.ManagerHears` | src/session/cem.rs:469-777 | the manager reading its next message keeps the invariant |
| `TwoParty.EveryRunIsSound` | src/testing.rs:213-232 | so every run of the pair does |
| `TwoParty.TheResourceIsAlwaysInOrder` | src/validate/state.rs:100-155 | every message the resource lets out is allowed by the state table, and exists in the wire, when the manager receives it |
| `TwoParty.TheManagerIsInOrderUnlessSelecting` | src/validate/state.rs:100-155 | so is every message the manager lets out while no selection is pending |
| `TwoParty.QuietSidesAgree` | src/session/cem.rs:721-738 | with both queues empty, nothing pending and neither side closed, both hold one state and one wire |
| `TwoParty.VersionsAgree` | src/session/rm.rs:624-643 | the resource never refuses the manager's version; once connected both hold one version and one profile, the manager's first on offer |
| `TwoParty.ChosenIsFirst` | src/session/cem.rs:605-612 | a version is chosen exactly when one of ours is on offer, and then the first such |
| `TwoParty.FirstCommonVersionDecides` | src/session/cem.rs:605-618 | the manager gives up exactly when nothing is common or the first common version has no wire |
| `TwoParty.ALaterVersionIsNotTried` | src/session/cem.rs:613-618 | an instance where a later common version has a wire and the session ends all the same |
| `Disagreement.APolicyMustNotSayOk` | src/session/rm.rs:573-601 | after one selection and its answer the sides disagree exactly when the resource's policy answers it `OK` in its own name |
| `Selections.OnlyTheLastSelectionIsShared` | src/session/cem.rs:721-738 | however many selections are on their way, the resource ends where the last it took leads and the manager where the last it sent leads if that was acknowledged; when open sides part, and that only a permanent error ends a session |
| `Selections.StandingIsTheLastTaken` | src/session/rm.rs:646-655 | where the resource stands after any number of selections is where the last one it took leads |
| `Selections.AllAsked` | src/session/cem.rs:807-822 | any number of selections sent by a quiet manager, let out or not, leaves only the last let out pending |
| `Drifting.EachSideGoesByItsLast` | src/session/cem.rs:721-738 | in every run past the handshake, whatever is selected, expires, is refused or answered by policy, an open resource stands where the last selection it took leads and an open manager where the last one leads whose `OK` it heard while pending |
| `Drifting.SidesDriftApartExactly` | src/session/rm.rs:646-655 | from quiet agreement on, in every run and at every moment of it, open sides differ exactly when the last selection taken and the last heard lead to different states |
| `Disagreement.ASecondSelectionCanPartTheSides` | src/session/cem.rs:807-822 | from quiet sides that agree, two selections sent, read and answered leave open sides apart exactly when the first is taken, the second refused and the first one moved the resource, or a policy answered the second `OK` and the resource is elsewhere |
| `Disagreement.ASecondSelectionOverwritesTheFirst` | src/session/cem.rs:807-822 | a second selection overwrites the pending one, and the first one's `OK` no longer moves the manager |
| `Disagreement.AnExpiredSelectionIsForgotten` | src/session/cem.rs:780-789 | one selection read, time passed, its answer heard: open sides part exactly when its deadline had passed and the resource moved by it, or when it had not and a policy answered it `OK` |
| `Disagreement.TimeAndReadingCommute` | src/session/cem.rs:780-789 | and the same whether time passes before or after the resource reads |
| `Stranding.ARefusedResponseIsNeverMadeGood` | src/session/rm.rs:569-607 | in every run after the `HandshakeResponse` is read, open quiet sides differ exactly when it was refused or answered by policy |
| `Stranding.EveryRunStaysStranded` | src/session/rm.rs:618-645 | a resource left waiting for a version never gets out of it but by closing, whatever both sides do |
| `Instances.TwoSelectionsPartTheSides` | src/session/cem.rs:807-822 | from the start of any agreed pair, two selections of which only the second is refused leave the sides apart |
| `Instances.ALateAnswerPartsTheSides` | src/session/cem.rs:780-789 | from the start of any agreed pair, an answer that arrives at its deadline leaves the sides apart |
| `Instances.APolicySayingOkPartsTheSides` | src/session/rm.rs:573-601 | from the start of any agreed pair, a policy's `OK` to a selection leaves the sides apart |
| `Instances.APutOffResponsePartsTheSides` | src/session/rm.rs:569-607 | from the start of any pair with a common version, a `HandshakeResponse` refused for now leaves one side connected and the other not |
| `Replication.OwnPartsAreRecordedAlike` | src/session/core.rs:445-622 | recording a message depends, for the resource-owned fields, on those fields alone |
| `Replication.TheResourceRecordsWhatItQueues` | src/session/core.rs:972-975 | what the resource lets out is what it records |
| `Replication.HearingRecords` | src/session/cem.rs:644-657 | what the manager accepts it records as the resource did |
| `Replication.ThePictureIsTheResourcesOwn` | src/session/core.rs:445-622 | at every step of every run at one instant, the manager's picture with the messages in flight folded in is the resource's own, field by field |
| `Settling.EachDeliveryLosesWeight` | src/testing.rs:213-232 | whatever the states and queues, each delivery leaves a strictly lighter pair of queues |
| `Settling.DeliveriesRunOut` | src/testing.rs:213-232 | there are at most as many deliveries, however interleaved, as the queues weigh |
| `Conversations.Conversation.Open` | src/testing.rs:198-202 | both sides opened, which is the start of every run, and pumped from there until both queues are empty, within three rounds |
| `Conversations.Conversation.DrainToManager` | src/testing.rs:216-220 | the resource's outbox is emptied into the manager, message by message |
| `Conversations.Conversation.DrainToResource` | src/testing.rs:221-225 | the manager's outbox is emptied into the resource, message by message |
| `Conversations.Conversation.Pump` | src/testing.rs:213-232 | from any queue contents the loop returns within three rounds with both outboxes empty, so its panic is unreachable |
| `Conversations.APumpedConversationAgrees` | src/testing.rs:205-232 | pumping from any reachable point decides the selection under way and leaves two open sides in one state |
| `Timeouts.HandlingIsProgress` | src/session/core.rs:1030-1038 | once told the time, a session has nothing to do until strictly later |
| `Timeouts.NothingDueNothingDone` | src/session/set.rs:137-143 | telling the time to an open session with nothing due changes nothing at all |
| `Timeouts.WakingRemovesSomething` | src/session/rm.rs:750-759 | a session woken when it asked to be has strictly less to wait for |
| `Timeouts.WakingsEnd` | tests/deadlines.rs:36-60 | a session driven by its own deadlines is woken finitely often, each time strictly later, and then asks for nothing |
| `Timeouts.SessionSet.Insert` | src/session/set.rs:62-64 | the key holds the new session, every other key what it held, and the order of keys is kept |
| `Timeouts.SessionSet.Remove` | src/session/set.rs:67-69 | the key is gone and every other stays |
| `Timeouts.SessionSet.SoonestDeadline` | src/session/set.rs:115-120 | the minimum over the members that have a deadline |
| `Timeouts.SessionSet.NextDeadline` | src/session/set.rs:125-130 | that minimum with the first member that owns it |
| `Timeouts.SessionSet.HandleTimeout` | src/session/set.rs:137-143 | the filtered sweep leaves every open member as a sweep of all would |
| `Timeouts.ASweptSetIsQuiet` | src/session/set.rs:137-143 | after a sweep nothing in the set is due |
| `Timeouts.SessionSet.RetainOpen` | src/session/set.rs:187-192 | exactly the sessions that have ended are dropped, and counted |
| `Timeouts.SessionSet.DrainTransmit` | src/session/set.rs:152-163 | every outbox is emptied in key order, each message tagged with its key |
| `Prune.PruneAt` | src/schema/mod.rs:193-244 | the pruner returns the value cut down to the schema, lists every path removed once, and returns exactly that many |
| `Prune.RemoveUnknown` | src/schema/mod.rs:212-222 | the unknown keys, `message_type` aside, go and are listed; the others stay as they are |
| `Prune.StraysAreUndefined` | src/schema/mod.rs:193-244 | a path is reported exactly when it ends in a key, other than `message_type`, that the type the schema gives there does not define, within the depth |
| `Prune.TheTagStays` | src/schema/mod.rs:212-222 | `message_type` stays wherever the object it stands in does |
| `Prune.StraysAreTheTopsOfWhatGoes` | src/schema/mod.rs:193-244 | a path is reported exactly when it is there before, not there after, and its parent is there after |
| `Prune.NothingElseGoes` | src/schema/mod.rs:193-244 | what is in the value and under no reported path is in the result, and nothing else is |
| `Prune.NothingIsChanged` | src/schema/mod.rs:170-175 | what stays is what was: the same scalars, arrays of the same length, no key added |
| `Prune.WhatTheSchemaDefinesStays` | src/schema/mod.rs:170-175 | a path whose every key the schema defines is never removed |
| `Prune.PruningTwiceIsPruningOnce` | src/schema/mod.rs:184-191 | pruning is idempotent |
| `Prune.PrunedHoldsNoStray` | src/schema/mod.rs:193-244 | nothing undefined is left anywhere the walk reaches |
| `Prune.TheTableHasFiveLevels` | src/schema/table.rs:16-684 | in the tables of both wires objects nest at most five deep, each inner type of lower rank |
| `Prune.TheCapNeverShows` | src/schema/mod.rs:162-168 | against those tables the cap of 16 gives what any cap of five or more gives |
| `Replay.BuildIndexes` | src/testing.rs:757-773 | the sorted indexes hold an entry exactly when some line of the transcript says so |
| `Replay.Search` | src/testing.rs:797-818 | the binary search finds an entry with the key exactly when there is one |
| `Replay.JudgeLine` | src/testing.rs:775-847 | what is found about one line is what a scan of every line would find |
| `Replay.ReplayWith` | src/testing.rs:745-852 | every line is judged as by a full scan, and each message that needs an answer is counted once, as answered or as unanswered |
| `Replay.FindingsAreInLineOrder` | src/testing.rs:850-850 | findings arise in line order already, so sorting them by line moves none |
| `Replay.ConformingExactly` | src/testing.rs:745-852 | a transcript has no findings exactly when no rule is broken, every answer is to a message sent and every message is answered as expected or by an error about the receiver |

## Left out

- Time.UnixMillisRoundTrip: an arbitrary timestamp finer than a millisecond is not claimed to survive, as milliseconds cannot hold it.
- Scheduling.WindowsAreExact: needs that the total fits a duration and that neither pass falls back on a profile bound, since a fallback window is not a time anything can start.
- Replication.ThePictureIsTheResourcesOwn: at one instant only, because a description queued on one side and already in force on the other is a difference in clocks, not in knowledge.
- Replication.OwnPartsAreRecordedAlike: the resource-owned fields leave out the list of published identifiers: its bound of 4096 counts the manager's instructions too, and the sides interleave those differently, so a full list can drop different entries.
- History.OneAnswerPerFrame: the application leaves statuses to the engine; one it sends itself through `send` would be queued as an extra.
- TwoParty.TheManagerIsInOrderUnlessSelecting: nothing is claimed of what the manager lets out while a selection is pending, which the resource may rightly refuse.
- Replay.ReplayWith: when a message was answered twice with different statuses, the recorded one is any of them, as the code's unstable sort leaves it.
- Prune.PruneAt: an object's keys have no order here, so neither the order of the reported paths nor the order `swap_remove` leaves the remaining keys in is modelled; a path is a sequence of segments rather than its text, and the edited value is returned rather than changed in place.
- Timeouts.SessionSet: its sessions are values held in key order, so two handles on one session are not modelled.
- The engines as functions: counters of `Stats`, diagnostic texts, skew tolerance and message size limits are not kept.
- Semantic message rules (`src/validate/messages.rs`, `rules.rs`) and `InboundPolicy` are a free parameter of every inbound and outbound message.
- Message payloads: only identifiers, `valid_from`, the revokable key and what the registry stores are kept; a fill level is an abstract value.
- JSON text, encoding and decoding: a frame arrives decoded, or as a decode failure with a kind and an identifier.
- SessionObjects.SessionCore.NextMessageId: the count is unbounded, as without UUIDs; its 64-bit wrap is not modelled, and neither are random UUIDs.
- Calendar arithmetic is over all integers; the 64-bit intermediates of the code hold every value reached from a timestamp.
- Floating point: operation-mode factors, fill-level projection and the random part of the back-off.
- `PowerEnvelope::element_at`, `limits_at`, `resolve_frbc`, `resolve_ombc`, `resolve_ddbc`, `explain`: single finds, or the loop of `sequence_power_at` again.
- `connect`, `io`, the command line, discovery and tracing: sockets and libraries that are not part of this model.
