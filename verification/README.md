# StarLink: verified models of its algorithms and protocols

StarLink is a conversation platform. This project models the parts of it that are algorithms or protocols in
their own right, and proves what their code and documentation promise about them, over every input, run or
interleaving. `dafny verify dfyconfig.toml` checks all of it.

| area | files |
|---|---|
| SLA working-time clock | `Sorting`, `Sums`, `Calendar`, `Clock`, `WallClock`, `Coverage`, `ClockLaws`, `ElapsedLaws`, `SlaState`, `SlaLaws`, `SlaVerdicts`, `SlaRetreats` |
| realtime gateway | `ConnectionSlots`, `Subscriptions`, `Revalidation` |
| attachments | `AttachmentPolicy`, `Attachments`, `AttachmentVerdicts`, `AttachmentMoves`, `AttachmentLosses` |
| at-least-once delivery | `OutboxRelay`, `Webhook`, `WebhookRaces`, `DeliveryRuns`, `FastPath` |
| messages | `Conversations`, `Mentions`, `Messages`, `Revisions`, `MessageLaws`, `SendLaws`, `ReviseLaws`, `HistoryLaws`, `PreviewLaws` |
| membership, identity, limits | `Membership`, `MembershipLaws`, `MembershipAnswers`, `OtpIdentity`, `RateLimiter` |

Code that changes state step by step is a class with methods, each tied by its contract to a function on plain
values; the laws are proved about those functions. Where several parties race, the steps are the code between
two awaits, and a run is any sequence of them, crashes included. Bookkeeping no program variable holds (how
often a publisher accepted a row, which texts a message has had) is kept in fields marked as an observer's.

## Where the code and its documentation disagree

The models follow the code. Each of these is a lemma with a concrete case or an exact condition.

- Wall times skipped or repeated by an offset transition do not follow the convention stated in
  `packages/sla/src/clock.ts:54-56` (`WallClock.RepeatedTimeConvention`, `WallClock.GapTimeConvention`). A skipped
  opening time can fall before the window ahead of it has closed, and is then counted twice
  (`ElapsedLaws.ApartWindowsCanOverlap`, exactly when in `WallClock.OutOfOrderExactly`).
- Whole and paused time are rounded to seconds apart, so on millisecond instants a clock can go back: BREACHED at one
  instant and RUNNING at a later one (`SlaRetreats.VerdictCanRetreat`, exactly when in
  `SlaRetreats.WhenTheVerdictRetreats` and `SlaRetreats.WhenABusinessClockRetreats`). The flag leads the breach instant
  by up to half a second (`SlaLaws.TheFlagCanLead`, `SlaLaws.FlagAndInstant`).
- Membership of a channel and its socket set part ways exactly when a join is recorded for a socket not in the set, or
  for a departed one that is (`Subscriptions.MirrorStep`). Four runs do it: a disconnect or an unsubscribe inside the
  same subscribe, a subscription the backplane refused, and another socket's last leave between a subscriber's two
  steps. The first keeps the dead socket listed and its handle open for good (`Subscriptions.LeaksAreForGood`).
- The expiry sweep says undeleted bytes are retried; a row is read only until it is EXPIRED, so they never are, and a
  clean copy made just before expiry is never known to it (`AttachmentLosses.BytesGoOnlyByTheirSweep`). A scan whose
  pass crashes is never taken up again (`AttachmentLosses.ScansSettleOnlyByTheirPass`).
- The delivery-level webhook check is described as not load-bearing. The ledger completes an entry only by a
  recorded result, so that holds exactly while every completed batch leaves a reference for each of its events
  (`FastPath.FastPathRefinesPlain`). The claim is described as giving one processing pass to concurrent deliveries;
  deliveries that overlap are each processed, and a result that is missing reopens the event
  (`WebhookRaces.OverlapOrReopening`).
- The preview rule of the send path, that a note never appears in a customer conversation's preview, is not kept when
  the preview is recomputed, from the newest message of any visibility (`PreviewLaws.NotesShowExactlyWhen`).
  Corrections also leave mentions as they were (`HistoryLaws.CorrectedMentionsMayDangle`).
- Internal conversations are said to have no customers. The code goes by the kinds it is given, and lets in whoever
  it is not told is a customer (`MembershipLaws.InsideExactlyIfLetIn`, `MembershipLaws.ACustomerInside`); the
  channel form calls every member an employee.
- Opening a one-to-one can stop landing in the same thread after a removal and a re-add
  (`MembershipLaws.TwoThreadsForOnePair`).

## Assumptions

- Instants are integer milliseconds, local dates are day numbers, and a zone is a whole-minute offset with at most
  one transition. Calendars satisfy what `infrastructure/database/src/repositories/calendar-reader.ts:50-82`
  accepts. Laws of the clock are stated within its 3660-day guard, for window edges off the transition or
  transitions clear of midnight (`ElapsedLaws.SoundHistories`). A window is over an instant when its converted edges
  enclose it, which is what the wall clock says wherever no edge is misplaced (`ElapsedLaws.TheWallClockAgrees`).
- `decide()` and `decideForTeam()` are arbitrary predicates; readers, storage, publishers, scanners and the
  customer lookup answer arbitrarily. Generated identifiers never repeat, and ids contain no NUL. Keyed hashes are
  injective.
- In `Webhook`, whose deliveries come one after another, applying an event returns the same each time; in
  `WebhookRaces` and `FastPath` it may return something else each time.
- The database's transactions and conditional updates are atomic; claims with SKIP LOCKED see no locked row.
- The library's sort is a stable insertion sort, standing for any stable sort.
- A clock's pauses are disjoint where that is asked for, as `case_state_no_overlap` in
  `infrastructure/database/migrations/0006_case_state_episodes.sql:50` keeps them.

## Model

| member | source | states |
|---|---|---|
| `Calendar.IsOpenAt` | packages/sla/src/calendar.ts:222-238 | the loops over today's and yesterday's windows answer true exactly when the instant lies inside a window of some local date, past-midnight windows included |
| `Calendar.DepthMeansOpen` | packages/sla/src/calendar.ts:199-238 | counting the windows over an instant on the two dates the code looks at finds one exactly when any date at all has a window over it |
| `Calendar.OtherDatesMiss` | packages/sla/src/calendar.ts:222-238 | windows end within two days, so no date but today and yesterday can be open at an instant |
| `Calendar.FindExceptionFinds` | packages/sla/src/calendar.ts:199-211 | the exception lookup returns the first exception of that date, and nothing only if there is none |
| `Calendar.PatternForSelects` | packages/sla/src/calendar.ts:199-211 | the weekly pattern of a date is exactly the windows of its weekday |
| `Calendar.WeekdaysFollow` | packages/sla/src/calendar.ts:180-183 | day 0 was a Thursday, and every day is the weekday after the one before |
| `Calendar.WindowsAreDeclared` | packages/sla/src/calendar.ts:199-211 | the windows of a date are, with their number, those declared for it: by the first exception recorded for it if there is one, closed or not, and otherwise by its weekday's pattern unless it is a holiday |
| `Calendar.InsideMeansDeclared` | packages/sla/src/calendar.ts:199-238 | so the team is open exactly when the wall clock stands inside a window declared for some date |
| `Calendar.ExceptionDecidesTheDate` | packages/sla/src/calendar.ts:199-211 | an exception with windows opens its date exactly inside those, whatever the pattern and the holidays say of the date |
| `Calendar.ClosedExceptionIsAHoliday` | packages/sla/src/calendar.ts:199-211 | a closed exception for a date has the effect of a holiday, at every instant |
| `Calendar.HolidayIsClosed` | packages/sla/src/calendar.ts:199-211 | a holiday leaves a date without an exception no windows at all |
| `Clock.InstantAtLocal` | packages/sla/src/clock.ts:58-79 | the two-pass loop computes the stated conversion of a wall-clock minute to an instant |
| `Clock.OpenIntervals` | packages/sla/src/clock.ts:101-131 | the walk over local dates, clipped and sorted, is the interval list the laws below are about |
| `Clock.WalkDates` | packages/sla/src/clock.ts:109-126 | the guarded walk visits yesterday to the last date, never more than the runaway guard allows, and collects each date once |
| `ElapsedLaws.VersionCover` | packages/sla/src/clock.ts:134-150 | a version holds an instant of the query once for every window over it if its effective period covers the instant, and not at all otherwise |
| `Clock.ElapsedWorkingSeconds` | packages/sla/src/clock.ts:158-176 | the accumulating loop returns the rounded total over all versions |
| `Clock.InstantAfterWorkingSeconds` | packages/sla/src/clock.ts:192-222 | the loop that subtracts intervals from the remaining time returns the walk's instant, or nothing at the horizon |
| `Clock.NextOpening` | packages/sla/src/clock.ts:233-253 | the scan over versions returns the earliest start of any interval inside the horizon |
| `WallClock.ConversionMapsBack` | packages/sla/src/clock.ts:58-79 | around one offset transition the result shows the requested wall time again exactly when that time exists at all |
| `WallClock.RepeatedTimeConvention` | packages/sla/src/clock.ts:54-79 | exactly which repeated wall times resolve to their first occurrence, and which to their second |
| `WallClock.GapTimeConvention` | packages/sla/src/clock.ts:54-79 | exactly when a skipped wall time resolves to the instant the clock jumps to: for one time at most |
| `WallClock.ConventionCounterexamples` | packages/sla/src/clock.ts:54-57 | a Central European autumn time and an Eastern American spring time for which the stated conventions do not hold |
| `WallClock.WindowMeansInterval` | packages/sla/src/clock.ts:81-126 | a window whose edges are off the transition is open as an interval exactly when the wall clock is inside it |
| `WallClock.EdgeMisplacedExactly` | packages/sla/src/clock.ts:58-79 | for any edge at all, exactly the instants at which the converted edge and the wall clock disagree on whether it has been reached |
| `WallClock.WindowMisplacedExactly` | packages/sla/src/clock.ts:81-126 | for any window at all, its interval is the window on the wall clock corrected by exactly the instants its two edges are misplaced at |
| `WallClock.OpenDatesAreWalked` | packages/sla/src/clock.ts:101-126 | starting the walk the day before and ending it on the last local date misses no window whose edges are off the transition |
| `WallClock.ClearMidnightsAreReached` | packages/sla/src/clock.ts:101-126 | nor any window at all, skipped and repeated edges included, in a zone whose transition keeps clear of midnight |
| `WallClock.OutOfOrderExactly` | packages/sla/src/clock.ts:58-79 | exactly which two wall times the conversion puts in the wrong order |
| `ClockLaws.CoverIsOver` | packages/sla/src/clock.ts:101-131 | an instant of the query is held by the intervals once for every window whose converted edges enclose it, so an overlap is counted twice |
| `ClockLaws.CoverIsDepth` | packages/sla/src/clock.ts:101-131 | and once for every window the wall clock stands in, wherever no edge is misplaced |
| `ClockLaws.IntervalsAgreeWithIsOpenAt` | packages/sla/src/clock.ts:81-131 | up to the runaway guard and at every instant at which no edge is misplaced, an instant lies in some interval exactly when it lies in the query and the calendar says the team is open: two independent definitions agree |
| `ClockLaws.IntervalsAreTheWalkedWindows` | packages/sla/src/clock.ts:101-131 | for any calendar, skipped and repeated edges included, an instant of the query lies in some interval exactly when a window of some walked date holds it |
| `ClockLaws.NothingPastTheGuard` | packages/sla/src/clock.ts:38-126 | past the guard nothing is collected, however open the team is |
| `ClockLaws.IntervalsComeInOrder` | packages/sla/src/clock.ts:128-131 | the intervals are sorted, and without overlap exactly when no instant has two windows over it |
| `ElapsedLaws.ElapsedIsDepth` | packages/sla/src/clock.ts:158-176 | elapsed working milliseconds are the sum over instants of the windows open under a version in force |
| `ElapsedLaws.ElapsedIsOpenTime` | packages/sla/src/clock.ts:152-176 | elapsed time is at least the time the team was open, and equal to it exactly when nothing in the span overlaps |
| `ElapsedLaws.TheWallClockAgrees` | packages/sla/src/clock.ts:134-176 | wherever no edge is misplaced, the windows over an instant are those the wall clock stands in, and open means what the calendar says |
| `ElapsedLaws.SoundHistories` | packages/sla/src/clock.ts:101-126 | the laws below hold for edges off the transition and, with any edges, for transitions clear of midnight |
| `ElapsedLaws.ApartNeverOverlaps` | packages/sla/src/clock.ts:158-176 | windows that keep apart, within a date and into the next, under versions that keep apart, never have the wall clock in two of them, and never overlap where no edge is misplaced |
| `ElapsedLaws.ApartWindowsCanOverlap` | packages/sla/src/clock.ts:81-131 | two windows a minute apart that both hold an instant before a spring jump, since the second opens early |
| `ElapsedLaws.TheVersionInForceDecides` | packages/sla/src/clock.ts:255-272 | with periods apart, asking the one version in force gives the answer of the whole history |
| `ElapsedLaws.ElapsedSplits` | packages/sla/src/clock.ts:158-176 | measuring in two parts gives the same time as measuring once, wherever the split falls |
| `ElapsedLaws.HolidayNeverAddsTime` | packages/sla/src/calendar.ts:199-211 | adding a holiday to any version never increases elapsed time over any span |
| `ElapsedLaws.ClosedExceptionCountsAsAHoliday` | packages/sla/src/calendar.ts:199-211 | recording a date as closed by exception or as a holiday, in any version, gives the same elapsed time over every span |
| `ElapsedLaws.SameHoursSameTime` | packages/sla/src/calendar.ts:199-211 | elapsed time depends on a version by its zone, its period and the windows of its dates, and on nothing else |
| `ElapsedLaws.InstantAfterIsInverse` | packages/sla/src/clock.ts:178-222 | for every positive target and history without overlap the result is the least instant by which that much working time has passed, so elapsed >= target iff the instant has come; it is absent exactly when the horizon holds less |
| `ElapsedLaws.NextOpeningIsFirstOpenInstant` | packages/sla/src/clock.ts:224-253 | the next opening is the first open instant under a version in force, and absent exactly when the horizon has none |
| `ElapsedLaws.ClockStartIsExact` | packages/sla/src/clock.ts:224-253 | working time measured from the next opening equals working time measured from the instant asked about, for every end |
| `SlaState.PausedSeconds` | packages/sla/src/sla-state.ts:125-145 | the accumulating loop returns the measured length of every pause clipped to the window |
| `SlaLaws.WholeElapsed` | packages/sla/src/clock.ts:158-176 | on whole-second data rounding changes nothing |
| `SlaLaws.ElapsedIsUnpausedTime` | packages/sla/src/sla-state.ts:156-245 | on whole-second data, either basis and disjoint pauses, a running clock shows exactly the time during which no pause was open |
| `SlaRetreats.VerdictNeverRetreats` | packages/sla/src/sla-state.ts:156-245 | on whole-second data with disjoint pauses neither elapsed time nor status moves backwards as the clock is asked later |
| `SlaRetreats.ElapsedIsNearUnpausedTime` | packages/sla/src/sla-state.ts:125-245 | on any millisecond instants with disjoint pauses, elapsed seconds are the unpaused time up to half a second for the whole and for each pause |
| `SlaRetreats.RetreatsAtMostOncePerPause` | packages/sla/src/sla-state.ts:125-245 | on any millisecond instants and either basis, elapsed seconds fall by at most one for each pause as the clock is asked later |
| `SlaRetreats.CalendarElapsedIsExact` | packages/sla/src/sla-state.ts:125-245 | a 24x7 clock on millisecond instants shows its whole unpaused seconds, plus one exactly if the two roundings add up to one |
| `SlaRetreats.WhenTheVerdictRetreats` | packages/sla/src/sla-state.ts:125-245 | a 24x7 clock retreats exactly when the unpaused time stays within its second while the pause begins to round it down; by one second, and with it the status exactly at a threshold |
| `SlaRetreats.VerdictCanRetreat` | packages/sla/src/sla-state.ts:125-245 | a one-second 24x7 target paused from 600 ms on is BREACHED at 1000 ms and RUNNING at 1100 ms |
| `SlaRetreats.BusinessElapsedIsExact` | packages/sla/src/sla-state.ts:125-245 | a business-hours clock on millisecond instants shows, to the nearest second, its unpaused time plus what each pause left over when rounded |
| `SlaRetreats.WhenABusinessClockRetreats` | packages/sla/src/sla-state.ts:125-245 | a business-hours clock retreats exactly when its pauses leave less over than before, by more than the unpaused time has grown and across a half second; the status with it exactly at a threshold on the way |
| `SlaRetreats.BusinessVerdictCanRetreat` | packages/sla/src/sla-state.ts:125-245 | the same two instants under the working hours of a team that never closes |
| `SlaLaws.BreachInstantIsExact` | packages/sla/src/sla-state.ts:198-220 | the breach instant of a positive target has passed exactly when that much exact time has |
| `SlaLaws.FlagAgreesWithInstant` | packages/sla/src/sla-state.ts:198-245 | on whole-second data a running clock is BREACHED exactly when its breach instant exists and has passed: any target with disjoint pauses, any pauses with a positive target |
| `SlaLaws.FlagAndInstant` | packages/sla/src/sla-state.ts:198-245 | on any millisecond instants, pauses and targets: the instant has passed exactly when no exact time is missing, the flag is up exactly when at most 500 ms are, or the target is not positive |
| `SlaLaws.TheFlagCanLead` | packages/sla/src/sla-state.ts:198-245 | a 24x7 target of one second is BREACHED at 600 ms, 400 ms ahead of its breach instant |
| `SlaVerdicts.StoppedAsItRan` | packages/sla/src/sla-state.ts:175-245 | a stopped clock shows what the same clock, still running, showed at its stop: MISSED exactly if that one was BREACHED, MET if not |
| `SlaVerdicts.StoppedForGood` | packages/sla/src/sla-state.ts:177-245 | a stopped clock's state does not depend on when it is asked |
| `SlaVerdicts.MissedIsBreachedByTheStop` | packages/sla/src/sla-state.ts:198-226 | on whole-second data a stopped clock is MISSED exactly if its breach instant exists and is no later than its stop, and MET otherwise |
| `SlaVerdicts.TheStateAddsUp` | packages/sla/src/sla-state.ts:156-245 | elapsed and remaining add up to the target; NOT_STARTED, MET, MISSED and BREACHED hold exactly by start, stop and what remains; and the breach is dated exactly if there was one |
| `SlaVerdicts.NothingBeforeTheStart` | packages/sla/src/sla-state.ts:161-175 | a clock that has not started has used nothing up and has nothing to breach |
| `SlaVerdicts.OnlyResolutionPauses` | packages/sla/src/sla-state.ts:189-195 | pauses make no difference to the state of a first-response or an escalation clock |
| `SlaVerdicts.ResolutionPauses` | packages/sla/src/sla-state.ts:189-195 | and they do to a resolution clock's: an hour of 24x7, paused for its first half, shows half of it |
| `SlaVerdicts.WarningIsABreachOfTheShare` | packages/sla/src/sla-state.ts:227-245 | a running clock warns exactly when the clock with the smaller target, its share rounded up, is breached and it is not |
| `SlaVerdicts.WarningBeginsAtItsInstant` | packages/sla/src/sla-state.ts:198-245 | on whole-second data a running clock is RUNNING until the breach instant of its share, WARNING from then until its own, and BREACHED from then on |
| `ConnectionSlots.Gateway.FinishHandshake` | apps/realtime-gateway/src/gateway.ts:223-288 | what a handshake decides and stores once verification returns, with the ceiling and a transport that closed meanwhile |
| `ConnectionSlots.Gateway.ReleaseConnection` | apps/realtime-gateway/src/gateway.ts:291-313 | releasing removes exactly that socket from both tables, and is harmless when repeated |
| `ConnectionSlots.SlotsAreExact` | apps/realtime-gateway/src/gateway.ts:223-313 | under every interleaving of handshakes, closes, disconnects and repeated releases each principal's slots are exactly its registered sockets, never above the ceiling, and no closed transport holds one |
| `ConnectionSlots.RefusedOnlyWhenFull` | apps/realtime-gateway/src/gateway.ts:240-262 | a verified principal is turned away exactly when its open sockets number the ceiling |
| `ConnectionSlots.HandshakesAsTheyHappened` | apps/realtime-gateway/src/gateway.ts:223-313 | which handshakes have started, which still wait and which transports have closed is what the events say |
| `ConnectionSlots.TablesAreTheOpenSockets` | apps/realtime-gateway/src/gateway.ts:223-313 | over every interleaving the registered sockets are exactly those whose handshake was answered ADMITTED and which nothing has released since, each under the identity verified for it, and each principal's slots are its own of them |
| `ConnectionSlots.EveryAnswerIsEarned` | apps/realtime-gateway/src/gateway.ts:223-288 | over every interleaving, by those open sockets: a verified handshake is turned away exactly when the principal's number the ceiling, and otherwise admitted exactly if its transport has not closed |
| `Subscriptions.Gateway.BeginSubscribe` | apps/realtime-gateway/src/gateway.ts:724-735 | a subscribe finds the subscription, joins the attempt in flight, or becomes its owner |
| `Subscriptions.Gateway.LandAttempt` | apps/realtime-gateway/src/gateway.ts:736-752 | the backplane's answer registers a handle, or hands back one that lost to a winner |
| `Subscriptions.Gateway.LeaveChannel` | apps/realtime-gateway/src/gateway.ts:786-798 | the last socket out releases the handle |
| `Subscriptions.Gateway.FanOut` | apps/realtime-gateway/src/gateway.ts:769-784 | an event is sent to exactly the channel's sockets that are registered, and, if it is for staff only, are an employee's |
| `Subscriptions.SubscriptionsAreSingleFlight` | apps/realtime-gateway/src/gateway.ts:724-798 | under every interleaving on any channels there is at most one attempt per channel and the open backplane handles are exactly those in the table: none leaked, none overwritten |
| `Subscriptions.SocketSetsMirrorTheJoins` | apps/realtime-gateway/src/gateway.ts:655-691 | over any run, half-done subscribes apart, the socket sets mirror the recorded joins at every point if and only if no join was recorded for a registered socket outside the set or a departed one inside it, and no transport close ran ahead of its disconnect |
| `Subscriptions.MirrorStep` | apps/realtime-gateway/src/gateway.ts:655-691 | a step keeps the mirror exactly when it is not one of those; no other step of anybody can break it |
| `Subscriptions.ListedSinceItsAdd` | apps/realtime-gateway/src/gateway.ts:686-690 | at any point of any run a socket is in a channel's set exactly if its last add found a subscription and nothing of its own has taken it out since |
| `Subscriptions.LastOneReleases` | apps/realtime-gateway/src/gateway.ts:786-798 | a leave releases the channel's handle exactly if nobody else is in the channel, and touches no other channel's |
| `Subscriptions.DisconnectDuringSubscribeLeaks` | apps/realtime-gateway/src/gateway.ts:666-690 | a disconnect inside its own subscribe leaves the dead socket listed and the handle open |
| `Subscriptions.LeaksAreForGood` | apps/realtime-gateway/src/gateway.ts:786-798 | whatever everybody else does afterwards, such a socket stays listed and the channel keeps its open handle |
| `Subscriptions.LastLeaveBeforeTheAdd` | apps/realtime-gateway/src/gateway.ts:686-690 | another socket's last leave between a subscriber's ensure and its add leaves it joined, unlisted and without a subscription |
| `Subscriptions.LeaveBeforeTheRecordIsLost` | apps/realtime-gateway/src/gateway.ts:686-690 | an unsubscribe between the add and the record is forgotten: joined and unlisted |
| `Subscriptions.RefusedSubscriptionIsStillRecorded` | apps/realtime-gateway/src/gateway.ts:686-690 | a subscription the backplane refused is still recorded as joined |
| `Revalidation.ConnectionManager.AuthorizeJoin` | apps/realtime-gateway/src/connection-manager.ts:195-322 | with or without the sweep's cache the outcome is the decision taken on fresh reads |
| `Revalidation.JoinsAreEarned` | apps/realtime-gateway/src/connection-manager.ts:195-322 | a join is admitted exactly for a connection with a current session that may hear the channel: a principal's own, never the control channel, a team's queue for employees who may read it, a conversation for whom it may be read by; and each refusal is for its own reason |
| `Revalidation.ConnectionManager.RevalidateAll` | apps/realtime-gateway/src/connection-manager.ts:446-490 | the memoised sweep returns the same doomed and revoked lists as one that reads everything fresh |
| `Revalidation.PassCache.Resource` | apps/realtime-gateway/src/connection-manager.ts:397-415 | a remembered resource is the one a fresh read would return, although two ids share one key string |
| `Revalidation.ResourceKeysAreDistinct` | apps/realtime-gateway/src/connection-manager.ts:397-415 | joining two ids by NUL never confuses two pairs |
| `Revalidation.DoomedAreTheStale` | apps/realtime-gateway/src/connection-manager.ts:446-470 | doomed is exactly the connections whose session version is unknown or stale |
| `Revalidation.RevokedAreTheLapsed` | apps/realtime-gateway/src/connection-manager.ts:446-490 | revoked is exactly the joined channels, of the connections with a current session, that the connection may no longer hear |
| `AttachmentPolicy.OnlyOnePathIsReachable` | packages/attachments/src/pipeline.ts:83-125 | a list of events makes an attachment reachable exactly when it is uploaded, scan started, scanned clean, bound, and nothing else |
| `AttachmentPolicy.PipelinesAreShort` | packages/attachments/src/pipeline.ts:83-136 | no attachment takes more than four moves, and every state it moves on from is one the expiry sweep may collect |
| `AttachmentPolicy.GatesAgree` | packages/attachments/src/policy.ts:248-321 | bytes whose intent was permitted pass the second gate exactly when they are what was claimed, and bytes that pass it could have been claimed, category and emptiness aside |
| `AttachmentPolicy.EmployeesMaySendWhatCustomersMay` | packages/attachments/src/policy.ts:84-203 | under the shipped policy whatever a customer may send an employee may send, in any category and at the same ceiling |
| `Attachments.AttachmentScanSweep.Transition` | infrastructure/database/src/repositories/attachment-store.ts:192-221 | a conditional update writes only if the row is still in the expected state, and says whether it did |
| `Attachments.AttachmentScanSweep.Process` | infrastructure/sweeps/src/attachment-sweeps.ts:126-284 | one uninterrupted pass is its six protocol steps in order; what each answer of the scanner and of the storage makes of the row and of its bytes; it reports true exactly when it settled the attachment |
| `Attachments.AttachmentScanSweep.Conclude` | infrastructure/sweeps/src/attachment-sweeps.ts:145-284 | after a claim: the verdict, the policy re-check, the promotion and the settling write or retry, with what each answer makes of the row and of its bytes |
| `Attachments.AttachmentScanSweep.ExpireBatch` | infrastructure/sweeps/src/attachment-sweeps.ts:334-377 | the expiry loop marks before it deletes and skips a row that moved on: it expires exactly the rows still as they were read, deletes exactly those keys read with them whose deletion succeeds, and counts them |
| `Attachments.WholePassIsARun` | infrastructure/sweeps/src/attachment-sweeps.ts:126-284 | an uninterrupted pass is one of the interleavings the results below range over |
| `Attachments.EveryRunIsSafe` | infrastructure/sweeps/src/attachment-sweeps.ts:126-377 | the invariant of every interleaving of passes, sweeps, binders, uploaders and crashes |
| `Attachments.OneScannerPerAttachment` | infrastructure/sweeps/src/attachment-sweeps.ts:126-143 | never two passes between claim and settling write on one attachment |
| `Attachments.CleanIsEarned` | infrastructure/sweeps/src/attachment-sweeps.ts:218-284 | a CLEAN or BOUND attachment was claimed by one pass that saw a clean verdict, passed the policy with the measured bytes, promoted, recorded and wrote, in that order |
| `AttachmentVerdicts.FactsAreWhatHappened` | infrastructure/sweeps/src/attachment-sweeps.ts:126-284 | the facts the results here are about are what happened: over any run a step of another leaves a pass's alone, and its own adds what it did, its write the state it left the row in |
| `AttachmentVerdicts.EveryWriteIsEarned` | infrastructure/sweeps/src/attachment-sweeps.ts:126-284 | over every run and for every pass, what was written is what its facts before it earn; a scanner or a storage that could not run puts the row back in quarantine |
| `AttachmentVerdicts.InfectedIsEarned` | infrastructure/sweeps/src/attachment-sweeps.ts:183-217 | over every run a row is INFECTED if and only if a pass that claimed it saw an infected answer, recorded it and wrote |
| `AttachmentVerdicts.RejectedIsEarned` | infrastructure/sweeps/src/attachment-sweeps.ts:183-245 | over every run a row is REJECTED if and only if a pass that claimed it saw a rejection, or a clean answer the policy refuses, recorded it and wrote |
| `AttachmentMoves.RowsMoveAs` | infrastructure/database/src/repositories/attachment-store.ts:192-250 | over any run each event moves a row from one state alone, with what it writes besides written out, and no other event moves it |
| `AttachmentMoves.RowsAreGranted` | infrastructure/database/src/repositories/attachment-store.ts:96-130 | a row comes to be exactly by a grant, under bytes of its own |
| `AttachmentMoves.PassesMoveAs` | infrastructure/sweeps/src/attachment-sweeps.ts:126-284 | over any run a pass moves by its own steps only, forward one place at a time with each answer's consequence written out, and stops for good once it has written or crashed |
| `AttachmentMoves.BytesMoveAs` | infrastructure/sweeps/src/attachment-sweeps.ts:247-365 | bytes are there exactly once they have arrived or been copied, until they are moved away or deleted by a sweep that holds their key |
| `AttachmentMoves.SweepsReadAs` | infrastructure/database/src/repositories/attachment-store.ts:331-345 | a sweep begins exactly on a row that is due, and takes its state and its keys with it |
| `AttachmentMoves.SweepsMoveAs` | infrastructure/sweeps/src/attachment-sweeps.ts:334-377 | over any run a sweep marks once, deletes its keys in order only if its mark found the row as it was read, and is moved by nobody else |
| `Attachments.EveryWriteIsAMove` | packages/attachments/src/pipeline.ts:83-117 | every state ever written follows the one before it by a move of the table or by the scan's retry edge |
| `Attachments.SettledStays` | packages/attachments/src/pipeline.ts:94-100 | no step changes anything about a terminal row |
| `Attachments.BoundForever` | infrastructure/sweeps/src/attachment-sweeps.ts:346-349 | a bound attachment stays bound to its message and its bytes are never deleted, whatever follows |
| `AttachmentLosses.ScansSettleOnlyByTheirPass` | infrastructure/sweeps/src/attachment-sweeps.ts:111-284 | in every world reached, a row under scan can still be settled by some continuation if and only if the pass that claimed it is still at work |
| `AttachmentLosses.CrashLosesTheScan` | infrastructure/sweeps/src/attachment-sweeps.ts:126-284 | wherever the active pass of such a row crashes, the row can never be settled again |
| `AttachmentLosses.ACrashedScan` | infrastructure/sweeps/src/attachment-sweeps.ts:126-143 | a run that strands a row in SCANNING |
| `AttachmentLosses.BytesGoOnlyByTheirSweep` | infrastructure/sweeps/src/attachment-sweeps.ts:334-377 | in every world reached, either key of an expired row can still come to be deleted by some continuation if and only if a sweep that marked the row still holds it |
| `AttachmentLosses.ForgottenBytesStay` | infrastructure/sweeps/src/attachment-sweeps.ts:351-365 | bytes no such sweep holds stay in storage whatever follows, the quarantined ones unless a pass is still to promote them |
| `AttachmentLosses.ARefusedDeletion` | infrastructure/sweeps/src/attachment-sweeps.ts:351-365 | one deletion storage refuses leaves such bytes |
| `AttachmentLosses.PromotedThenExpired` | infrastructure/sweeps/src/attachment-sweeps.ts:247-365 | expiry between promotion and the settling write leaves a clean copy no sweep holds |
| `OutboxRelay.Relay.DrainOnce` | infrastructure/outbox-relay/src/outbox-relay.ts:133-208 | a drain claims, delivers and commits, or undoes the batch on an exception; when it commits, each row has been written as its own answer says, no other row is touched, and each counter is the number of rows in its state |
| `OutboxRelay.Relay.DeliverClaimed` | infrastructure/outbox-relay/src/outbox-relay.ts:156-197 | the loop over claimed rows writes locally, in order, until one delivery throws |
| `OutboxRelay.DrainIsARun` | infrastructure/outbox-relay/src/outbox-relay.ts:133-208 | a whole drain is one of the interleavings the results below range over |
| `OutboxRelay.ClaimsTakeTheOldest` | infrastructure/outbox-relay/src/outbox-relay.ts:143-153 | what may be claimed is exactly the oldest due rows nobody holds, in order, as many as the batch has room for |
| `OutboxRelay.AppendedIsTheEvent` | infrastructure/database/src/repositories/outbox-writer.ts:61-85 | an appended row is the event, new and due from the moment it was appended; no other row is touched |
| `OutboxRelay.CountsAreWhatHappened` | infrastructure/outbox-relay/src/outbox-relay.ts:133-208 | the counts of acceptances, undone acceptances and failures the laws below are about move exactly with a delivery, a rollback and a commit |
| `OutboxRelay.AcceptancesAreAccounted` | infrastructure/outbox-relay/src/outbox-relay.ts:133-208 | the publisher accepted a row as often as a rollback undid an acceptance of it, plus once if it is PUBLISHED; never more than one more |
| `OutboxRelay.DeadLettersHaveFailed` | infrastructure/outbox-relay/src/outbox-relay.ts:170-196 | attempts are committed failures plus the published delivery, never beyond the limit, and a row is dead-lettered exactly when its failures have reached it |
| `OutboxRelay.NoRowIsLost` | infrastructure/outbox-relay/src/outbox-relay.ts:127-208 | a row keeps its event through any commits, rollbacks and crashes, and never changes once PUBLISHED or DEAD_LETTER |
| `OutboxRelay.ClaimsAreDisjoint` | infrastructure/outbox-relay/src/outbox-relay.ts:143-153 | two open transactions never hold the same row |
| `OutboxRelay.NobodyRetriesEarly` | infrastructure/outbox-relay/src/outbox-relay.ts:143-153 | no relay ever holds a row that was not due when it claimed it |
| `OutboxRelay.RetriesWaitOutTheirBackoff` | infrastructure/outbox-relay/src/outbox-relay.ts:143-194 | over any run with any number of relays, a relay holds a row only once the backoff of all its failures has gone by since the last of them |
| `OutboxRelay.BackoffDoublesToTheCap` | infrastructure/outbox-relay/src/outbox-relay.ts:113-114 | the delay doubles with every attempt up to 300 seconds, which it first reaches at the ninth |
| `Webhook.Receiver.ReceiveWebhook` | packages/channels/src/inbound.ts:100-175 | one delivery, up to any crash: refused before anything if the signature does not hold, short-circuited if completed, otherwise every event applied or absorbed and counted, once for each place where the event is open |
| `Webhook.Receiver.ProcessEvents` | packages/channels/src/inbound.ts:146-166 | the loop claims, applies and only then completes each event; applied counts exactly those not already completed |
| `Webhook.WhatABatchDoes` | packages/channels/src/inbound.ts:146-166 | an undisturbed batch applies an event unless it was completed, once if that leaves a reference and otherwise each time it is listed, and touches no event it does not list |
| `Webhook.WhatADeliveryDoes` | packages/channels/src/inbound.ts:100-175 | a forged or repeated delivery changes nothing, an unreadable one leaves its claim only, an undisturbed one does what its batch does and is completed, and one that dies is not |
| `Webhook.EffectsAreAccounted` | packages/channels/src/inbound.ts:146-166 | over any run, an event whose application leaves a result was applied as often as a crash tore it from its completion, plus once if completed |
| `Webhook.AppliedOnceMoreExactly` | packages/channels/src/inbound.ts:146-166 | an event is applied at most once more than it was torn, over every run, if and only if applying it returns a reference |
| `FastPath.FastPathRefinesPlain` | packages/channels/src/inbound.ts:120-172 | with steady batches and however deliveries overlap and crash, the delivery-level check is invisible in recorded events and effects over every interleaving if and only if every batch that can be completed leaves a reference for each of its events |
| `FastPath.CompletedDeliveriesAreDone` | packages/channels/src/inbound.ts:120-172 | under every such interleaving a completed delivery has completed all its events |
| `FastPath.FastPathAgrees` | packages/channels/src/inbound.ts:120-172 | the refinement itself: the receiver without the check has the same events, effects and visits, and beyond the same flights only idle ones |
| `FastPath.SequentialFastPathAgrees` | packages/channels/src/inbound.ts:120-172 | the same for the receiver's own runs, one delivery after another |
| `Webhook.RepeatedDeliveryDiffers` | packages/channels/src/inbound.ts:155-172 | one event without a reference is enough to tell the two forms apart |
| `DeliveryRuns.DeliveryIsARun` | packages/channels/src/inbound.ts:100-175 | a delivery that meets no other, to its end or its crash, is one of the interleavings the results below range over |
| `DeliveryRuns.RunsAreInterleavings` | packages/channels/src/inbound.ts:100-175 | and so is every run of deliveries one after another |
| `WebhookRaces.ApplicationsAreVisits` | packages/channels/src/inbound.ts:146-166 | over every interleaving of deliveries and crashes, and whatever each application returns, an event was applied once for each visit torn between applying and completing and once for each that was not |
| `WebhookRaces.OverlapOrReopening` | packages/channels/src/inbound.ts:146-166 | an event is applied more than once more than it was torn if and only if two visits kept their application and the later was claimed before the earlier's completion, or after some completion without a reference |
| `WebhookRaces.OverlapIsTheOnlyExcess` | packages/channels/src/inbound.ts:146-166 | for an event whose application always leaves a reference, overlap alone |
| `DeliveryRuns.OverlappingDeliveriesBothApply` | infrastructure/database/src/repositories/idempotency-ledger.ts:70-101 | a run in which two deliveries of one event overlap and both apply it, with no crash anywhere; the second result replaces the first |
| `Mentions.ValidateMentions` | packages/conversation-domain/src/mentions.ts:71-125 | the sort-and-scan accepts exactly the proper lists and returns the same mentions in reading order |
| `Mentions.ValidateIsExact` | packages/conversation-domain/src/mentions.ts:71-125 | accepted iff at most fifty, each inside the body and non-empty, pairwise disjoint, naming participants, and everybody only where allowed |
| `Mentions.ProperMeans` | packages/conversation-domain/src/mentions.ts:71-105 | a list is accepted exactly if each of its at most fifty mentions takes some characters of the text and is allowed, and no two share one |
| `Mentions.RefusalsHaveTheirReason` | packages/conversation-domain/src/mentions.ts:71-125 | every refusal is right: the list has what it is refused for |
| `Mentions.NeighboursSuffice` | packages/conversation-domain/src/mentions.ts:80-105 | after sorting, being disjoint from the next mention is being disjoint from all that follow |
| `Mentions.MentionRecipients` | packages/conversation-domain/src/mentions.ts:137-152 | the people notified are exactly those some mention names, once each, and never the sender |
| `Mentions.AcceptedNamesParticipants` | packages/conversation-domain/src/mentions.ts:112-152 | an accepted list names participants only, and all of them if it mentions everybody |
| `Messages.MessageStore.SendMessage` | packages/messaging/src/send-message.ts:148-502 | a send refuses in the source's order and writes nothing, returns the earlier message of the same key, or makes exactly the writes of the write path |
| `Messages.MessageStore.SendInTransaction` | packages/messaging/src/send-message.ts:166-340 | the decisions taken on the locked conversation |
| `Messages.MessageStore.WriteMessage` | packages/messaging/src/send-message.ts:342-500 | sequence, message, unarchiving, events, activation and preview of one send |
| `SendLaws.EveryAnswerHasItsReason` | packages/messaging/src/send-message.ts:148-317 | over any run a send is refused for the first obstacle in its way, in the order they are met, answered with the earlier send of its key if none of the first five is in its way, and written exactly if nothing is |
| `SendLaws.NothingWithoutPermission` | packages/messaging/src/send-message.ts:214-245 | whatever is written had its permission: a reply to a customer that to reply, a note that to write notes, an announcement that to post, any other internal message that to send |
| `SendLaws.NotAuthorizedIsThatPermission` | packages/messaging/src/send-message.ts:214-245 | and a send is refused as not authorized only if that one permission is missing |
| `SendLaws.TrimIsExact` | packages/messaging/src/send-message.ts:152-160 | the text sent is the command's without the space around it: what is taken away is all space and what is left has none at its ends |
| `SendLaws.TheMessageIsTheCommand` | packages/messaging/src/send-message.ts:342-392 | a send that writes adds one message that says what the command said, under the next number, and touches no other conversation |
| `SendLaws.TheConversationCountsIt` | packages/messaging/src/send-message.ts:342-476 | its own conversation counts it and shows the start of it, or nothing for a note to a customer's |
| `SendLaws.TheAnswerNamesPeople` | packages/messaging/src/send-message.ts:394-502 | the answer names exactly the live participants, and the author replied to exactly if that is somebody else |
| `MessageLaws.SequencesHaveNoGaps` | packages/messaging/src/send-message.ts:342-359 | after any run of sends, corrections, redactions and outside changes a conversation's sequence numbers are exactly 1 to its last, increasing |
| `MessageLaws.EveryMessageIsAnnouncedOnce` | packages/messaging/src/send-message.ts:375-392 | the outbox's message.created rows are the messages, one each, in order, with their sequence numbers |
| `MessageLaws.KeysNameOneMessage` | packages/messaging/src/send-message.ts:285-300 | conversation, sender and client id name at most one message |
| `MessageLaws.RetryReturnsTheOriginal` | packages/messaging/src/send-message.ts:285-300 | whatever happened since, a later send under the same key is refused before that check or answered with that message, and writes nothing |
| `MessageLaws.NoChainReachesANote` | packages/messaging/src/send-message.ts:302-317 | replies stay in their conversation and look strictly back, and no chain of replies from a customer-visible message reaches an internal note |
| `MessageLaws.CustomersNeverWriteNotes` | packages/messaging/src/send-message.ts:161-164 | no message of a customer is ever internal |
| `MessageLaws.OnlyWritingSendsWrite` | packages/messaging/src/send-message.ts:283-317 | a refused send and a retry leave the store exactly as it was, and every other send changes it |
| `MessageLaws.OthersMessagesUnarchive` | packages/messaging/src/send-message.ts:361-373 | over any stretch of a run a live participant has the thread archived exactly if they had and only their own messages were written meanwhile |
| `MessageLaws.MentionedAreLiveAndNotTheSender` | packages/messaging/src/send-message.ts:394-428 | a second outbox row exists exactly when somebody is mentioned, names only live participants, and never the sender |
| `MessageLaws.OwnersReplyActivates` | packages/messaging/src/send-message.ts:430-452 | over any stretch of a run an assigned conversation becomes active exactly if its owner meanwhile wrote something its customer can see; nothing else moves it |
| `Revisions.EditMessage` | packages/messaging/src/revise-message.ts:74-127 | an edit refuses in the source's order or records one revision and rewrites the body |
| `Revisions.RedactMessage` | packages/messaging/src/revise-message.ts:137-183 | a redaction blanks the body once and is a no-op afterwards |
| `ReviseLaws.EveryEditHasItsReason` | packages/messaging/src/revise-message.ts:74-127 | over any run a correction is refused for the first reason that applies, and otherwise answered with the message it was, its text trimmed and marked edited |
| `ReviseLaws.EveryRedactionHasItsReason` | packages/messaging/src/revise-message.ts:137-183 | the same of redactions, of which a second is answered with the message as it is |
| `ReviseLaws.WhatAnEditDoes` | packages/messaging/src/revise-message.ts:98-127 | one message is rewritten, its old text and the fact are recorded, and nothing else changes but the preview |
| `ReviseLaws.WhatARedactionDoes` | packages/messaging/src/revise-message.ts:146-183 | the same of a redaction, once |
| `HistoryLaws.HistoryIsFaithful` | packages/messaging/src/revise-message.ts:74-183 | after any run a message's revisions are exactly the texts it has had, the sent one first; no correction repeats what it replaced, and at most one redaction exists and is last |
| `HistoryLaws.RedactionIsFinal` | packages/messaging/src/revise-message.ts:86-96 | redacting again, or correcting what was redacted, changes nothing |
| `PreviewLaws.SendsNeverShowNotes` | packages/messaging/src/send-message.ts:454-476 | while messages are only sent, a customer conversation's preview is empty or the start of a customer-visible message |
| `PreviewLaws.NotesShowExactlyWhen` | infrastructure/database/src/repositories/message-store.ts:367-398 | over any run, a customer conversation's preview carries a note if and only if it was recomputed after its last message and the newest message left unredacted is a note with something to show |
| `PreviewLaws.RefreshedShowsTheNewest` | infrastructure/database/src/repositories/message-store.ts:367-398 | whatever the messages, a recomputed preview carries a note exactly when the newest message left unredacted is one |
| `PreviewLaws.ACorrectionShowsTheNote` | packages/messaging/src/revise-message.ts:98-183 | a reply, a note, and a correction or redaction of the reply: the customer's list shows the note |
| `HistoryLaws.MentionsFitTheFirstText` | packages/messaging/src/send-message.ts:319-357 | over any run stored mentions lie within the text their message was first sent with |
| `HistoryLaws.CorrectedMentionsMayDangle` | packages/messaging/src/revise-message.ts:98-106 | over any run, a correction keeps the mentions unchecked, and they fit what it wrote exactly when the last one in reading order ends within the trimmed text |
| `HistoryLaws.ADanglingMention` | packages/messaging/src/revise-message.ts:98-106 | a run that ends with a mention of two characters on a text of one |
| `Membership.ConversationStore.CreateInternalConversation` | packages/conversation-domain/src/conversations.ts:85-175 | a create is refused in the source's order, lands in the existing one-to-one, or founds the conversation with its rows |
| `Membership.ConversationStore.AddParticipant` | packages/conversation-domain/src/conversations.ts:217-299 | an add revives a dead row or inserts one, and promotes a one-to-one that had two |
| `Membership.ConversationStore.RemoveParticipant` | packages/conversation-domain/src/conversations.ts:321-410 | a removal ends exactly the target's participation, under the stated refusals |
| `Membership.ConversationStore.LeaveConversation` | packages/conversation-domain/src/conversations.ts:471-541 | a leaver's participation ends and the role passes on where it must |
| `MembershipAnswers.EveryCreateHasItsReason` | packages/conversation-domain/src/conversations.ts:85-128 | a create is refused for the first reason that applies: what its type demands, then a customer among those it names |
| `MembershipAnswers.WhatACreateDoes` | packages/conversation-domain/src/conversations.ts:130-175 | a create founds a conversation with one live row for its creator and one for everybody else it names, or lands in the one-to-one found |
| `MembershipAnswers.EveryAddHasItsReason` | packages/conversation-domain/src/conversations.ts:217-258 | an add is refused for the first reason that applies, and goes through if none does |
| `MembershipAnswers.WhatAnAddDoes` | packages/conversation-domain/src/conversations.ts:259-299 | an add gives the principal a live row from now on, the old one if there is one; everybody else's stays; a one-to-one of two becomes a group |
| `MembershipAnswers.EveryRemovalHasItsReason` | packages/conversation-domain/src/conversations.ts:321-387 | over any run a removal is refused for the first reason that applies, and goes through if none does |
| `MembershipAnswers.WhatARemovalDoes` | packages/conversation-domain/src/conversations.ts:388-410 | a removal ends the target's live participation and changes nobody else's row |
| `MembershipAnswers.EveryLeaveHasItsReason` | packages/conversation-domain/src/conversations.ts:471-541 | over any run only those in a group or a channel leave it, and the role passes on exactly if somebody stays and the leaver created the group or alone managed the channel |
| `MembershipAnswers.WhatALeaveDoes` | packages/conversation-domain/src/conversations.ts:498-541 | a leave ends the leaver's participation and gives whoever takes over the role, and changes nothing else |
| `MembershipLaws.InsideStep` | packages/conversation-domain/src/conversations.ts:122-128 | exactly how anybody, customer or not, comes to have a row in an internal conversation: a create that founds it or an add, and neither calls them a customer |
| `MembershipLaws.InsideExactlyIfLetIn` | packages/conversation-domain/src/conversations.ts:122-128 | over any run whatever, a principal has a row in an internal conversation if and only if some create or add put them there without calling them a customer |
| `MembershipLaws.ACustomerInside` | apps/api/src/employee/channels.controller.ts:317-326 | a customer founds a group by being left out of the kinds, and a channel by being called an employee |
| `MembershipLaws.CustomersGetInByOmissionOnly` | packages/conversation-domain/src/conversations.ts:122-128 | while commands report kinds truthfully, a customer gets in if and only if some create named them and left their kind out |
| `MembershipLaws.InternalMeansNoCustomers` | packages/conversation-domain/src/conversations.ts:122-128 | so with truthful and complete kinds nobody who is a customer, whatever their row says, is or was in an internal conversation |
| `MembershipLaws.DirectMeansAtMostTwo` | packages/conversation-domain/src/conversations.ts:260-279 | over any run a one-to-one never has more than two live participants |
| `MembershipLaws.GroupsKeepOneCreator` | packages/conversation-domain/src/conversations.ts:459-537 | a group founded as one has exactly one live creator unless everybody has left |
| `MembershipLaws.TheLongestStandingTakesOver` | packages/conversation-domain/src/conversations.ts:498-517 | a leaving creator's role goes to the longest-standing of those who stay |
| `MembershipLaws.CustomersAreNeverRemoved` | packages/conversation-domain/src/conversations.ts:331-349 | no step ends a customer's live participation in any conversation |
| `MembershipLaws.DirectThreadsStayUnique` | packages/conversation-domain/src/conversations.ts:130-136 | one thread per pair survives every step except an add that completes a pair which already has another thread, and that one never keeps it |
| `MembershipLaws.TwoThreadsForOnePair` | packages/conversation-domain/src/conversations.ts:130-136 | a create, a removal, a second create and a re-add lead to that exception |
| `OtpIdentity.LocalOtpIdentity.BeginVerification` | adapters/customer-identity/src/local/otp-identity.ts:127-164 | a challenge is issued only to a non-empty contact detail of a live session |
| `OtpIdentity.LocalOtpIdentity.MatchCode` | adapters/customer-identity/src/local/otp-identity.ts:166-199 | an attempt is paid for before it is compared, succeeds exactly on the right code of an open challenge of that session, and burns it |
| `OtpIdentity.LocalOtpIdentity.RaiseAssurance` | adapters/customer-identity/src/local/otp-identity.ts:199-211 | the lookup's answer raises the session captured before it |
| `OtpIdentity.LocalOtpIdentity.InvalidateSession` | adapters/customer-identity/src/local/otp-identity.ts:223-231 | invalidating drops the session and every challenge of it |
| `OtpIdentity.AttemptsAddUp` | adapters/customer-identity/src/local/otp-identity.ts:141-193 | in every run, comparisons made and attempts left of a stored challenge add up to the maximum |
| `OtpIdentity.NotesAreWhatHappened` | adapters/customer-identity/src/local/otp-identity.ts:166-211 | the comparisons, matches and answers these results are about are what happened: over any run a comparison is noted exactly when an open challenge of a live session is tried, a match exactly if the code is right, and an answer exactly when a waiting lookup gives one |
| `OtpIdentity.CodesGoToTheirOwner` | adapters/customer-identity/src/local/otp-identity.ts:127-164 | over any run every stored challenge goes to its own session's mobile number for OTP_MOBILE and to its own mail address for OTP_EMAIL |
| `OtpIdentity.EveryChallengeSucceedsAtMostOnce` | adapters/customer-identity/src/local/otp-identity.ts:174-197 | no challenge ever issued is compared beyond the maximum or matched twice |
| `OtpIdentity.AssuranceIsProven` | adapters/customer-identity/src/local/otp-identity.ts:195-211 | a session is above ANONYMOUS exactly when a challenge of its own was matched before it expired and its lookup has answered |
| `OtpIdentity.InvalidateIsFinal` | adapters/customer-identity/src/local/otp-identity.ts:223-231 | after an invalidation nothing of the session remains, and nothing later brings any of it back |
| `OtpIdentity.OrphansAreUseless` | adapters/customer-identity/src/local/otp-identity.ts:242-251 | in every run, a challenge whose session is gone is never compared again, whatever follows |
| `OtpIdentity.AssuranceFollowsTheLastAnswer` | adapters/customer-identity/src/local/otp-identity.ts:199-211 | in every run, a session's assurance is that of the last lookup that answered for it, and its customer the last one found |
| `RateLimiter.Limiter.Allow` | packages/search/src/rate-limit.ts:38-53 | a call prunes, then answers and records |
| `RateLimiter.NoWindowIsOverfull` | packages/search/src/rate-limit.ts:27-53 | for a clock that never goes back, no window of the configured length, wherever it ends, holds more calls of a key that were answered true than the maximum |
| `RateLimiter.RefusedOnlyWhenFull` | packages/search/src/rate-limit.ts:43-48 | a call is answered false exactly when the window that ends with it is full of calls answered true |
| `RateLimiter.PrunedListIsTheWindow` | packages/search/src/rate-limit.ts:38-52 | after each call the pruned list is the calls answered true, filtered to the window |

## Left out

- ElapsedLaws.InstantAfterIsInverse: stated for histories without overlapping windows, because the walk counts an overlap once per interval in sequence and then has no inverse.
- MembershipLaws.GroupsKeepOneCreator: not for one-to-ones promoted to groups later, nor for channels, where the code promises no single creator.
- Mentions.ValidateMentions: every refusal is right about its reason; which is given when several apply follows the scan's order and is part of the specification function only.
- ClockLaws.IntervalsAgreeWithIsOpenAt: at instants where no edge is misplaced; at the others `WallClock.WindowMisplacedExactly` and `ClockLaws.IntervalsAreTheWalkedWindows` say where the two differ.
- Windows with edges in a skipped or repeated hour that lies within its own length of midnight: for them only the statements about one window or one query (`WallClock.EdgeMisplacedExactly`, `ClockLaws.IntervalsAreTheWalkedWindows`) hold.
- Zones with more than one transition inside a query, fractional seconds, and dates as strings.
- `drain` and shutdown of the gateway, presence, typing and read receipts, metrics and logging.
- A real team read in the revalidation sweep is not memoised; the sweep's concurrency with new registrations is not modelled.
- What bytes contain: an upload rewritten between its scan and its promotion looks the same to the attachment model.
- Rows without a quarantine key, which no grant writes.
- Which outbox events are marked customer-visible and which channel each goes to: two lookups in a table.
- Liveness: that rows are eventually published, scans eventually run, or lookups eventually answer.
- Concurrency inside the message and membership transactions: they are serial, as the conversation's row lock makes sends; membership commands take no such lock.
- Titles, channel audiences, system notes, message counts and renames; rows changed by routing and channel administration.
- Timestamps of messages; text lengths in UTF-16 units; Unicode spaces beyond the common ones in trimming.
- Session projection to the API, sending of codes, hashing and random generation of codes.
- The limiter's bound across `reset`, which starts a key afresh by design.
- The lifecycle table, the notification matrix, outbound gates and directory queries: mostly settled by reading one table.
