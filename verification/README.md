# Verification model of the client's stateful core

A Matrix client keeps several tables and protocols that must stay right whatever the server, the other side or the user does next. This project models five of them and proves properties over every sequence of operations.

**The timeline index of a room.** `Timeline.dfy` gives the six tables (`event_order`, `event2order`, `order2msg`, `msg2order`, `events`, `pending`) as maps and every operation on them as a function with the branches of the source. `TimelineStore.dfy` is the same as an object with in-place tables, loops and cursors; each method is proved equal to the function. The meaning of the tables is one list of entries: the arrival tables number its ids from some base, the message tables number its visible ids. Syncs, pending saves, history pages and retention are shown to do to the tables what simple list operations do to the list (`TimelineProofs.dfy`, `TimelineResults.dfy`); which version of an event is stored, what a redaction leaves of it and which messages are still unsent is in `TimelineContents.dfy`, and clearing in `TimelineClear.dfy`. On top of the tables are the index window (`EventWindow.dfy`) and the send queue (`SendQueue.dfy`, with what holds over all its steps in `SendQueueRuns.dfy`, which failures are counted against a message in `SendQueueFailures.dfy`, which messages leave it and which is sent in `SendQueueRows.dfy`, and what the table operations do to it in `SendQueueTables.dfy`).

**Sharing a megolm session.** `Megolm.dfy` says when a session is reused, who gets its key and what is recorded, and proves what holds over all messages; `MegolmReuse.dfy` says when a session is reused and who gets its key over whole runs, told from the messages alone. `MegolmSender.dfy` is the two-iterator walk itself.

**Short authentication string verification.** `Sas.dfy` is one flow as a step function, `SasResults.dfy` what it does against an arbitrary peer, `SasMessages.dfy` what it says and when, `SasFlow.dfy` the object with its fields, and `SasSystem.dfy` two flows and a network that delays, reorders, repeats and loses messages. Both starting points are covered: requester and responder, and both sides having sent a start.

**Device keys and verification status.** `DeviceKeys.dfy` has the key tables, the pinning filter and the status; `DeviceKeyResults.dfy` and `StatusResults.dfy` the results; `DeviceKeyStore.dfy` the object.

**Three algorithms.** The rolling-row substring matcher (`Levenshtein.dfy`), the incremental space index (`Spaces.dfy`) and the canonical-parent traversal (`CanonicalParents.dfy`).

`Order.dfy` has the order of `std::string` and the sorted keys of a `std::map`.

## Conditions

Where the code keeps a property only under a condition, the condition is a predicate, and a lemma says exactly when the property holds:

- An echo must bring a new id (`Timeline.FreshEcho`); without it the index is broken: `EchoConsistentIff`.
- The last event of a history page that is not a redaction must be the one on the lowest slot (`Timeline.GoodPage`), because the code relabels that slot with it: `PageConsistentIff`, and `DuplicateLastBreaksPage` for a page that is not like that.
- An empty history page returns an arrival number where a message number is expected: `EmptyPageFitsIff`.
- Retention does not look at an open index window: `RetentionFitsIff`, and `RunFitsIff` over whole sequences.
- Clearing and retention keep the pending rows of events they delete: `SentAfterClearIff` and `SentAfterRetentionIff` say which messages are still sent.
- Clearing a timeline deletes one visible row too many, since the cursor is left on the lowest row when no stray row is found: `ClearConsistentIff` says when this is harmless and `HistoryAfterClear` what it leads to otherwise.
- A single-character needle makes the matcher return a position instead of a distance: `LevenshteinDistance` says for which inputs the result is still the distance.
- Marking an untracked user does not forget the memoised status: `MarkCoherentIff`, and `MemoStaysFreshIff` over whole sequences.
- The first answer about an untracked user is stored unfiltered: `UntrackedIsNotPinned`, and `FirstDevicesComeBack` for what it costs.
- A verification succeeds whichever known keys the MAC message speaks for: `AnyKeysSuffice`, and `HonestVouches` for an honest peer.
- A message that cannot be sent blocks the queue for good: `BlocksIff` and `NeverSendsAgainIff`.
- A message whose timestamp lies before one being retried resets the failure count: `AddIsSafeIff` says when an addition keeps the bound of eleven attempts, `OvertakingBreaksBound` shows one that does not.
- A failure is counted against whichever message is current, so a message can inherit failures: `GivesUpIff` says how many attempts it gets, `InheritedIff` and `CarriedIff` from where it inherits, and `EchoShortensRetries` and `ForgettingShortensRetries` show two that get ten.
- A failed verification is not final, and neither is a successful one: `FailedLeftIff`, `FailedForGoodIff` and `SuccessLeftIff`.

## Model

| member | source | states |
|---|---|---|
| Levenshtein.ScriptCostsAtLeastDistance | src/Utils.cpp:289-314 | the recursive distance is a lower bound on the cost of every edit script between the two strings |
| Levenshtein.CheapestScript | src/Utils.cpp:289-314 | some edit script between the two strings costs exactly the distance, so the distance is the edit distance |
| Levenshtein.BestCell | src/Utils.cpp:305-308 | from three neighbouring cells that are least distances to substrings ending there, the recurrence yields the least distance for the new cell |
| Levenshtein.FirstRow | src/Utils.cpp:300 | the row of zeros is right for the empty needle: every position ends an empty substring |
| Levenshtein.OneCharacter | src/Utils.cpp:297-298 | for a one-character needle the least substring distance is 0 if the character occurs and 1 if not |
| Levenshtein.Find | src/Utils.cpp:297-298 | the first position of the character, and -1 exactly when it does not occur |
| Levenshtein.MinElement | src/Utils.cpp:313 | a least element of the row |
| Levenshtein.LevenshteinDistance | src/Utils.cpp:289-314 | the result is the least distance between the needle and a substring exactly when the haystack is not empty and the needle is not one character, or is the haystack's first; otherwise -1 or the position of the character |
| Timeline.Unsend | src/Cache.cpp:3191-3196 | the cursor loop removes exactly the pending rows that name the transaction |
| TimelineProofs.ConsistentTables | src/Cache.cpp:3107-3356 | tables that stand for a list are two inverse pairs on gap-free intervals, every visible event is ordered, and both orders agree |
| TimelineProofs.EchoSimulates | src/Cache.cpp:3166-3196 | an echo with a fresh id replaces the id of one list entry in place and nothing else |
| TimelineProofs.AppendSimulates | src/Cache.cpp:3228-3263 | a new event becomes the last entry of the list, visible exactly when it is not hidden |
| TimelineProofs.SyncSimulates | src/Cache.cpp:3107-3265 | a whole sync does to the tables what its events do one by one to the list, and moves no existing slot unless it is limited |
| TimelineProofs.PageStepSimulates | src/Cache.cpp:3307-3346 | an event of a history page becomes the first entry unless it is a redaction or a duplicate |
| TimelineProofs.PageLowest | src/Cache.cpp:3307-3346 | the lowest slot after a page carries the last id that was new, or the oldest there was |
| TimelineProofs.HistorySimulates | src/Cache.cpp:3267-3356 | a whole page puts its new events before the list, the token on the first, and moves no visible row |
| TimelineResults.RetentionSimulates | src/Cache.cpp:3594-3631 | retention keeps exactly the newest min(n, MAX_RESTORED_MESSAGES + 1) entries, in all order tables, and removes all rows of the others |
| TimelineResults.RunSimulates | src/Cache.cpp:3011-3356 | after any sequence of syncs, pending saves, pages and retention the tables stand for the list given by the same operations on lists |
| TimelineResults.RunKeepsIndex | src/Cache.cpp:3107-3356 | after any such sequence: inverse pairs, no gaps, visible events ordered, visible order agrees with arrival order |
| TimelineResults.RunStocks | src/Cache.cpp:3107-3356 | after any such sequence every ordered id has its event in the event table under that id |
| TimelineResults.EchoConsistentIff | src/Cache.cpp:3166-3196 | an echo leaves the index consistent if and only if its id is not the transaction id and not ordered yet |
| TimelineResults.PageConsistentIff | src/Cache.cpp:3348-3351 | a page leaves the index consistent if and only if its last event that is not a redaction took the lowest slot |
| TimelineResults.DuplicateLastBreaksPage | src/Cache.cpp:3315-3351 | a page with a new event followed by one already ordered breaks the index |
| TimelineResults.FoldSettles | src/Cache.cpp:3147-3264 | the events of a sync move no entry: each keeps place and visibility and takes the id of its echo, and no new entry carries a transaction id |
| TimelineResults.EchoedIsGone | src/Cache.cpp:3166-3196 | once echoed, a transaction id is in neither the event table nor the pending table after the rest of the sync |
| TimelineResults.SendPlaces | src/Cache.cpp:3011-3027 | a message saved as pending is the newest entry of the list, stored, and queued under the time |
| TimelineResults.PageContinues | src/Cache.cpp:2014-2028 | after a page the oldest pagination token is the end of that page, so history continues where it ended |
| TimelineResults.GapContinues | src/Cache.cpp:3123-3163 | after a limited sync that brings an event the oldest pagination token is the sync's prev_batch |
| TimelineResults.EchoSettles | src/Cache.cpp:3166-3196 | after a sync that echoes a pending message its server id has the arrival slot and visible row the transaction id had, the transaction id is gone from every table, and every id not echoed keeps both its positions |
| TimelineContents.UntouchedKeepsRow | src/Cache.cpp:3106-3265 | an event that a sync neither brings, echoes nor redacts keeps its stored row, also over a gap |
| TimelineContents.LastBroughtIsStored | src/Cache.cpp:3166-3263 | after a sync each id holds the last event with that id, be it new, a duplicate or an echo, unless it is redacted or echoed away afterwards |
| TimelineContents.RedactedIsEmptied | src/Cache.cpp:3197-3227 | after a sync with a redaction of an event stored when it is reached and not saved again, the event has no text, is marked by the last such redaction and is otherwise as it was; the redaction is stored under its own id |
| TimelineContents.RedactionWithoutTarget | src/Cache.cpp:3199-3206 | a redaction of an event that is not stored changes nothing and is not stored itself |
| TimelineContents.RunKeepsGone | src/Cache.cpp:3197-3227 | over every sequence of syncs, pending saves, pages and retention the text of a redacted event stays away unless an event with its id is brought again |
| TimelineContents.PageRows | src/Cache.cpp:3307-3346 | a page stores for each id its last event that is not a redaction, and changes nothing else among the stored events and nothing in the pending table |
| TimelineContents.SendRows | src/Cache.cpp:3011-3027 | a pending save stores the message as it is and changes no other stored event |
| TimelineContents.PendingAfterSync | src/Cache.cpp:3123-3196 | which unsent messages a sync leaves, exactly: those it does not echo, and none when there is a gap |
| TimelineClear.NewestTokenIsNewest | src/Cache.cpp:3405-3408 | the point where clearing stops keeping is the newest entry with a pagination token |
| TimelineClear.ClearKeeps | src/Cache.cpp:3373-3443 | clearing keeps exactly the suffix from the newest entry with a token (everything if there is none); the visible rows are those of the suffix without the lowest |
| TimelineClear.ClearedRowsNameEvents | src/Cache.cpp:3411-3443 | every visible row that survives names an event that survives |
| TimelineClear.ClearConsistentIff | src/Cache.cpp:3439-3443 | the cleared index is consistent if and only if no kept event is visible |
| TimelineClear.HistoryAfterClear | src/Cache.cpp:3439-3443 | after every clear that is not consistent, the next page with a new visible event leaves the oldest kept visible event claiming a row that is not its own: the new event's row, or, if it was the only one kept, a row of an empty table |
| TimelineStore.RoomTimeline.RemovePendingStatus | src/Cache.cpp:3088-3104 | the pending table without the rows of the transaction |
| TimelineStore.RoomTimeline.SaveEcho | src/Cache.cpp:3166-3196 | the table updates made one after the other amount to the echo |
| TimelineStore.RoomTimeline.SaveRedaction | src/Cache.cpp:3197-3227 | a redaction empties its stored target, marks it and stores itself; without a stored target nothing changes |
| TimelineStore.RoomTimeline.SaveNew | src/Cache.cpp:3228-3263 | a new event takes the next slot and row; a duplicate only replaces the stored event |
| TimelineStore.RoomTimeline.SaveTimelineMessages | src/Cache.cpp:3106-3265 | the loop with its two counters computes the sync on the tables as a whole |
| TimelineStore.RoomTimeline.SavePendingMessage | src/Cache.cpp:3010-3027 | the tables after the sync of the one message, with its pending row |
| TimelineStore.RoomTimeline.SaveOldMessages | src/Cache.cpp:3267-3356 | the loop computes the page on the tables; the result is the lowest message row, but an arrival slot for an empty page |
| TimelineStore.RoomTimeline.DeleteSlot | src/Cache.cpp:3614-3630 | one slot and everything stored under its event id are gone |
| TimelineStore.RoomTimeline.DeleteOldMessages | src/Cache.cpp:3594-3632 | the cursor loop removes exactly the slots that retention drops |
| TimelineStore.RoomTimeline.DeleteBelowToken | src/Cache.cpp:3370-3409 | the backward loop removes every slot below the newest token |
| TimelineStore.RoomTimeline.FindStop | src/Cache.cpp:3411-3437 | the cursor ends on the newest row without a slot, or on the lowest row when there is none |
| TimelineStore.RoomTimeline.DeleteStrayRows | src/Cache.cpp:3439-3443 | the row under the cursor and all below it are gone |
| TimelineStore.RoomTimeline.ClearTimeline | src/Cache.cpp:3358-3448 | the three loops together compute the clearing |
| TimelineStore.RoomTimeline.GetTimelineRange | src/Cache.cpp:2233-2263 | lowest and highest message row, nothing for an empty table |
| TimelineStore.RoomTimeline.LastInvisibleEventAfter | src/Cache.cpp:2317-2367 | the end of the stretch of invisible events right after the given one, or the event itself; the next ordered event, if any, is visible |
| EventWindow.SyncFits | src/timeline/EventStore.cpp:357-387 | a sync leaves the window the empty sentinel or exactly the range of the message rows |
| EventWindow.PageFits | src/timeline/EventStore.cpp:66-98 | so does a history page that is not empty |
| EventWindow.EmptyPageFitsIff | src/Cache.cpp:3296-3303 | an empty page keeps the window exact if and only if it is not saved or the lowest slot and row have the same number |
| EventWindow.RetentionFitsIff | src/Cache.cpp:3594-3631 | retention keeps an open window exact if and only if no dropped entry is visible |
| EventWindow.StepFitsIff | src/timeline/EventStore.cpp:66-98 | one operation keeps the window right if and only if it is not an empty page or a retention that the two conditions exclude |
| EventWindow.RunFitsIff | src/timeline/EventStore.cpp:66-98 | over every sequence of syncs, pending saves, pages and retention the window is the sentinel or exactly the range throughout, if and only if each operation is harmless where it happens |
| EventWindow.OpensIff | src/timeline/EventStore.cpp:66-98 | when there is a window, exactly: a sync closes it when nothing is visible, opens it at a gap and otherwise keeps it; a page opens it when two events are visible |
| EventWindow.IndexRoundTrip | src/timeline/EventStore.cpp:662-681 | with 64-bit subtraction and truncation to int, external indices 0..size-1 are the visible events in order and the two conversions are inverse, for sizes below 2^31 |
| EventWindow.EventStore.constructor | src/timeline/EventStore.cpp:35-40 | the window starts as the range, or as the sentinel |
| EventWindow.EventStore.HandleSync | src/timeline/EventStore.cpp:357-387 | the two fields after a sync |
| EventWindow.EventStore.AddPending | src/timeline/EventStore.cpp:294-307 | tables and window after a pending save |
| EventWindow.EventStore.OldMessagesRetrieved | src/timeline/EventStore.cpp:66-98 | tables and window after a page, including the pages that are not saved |
| SendQueue.SkipUnstored | src/Cache.cpp:3060-3066 | only rows of events that are gone are deleted, and the first row left names a stored event |
| SendQueueRuns.RunSafe | src/timeline/EventStore.cpp:101-181 | over every sequence of requests, failures, timers, sends, echoes, gaps, forgotten events and additions that overtake nothing, from any safe queue, rows without a stored event included, at most one request is outstanding and no message is sent more than 11 times |
| SendQueueRuns.AddIsSafeIff | src/Cache.cpp:3023-3024 | an addition keeps that bound over everything that can follow if and only if its timestamp is not before a stored message that has been sent and may be sent again |
| SendQueueFailures.RunCounts | src/timeline/EventStore.cpp:164-172 | in every such run, from whatever messages an earlier session left, the attempts of the current message and the failures it inherited are exactly the failure count and the outstanding request |
| SendQueueFailures.GivesUpIff | src/timeline/EventStore.cpp:164-172 | a failure gives the message up if and only if its attempts and the failures it inherited make eleven |
| SendQueueRuns.FailingGivesUpIff | src/timeline/EventStore.cpp:164-172 | a message that keeps failing is given up at exactly the failure that makes eleven with those counted before its first request |
| SendQueueFailures.InheritedIff | src/timeline/EventStore.cpp:164-178 | a message inherits failures if and only if it is first sent while failures are counted whose message is no longer both pending and stored |
| SendQueueFailures.CarriedIff | src/timeline/EventStore.cpp:164-172 | which steps leave such failures, exactly: a failure after the message is gone, or its echo, a gap, its event being forgotten or a row with its timestamp while failures are counted |
| SendQueueFailures.EchoShortensRetries | src/timeline/EventStore.cpp:164-172 | a sequence in which a message that is neither sent nor echoed is given up after ten attempts because of an early echo |
| SendQueueFailures.ForgettingShortensRetries | src/Cache.cpp:3060-3066 | the same because the event of the message before was forgotten while its pending row stayed |
| SendQueueRuns.OvertakingBreaksBound | src/timeline/EventStore.cpp:164-172 | a sequence in which a clock that moves backwards has a message sent 21 times |
| SendQueue.BlocksIff | src/timeline/EventStore.cpp:107-126 | an idle queue blocks if and only if the oldest message still stored has a foreign id or content that cannot be sent; its row goes if the id is foreign and stays otherwise |
| SendQueue.BlockedForever | src/timeline/EventStore.cpp:101-105 | a blocked queue stays blocked and sends nothing, whatever happens |
| SendQueue.NeverSendsAgainIff | src/timeline/EventStore.cpp:101-105 | a queue sends nothing under every continuation if and only if it is blocked |
| SendQueue.ResponseDrains | src/timeline/EventStore.cpp:160-178 | every response, followed by its timer, lowers the number of requests the queue can still cause |
| SendQueueRows.LeavesIff | src/timeline/EventStore.cpp:160-181 | a queued message leaves the queue in a step if and only if it was sent, its echo came, a gap dropped it, it failed for the eleventh time as the current one, its event was forgotten, or another took its timestamp |
| SendQueueRows.StaysQueued | src/timeline/EventStore.cpp:101-181 | over every sequence of steps, with any messages in the queue, no message is lost: it stays queued until one of these happens |
| SendQueueRows.RequestsIff | src/timeline/EventStore.cpp:101-130 | processing requests the oldest stored message if and only if nothing is under way and it can be sent, and requests nothing else |
| SendQueueTables.ClearBacks | src/Cache.cpp:3387-3404 | clearing is the step of the queue that forgets the events before the newest token and keeps every pending row |
| SendQueueTables.RetentionBacks | src/Cache.cpp:3611-3631 | retention is the step that forgets the events it drops and keeps every pending row |
| SendQueueTables.EchoBacks | src/Cache.cpp:3166-3196 | an echo is the step that takes the message out of the queue |
| SendQueueTables.SendBacks | src/Cache.cpp:3011-3027 | a pending save is the row that an addition gives the queue |
| SendQueueTables.SentAfterClearIff | src/Cache.cpp:3387-3404 | a pending message is still sent after a clear if and only if it is not older than the newest pagination token |
| SendQueueTables.SentAfterRetentionIff | src/Cache.cpp:3594-3631 | after retention if and only if it is among the newest MAX_RESTORED_MESSAGES + 1 entries |
| SendQueue.MessageQueue.FirstPendingMessage | src/Cache.cpp:3051-3086 | the oldest pending message that is stored; older rows of events that are gone are deleted |
| SendQueue.MessageQueue.ProcessPending | src/timeline/EventStore.cpp:101-130 | what the slot does to the queue and which request it makes |
| SendQueue.MessageQueue.MessageFailed | src/timeline/EventStore.cpp:160-178 | the failure count, giving up after more than 10 failures, and one more timer |
| SendQueue.MessageQueue.RetryTimeout | src/timeline/EventStore.cpp:173-177 | the current transaction is dropped and the queue processed |
| SendQueue.MessageQueue.MessageSent | src/timeline/EventStore.cpp:286-289 | the message leaves the queue and the next one is taken |
| SendQueue.MessageQueue.Drain | src/timeline/EventStore.cpp:101-181 | a queue of n messages is empty after at most 11n responses, under any pattern of success and failure |
| Megolm.EncryptKeeps | src/encryption/Olm.cpp:508-690 | one message keeps the invariant: every share recorded no earlier than shared, every record from a share, our own device never |
| Megolm.RunKeeps | src/encryption/Olm.cpp:508-690 | the invariant holds after every sequence of messages with arbitrary changes in between |
| Megolm.SharedStaysListed | src/encryption/Olm.cpp:537-609 | whoever was sent a session's key is still a listed device of a current member at every later message under that session |
| Megolm.RecordedIsEligible | src/encryption/Olm.cpp:674-684 | after every message the recorded set equals the eligible devices of the members, our own device excluded |
| Megolm.CallCounts | src/encryption/Olm.cpp:529-532 | one message keeps the counter equal to the number of messages under the session, within the limit |
| Megolm.RotationBound | src/encryption/Olm.cpp:529-532 | under a fixed limit no session encrypts more than max(1, limit) messages |
| Megolm.ReuseIsTimely | src/encryption/Olm.cpp:529-532 | a session is reused only while its age, in unsigned 64-bit arithmetic, and its index are below the limits |
| Megolm.HandleKeyRequest | src/encryption/Olm.cpp:1082-1165 | which requests are ignored, exactly; an unverified device is answered only from its own record and at that index |
| Megolm.RecordNeverPrecedesShare | src/encryption/Olm.cpp:659-687 | index shared <= recorded index <= current index, so an answer on the record alone never exports from before what the device was given |
| Megolm.SharedOnce | src/encryption/Olm.cpp:595-600 | no device is sent the key of one session twice |
| MegolmReuse.ReusedIff | src/encryption/Olm.cpp:529-609 | over every run a message uses the session of the one before if and only if that session has encrypted fewer messages than the limit, is younger than the period since its first use, there is or was any member, and no member and no device has gone since |
| MegolmReuse.IndexIsCount | src/encryption/Olm.cpp:611-669 | otherwise no message has used its session; either way the index is the number of messages before it under its session |
| MegolmReuse.RecipientsIff | src/encryption/Olm.cpp:544-600 | over every run the key goes to exactly the listed devices but our own, or, under the session of the message before, to those of them that were not listed at that message |
| MegolmReuse.SharesRecordedAs | src/encryption/Olm.cpp:674-684 | each share is recorded at the index after the one it was sent at, or at 0 for the first message of a session |
| MegolmSender.DeviceRemoved | src/encryption/Olm.cpp:578-585 | true exactly when a recorded device is no longer listed |
| MegolmSender.ListDevices | src/encryption/Olm.cpp:596-600 | the listed devices that have no key yet, without our own device |
| MegolmSender.Walk | src/encryption/Olm.cpp:533-609 | reuse exactly when the maps are not both empty and every recorded user and device is still there; the recipients are then exactly the devices without a record |
| MegolmSender.ShareWithRest | src/encryption/Olm.cpp:544-559 | members after the last recorded one are all sent the key |
| MegolmSender.RecordDevices | src/encryption/Olm.cpp:679-683 | devices not recorded yet get the index; the others keep theirs |
| MegolmSender.RecordSent | src/encryption/Olm.cpp:674-684 | the recording loop over all recipients |
| MegolmSender.RecordTwice | src/encryption/Olm.cpp:640-683 | the recording loop after a new session changes nothing: everybody is recorded at index 0 |
| MegolmSender.RoomSessions.NewSession | src/encryption/Olm.cpp:615-657 | a fresh session with index 0, everybody eligible recorded at 0 and listed as recipient |
| MegolmSender.RoomSessions.EncryptGroupMessage | src/encryption/Olm.cpp:508-690 | the stored sessions, the session and index used and the recipients are those of the specification |
| SasResults.StepFlags | src/encryption/DeviceVerificationFlow.cpp:463-505 | a step sets the MAC-sent flag only by confirming while comparing, and the verified flag only on a matching MAC |
| SasResults.SuccessIsEarned | src/encryption/DeviceVerificationFlow.cpp:217-260 | against an arbitrary peer, success needs the own user's confirmation while comparing and a received MAC message that matched |
| SasResults.CompareEnteredIff | src/encryption/DeviceVerificationFlow.cpp:155-215 | a comparison begins if and only if a key arrives in time that, for the sender, is the one committed to together with its own start; the short string is derived from that key and shown in the method agreed on; no other slot can do it |
| SasResults.SuccessEnteredIff | src/encryption/DeviceVerificationFlow.cpp:822-832 | a flow succeeds in a step if and only if its user confirms after the MACs matched, or they match after its user confirmed; no other slot can do it |
| SasResults.SuccessLeftIff | src/encryption/DeviceVerificationFlow.cpp:711-747 | what undoes a success, exactly: a cancel message, a late start that is answered, a late ready that is started on, a ready of another device; never the own cancellation or the timer |
| SasResults.FailedLeftIff | src/encryption/DeviceVerificationFlow.cpp:545-605 | an event revives a failed flow if and only if it is a supported start of this flow that was not accepted yet (from a smaller party if the flow is the sender), or a ready of this flow while its sender has not started |
| SasResults.FailedForGoodIff | src/encryption/DeviceVerificationFlow.cpp:545-605 | a failed flow stays failed under every sequence of events if and only if it can neither start nor accept any more |
| SasResults.CancelledComesBack | src/encryption/DeviceVerificationFlow.cpp:711-747 | every flow cancelled before it succeeded and before it sent a start or an accept can be revived |
| SasResults.SentOnce | src/encryption/DeviceVerificationFlow.cpp:607-820 | whatever the other side does, a flow sends at most one start, accept, key and MAC message, and its four flags say which |
| SasMessages.SentIff | src/encryption/DeviceVerificationFlow.cpp:463-820 | which event makes a flow send which message, with which contents, in every state; no other slot sends it |
| SasMessages.FailsIff | src/encryption/DeviceVerificationFlow.cpp:711-747 | a flow fails, and with which error, if and only if it sends a cancel message with that error, receives one, or another of our devices has answered the request |
| SasMessages.HoldsAfter | src/encryption/DeviceVerificationFlow.cpp:102-429 | what a flow holds after any event, exactly: whose start counts and in which role, the method, the commitment, the other side's key and device; no other event changes them |
| SasMessages.LastCounts | src/encryption/DeviceVerificationFlow.cpp:102-154 | over every sequence of events the method is that of the last start or accept taken in, and the commitment that of the last accept |
| SasResults.MacVerifiesIff | src/encryption/DeviceVerificationFlow.cpp:217-262 | a MAC message made under any secret, for any parties, transaction and keys verifies the peer if and only if all of these are the flow's own and every key is known with that value; otherwise an unfinished flow fails |
| SasResults.MacVerifiesOnlyWhole | src/encryption/DeviceVerificationFlow.cpp:217-262 | the same for arbitrary, mixed messages: without the MACs of unknown keys, a message verifies if and only if it is what the peer makes under this secret, for these parties and this transaction, for some of the keys we know |
| SasResults.HonestMacMatchesIff | src/encryption/DeviceVerificationFlow.cpp:231-262 | the check accepts an honest peer's MAC message if and only if every key it vouches for is known with the same value |
| SasResults.AnyKeysSuffice | src/encryption/DeviceVerificationFlow.cpp:247-262 | a waiting flow succeeds on a message for any set of known keys, the empty one and those without the verified device's key included |
| SasResults.HonestVouches | src/encryption/DeviceVerificationFlow.cpp:801-814 | an honest peer's message vouches for all its own keys, so for its device key if and only if it lists it |
| SasSystem.MoveInv | src/encryption/DeviceVerificationFlow.cpp:545-605 | every step of either side keeps the two-party invariant |
| SasSystem.RunInv | src/encryption/DeviceVerificationFlow.cpp:102-429 | the invariant holds in every reachable state of the honest system, from both starting points |
| SasSystem.ComparisonAgrees | src/encryption/DeviceVerificationFlow.cpp:182-215 | when both sides compare, exactly one is the sender, both hold the same start and both show the same short string |
| SasSystem.CommitmentsMatch | src/encryption/DeviceVerificationFlow.cpp:198-206 | no reachable state has a mismatched commitment, and none is ever sent |
| SasSystem.SuccessMeansBothConfirmed | src/encryption/DeviceVerificationFlow.cpp:822-840 | success on either side means both users confirmed while comparing |
| SasSystem.OneIsSmaller | src/encryption/DeviceVerificationFlow.cpp:583-590 | the glare rule decides between any two different parties |
| SasSystem.ComparisonIsReachable | src/encryption/DeviceVerificationFlow.h:26-58 | from either starting point, both sides having sent a start included, some sequence brings both sides to compare |
| SasSystem.UndisturbedRunSucceeds | src/encryption/DeviceVerificationFlow.h:26-58 | from either starting point some sequence leads both sides to success when both know the other's keys |
| SasFlow.DeviceVerificationFlow.constructor | src/encryption/DeviceVerificationFlow.cpp:30-47 | a new flow has no history; it knows the device when there is one candidate |
| SasFlow.DeviceVerificationFlow.Continue | src/encryption/DeviceVerificationFlow.cpp:463-505 | the user's confirmation is the step of the specification |
| SasFlow.DeviceVerificationFlow.VerificationMac | src/encryption/DeviceVerificationFlow.cpp:763-791 | the loop computes one MAC for each key and one over all ids |
| SasFlow.DeviceVerificationFlow.HandleStartMessage | src/encryption/DeviceVerificationFlow.cpp:545-605 | the start slot, glare resolution included, is the step of the specification |
| SasFlow.DeviceVerificationFlow.CheckMacs | src/encryption/DeviceVerificationFlow.cpp:231-262 | the loop over the received MACs decides exactly whether they all match, and the one over the ids too |
| SasFlow.DeviceVerificationFlow.ReceivedReady | src/encryption/DeviceVerificationFlow.cpp:356-414 | the ready slot is the step of the specification |
| SasFlow.DeviceVerificationFlow.Serve | src/encryption/DeviceVerificationFlow.cpp:102-429 | under any sequence of signals the object follows the flow, its sent flags agree with its outbox, no start, accept, key or MAC message is sent twice, and success implies the user's confirmation while comparing and a MAC message that matched |
| DeviceKeyResults.UpdateSucceeds | src/Cache.cpp:4254-4323 | one answer leaves a tracked entry pinned: ids once seen keep their keys, no key has two devices |
| DeviceKeyResults.PinnedForever | src/Cache.cpp:4254-4323 | the same over every sequence of answers, marks, verifications and lookups |
| DeviceKeyResults.FoldLooked | src/Cache.cpp:4318-4322 | the filter has seen exactly what had been seen before and the ids and keys of the devices it did not pass over |
| DeviceKeyResults.AcceptedIff | src/Cache.cpp:4254-4323 | when an answer is stored, a device is kept if and only if it is held with the same keys, or it signs itself, its id and keys are new, and no device before it in map order that was not passed over has one of its keys |
| DeviceKeyResults.UntrackedIsNotPinned | src/Cache.cpp:4222-4227 | the first answer about an untracked user is stored as it is, and the entry is pinned if and only if it has no devices |
| DeviceKeyResults.ComesBackIff | src/Cache.cpp:4254-4323 | after an answer without devices, a stored id comes back with other keys if and only if it had not been seen |
| DeviceKeyResults.FirstDevicesComeBack | src/Cache.cpp:4222-4227 | so every device of the first answer about an untracked user can come back with other keys |
| DeviceKeyResults.EntriesAnswered | src/Cache.cpp:4227-4252 | an entry carries the latest mark's token, and an answered entry holds what an answer with its own token said |
| DeviceKeyResults.UpToDateMeansLatest | src/Cache.cpp:4325-4326 | an entry whose tokens agree holds keys from an answer to the latest mark |
| DeviceKeyResults.LastAnswerHeld | src/Cache.cpp:4219-4252 | over every sequence an entry holds the last answer that came before any mark or with the latest mark's token, and its token |
| DeviceKeyResults.UnansweredIsEmpty | src/Cache.cpp:4370-4400 | an entry without such an answer holds nothing but the latest mark |
| DeviceKeyResults.RaisedIff | src/Cache.cpp:4240-4248 | over every sequence the flag for a changed master key is up at the end if and only if it was up before, or some operation replaced master keys there were by other ones |
| StatusResults.ApplyCoherentIff | src/Cache.cpp:4334-4344 | an operation keeps every memoised status equal to a fresh computation if and only if it is not a harmful mark |
| StatusResults.MemoStaysFreshIff | src/Cache.cpp:4541-4627 | over every sequence of answers, verifications, lookups and marks the memo is fresh throughout if and only if each mark is harmless where it happens |
| StatusResults.MarkCoherentIff | src/Cache.cpp:4386-4400 | a mark keeps the memo fresh if and only if no memoised user becomes tracked and, when our own user does, every memoised user that was tracked had exactly one device not verified locally |
| StatusResults.CountIsOfUnverified | src/Cache.cpp:4679-4687 | when both users' keys are known, the count is the number of their devices that are not among the verified ones |
| StatusResults.ReportedTrustIff | src/Cache.cpp:4636-4769 | after every sequence with harmless marks, a device key is reported as trusted if and only if the chain of signatures from this device to it is unbroken in the keys held then, memoised or not, and as much as its user |
| StatusResults.ReportedStatusIff | src/Cache.cpp:4636-4769 | after every such sequence the user is verified if and only if it is our own or the chain to its master key is unbroken, trusted on first use if and only if it is not but the key never changed; a device is verified if and only if it was by hand, is this one, or has a chain; the count is that of the devices not verified |
| StatusResults.VerifiedLocallyIff | src/Cache.cpp:4540-4619 | over every sequence a device counts as verified by hand if and only if the last mark on it verified it |
| StatusResults.NeverTofuAgain | src/Cache.cpp:4726-4744 | when the master keys of a user differ between two states of a run, and there were some in the first, no later lookup reports trust on first use |
| DeviceKeyStore.KeyCache.KeyReused | src/Cache.cpp:4264-4278 | the loop finds a reused key or id exactly when there is one |
| DeviceKeyStore.KeyCache.AcceptDevices | src/Cache.cpp:4257-4323 | the loop with its early exits computes the filter over the devices in map order |
| DeviceKeyStore.KeyCache.UpdateUser | src/Cache.cpp:4219-4327 | one user's entry is updated or skipped, the others stay |
| DeviceKeyStore.KeyCache.UpdateUsers | src/Cache.cpp:4219-4327 | the loop over the users updates each one from its old entry |
| DeviceKeyStore.KeyCache.UpdateUserKeys | src/Cache.cpp:4203-4344 | entries updated and statuses forgotten, all of them when the user is our own |
| DeviceKeyStore.KeyCache.ForgetUsers | src/Cache.cpp:4334-4344 | the loop forgets the users' statuses, and all when one of them is our own |
| DeviceKeyStore.KeyCache.MarkUserKeysOutOfDate | src/Cache.cpp:4370-4403 | the loop marks every user whose id is short enough, in any order |
| DeviceKeyStore.KeyCache.MarkDeviceVerified | src/Cache.cpp:4540-4577 | the device is verified and the status forgotten, unless it was verified already |
| DeviceKeyStore.KeyCache.MarkDeviceUnverified | src/Cache.cpp:4588-4619 | the device is not verified and the status forgotten |
| DeviceKeyStore.KeyCache.AnyCrossSignature | src/Cache.cpp:4662-4677 | true exactly when one signature of the owner by a given key verifies |
| DeviceKeyStore.KeyCache.CountUnverified | src/Cache.cpp:4679-4687 | the counting loop computes the number of listed devices less the verified ones among them |
| DeviceKeyStore.KeyCache.TrustDevices | src/Cache.cpp:4750-4760 | the loop collects exactly the devices signed by the self signing key |
| DeviceKeyStore.KeyCache.ComputeStatus | src/Cache.cpp:4643-4764 | the early returns give the status from scratch |
| DeviceKeyStore.KeyCache.VerificationStatus | src/Cache.cpp:4636-4769 | the memoised status if there is one, otherwise a fresh one, which is memoised |
| Spaces.RunMirrors | src/Cache.cpp:3647-3717 | after every sequence of updates the children and the parents table are inverse relations |
| Spaces.ScratchIsUpdateOfNothing | src/Cache.cpp:3647-3717 | updating an empty index with all spaces and rooms gives the links as declared by the state |
| Spaces.LinkIff | src/Cache.cpp:3672-3715 | the index from scratch has a link if and only if the space declares the room, or a known room declares the space and the sender may add children to it |
| Spaces.UpdateIsScratch | src/Cache.cpp:3647-3717 | if every space whose child, power level or pointing parent events changed is updated, the incremental index equals the one from scratch |
| Spaces.RunIsScratch | src/Cache.cpp:3647-3717 | the same over every sequence of covering updates |
| Spaces.SpaceTables.DeleteRows | src/Cache.cpp:3656-3670 | exactly the rows of the space are gone from both tables |
| Spaces.SpaceTables.PutChildren | src/Cache.cpp:3672-3679 | the links declared by the space are added to both tables |
| Spaces.SpaceTables.PutParents | src/Cache.cpp:3690-3715 | the links declared by the room whose sender may add children are added to both tables |
| Spaces.SpaceTables.AddPointing | src/Cache.cpp:3681-3685 | exactly the known rooms with a parent event for the space join the rooms to look at |
| Spaces.SpaceTables.Update | src/Cache.cpp:3647-3717 | the interleaved loops compute the update as a whole |
| CanonicalParents.PackCollector.AddRoomAndCanonicalParents | src/Cache.cpp:3860-3883 | terminates on cyclic graphs; adds only rooms reachable from the room, each once, and leaves no canonical parent of an added room unvisited |
| CanonicalParents.Collect | src/Cache.cpp:3860-3886 | visits exactly the rooms reachable from the start room through canonical parents, each once, the start first |

## Left out

- SendQueueRuns.RunSafe: assumes each added message has a fresh id starting with 'm' and content that can be sent; `BlocksIff` says what happens otherwise.
- TimelineResults.RunSimulates: history pages whose events lack an id are excluded; the source throws on a missing id.
- EventWindow.RunFitsIff: message rows are assumed not to leave the range of a 64-bit counter below the sentinel.
- EventWindow.EmptyPageFitsIff: stated for an open window; `StepFitsIff` adds that a page without events cannot spoil the sentinel.
- Clearing a timeline is not one of the window's operations: it sets the window to the range anew.
- Megolm.ReuseIsTimely: the ratchet counter is unbounded; libolm's is 32 bits wide.
- DeviceKeyResults.PinnedForever: starts from a pinned entry; an entry created by a mark is pinned, one created by an answer with devices is not.
- TimelineClear.ClearKeeps: takes a cursor that failed to step back as resting on the lowest row, which is how LMDB behaves.
- LMDB transactions, handles and errors; each database operation is one step on a map. The arrival and message counters are unbounded integers in the tables.
- JSON encoding and rows or events that cannot be parsed; the old row format without JSON.
- The relations table (`related`) and the rows for replies and edits.
- Whether an event is hidden is an arbitrary flag of the event; `isHiddenEvent` is not modelled.
- Event caches, decryption, edits, reactions and everything the views are told.
- The rewriting and re-encryption of queued replies to a message that has just been sent.
- The event fetch and the requests for older messages; `fetchMore` is a result.
- Hashes, MACs, signatures and ratchets are terms or parameters; equal only when computed from equal parts. A MAC computed before the other key is known throws in the library; the model stops where it throws.
- The signatures uploaded after a verification, marking the device verified and requesting secrets.
- Cancelling the other candidate devices of a verification, and more than two parties.
- A verification in a room without a timeline.
- The expansion of an empty device list, claiming one-time keys and the HTTP calls that carry the keys.
- Saving inbound sessions, the key backup and the export itself.
- The contents of image packs, and everything a pack adds besides the order of the rooms.
- Locks and threads: each slot and each public function is one step.
