# atframe_utils: write-ahead log, reader/writer lock, reference counts, LRU map, integer text

A Dafny model of four cores of the repository, with proofs. All line numbers refer to files under
`include/`.

**Write-ahead log** (`include/distributed_system/`)

- `WalCommon`, `WalChain`: logs, keys, callbacks; sorted and hash-chained runs of logs and the linear-scan
  meaning of the searches.
- `WalSpec`: what one push, the drain of queued pushes, trimming and collection mean as functions on a
  state, and the laws of the log. `WalObject`: `wal_object` as a class whose methods, loops included,
  compute exactly those functions.
- `WalPublication`: the publisher as a run of pushes, collections and broadcasts. `WalPublisher`:
  `wal_publisher` as a class whose fields are always where such a run leads.
- `WalRoster`, `WalSubscriber`: the heartbeats and timer entries of subscribers as values, and the subscriber
  manager with its map, its timer list and the subscriber objects updated in place.
- `WalReception`, `WalClient`: the client as a run, and `wal_client` as a class.
- `WalReplication`: a publisher, a client and a network that drops, duplicates and reorders. `WalHoles`: the
  same for logs that arrive in the middle.
- `WalLaws`: one push, one collection and one received log told from the callbacks, the settings and the logs
  alone, without the functions that compute them.
- `WalExamples`: concrete inputs on which conditional claims fail, and a hash that meets the hypotheses.

**`spin_rw_lock`** (`include/lock/`): `SpinRwLock` interleaves atomic steps of any number of uses of the lock;
`SpinRwLockObject` has the methods with their retry loops, as one use executes them among the others.

**`rc_ptr`** (`include/memory/`): `RcPtr` is a state machine of handle operations and nested dispose calls;
`RcHandles` is a reference model of plain handles without counts that it refines; `RcRuntime` is the counters and
handles updated in place, with a `release` that re-enters itself through destructors.

**`lru_map`** and **`int2str`/`str2int`** (`include/memory/`, `include/common/`): `LruMap` and `IntText`.

## How to read the model

- Keys are integers: the code only compares keys with one strict total order.
- A log is a value: `body` is what the hash covers, `payload` what patch and merge callbacks may change.
- User callbacks are a `VTable`. The n-th callback invocation of an object's life has an arbitrary outcome
  depending on n and the log; from some invocation on (`quiet`) callbacks no longer push, since otherwise a
  push would never return. Hash codes are unbounded integers; collision freedom and "never 0" are hypotheses
  of the theorems that need them, and of no others.
- The verdicts of the publisher's user callbacks (subscriber check, forced snapshot, success of a send) and
  of the client's (success of a subscribe request, acceptance of a snapshot) are parameters.

## Findings

- A queued push whose key is below the ignore key is never taken off the queue (`wal_object.h:429-431`), so the
  drain loop ends if and only if neither what is queued nor anything pushed while it drains is below the ignore
  key (`WalSpec.DrainEnds`); `WalSpec.PushNeverReturns` is a push that never returns. The direct path ignores
  keys up to and including the ignore key, as documented; the queue tests strictly below.
- A client's last-finished key bounds its log after an operation if and only if what the operation made the log
  accept is within that bound (`WalReception.StepMonotone`); for a client that accepts logs whatever their
  actions say, the default, if and only if no callback pushed a greater key (`WalReception.TakenWithin`, over
  runs `WalReception.RunTaken`). `WalReception.PushedPastFinished` is an input that breaks it. Logs that a callback
  receives instead of pushing never break it (`WalReception.InsideMonotone`).
- Callbacks of a client that push can take its log out of the publisher's history. A delivery keeps the log a
  segment of the history if and only if the client's logs, with the delivered log and the pushes put at their
  places, go on matching the history by key and body and start no earlier than before unless with the publisher's
  first record (`WalReplication.DeliverKeepsSegment`; over runs `WalReplication.ReplicationExact`). For a client
  that does not accept every log, the logs it accepts count. Callbacks that do not push are always right
  (`WalReplication.SilentSafe`). `WalExamples.PushingClientStrays` is a client that leaves the history, and
  `WalExamples.PushingClientFollows` the same client on a history that it does not leave.
- A client with no logs accepts any log of the publisher under a hash of its own; it then holds a part of
  the publisher's history if and only if that log was the first (`WalReplication.FirstLogDecides`,
  `WalExamples.SecondLogFirst`).
- A push loses a log that no broadcast has reached if and only if more logs are above the broadcast bound than
  the size limit keeps (`WalPublication.PushLossless`, from what there is before the push
  `WalPublication.SilentLossless`; `WalExamples.UnsentLogLost`).
- `allocate` on a key that is already mapped notes a heartbeat but leaves the timer entry, so the timers keep
  agreeing with the heartbeats if and only if the heartbeat did not move (`WalRoster.AllocateKnownPunctual`,
  `WalExamples.StaleTimer`). The publisher never calls it so.
- `is_offline` and the timer disagree exactly at the instant a subscriber's timeout ends
  (`WalRoster.OfflineOrOverdue`, `WalExamples.OfflineButKept`).
- Given its exact size, an unterminated text is read past its end if and only if it consists of minus signs and
  spaces behind them only (`IntText.FullReadable`). The empty text is among these, and since size 0 also means "no
  size", an empty view in front of a number is read as that number (`IntText.EmptyViewReadsOn`).

## Model

| member | source | states |
|---|---|---|
| WalObject.Wal.constructor | include/distributed_system/wal_object.h:186-190 | a new log is empty, idle, has removed nothing and ignores nothing |
| WalObject.Wal.EmplaceBack | include/distributed_system/wal_object.h:389-447 | a null log is refused; a push from inside a callback is queued; an outermost push, if it returns at all, ends idle in the state and with the code of `Emplace`: apply, drain, trim |
| WalObject.Wal.DrainPending | include/distributed_system/wal_object.h:417-436 | the drain loop ends with an empty queue and equals the recursive first-in first-out drain, though it applies each entry before taking it out |
| WalObject.Wal.TrimToSize | include/distributed_system/wal_object.h:438-444 | exactly the excess over a positive size limit is removed from the front |
| WalObject.Wal.RunCallback | include/distributed_system/wal_object.h:394-402 | what a callback pushes re-enters the log and ends up at the end of the queue, in order; no callback runs inside another |
| WalObject.Wal.RedoLog | include/distributed_system/wal_object.h:864-912 | the delegate group is chosen by action case with the default as fallback; patch runs before action, and a failed patch stops it, as `WalLaws.PatchFails` and `WalLaws.PatchSucceeds` tell without it |
| WalObject.Wal.RehashTail | include/distributed_system/wal_object.h:1028-1035 | the in-place loop equals re-hashing the whole tail from the seed, the front untouched |
| WalObject.Wal.PushBackInternalUncheck | include/distributed_system/wal_object.h:914-951 | appending seals the hash, runs the callbacks and keeps the log if accepted |
| WalObject.Wal.PushBackInternal | include/distributed_system/wal_object.h:953-1051 | append, merge or insertion in the middle, chosen by the search position, equals `PushOne` |
| WalObject.Wal.InsertHole | include/distributed_system/wal_object.h:1003-1050 | the position found before the action is still the right one after it |
| WalObject.Wal.PopFrontInternal | include/distributed_system/wal_object.h:1053-1072 | removes the first log and raises the last-removed key to it, never lowers it |
| WalObject.Wal.CollectExpired | include/distributed_system/wal_object.h:497-549 | removes exactly the logs `WalLaws.GcExactly` says, and returns how many |
| WalObject.Wal.StdLowerBound | include/distributed_system/wal_object.h:980-984 | the binary search finds the first key not below the given one |
| WalObject.Wal.LogLowerBound | include/distributed_system/wal_object.h:711-731 | with its fast path for the last key it equals the linear scan for the first key not below |
| WalObject.Wal.LogUpperBound | include/distributed_system/wal_object.h:765-785 | with its fast path it equals the linear scan for the first key above |
| WalObject.Wal.FindLog | include/distributed_system/wal_object.h:650-662 | returns a held log with the key, and none only when no held log has it |
| WalObject.Wal.GetHashCodeBefore | include/distributed_system/wal_object.h:834-855 | the hash of the greatest key below, or the initial code |
| WalObject.Wal.AssignLogs | include/distributed_system/wal_object.h:269-310 | replaces the logs by any others and nothing else; the log is in order again if and only if they are |
| WalObject.Wal.SetIgnoreKey | include/distributed_system/wal_object.h:561-568 | sets the ignore key and nothing else |
| WalSpec.EmplaceOrdered | include/distributed_system/wal_object.h:914-1072 | however callbacks behave, an outermost push keeps the log strictly sorted and hash-chained, empties the queue and respects the size limit |
| WalSpec.InsertKeepsOthers | include/distributed_system/wal_object.h:1003-1046 | an accepted log takes its place; every other log keeps everything but the hash, those before it the hash too |
| WalSpec.EmplaceFifo | include/distributed_system/wal_object.h:389-436 | logs are applied in the order of the outermost push followed by all re-entrant pushes in the order they were made |
| WalSpec.DrainFifo | include/distributed_system/wal_object.h:417-436 | queued logs are applied in queue order, then those they push |
| WalSpec.EmplaceConsistent | include/distributed_system/wal_object.h:389-447 | key by key, accepted logs are those held plus those removed; every removed key is at most the last-removed key, which never falls |
| WalSpec.DrainEnds | include/distributed_system/wal_object.h:417-436 | the drain loop ends if and only if neither what is queued nor anything pushed on the way is below the ignore key |
| WalSpec.EndedDrained | include/distributed_system/wal_object.h:417-436 | a loop that has ended has done what the recursive drain says |
| WalSpec.PushNeverReturns | include/distributed_system/wal_object.h:429-431 | a concrete push after which no number of turns empties the queue |
| WalSpec.AboveDrains | include/distributed_system/wal_object.h:417-436 | callbacks that never push below the ignore key always let the loop end |
| WalSpec.DrainBalance | include/distributed_system/wal_object.h:417-436 | key by key, a drain adds to the held logs just what it accepts |
| WalSpec.GcSafe | include/distributed_system/wal_object.h:497-549 | collection removes a prefix of at most the limit, leaves the threshold, and within the size limit with readable meta data removes only expired logs not above `hold` |
| WalLaws.MetaFails | include/distributed_system/wal_object.h:873-880 | a log with unreadable meta data runs no callback; the error, or a callback error, is the result |
| WalLaws.PatchFails | include/distributed_system/wal_object.h:882-903 | a patch that fails is the last callback and its code the result; the log is kept only if logs are accepted anyway and all hash callbacks are set |
| WalLaws.PatchSucceeds | include/distributed_system/wal_object.h:882-908 | the action runs on what the patch left and its code decides; without an action the log is kept |
| WalLaws.NoPatch | include/distributed_system/wal_object.h:882-908 | without a patch the action runs on the log itself; with neither the result is that no action is set |
| WalLaws.HeldMerges | include/distributed_system/wal_object.h:986-1001 | a key that is held runs merge on the held and the incoming log and nothing else, and the held log keeps its hash |
| WalLaws.IgnoredExactly | include/distributed_system/wal_object.h:404-415 | a push is ignored, and applies nothing, exactly up to and including the ignore key |
| WalLaws.TrimExactly | include/distributed_system/wal_object.h:438-444 | a push leaves the last of the logs it would leave without a size limit, and removes the others in order |
| WalLaws.RunRemoved | include/distributed_system/wal_object.h:1053-1066 | over any run the last-removed key is the greatest key removed |
| WalLaws.GcExactly | include/distributed_system/wal_object.h:497-549 | a log is collected if and only if it and all before it are due within the limit: over the size limit, unreadable, or expired and not held; with 128 logs, 512 logs and seven days unless configured |
| WalChain.ChainsAgreeBackwards | include/distributed_system/wal_object.h:1003-1035 | two chains under a collision-free hash that end in the same hash agree record by record backwards |
| WalChain.RehashSnoc | include/distributed_system/wal_object.h:1028-1035 | re-hashing a run extended by a log re-hashes the run and then the log |
| WalPublication.StepConsistent | include/distributed_system/wal_publisher.h:332-338 | every publisher operation keeps the log ordered, chained and accounted for, and only adds to what was accepted |
| WalPublication.RunPlaced | include/distributed_system/wal_publisher.h:806-888 | over any run every accepted log is in exactly one place: sent, skipped, in the hole list, above the bound, or removed unsent |
| WalPublication.ExactlyOnce | include/distributed_system/wal_publisher.h:806-888 | after a broadcast to live subscribers every accepted log was handed out exactly once, with its content, unless it was removed before a broadcast reached it |
| WalPublication.RunKnown | include/distributed_system/wal_publisher.h:806-888 | over any run whatever is held, listed as a hole or sent has the key and body of an accepted log |
| WalPublication.PushLossless | include/distributed_system/wal_object.h:438-444 | a push removes an unsent log exactly when more logs are above the bound, as trimming begins, than the size limit |
| WalPublication.SilentLossless | include/distributed_system/wal_object.h:389-447 | with callbacks that do not push: exactly when the unsent logs before the push, and the pushed log if it is accepted above the bound, exceed the size limit |
| WalPublication.CollectAfterBroadcast | include/distributed_system/wal_publisher.h:660-672 | collecting right after a broadcast removes no unsent log |
| WalPublication.CollectHeldAtBound | include/distributed_system/wal_publisher.h:667-672 | a collection that holds at the broadcast bound removes no unsent log, within the size limit and with readable meta data |
| WalPublication.CatchUpComplete | include/distributed_system/wal_publisher.h:728-767 | an answer that is no snapshot is, in order, the held logs above the checkpoint, and holds every log above it that was ever accepted |
| WalPublication.SnapshotExactly | include/distributed_system/wal_publisher.h:728-758 | a snapshot is sent if and only if it is forced, the checkpoint is older than the last removed log, or the checkpoint log is held with another hash |
| WalPublication.ResumeSound | include/distributed_system/wal_publisher.h:738-767 | if the request's hash is accepted, both chains hold the same records backwards from the checkpoint as far as both reach |
| WalPublication.RunRooted | include/distributed_system/wal_object.h:914-1072 | the publisher's whole retained chain, first log included, was computed by the hash callbacks |
| WalPublisher.Publisher.constructor | include/distributed_system/wal_publisher.h:153-180 | a new publisher has an empty log, no subscribers and nothing to send |
| WalPublisher.Publisher.EmplaceBackLog | include/distributed_system/wal_publisher.h:332-338 | a push extends the run the fields stand for by that push and returns the log's code |
| WalPublisher.Publisher.OnLogAdded | include/distributed_system/wal_publisher.h:167-178 | a log below the broadcast bound is put into the hole list if hole logs are enabled |
| WalPublisher.Publisher.Broadcast | include/distributed_system/wal_publisher.h:806-888 | extends the run by a broadcast, counts what was walked, and empties the pool of removed subscribers |
| WalPublisher.Publisher.HandOut | include/distributed_system/wal_publisher.h:806-888 | the live subscribers get the logs above the bound and the hole logs, the bound moves to the last log, the hole list is cleared |
| WalPublisher.Publisher.Walk | include/distributed_system/wal_publisher.h:867-885 | counting, forgetting the hole logs and moving the bound leaves the state the run has after a broadcast |
| WalPublisher.Publisher.MoveBound | include/distributed_system/wal_publisher.h:872-885 | the walk counts the logs above the bound and ends on the last one |
| WalPublisher.Publisher.SayFarewell | include/distributed_system/wal_publisher.h:833-865 | removed subscribers are sent the same logs in rounds, up to and including the first in which every send succeeds, and in at most three |
| WalPublisher.RoundSends | include/distributed_system/wal_publisher.h:845-852 | a round sends the logs above the bound and then the hole logs to the whole pool |
| WalPublisher.Publisher.RemoveSubscriber | include/distributed_system/wal_publisher.h:586-599 | the subscriber and its timer leave the manager; it is owed the last logs if configured |
| WalPublisher.Publisher.ReceiveSubscribeRequest | include/distributed_system/wal_publisher.h:696-768 | an unknown or invalid subscriber gets no answer and the code for it, and the invalid one is removed and owed the last logs if configured; a valid one gets the answer defined by `Answer` and the code of sending it |
| WalPublisher.Publisher.Attend | include/distributed_system/wal_publisher.h:699-713 | finds, checks and renews the subscriber of a request, or removes it |
| WalPublisher.Publisher.AnswerRequest | include/distributed_system/wal_publisher.h:728-767 | computes `Answer` with the search and the checks of the code |
| WalPublisher.Publisher.CreateSubscriber | include/distributed_system/wal_publisher.h:525-578 | returns the known valid subscriber renewed, or a new one in place of an invalid one, answered; who leaves is owed the last logs if configured |
| WalPublisher.Publisher.Replace | include/distributed_system/wal_publisher.h:535-544 | the new subscriber stays if it is valid |
| WalPublisher.Publisher.Vacate | include/distributed_system/wal_publisher.h:486-494 | an invalid subscriber with the key leaves first |
| WalPublisher.Publisher.Tick | include/distributed_system/wal_publisher.h:644-693 | always ends, accepts and loses no log, hands the live subscribers just what was above the bound and the hole logs, leaves nothing unsent, collects only at this time and up to the bound, and counts exactly what it sent, removed and expired; with budget left nothing remains to be done and exactly the overdue subscribers are gone |
| WalPublisher.Publisher.TickRound | include/distributed_system/wal_publisher.h:652-689 | one turn does the same within its share; a turn that counts nothing leaves nothing to do |
| WalPublisher.TickedTwice | include/distributed_system/wal_publisher.h:651-691 | two turns in a row do what one does and count what both did: the second sends nothing again |
| WalPublisher.Publisher.Flush | include/distributed_system/wal_publisher.h:660-677 | one broadcast and one collection send everything once, remove only from the front and count just that |
| WalPublisher.Publisher.CollectLogs | include/distributed_system/wal_publisher.h:667-672 | collecting up to the bound after a broadcast loses no log |
| WalPublisher.Publisher.ExpireSubscribers | include/distributed_system/wal_publisher.h:679-689 | the expiry loop removes only subscribers an unbounded sweep would remove, and owes them the last logs if configured |
| WalRoster.CallsSound | include/distributed_system/wal_subscriber.h:63-207 | over every run of the publisher's interface with a forward clock each subscriber has exactly one timer entry, due one timeout after its last heartbeat, and the entries are in order |
| WalRoster.SweepExact | include/distributed_system/wal_publisher.h:679-689 | after any such run a sweep removes exactly the subscribers whose last heartbeat plus timeout has passed |
| WalRoster.ExpireAllExact | include/distributed_system/wal_subscriber.h:291-319 | popping expired heads until none is left removes exactly the overdue subscribers and leaves the others' heartbeats |
| WalRoster.AllocateKnownPunctual | include/distributed_system/wal_subscriber.h:181-207 | allocating a mapped key keeps the timers in step with the heartbeats if and only if the heartbeat does not move |
| WalRoster.OfflineOrOverdue | include/distributed_system/wal_subscriber.h:349-351 | an overdue subscriber is offline, and the two differ if and only if its timeout ends at this instant |
| WalSubscriber.Manager.OfflineAgrees | include/distributed_system/wal_subscriber.h:349-351 | a mapped object calls itself offline exactly when its recorded heartbeat says so |
| WalRoster.RequestSound | include/distributed_system/wal_publisher.h:696-713 | a subscription request keeps subscribers and timers paired and in order |
| WalRoster.RequestExactly | include/distributed_system/wal_publisher.h:696-715 | a request of a valid subscriber sets its heartbeat to now and puts its timer entry last, due one timeout from now; an invalid one leaves, an unknown one changes nothing, nor does anything change for the others |
| WalRoster.CreateSound | include/distributed_system/wal_publisher.h:525-578 | so does creating a subscriber |
| WalRoster.CreateExactly | include/distributed_system/wal_publisher.h:525-547 | creating renews heartbeat, timeout and timer of a valid subscriber, or puts a new one last in place of whoever held the key, unless it is invalid; the others stay |
| WalRoster.AllocateExactly | include/distributed_system/wal_subscriber.h:181-207 | a known key gets heartbeat and timeout and keeps its timer entry, a new one comes last |
| WalRoster.RemoveExactly | include/distributed_system/wal_subscriber.h:128-144 | a removed subscriber and its entry are gone and the others stay |
| WalSubscriber.Manager.constructor | include/distributed_system/wal_subscriber.h:58-61 | a new manager has no subscribers and no timers |
| WalSubscriber.Manager.RemoveTimer | include/distributed_system/wal_subscriber.h:63-70 | the node the handle names is erased and the handle cleared |
| WalSubscriber.Manager.InsertTimer | include/distributed_system/wal_subscriber.h:72-90 | a node due one timeout from now goes to the end and the subscriber gets its handle |
| WalSubscriber.Manager.ResetTimer | include/distributed_system/wal_subscriber.h:102-113 | moves the entry of an own subscriber to the end, ignores a foreign one, and map, list and objects still point at each other |
| WalSubscriber.Manager.Subscribe | include/distributed_system/wal_subscriber.h:115-126 | a sign of life updates the heartbeat and restarts the timer |
| WalSubscriber.Manager.UnsubscribeKey | include/distributed_system/wal_subscriber.h:128-144 | takes the subscriber out of map and list and unbinds it; an unknown key changes nothing |
| WalSubscriber.Manager.Unsubscribe | include/distributed_system/wal_subscriber.h:146-169 | works by object only if that object is the one mapped under its key |
| WalSubscriber.Manager.Allocate | include/distributed_system/wal_subscriber.h:181-207 | a known key is updated, a new one gets an object and a timer entry |
| WalSubscriber.Manager.GetFirstExpired | include/distributed_system/wal_subscriber.h:291-319 | returns the subscriber of the first entry if that is overdue, else nothing |
| WalSubscriber.ResetCoherent | include/distributed_system/wal_subscriber.h:102-113 | erasing by handle and appending keeps map, list and handles in agreement |
| WalSubscriber.EraseByHandle | include/distributed_system/wal_subscriber.h:63-70 | erasing by handle takes out the entry of that subscriber and no other |
| WalClient.Client.constructor | include/distributed_system/wal_client.h:131-150 | a new client has an empty log and has finished nothing |
| WalClient.Client.ReceiveLog | include/distributed_system/wal_client.h:454-489 | snapshot, hash and last-finished guards in that order, then the push, if it returns; from inside a callback the log is queued past the same guards |
| WalClient.Client.ReceiveHoleLog | include/distributed_system/wal_client.h:538-572 | the same without the last-finished guard, the key only moving up |
| WalClient.Client.AssignLogs | include/distributed_system/wal_client.h:138-148 | any logs are assigned, and the assign event moves the last-finished key up to the last of them |
| WalClient.Client.ReceiveSnapshot | include/distributed_system/wal_client.h:622-632 | a snapshot is remembered if and only if the callback's code is not an error, and the code is returned |
| WalClient.Client.Mismatches | include/distributed_system/wal_client.h:470-479 | a log is refused exactly if the hash before its place is real and does not lead to its hash |
| WalClient.Client.Tick | include/distributed_system/wal_client.h:391-434 | always ends, removes from the front only logs that may be collected, beats exactly once if a heartbeat was due, counts just that, and with budget left nothing is collectable |
| WalClient.Client.TickRound | include/distributed_system/wal_client.h:398-431 | one turn collects within its share of the budget and sends the heartbeat if it is due |
| WalClient.Client.Heartbeat | include/distributed_system/wal_client.h:412-427 | one request is sent if there is a callback; the next heartbeat is the retry interval away after a failure, else the normal one, or three minutes if that is not positive |
| WalClient.Client.NextHeartbeat | include/distributed_system/wal_client.h:412-427 | the next heartbeat is always after now |
| WalReception.StepMonotone | include/distributed_system/wal_client.h:454-572 | no client operation lowers the last-finished key, and the key goes on bounding the log if and only if what the operation brings is within it |
| WalReception.RunMonotone | include/distributed_system/wal_client.h:481-488 | a run is monotone all the way, so that no key passes the guard of `receive_log` twice, if and only if every operation is within bounds |
| WalReception.BelowMonotone | include/distributed_system/wal_client.h:481-488 | so is every run of a client whose callbacks push no greater keys |
| WalReception.EmplaceBound | include/distributed_system/wal_object.h:389-447 | a key bounds the log after a push if and only if it did before and bounds what was accepted |
| WalReception.TakenWithin | include/distributed_system/wal_client.h:481-488 | for a client that accepts logs whatever their actions say, an operation is within bounds if and only if its callbacks push no key above the one the client then calls finished |
| WalReception.RunTaken | include/distributed_system/wal_client.h:454-572 | a run of such a client is monotone all the way if and only if no callback ever pushes a key above the one the client then calls finished |
| WalReception.InsideMonotone | include/distributed_system/wal_client.h:454-572 | a log received inside a callback keeps the last-finished key at or above the log and the queue |
| WalReception.PassedGuardAppends | include/distributed_system/wal_client.h:481-488 | a log that passes the guard goes to the end of the log |
| WalLaws.ReceiveExactly | include/distributed_system/wal_client.h:454-489 | no snapshot, a contradicting hash and a finished key refuse a log in that order, each with its own code and without any change; every other log is pushed and its key finished |
| WalLaws.ReceiveHoleExactly | include/distributed_system/wal_client.h:538-572 | a hole log is refused for want of a snapshot or for its hash, at whatever place it belongs, and else pushed; the greater key is finished |
| WalLaws.HashDecides | include/distributed_system/wal_client.h:554-563 | behind a log with a real hash both receive calls refuse a log for its hash if and only if it is not the one computed there |
| WalLaws.ReceiveInsideExactly | include/distributed_system/wal_client.h:454-572 | inside a callback the same logs get through, and wait in the queue |
| WalLaws.NothingBeforeSnapshot | include/distributed_system/wal_client.h:463-465 | over any run a client that needs a snapshot takes nothing before it accepts one |
| WalLaws.AssignExactly | include/distributed_system/wal_client.h:138-148 | assigning puts the last-finished key at the greater of the old one and the last assigned one |
| WalReception.PushedPastFinished | include/distributed_system/wal_client.h:481-488 | a concrete client whose action pushes a greater key ends with a log above the last-finished key |
| WalReception.PushedOutOfBounds | include/distributed_system/wal_client.h:481-488 | that delivery is out of bounds |
| WalReplication.ReplicationExact | include/distributed_system/wal_client.h:454-489 | whatever the publisher does, the network drops, duplicates or reorders and the client's callbacks push, the client's log stays a contiguous segment of the publisher's history with identical hashes, all the way, if and only if what every delivery brings continues the history |
| WalReplication.ReplicationSafe | include/distributed_system/wal_client.h:454-489 | so it does, and the last-finished key bounds it, as long as every log let in makes the client accept at most that log |
| WalReplication.SilentSafe | include/distributed_system/wal_client.h:454-489 | so over every run of a client whose callbacks do not push |
| WalReplication.SilentThroughout | include/distributed_system/wal_client.h:488-488 | such a client is brought one log at a time over every run |
| WalReplication.HappenSafe | include/distributed_system/wal_client.h:454-489 | one event keeps the system safe if and only if it is no delivery or one that continues the history |
| WalReplication.AloneKeepsSegment | include/distributed_system/wal_client.h:470-488 | a record of the history that is all a delivery brings leaves a segment |
| WalReplication.SilentAlone | include/distributed_system/wal_client.h:488-488 | a client whose callbacks do not push is brought one log at a time |
| WalReplication.LastHashDecides | include/distributed_system/wal_client.h:470-479 | a chain is a segment of the history if and only if its last hash is one of the history's |
| WalReplication.DeliverKeepsSegment | include/distributed_system/wal_client.h:454-489 | a delivery of any log to a client with any callbacks leaves a segment if and only if the client's logs, with the delivered and the pushed logs put at their places by key, match the history by key and body from where they started or from its beginning |
| WalReplication.EmplaceMirrors | include/distributed_system/wal_object.h:389-436 | before trimming, a push leaves exactly the old logs with what it brings put at their places, the first hash being the old one or computed from the initial code |
| WalReplication.MirrorsDecide | include/distributed_system/wal_object.h:834-855 | such logs are a segment of the history if and only if their contents continue it |
| WalReplication.MatchIsNext | include/distributed_system/wal_client.h:470-479 | the only record of the history that matches the client's last hash is the next one |
| WalReplication.RunHistoric | include/distributed_system/wal_object.h:914-1072 | an append-only publisher's accepted logs form one hash chain of which it holds the rest |
| WalReplication.SeededSafe | include/distributed_system/wal_client.h:267-272 | a client seeded with a non-empty part of the publisher's logs holds a segment bounded by its last-finished key |
| WalReplication.FirstLogDecides | include/distributed_system/wal_object.h:834-855 | a client without logs that accepts a record holds a segment if and only if that record was the publisher's first |
| WalReplication.FirstLogSafe | include/distributed_system/wal_client.h:454-489 | so does a client without logs that accepts the publisher's first record |
| WalReplication.CatchesUp | include/distributed_system/wal_publisher.h:738-767 | a client that asks with its last hash and is sent logs takes all of them, ends at the publisher's last record and then agrees with the publisher backwards as far as both reach |
| WalReplication.RunCatchesUp | include/distributed_system/wal_publisher.h:738-767 | in particular with a publisher after any run |
| WalReplication.SilentCatchesUp | include/distributed_system/wal_publisher.h:738-767 | so does every client whose callbacks do not push, and it takes every log it is sent |
| WalReplication.TakesAll | include/distributed_system/wal_client.h:454-489 | a client that takes logs whatever their actions say takes every log of a chain that continues its own |
| WalHoles.HoleReplicated | include/distributed_system/wal_client.h:538-572 | a publisher accepts a log behind one the client holds too; the client takes its copy with `receive_hole_log`, and then holds the publisher's records again, the re-hashed ones included, over all that both hold |
| WalHoles.InsertCovers | include/distributed_system/wal_object.h:1003-1046 | the same record put behind the same record of two logs re-hashes both to the same records |
| WalHoles.HolesInStep | include/distributed_system/wal_client.h:538-572 | over any run of pushes in any key order behind both first logs, a client sent each accepted log once holds the publisher's records all along |
| WalHoles.UnlimitedInStep | include/distributed_system/wal_client.h:538-572 | without size limits it is enough that the pushed keys are above both first keys at the start |
| WalExamples.MixIsSound | include/distributed_system/wal_common_defs.h:167-174 | there is a collision-free hash that is never the invalid code |
| WalExamples.PushingClientStrays | include/distributed_system/wal_client.h:454-489 | a concrete client that held a segment and pushes from its action then holds a log that is not the publisher's |
| WalExamples.PushingClientFollows | include/distributed_system/wal_client.h:454-489 | the same client holds a segment of a history that goes on with what it pushes |
| WalExamples.SecondLogFirst | include/distributed_system/wal_object.h:834-855 | a concrete client without logs accepts the second log and holds no segment |
| WalExamples.UnsentLogLost | include/distributed_system/wal_object.h:438-444 | a concrete push loses an unsent log |
| WalExamples.StaleTimer | include/distributed_system/wal_subscriber.h:181-207 | a concrete allocate leaves a stale timer |
| WalExamples.OfflineButKept | include/distributed_system/wal_subscriber.h:291-296 | a concrete subscriber is offline and kept |
| SpinRwLock.StatusCounts | include/lock/spin_rw_lock.h:35-161 | after any interleaving the status is twice the readers plus the flag and in range, the flag has at most one owner, and no holder's unlock has failed |
| SpinRwLock.Exclusion | include/lock/spin_rw_lock.h:35-161 | no two uses own the flag and no reader stands beside a writer whose lock call has returned |
| SpinRwLock.AdvanceSound | include/lock/spin_rw_lock.h:54-161 | every atomic step, spurious failures included, keeps all of that |
| SpinRwLock.Refines | include/lock/spin_rw_lock.h:54-161 | every atomic step is a move of an ideal lock or invisible to callers |
| SpinRwLock.WriterProgress | include/lock/spin_rw_lock.h:90-119 | while the flag is set the readers left are those at the start less the read locks given back |
| SpinRwLock.WriterEnters | include/lock/spin_rw_lock.h:90-119 | the waiting writer's next look lets it in exactly when every read lock has been given back |
| SpinRwLock.FreeAgain | include/lock/spin_rw_lock.h:75-88 | when nobody holds the lock the status is 0 |
| SpinRwLock.SoloRead | include/lock/spin_rw_lock.h:54-73 | an undisturbed read try succeeds if and only if no writer has claimed the lock and fewer than 1073741823 readers are in |
| SpinRwLock.SoloWrite | include/lock/spin_rw_lock.h:127-146 | an undisturbed write try succeeds if and only if nobody is in and no writer has claimed the lock |
| SpinRwLock.SoloClaim | include/lock/spin_rw_lock.h:90-119 | an undisturbed write lock claims the lock if and only if nobody has, and is in at once if and only if nobody reads |
| SpinRwLock.SoloUnlock | include/lock/spin_rw_lock.h:75-88 | an undisturbed unlock takes just that holder out |
| SpinRwLockObject.Lock.TryReadLock | include/lock/spin_rw_lock.h:54-73 | the retry loop is a run of atomic steps; on success the use reads and no writer is in; it fails only if during the call a writer had claimed the lock or there was no room |
| SpinRwLockObject.Lock.ReadLock | include/lock/spin_rw_lock.h:45-48 | returns only as a reader |
| SpinRwLockObject.Lock.TryReadUnlock | include/lock/spin_rw_lock.h:75-88 | called by a reader it never fails |
| SpinRwLockObject.Lock.WriteLock | include/lock/spin_rw_lock.h:90-119 | returns only when this use alone owns the flag and no reader is left |
| SpinRwLockObject.Lock.TryWriteLock | include/lock/spin_rw_lock.h:127-146 | on success no reader is left and this use alone owns the flag; it fails only if during the call a writer had claimed the lock or somebody read |
| SpinRwLockObject.Lock.TryWriteUnlock | include/lock/spin_rw_lock.h:148-161 | called by the writer it never fails |
| RcPtr.Accounting | include/memory/rc_ptr.h:59-93 | after any handle operations, nested in destructors or not, use count and weak count equal the live handles, plus one weak until dispose has returned; dispose ran once exactly when no strong handle is left, destroy once exactly when no handle is left and no dispose runs |
| RcPtr.StepKeeps | include/memory/rc_ptr.h:491-694 | every single handle operation keeps that account |
| RcPtr.NothingDangles | include/memory/rc_ptr.h:491-694 | no strong handle refers to a disposed object, no weak handle to a destroyed block |
| RcPtr.LockWhileInUse | include/memory/rc_ptr.h:881-884 | lock gives a handle to the object exactly while a strong handle is left, else a null handle |
| RcPtr.NothingLeaks | include/memory/rc_ptr.h:76-93 | once no handle refers to a block and no dispose runs, it was disposed and destroyed once |
| RcPtr.DisposedForGood | include/memory/rc_ptr.h:66-83 | no operation brings back a strong handle to a disposed block |
| RcPtr.EndDisposeKeeps | include/memory/rc_ptr.h:76-83 | the return of a dispose gives back the weak count of the strong group and keeps the account |
| RcPtr.WeakRelease | include/memory/rc_ptr.h:89-93 | giving back a weak count disposes of nothing |
| RcHandles.HandlesRefine | include/memory/rc_ptr.h:491-694 | over any operations, nested in whatever destructors, every handle holds the object and block that a plain handle without counts would hold |
| RcHandles.LivesWhileShared | include/memory/rc_ptr.h:76-83 | an object is disposed of if and only if no plain handle shares its block any more |
| RcHandles.CopyKeepsAlive | include/memory/rc_ptr.h:923-924 | dropping a handle that was copied disposes of nothing, and the copy holds what it held |
| RcHandles.UseIsShared | include/memory/rc_ptr.h:66-73 | the use count is zero exactly when no strong handle shares the block |
| RcRuntime.Runtime.AddRefNothrow | include/memory/rc_ptr.h:66-73 | counts one more unless the count is zero, and says which |
| RcRuntime.Runtime.ReleaseStrong | include/memory/rc_ptr.h:76-83 | a release with everything its destructors do is a run of the state machine in which every dispose that began has returned |
| RcRuntime.Runtime.Dispose | include/memory/rc_ptr.h:76-83 | a destructor performs its operations in order and returns with its own block innermost |
| RcRuntime.Runtime.ReleaseWeak | include/memory/rc_ptr.h:89-93 | the last weak count calls destroy |
| RcRuntime.Runtime.Execute | include/memory/rc_ptr.h:59-93 | a program performs exactly the operations it asks for, in order, and ends with no dispose running |
| RcRuntime.Runtime.Lawful | include/memory/rc_ptr.h:59-93 | the account holds of the fields between any two operations |
| RcRuntime.Runtime.PlainHandles | include/memory/rc_ptr.h:491-694 | the handles updated in place hold what plain handles hold after the same operations |
| RcRuntime.Runtime.MakeObject | include/memory/rc_ptr.h:833-838 | a new object has a block with one strong and the shared weak count |
| RcRuntime.Runtime.CopyStrong | include/memory/rc_ptr.h:923-924 | a copy is a new handle equal to its source, shares the block and counts once more |
| RcRuntime.Runtime.AliasStrong | include/memory/rc_ptr.h:866-868 | an alias shares the block and points elsewhere |
| RcRuntime.Runtime.MoveStrong | include/memory/rc_ptr.h:927-930 | a move counts nothing and empties the source |
| RcRuntime.Runtime.AssignStrong | include/memory/rc_ptr.h:530-547 | the target becomes equal to the source, counts the new block before it releases the old one, and neither if they are the same |
| RcRuntime.Runtime.MoveAssignStrong | include/memory/rc_ptr.h:932-935 | a move assignment releases what the target held and empties the source; one to itself keeps the handle and releases nothing |
| RcRuntime.Runtime.SwapStrong | include/memory/rc_ptr.h:977-980 | a swap counts nothing |
| RcRuntime.Runtime.ResetStrong | include/memory/rc_ptr.h:956-956 | the handle is empty before the old block is released |
| RcRuntime.Runtime.ResetStrongTo | include/memory/rc_ptr.h:958-965 | does nothing for the same non-null pointer, else takes a new block and releases the old one |
| RcRuntime.Runtime.DropStrong | include/memory/rc_ptr.h:491-495 | the handle is gone before its block is released |
| RcRuntime.Runtime.LockWeak | include/memory/rc_ptr.h:881-884 | a strong handle if the block is in use, else a null one |
| RcRuntime.Runtime.WatchStrong | include/memory/rc_ptr.h:591-596 | a weak handle from a strong one counts one weak |
| RcRuntime.Runtime.CopyWeak | include/memory/rc_ptr.h:604-608 | a weak copy counts one weak |
| RcRuntime.Runtime.MoveWeak | include/memory/rc_ptr.h:1176-1179 | a weak move counts nothing and empties the source |
| RcRuntime.Runtime.AssignWeak | include/memory/rc_ptr.h:624-641 | counts the new block before giving back the old one, and neither if they are the same |
| RcRuntime.Runtime.MoveAssignWeak | include/memory/rc_ptr.h:1181-1184 | gives back what the target watched |
| RcRuntime.Runtime.AssignWeakFromStrong | include/memory/rc_ptr.h:1214-1218 | watches the strong handle's block instead of the old one |
| RcRuntime.Runtime.SwapWeak | include/memory/rc_ptr.h:1222-1225 | a weak swap counts nothing |
| RcRuntime.Runtime.ResetWeak | include/memory/rc_ptr.h:1220-1220 | the handle is empty and its weak count given back |
| RcRuntime.Runtime.DropWeak | include/memory/rc_ptr.h:598-602 | the handle is gone and its weak count given back |
| RcRuntime.Runtime.ShareWeakFrom | include/memory/rc_ptr.h:1262-1267 | an object's weak handle to itself is set only while it watches nothing in use |
| LruMap.ReplayStores | include/memory/lru_map.h:173-302 | over any calls the map holds exactly the keys inserted and not erased since, each with the value of that first insertion |
| LruMap.ReplayByVisit | include/memory/lru_map.h:173-302 | over any calls the list is in the order of last visit |
| LruMap.ByVisitPairs | include/memory/lru_map.h:173-302 | of two entries the one in front was visited earlier |
| LruMap.FrontAndBack | include/memory/lru_map.h:130-142 | the front is the key visited least recently, the back the one visited last |
| LruMap.NodeFound | include/memory/lru_map.h:182-186 | every list node is found through the index under its key |
| LruMap.KeyFound | include/memory/lru_map.h:264-273 | every key of the index leads to a list node with that key, and the list has no others |
| LruMap.CopyIsEqual | include/memory/lru_map.h:89-92 | a copy made by inserting has the same entries in the same order |
| LruMap.LruMap.InsertKeyValue | include/memory/lru_map.h:173-188 | a new key goes to the back; a key already there is neither changed nor visited |
| LruMap.LruMap.Lookup | include/memory/lru_map.h:275-288 | an updating find moves the entry to the back under a new iterator, another changes nothing |
| LruMap.LruMap.EraseAt | include/memory/lru_map.h:241-254 | erases node and index entry and returns the iterator behind |
| LruMap.LruMap.EraseKey | include/memory/lru_map.h:264-273 | erases node and index entry, if any, and returns how many |
| LruMap.LruMap.PopFront | include/memory/lru_map.h:130-135 | evicts the key visited least recently |
| LruMap.LruMap.PopBack | include/memory/lru_map.h:137-142 | evicts the key visited last |
| LruMap.LruMap.Index | include/memory/lru_map.h:290-302 | returns the stored or the default value; the key is the one visited last |
| LruMap.LruMap.InsertAll | include/memory/lru_map.h:234-239 | inserts a range entry by entry |
| LruMap.LruMap.Clear | include/memory/lru_map.h:159-162 | leaves nothing |
| IntText.Reverse | include/common/string_oprs.h:174-199 | reverses the given range in place, or up to the terminator, and nothing else |
| IntText.Int2StrUnsigned | include/common/string_oprs.h:211-236 | writes the decimal text and returns its length, or returns 0 exactly when it does not fit |
| IntText.Int2StrSigned | include/common/string_oprs.h:238-255 | the same with a sign, also for the least value |
| IntText.Int2Str | include/common/string_oprs.h:274-282 | and a terminator whenever there is room, an empty string on failure |
| IntText.DigitCount | include/common/string_oprs.h:222-232 | a number needs at most k digits if and only if it is below ten to the k |
| IntText.DigitsShape | include/common/string_oprs.h:222-235 | the text has only digits and no leading zero |
| IntText.Str2Int | include/common/string_oprs.h:290-344 | whenever no character outside the buffer is looked at, the parser's loops compute the value and the end of what the text stands for: signs, spaces, then hexadecimal, octal or decimal digits, wrapped around to the type |
| IntText.FullReadable | include/common/string_oprs.h:351-354 | a text given with its exact size and no terminator, the empty one included, is read past its end if and only if it is minus signs and then spaces only |
| IntText.TerminatedReadable | include/common/string_oprs.h:346-349 | a terminated text, or one shorter than its buffer, never is |
| IntText.ReadHex | include/common/string_oprs.h:314-326 | the hexadecimal loop reads the maximal run of digits, a cast after each step amounting to one at the end |
| IntText.CastLate | include/common/string_oprs.h:314-337 | casting after every shift and addition gives the same as casting the final value |
| IntText.RoundTrip | include/common/string_oprs.h:274-344 | the text of every value of every integer type is read back as that value, to its end |
| IntText.EveryText | include/common/string_oprs.h:290-344 | every text of minus signs, spaces and then decimal, hexadecimal or octal digits in either case stands for the number spelled, negated once for each sign and wrapped to the type, whatever follows |
| IntText.PrintedIsRead | include/common/string_oprs.h:274-344 | so is a printed buffer, with the terminator or with its length as size, even if the text fills it |
| IntText.EmptyViewReadsOn | include/common/string_oprs.h:351-354 | an empty view in front of a printed number is read as that number |
| IntText.TextInjective | include/common/string_oprs.h:274-282 | different values have different texts |
| IntText.PrefixBelow | include/common/string_oprs.h:332-337 | reading back a printed number never passes it, so only the least value of a signed type relies on wrap-around |

## Left out

Write-ahead log

- Sharing of log objects: logs are values here. In the code the hole list, the log and the client's log may
  share one object, so a later re-hash is seen through all of them; the model's hole list keeps the hash a log
  had when it was added.
- Objects built without `create`: a missing vtable, configuration, `get_meta` or `get_log_key`, and null logs
  in the queue, cannot occur for objects made by it.
- WalObject.Wal.EmplaceBack: requires that the push returns, by the exact condition of `WalSpec.DrainEnds`. So do
  WalClient.Client.ReceiveLog, WalClient.Client.ReceiveHoleLog and WalPublisher.Publisher.EmplaceBackLog. Runs
  of pushes are stated with every push returning.
- WalObject.Wal.StdLowerBound: stands for `std::lower_bound`, written out as a binary search.
- WalPublication.ExactlyOnce: leaves out `assign_logs`, manual `set_last_removed_key` and
  `set_broadcast_key_bound`, which make up or forget history; so do all accounts of accepted logs.
- WalPublisher.Publisher.OnLogAdded: the add-log events of a push reach the publisher when the outermost push
  returns. Send callbacks neither push nor remove subscribers.
- WalReplication.ReplicationSafe: a sufficient condition on the deliveries; the exact one is that of
  WalReplication.ReplicationExact.
- WalClient.Client.ReceiveLog: a log received from inside a callback is covered call by call; runs of a client
  have such a log as a push of that callback, without its effect on the last-finished key.
- WalHoles.HoleReplicated: the client gets the log with the hash it had when it was accepted.
- WalPublisher.Publisher.ReceiveSubscribeRequest: what sending an answer returns is a parameter.
- WalSubscriber.Manager.GetFirstExpired: the branches that drop entries without a subscriber or with another
  handle are unreachable for a valid manager and are not modelled.
- `remove_before` tests the newest log's time while removing the oldest one (wal_object.h:474-476).
- The publisher's assign hook, `load`, `dump`, allocation of logs, iteration, the list of logs received in one
  call, and the multi-threaded pointer mode.
- Time is an integer count of nanoseconds; its overflow is not modelled.

Lock

- Memory orders, back-off and sleeping: the steps are sequentially consistent.
- Uses that unlock what they do not hold.
- SpinRwLockObject.Lock.ReadLock: whether it ever returns depends on the others; the method answers for as long
  a schedule as it is given. So does SpinRwLockObject.Lock.WriteLock.

Reference counts

- Casts between pointer types, arrays, custom deleters and allocators, exceptions, comparison.
- The counts are unbounded integers, not `size_t`.

LRU map

- `swap`, moves, erasing a range, and `reserve`. Changing a value through the returned reference does not touch
  order or index.
- LruMap.LruMap.EraseAt: requires an iterator into the list, as the code does when it dereferences it.

Integer text

- IntText.Int2StrSigned: negating the least value of a type as wide as `int` or wider is undefined in C++; the
  model wraps around.
- IntText.Str2Int: likewise for digits beyond the range of a signed type. It requires exactly that the code looks
  at no character outside the buffer (`IntText.Readable`).
