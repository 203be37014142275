# factories: a verified model

This project models the protocols and formats at the heart of the `factories` actor
framework and proves what they promise, for all inputs, all runs and all interleavings.

**Actors.** `Lifecycle` is the lifecycle cell with its waker set, one step per compare-
exchange, store, load or lock section, and `Transitions` what its calls and polls amount
to. `Once` is the write-once cell under concurrent `get`, `set` and `get_or_init`.
`Scaffold` is the spawn scaffolding of one actor: write-once outcome, hooks, watcher
notification, drop guard, with an abort possible at every await, and `Outcomes` what it
records and tells. `RunLoop` is the sequential and the concurrent loop with the default
mailbox driver, poll by poll, and the unguarded lock's flag. `Mailbox` is the multilane
mailbox, both as a class and as scans interleaved with senders.

**Dispatch.** `Collect` is the lock-free list of load-time registrations under
concurrent and repeated `register` calls. `Registrations` is the canonical order of
registrations. `Registry` is the two-pass build of the dispatch tables and the fast
lookup.

**Capture.** `Varint`, `Segment`, `Encoder`, `Timeline` and `Stream` are the codec:
unsigned LEB128 (section 7.6 of DWARF Version 5), self-contained segments with interned
tables and tick deltas, the time reconstruction, and the stream iterator; `Rejection`
and `Text` are what they refuse. `Sink` is the per-thread buffering and flushing to
shared writers, `SinkPolicy` when it flushes, and `SinkTimes` the clock readings behind
that. `Causality` is the log's causal links and the per-thread frames they come from,
`Attribution` what they name.

**Ownership.** `Envelope` and `EnvelopeRuns` are the packed message envelope over an
explicit heap; `Extension` is the pointer-keyed extension set over one. `Wire` and
`Options` hold shared types.

Sequential code that updates state in place is a class whose methods are proved against
functions of the old state. Protocols in which several tasks, threads or calls interleave
are transition systems: `Enabled` says when a step can happen, `Next` what it does, and a
run is any sequence of steps. Theorems about runs quantify over all of them. Fields
described as histories record what happened; a step consults them at most to require that
an identity is new.

`dafny verify dfyconfig.toml` checks the whole project.

## What the proofs found

- A stop request can be lost. `transition_draining` tries Running and then Starting in two
  separate compare-exchanges; a `transition_running` between them makes both fail and the
  state stays Running (`Lifecycle.OverlappedDrainIsLost`). `Lifecycle.DrainLostExactly`
  gives the exact condition, `Lifecycle.DrainingHolds` the guarantee without an overlap.
  The standard scaffolding never overlaps the two: `ctx.stop` is called from hooks and
  handlers, and the start hook ends before `transition_running`. Losing a request takes a
  caller of the public lifecycle transitions on another thread.
- An abort inside `notify_subscribers` drops the watchers already taken from the set; the
  guard's fallback finds the set empty and those not told by then are never told
  (`Scaffold.AbortWhileNotifyingLosesWatchers`). `Scaffold.ExactlyOneAttempt` says exactly
  which watchers are told.
- `record` reads an event's tick before it reads the anchor of the segment it opens for
  that event, so the first fed tick can lie before the open tick. The decoder then runs
  ahead by that distance, and a time can lie past the mono span
  (`Timeline.TickBeforeAnchorOvershoots`). `SinkTimes.StreamTimesExact` gives the exact
  condition for every segment a sink flushes.
- A repeated `register` call can return before the entry is in the list
  (`Collect.SecondCallReturnsEarly`).
- `debug_assert_fresh` counts and then walks the collection; a registration between the two
  makes its report incomplete (`Collect.LateRegistrations`, `Collect.LateReportIncomplete`).
- A message with a dispatch ID from elsewhere that was never registered is bound to another
  message's dispatcher if the ID falls among the registry's own
  (`Registry.ForeignIdMisbinds`, `Registry.ForeignIdReached`). Assigning such an ID breaks
  the contract that the unsafe `assign_dynamic_dispatch_id` states for its callers.
- The layout comment at crates/factories_capture_codec/src/segment.rs:11-21 omits the
  interpretation and schema tables; the model follows the code at lines 243-260.

## Model

| member | source | states |
|---|---|---|
| Lifecycle.LifecycleOrder | crates/factories_actor/src/actor/state.rs:133-189 | in every interleaving of the single compare-exchanges and stores the stage never moves backwards, and Dead is final |
| Lifecycle.StepKeepsWaiters | crates/factories_actor/src/actor/state.rs:39-57 | every atomic step keeps each waiter's waker woken, held by a wake_all in progress, or in the set |
| Lifecycle.NoLostWakeUp | crates/factories_actor/src/actor/state.rs:133-229 | a waiter whose condition holds and whose last poll was Pending is woken, held, or in the set with a transition that has yet to take the set |
| Lifecycle.QuiescentMeansWoken | crates/factories_actor/src/actor/state.rs:133-229 | once all transition calls returned, every satisfied waiter has been woken |
| Lifecycle.DrainingHolds | crates/factories_actor/src/actor/state.rs:150-166 | a draining request that overlaps no running transition leaves the state at Draining or later |
| Lifecycle.DrainLostExactly | crates/factories_actor/src/actor/state.rs:150-166 | whatever path a draining call takes, it returns with the state below Draining if and only if its second exchange found Running, if and only if a running transition came between its two exchanges and the state was still Running |
| Lifecycle.BelowDrainingMeansLost | crates/factories_actor/src/actor/state.rs:150-166 | whenever a draining call has returned and the state is below Draining, its second exchange had lost the request |
| Lifecycle.OverlappedDrainIsLost | crates/factories_actor/src/actor/state.rs:133-166 | a run in which a stop request is lost that way |
| Transitions.StateMovesOnly | crates/factories_actor/src/actor/state.rs:133-189 | the state changes only by a step of a call whose kind makes that move |
| Transitions.RunningAndDeadTakeEffect | crates/factories_actor/src/actor/state.rs:133-189 | a running transition past its exchange leaves Starting behind; one to Dead makes the state Dead from whatever it was |
| Transitions.StoppingExactly | crates/factories_actor/src/actor/state.rs:167-182 | a stopping call returns below Stopping if and only if its second exchange found Starting or Running; the first then found Starting |
| Transitions.WakesExactly | crates/factories_actor/src/actor/state.rs:133-189 | every running transition and every one to Dead takes the waker set before it returns, a draining one exactly if an exchange of it succeeded, a stopping one never |
| Transitions.TakenAreWoken | crates/factories_actor/src/actor/state.rs:52-57 | a call that takes the set empties it and wakes every task in it before it returns |
| Transitions.WokenExactly | crates/factories_actor/src/actor/state.rs:39-57 | a waiter is woken exactly by a wake of its task since its last poll began |
| Transitions.SetExactly | crates/factories_actor/src/actor/state.rs:39-57 | a task is in the set exactly if a poll registered it and no transition took the set since, and once |
| Transitions.PollProtocol | crates/factories_actor/src/actor/state.rs:192-229 | a poll is a load, a registration and a second load: pending exactly if both loads failed, ready with the state it observed as soon as one holds |
| Once.StepKeepsInv | crates/factories_sync/src/once.rs:39-75 | every atomic step keeps one write at most, owned by the lock's holder until announced, and every call's standing |
| Once.EveryoneAgrees | crates/factories_sync/src/once.rs:28-75 | all reads and the one successful set agree, whenever they happened |
| Once.InitializedOnce | crates/factories_sync/src/once.rs:28-75 | at most one initializer returns, the memory is written once and never read uninitialized, and get_or_init's final expectation never fails |
| Once.OutcomesExactly | crates/factories_sync/src/once.rs:28-75 | what each kind of call answers: a set is stored exactly if the memory holds its write, an initializing call gets the value unless its own initializer panicked, and what is held was written by a set or by an initializer that returned |
| Once.NothingMeansEmpty | crates/factories_sync/src/once.rs:28-36 | a get answers nothing only if the cell was empty when it looked |
| Scaffold.InvInRuns | crates/factories_actor/src/runtime/loop_support.rs:266-341 | census of all subscriptions, outcome, Died events and attempts hold in every state of every run, aborts included |
| Scaffold.StepKeepsCensus | crates/factories_actor/src/actor/state.rs:376-426 | each step leaves every subscription in exactly one place: registered, taken, attempted, removed or lost |
| Scaffold.FirstOutcomeWins | crates/factories_sync/src/once.rs:39-54 | the first recorded outcome never changes |
| Scaffold.OneFinalOutcome | crates/factories_actor/src/actor/state.rs:320-340 | an outcome exists before Dead is stored; Finished exactly if the stop hook ended and nothing failed or panicked before; at most one Died event, with the outcome's kind |
| Scaffold.AtMostOneAttempt | crates/factories_actor/src/actor/supervision.rs:231-268 | each subscription gets at most one delivery attempt, with its own tag and the outcome's kind |
| Scaffold.AttemptsBeforeDead | crates/factories_actor/src/actor/state.rs:570-597 | no attempt is made once Dead is stored |
| Scaffold.MissedExactly | crates/factories_actor/src/actor/state.rs:376-426 | a subscription is late, removed or lost exactly if some step of the run was its watch after the drain, an unwatch of it while registered, or an abort that found it taken and untold |
| Scaffold.ExactlyOneAttempt | crates/factories_actor/src/actor/state.rs:391-426 | at Dead every subscription ever added was attempted exactly once, or never, and never exactly if one of those three steps happened to it |
| Scaffold.AbortWhileNotifyingLosesWatchers | crates/factories_actor/src/actor/state.rs:403-415 | the abort case is real: a run to Dead in which a watcher is never told |
| Outcomes.OutcomeIsFirstBlame | crates/factories_actor/src/runtime/loop_support.rs:147-191 | the recorded outcome is the first failure or panic of the run's events, with its kind and payload; otherwise Finished if the stop hook ended and Aborted if not |
| Outcomes.OutcomeIsTold | crates/factories_actor/src/actor/state.rs:391-426 | every delivery attempt and every Died event tells exactly that outcome's kind; a Died event is emitted exactly if the stop hook ended or the actor is aborted |
| Outcomes.StagesInOrder | crates/factories_actor/src/runtime/loop_support.rs:266-341 | the task goes through its stages in order and never back |
| Outcomes.InitGate | crates/factories_actor/src/runtime/loop_support.rs:284-300 | the start hook runs exactly after an init that succeeded; after a failed one no hook ever runs |
| Outcomes.ProceedGoesOn | crates/factories_actor/src/actor/state.rs:403-426 | the task's own steps never idle: each reaches a later stage or delivers one more |
| Outcomes.StartGate | crates/factories_actor/src/runtime/loop_support.rs:299-330 | the loop runs exactly after a start hook that ended with nothing gone wrong; after any other, neither loop nor stop hook ever runs |
| Outcomes.LifecycleExactly | crates/factories_actor/src/runtime/loop_support.rs:135-198 | the lifecycle is Running from a clean start, Draining from a stop request, Stopping from the loop's end, Dead at the end, and nothing else |
| Outcomes.DeliveryManner | crates/factories_actor/src/actor/supervision.rs:231-268 | watchers are told in the order taken; the stop path waits for room unless the watch asks for none, the guard blocks only for a watch that insists |
| RunLoop.QuiescentStop | crates/factories_actor/src/runtime/concurrent_loop.rs:48-113 | every pulled message is completed, in flight or dropped, none lost by a cancelled pull; on_stop at most once and with nothing in flight; an uncompromised stop completed everything accepted |
| RunLoop.CompromisedDropsRest | crates/factories_actor/src/runtime/concurrent_loop.rs:53-57 | a loop that leaves compromised completes nothing more and drops exactly what was in flight |
| RunLoop.CompromisedExactly | crates/factories_actor/src/runtime/loop_support.rs:93-122 | the actor is compromised exactly if a handler failed or panicked or a dispatch panicked |
| RunLoop.CompromisedStopsPulling | crates/factories_actor/src/runtime/concurrent_loop.rs:50-107 | from the moment of a failure the loop pulls at most one more message or completes at most one more handler, never both; outside a pull it never pulls again; a drain completes at most the handler that ends next |
| RunLoop.PanicEndsLoop | crates/factories_actor/src/runtime/concurrent_loop.rs:66-107 | after a panic nothing more is pulled or completed |
| RunLoop.LoopPath | crates/factories_actor/src/runtime/concurrent_loop.rs:50-113 | the task moves only along its loop's control flow, or is aborted; a panic leaves the loop on the spot |
| RunLoop.PulledExactly | crates/factories_actor/src/runtime/concurrent_loop.rs:57-107 | a message is pulled exactly if a poll took it, completed exactly if its handler ended without a panic |
| RunLoop.AcceptedExactly | crates/factories_actor/src/runtime/tokio/channel.rs:217-276 | a send is accepted exactly if the mailbox is open, and else rejected |
| RunLoop.EndsExactly | crates/factories_actor/src/runtime/loop_support.rs:135-191 | the task is aborted exactly if an abort hit it, done exactly if the stop hook ran to its end |
| RunLoop.DispatchesNeverOverlap | crates/factories_actor/src/runtime/sequential_loop.rs:45-72 | sequential dispatches never overlap: whenever a handler acquires the unguarded lock its flag is clear, and no guard is live at the stop hook |
| RunLoop.ClosedForGood | crates/factories_actor/src/runtime/tokio/channel.rs:343-347 | once closed the mailbox stays closed and accepts nothing |
| RunLoop.ClosedExactly | crates/factories_actor/src/actor/event.rs:94-106 | the mailbox is closed exactly if all senders went away or the first poll of some pull found the stop requested; a stop is requested exactly by a handler that asks for it |
| RunLoop.DriverTurnCloses | crates/factories_actor/src/actor/event.rs:94-106 | the first poll of a pull that finds Draining closes the mailbox for good: nothing is accepted any more and every send is rejected |
| RunLoop.StopRequestIsSeen | crates/factories_actor/src/actor/event.rs:94-106 | a stop request is never slept through: a pull that missed it waits only beside a handler in flight, and the loop never leaves uncompromised without the close |
| RunLoop.StepDecreases | crates/factories_actor/src/runtime/concurrent_loop.rs:50-107 | after the close every step of the task shrinks 4(2 queued + in flight) + stage and nothing grows it |
| RunLoop.StopTerminates | crates/factories_actor/src/runtime/concurrent_loop.rs:50-107 | after the close the task takes at most as many steps as the measure says |
| RunLoop.NeverStuck | crates/factories_actor/src/runtime/concurrent_loop.rs:50-113 | after the close some task step is possible until the stop hook is done |
| RunLoop.GracefulStop | crates/factories_actor/src/runtime/concurrent_loop.rs:48-113 | a run continued until the task has no step left ends with the stop hook done and, if uncompromised, exactly the messages accepted before the close completed |
| Mailbox.MultilaneMailbox.TrySend | crates/factories_actor/src/runtime/tokio/channel.rs:259-276 | exactly when each outcome is given; a sent message is at the tail of its lane and nothing else changes |
| Mailbox.MultilaneMailbox.PollReceive | crates/factories_actor/src/runtime/tokio/channel.rs:324-341 | the head of the first non-empty lane; the end exactly when every lane is closed and drained |
| Mailbox.MultilaneMailbox.Close | crates/factories_actor/src/runtime/tokio/channel.rs:343-347 | every lane closes and keeps its backlog |
| Mailbox.UninterruptedScan | crates/factories_actor/src/runtime/tokio/channel.rs:324-341 | a scan nothing interrupts is one poll of the mailbox as a whole |
| Mailbox.WholePoll | crates/factories_actor/src/runtime/tokio/channel.rs:324-341 | a poll that nothing interrupts answers, and changes the lanes exactly as polling them in order does |
| Mailbox.LaneIsFifo | crates/factories_actor/src/runtime/tokio/channel.rs:217-276 | in every run what was received from a lane is a prefix of what it accepted, and bounded lanes stay within capacity |
| Mailbox.PriorityRespected | crates/factories_actor/src/runtime/tokio/channel.rs:324-341 | lane j answers only in a scan that found every lower lane empty when it polled it |
| Mailbox.EmptyHanded | crates/factories_actor/src/runtime/tokio/channel.rs:324-341 | a poll that returns no message found every lane empty when it polled it |
| Mailbox.LaneAcceptsExactly | crates/factories_actor/src/runtime/tokio/channel.rs:217-276 | a lane accepts exactly the sendable messages sent to it while it is open and has room, at the tail, and is closed exactly by a close |
| Mailbox.EndMeansDrained | crates/factories_actor/src/runtime/tokio/channel.rs:324-341 | after an end every lane is closed and drained, then and ever after |
| Mailbox.ClosedAcceptsNothing | crates/factories_actor/src/runtime/tokio/channel.rs:343-347 | a closed lane's accepted messages are frozen |
| Registrations.SortByKeySorts | crates/factories_actor/src/runtime/registry.rs:179-181 | the key sort orders and permutes |
| Registrations.SortIsStable | crates/factories_actor/src/runtime/registry.rs:179-181 | elements with equal keys keep their order |
| Registrations.DedupOrders | crates/factories_actor/src/runtime/registry.rs:179-181 | after deduplication keys are strictly increasing |
| Registrations.CanonicalKeepsFirst | crates/factories_actor/src/runtime/registry.rs:178-181 | of each registered pair exactly the first registration is processed, whether or not duplicates agree |
| Registrations.CanonicalMembers | crates/factories_actor/src/runtime/registry.rs:178-181 | the processing order holds exactly the registrations made, when duplicates agree |
| Registrations.OrderIrrelevant | crates/factories_actor/src/runtime/registry.rs:172-181 | registration order and repetition make no difference to the processing order |
| Registry.MessageIds.Assign | crates/factories_actor/src/message/rtti.rs:122-135 | the ID slot is write-once; a second assignment reports the first ID |
| Registry.BinarySearch | crates/factories_actor/src/runtime/registry.rs:333-338 | a found index has the key; none found in an ascending sequence means the key is absent |
| Registry.CountHandlers | crates/factories_actor/src/runtime/registry.rs:183-187 | the map counts each message's registrations |
| Registry.AssignUnique | crates/factories_actor/src/runtime/registry.rs:200-229 | pass 1: panics only on an assigned slot, else consecutive IDs for unique messages and one complete pending entry per actor |
| Registry.AssignShared | crates/factories_actor/src/runtime/registry.rs:231-243 | pass 2: one further ID per shared message, and the shared-ID map agrees with the slots |
| Registry.Build | crates/factories_actor/src/runtime/registry.rs:175-280 | panics exactly when a registered message already has an ID; else tables, count and slots are those of the canonical order |
| Registry.NumberEnumerates | crates/factories_actor/src/runtime/registry.rs:189-243 | assigned IDs are an interval, each given once |
| Registry.UniqueSlice | crates/factories_actor/src/runtime/registry.rs:197-229 | an actor's unique registrations are one contiguous slice of all unique ones |
| Registry.TableBinds | crates/factories_actor/src/runtime/registry.rs:366-382 | a table binds a message's ID to d exactly when (actor, message, d) is in the frozen order |
| Registry.BindsExactlyRegistered | crates/factories_actor/src/runtime/registry.rs:333-382 | table_for then bind answers d exactly when (actor, message, d) was registered |
| Registry.BindsFirstRegistered | crates/factories_actor/src/runtime/registry.rs:333-382 | when duplicates disagree the first registration of the pair decides |
| Registry.ForeignIdMisbinds | crates/factories_actor/src/runtime/registry.rs:366-382 | the condition is exact: an unregistered message with an outside ID inside 1 to n is bound to another message's dispatcher |
| Registry.ForeignIdReached | crates/factories_actor/src/runtime/registry.rs:366-382 | a build in which that happens |
| Registry.BuildIgnoresOrder | crates/factories_actor/src/runtime/registry.rs:172-175 | builds of the same registrations in any order give the same registry and slots |
| Registry.IdLayout | crates/factories_actor/src/runtime/registry.rs:189-243 | IDs are exactly 1 to n; each actor's unique IDs fill its table's range, shared IDs lie above all of them |
| Collect.StepKeepsList | crates/factories_collect/src/lib.rs:54-75 | every atomic step keeps head and next pointers a duplicate-free list of the published entries |
| Collect.ListStaysAcyclic | crates/factories_collect/src/lib.rs:54-75 | in every interleaving walking the list is finite and yields exactly the published entries |
| Collect.ReturnedMeansListed | crates/factories_collect/src/lib.rs:54-75 | an entry some register call returned for is listed, once, if and only if no call is still publishing it; the winning call's return suffices |
| Collect.SecondCallReturnsEarly | crates/factories_collect/src/lib.rs:55-58 | a repeated register call can return before the entry is listed |
| Collect.PublishedExactly | crates/factories_collect/src/lib.rs:62-74 | an entry is in the list exactly if some call's exchange put it there |
| Collect.ReturnsExactly | crates/factories_collect/src/lib.rs:54-75 | a call that returned either published its entry itself or found it initialized |
| Collect.FailureMeansProgress | crates/factories_collect/src/lib.rs:62-74 | an exchange fails only if another call published since this call's last load |
| Collect.SnapshotsAreSuffixes | crates/factories_collect/src/lib.rs:54-75 | every earlier list is a suffix of every later one |
| Collect.IteratorYieldsSnapshot | crates/factories_collect/src/lib.rs:123-146 | a finished iterator yielded exactly the list at its load of the head |
| Collect.LateRegistrations | crates/factories_actor/src/runtime/registry.rs:293-328 | the first current - frozen entries were all registered after the freeze, are all of those if and only if none came between count and walk, and stale means there are some |
| Collect.LateReportIncomplete | crates/factories_actor/src/runtime/registry.rs:305-328 | a run in which the report leaves out a late registration |
| Varint.WriteUvarint | crates/factories_capture_codec/src/varint.rs:17-27 | appends the canonical base-128 digits, low group first |
| Varint.ReadUvarint | crates/factories_capture_codec/src/varint.rs:34-51 | the or-and-shift loop equals the declarative reading: terminator among ten bytes, group sum modulo 2^64, else overlong or end of input |
| Varint.AccumulateGroup | crates/factories_capture_codec/src/varint.rs:38-45 | or-ing a shifted group is addition modulo 2^64, for the tenth group too |
| Varint.RoundTrip | crates/factories_capture_codec/src/varint.rs:17-51 | reading what was written returns the value and its exact length, 1 to 10 |
| Varint.PrefixFree | crates/factories_capture_codec/src/varint.rs:17-27 | no encoding is a proper prefix of another |
| Varint.Accepted | crates/factories_capture_codec/src/varint.rs:34-51 | any accepted input of n bytes is its group sum modulo 2^64, n at most 10, and no shorter input decodes to the value |
| Varint.CanonicalExactly | crates/factories_capture_codec/src/varint.rs:34-51 | which accepted inputs are canonical: last group nonzero and no overflow in a tenth byte |
| Segment.DecodeSegment | crates/factories_capture_codec/src/segment.rs:365-439 | the position-advancing decoder equals the reference parser |
| Segment.DecodeBody | crates/factories_capture_codec/src/segment.rs:374-438 | body decoding equals the reference parser, errors included |
| Segment.ReadBlobTable | crates/factories_capture_codec/src/segment.rs:566-581 | the table loop equals the reference parser, errors included |
| Segment.DecodeRecords | crates/factories_capture_codec/src/segment.rs:411-416 | the record loop equals the reference parser |
| Segment.CauseBack | crates/factories_capture_codec/src/segment.rs:522-543 | a cause reads back as itself, whatever follows |
| Segment.DecodeTilesBody | crates/factories_capture_codec/src/segment.rs:411-438 | on any input a successful decode consumes exactly the declared length and its records tile the tail of the body, so the length-mismatch error is unreachable |
| Segment.RecordBack | crates/factories_capture_codec/src/segment.rs:443-543 | a record reads back as itself, whatever follows |
| Segment.TableBack | crates/factories_capture_codec/src/segment.rs:556-581 | a table reads back as itself, whatever follows |
| Segment.FrameBack | crates/factories_capture_codec/src/segment.rs:242-266 | a framed body below 2^32 bytes is recovered from the front of any input |
| Encoder.SegmentEncoder.constructor | crates/factories_capture_codec/src/segment.rs:212-221 | starts empty, with the last tick at the anchor |
| Encoder.SegmentEncoder.InternInterpretation | crates/factories_capture_codec/src/segment.rs:224-226 | interns once and returns the index |
| Encoder.SegmentEncoder.InternSchema | crates/factories_capture_codec/src/segment.rs:229-231 | interns once and returns the index |
| Encoder.SegmentEncoder.Delta | crates/factories_capture_codec/src/segment.rs:282-286 | saturating distance from the previous tick, which is replaced |
| Encoder.SegmentEncoder.Spawn | crates/factories_capture_codec/src/segment.rs:289-308 | whole new encoder state of a spawned record |
| Encoder.SegmentEncoder.Die | crates/factories_capture_codec/src/segment.rs:311-330 | whole new encoder state of a died record |
| Encoder.SegmentEncoder.Deliver | crates/factories_capture_codec/src/segment.rs:336-360 | whole new encoder state of a message record |
| Encoder.SegmentEncoder.Finish | crates/factories_capture_codec/src/segment.rs:242-266 | the length-prefixed body: anchor, close readings, three tables, records |
| Encoder.InternBlob | crates/factories_capture_codec/src/segment.rs:546-553 | first index of the blob, appended only if absent |
| Encoder.WriteCause | crates/factories_capture_codec/src/segment.rs:522-530 | actor and sequence, or a single zero |
| Encoder.WriteTable | crates/factories_capture_codec/src/segment.rs:556-562 | count, then length-delimited blobs |
| Encoder.TablesExact | crates/factories_capture_codec/src/segment.rs:269-276 | tables hold exactly the names and blobs of the calls, each once |
| Encoder.IndicesResolve | crates/factories_capture_codec/src/segment.rs:269-360 | every index on the wire resolves to the name it was given |
| Encoder.SegmentRoundTrip | crates/factories_capture_codec/src/segment.rs:242-439 | for every sequence of calls with a body below 2^32 bytes, decoding the finished bytes before any suffix returns anchor, close readings, exact tables and the fed records, consuming exactly the segment |
| Timeline.EventUnixMicros | crates/factories_capture_codec/src/segment.rs:174-196 | one time per record, by the decoder's running tick |
| Timeline.TickReconstruction | crates/factories_capture_codec/src/segment.rs:174-196 | the decoded tick is the true tick plus all backward steps so far, capped at the largest u64 |
| Timeline.WithinSpanExactly | crates/factories_capture_codec/src/segment.rs:174-196 | for any fed ticks a time lies within the mono span exactly when the true tick plus all backward steps fits it |
| Timeline.TimesOrdered | crates/factories_capture_codec/src/segment.rs:174-196 | for ticks that never decrease, wherever the first lies: each decoded tick is the true one plus the lead of the anchor over the first; exactly when it fits, the time is within the mono span, untruncated and no earlier than those before |
| Timeline.BracketSuffices | crates/factories_capture_codec/src/segment.rs:174-196 | it fits whenever tick plus lead do not pass the close reading; a first tick inside the bracket has no lead |
| Timeline.LastTickDecides | crates/factories_capture_codec/src/segment.rs:174-196 | all times of a segment are within the span exactly when the last is |
| Timeline.TimesNeverDecrease | crates/factories_capture_codec/src/segment.rs:174-196 | whatever was fed, times never decrease unless the 64-bit sum wraps |
| Timeline.DescribedCarries | crates/factories_capture_codec/src/segment.rs:282-286 | the encoder's segments carry the forward steps between the fed ticks |
| Timeline.TickBeforeAnchorOvershoots | crates/factories_capture_sink/src/sink.rs:116-131 | a feed in the sink's reading order with a time past the mono span |
| SinkTimes.WrittenIsShaped | crates/factories_capture_sink/src/sink.rs:91-139 | under a monotonic clock every segment of every stream was fed a first tick from before its open anchor, all others from after it, and closed after all of them |
| SinkTimes.StreamTimesExact | crates/factories_capture_sink/src/sink.rs:91-139 | so every decoded tick is the true one plus the distance from the first event's tick to the anchor's, and its time lies within the mono span exactly when that tick fits |
| Stream.HeaderBack | crates/factories_capture_codec/src/stream.rs:23-50 | a written header reads back, whatever follows |
| Stream.HeaderExactly | crates/factories_capture_codec/src/stream.rs:32-50 | which inputs have a valid header |
| Stream.Segments.Next | crates/factories_capture_codec/src/stream.rs:64-82 | yields the first remaining item, fuses on an error, always advances |
| Stream.Collect | crates/factories_capture_codec/src/stream.rs:64-82 | exhausting the iterator yields exactly the stream's items |
| Rejection.VarintRejectedExactly | crates/factories_capture_codec/src/varint.rs:34-51 | ten continuation bytes are overlong, fewer that reach the end of the input are cut short, everything else is accepted |
| Rejection.RecordLocal | crates/factories_capture_codec/src/segment.rs:443-518 | a record's decoding depends on its own bytes only, and every proper prefix of a record is an unexpected end |
| Rejection.SegmentCutShort | crates/factories_capture_codec/src/segment.rs:365-439 | every proper prefix of a segment is an unexpected end |
| Rejection.RecordRejected | crates/factories_capture_codec/src/segment.rs:443-518 | a zero actor ID is rejected before the tag is looked at, then every tag but the three known ones |
| Rejection.ClockModeRejected | crates/factories_capture_codec/src/segment.rs:374-380 | a body is rejected by its first byte alone if that is no clock mode |
| Rejection.TableRejected | crates/factories_capture_codec/src/segment.rs:389-404 | a name table whose first name that is not text comes after valid ones is rejected |
| Rejection.HeaderRejectedExactly | crates/factories_capture_codec/src/stream.rs:32-50 | exactly how a stream without a valid header is rejected |
| Rejection.WireConstants | crates/factories_capture_codec/src/segment.rs:33-60 | the bytes that identify a stream, a clock mode and a kind of record |
| Rejection.FrameConstants | crates/factories_capture_codec/src/segment.rs:242-266 | a frame is its body's length, low byte first, and the body, which begins with its clock mode |
| Text.ValidUtf8Exactly | crates/factories_capture_codec/src/segment.rs:399-403 | the text check accepts exactly the encodings of sequences of Unicode scalar values |
| Sink.EncodeEvent | crates/factories_capture_sink/src/encode.rs:62-107 | one record call with the event's fields and wire tags and an empty payload |
| Sink.EventBack | crates/factories_capture_sink/src/encode.rs:43-107 | no event is changed by its trip through the wire tags |
| Sink.ThreadSlots.Find | crates/factories_capture_sink/src/sink.rs:116-127 | first slot of the sink, or the end |
| Sink.ThreadSlots.Record | crates/factories_capture_sink/src/sink.rs:116-139 | the thread's slots and the segment it takes, exactly if its record bytes or its age reach the slot's threshold; for every sink nothing is lost and only the event is added |
| Sink.ThreadSlots.Flush | crates/factories_capture_sink/src/sink.rs:91-102 | the sink's open segment is taken, if any; for every sink nothing is lost |
| Sink.RecordLocalKeeps | crates/factories_capture_sink/src/buffer.rs:40-72 | recording loses nothing: what is in hand and open afterwards is what was open, and the event |
| Sink.FlushLocalKeeps | crates/factories_capture_sink/src/sink.rs:91-102 | flushing moves the open events into hand, in order |
| Sink.DropLocalKeeps | crates/factories_capture_sink/src/sink.rs:35-45 | dropping a thread's slot moves its open events into hand, in order |
| Sink.StepKeepsInv | crates/factories_capture_sink/src/writer.rs:33-51 | every step of every thread keeps streams well formed and every thread's record balanced |
| Sink.FlushedBack | crates/factories_capture_sink/src/sink.rs:91-139 | a flushed segment decodes to exactly the events it was fed |
| Sink.CaptureConservation | crates/factories_capture_sink/src/sink.rs:35-139 | in every run a sink's bytes are one header and whole segments that decode, and each thread's decoded events, then those in hand and open, are exactly what it recorded, in order |
| SinkPolicy.FlushedExactlyWhenDue | crates/factories_capture_sink/src/buffer.rs:53-61 | a record call takes the segment exactly if, with the event in it, its record bytes reach the sink's size threshold or the event is the age threshold past the open tick |
| SinkPolicy.OpenStaysBelowThreshold | crates/factories_capture_sink/src/buffer.rs:53-61 | in every state every open segment is below its sink's size threshold |
| SinkPolicy.OpenWasOpened | crates/factories_capture_sink/src/sink.rs:104-131 | an open segment carries the clock mode and readings of the record call that opened it |
| SinkPolicy.WrittenWasTaken | crates/factories_capture_sink/src/sink.rs:91-139 | every segment in a stream was taken by one call of its thread, with its anchor, the events fed in between and that call's close readings |
| SinkPolicy.ExitingExactly | crates/factories_capture_sink/src/sink.rs:35-45 | a thread can record to every sink until its slots begin to be dropped |
| Causality.StepKeepsMints | crates/factories_actor/src/actor/state.rs:463-469 | minted numbers are the last given out and never reused while an event is between mint and record |
| Causality.NumbersIncrease | crates/factories_actor/src/capture.rs:109-140 | no two logged events share an ID; each actor's numbers increase in log order |
| Causality.CausesAreEarlier | crates/factories_actor/src/capture.rs:201-229 | a cause names exactly one event, a delivery recorded strictly earlier, to the actor named as sender or parent |
| Causality.NoCausalCycle | crates/factories_actor/src/capture.rs:201-229 | the causal graph is acyclic |
| Causality.PollsNest | crates/factories_actor/src/capture.rs:240-260 | while a thread is no shallower its lower polls are untouched and its frame is current or saved |
| Causality.PollRestoresFrame | crates/factories_actor/src/capture.rs:240-260 | every poll, returning or unwinding, restores the thread's previous frame |
| Causality.SendsAreAttributed | crates/factories_actor/src/capture.rs:181-190 | a send carries the frame of the innermost handler polled on its thread, or none |
| Attribution.DeliveryAttributed | crates/factories_actor/src/actor/dispatch.rs:186-240 | the delivery to a captured actor is logged with the receiver and the ID of the delivery whose handler was innermost where the message was sent, and with neither exactly if there was none |
| Attribution.SpawnAttributed | crates/factories_actor/src/capture.rs:109-120 | the spawn of a captured actor is logged with the actor and the delivery current where it was spawned, and with neither exactly if there was none |
| Attribution.DeathLogged | crates/factories_actor/src/capture.rs:126-140 | the death of a captured actor is logged without a cause |
| Attribution.WaitsExactly | crates/factories_actor/src/actor/dispatch.rs:186-240 | a message waits exactly from its send until its one delivery |
| Attribution.NumbersCountMints | crates/factories_actor/src/actor/state.rs:463-469 | a captured actor's events are numbered from 1 without gaps |
| Attribution.LoggedIsCaptured | crates/factories_actor/src/capture.rs:109-140 | only captured actors are in the log |
| Envelope.HeaderBack | crates/factories_actor/src/message/envelope.rs:627-660 | every 8-aligned RTTI pointer and mode come back from the packed header |
| Envelope.SendableMeansParts | crates/factories_actor/src/message/envelope.rs:268-277 | sendable exactly when every carried value is |
| Envelope.Memory.Pack | crates/factories_actor/src/message/envelope.rs:371-381 | inline if it fits, else in one new box |
| Envelope.Memory.Unpack | crates/factories_actor/src/message/envelope.rs:383-395 | the packed value, its box freed |
| Envelope.Memory.DropArea | crates/factories_actor/src/message/envelope.rs:401-416 | drops the packed value once, its box freed |
| Envelope.New | crates/factories_actor/src/message/envelope.rs:82-117 | an envelope that represents the message and sender, in new boxes only |
| Envelope.Unwrap | crates/factories_actor/src/message/envelope.rs:212-262 | message and sender unchanged and each box freed once, or the envelope back untouched on another type |
| Envelope.Drop | crates/factories_actor/src/message/envelope.rs:453-480 | sender then message dropped once, each box freed once |
| Envelope.ReadPayload | crates/factories_actor/src/message/envelope.rs:340-369 | the carried message, inline or boxed |
| Envelope.TryCloneAsTell | crates/factories_actor/src/message/envelope.rs:301-334 | exactly for clonable types a tell envelope of an equal message in its own box or inline; the original untouched |
| Envelope.TryClone | crates/factories_actor/src/message/envelope.rs:286-293 | exactly for clonable tell envelopes |
| Envelope.BoxedForAskOnly | crates/factories_actor/src/message/envelope.rs:584-611 | which sizes are boxed in an ask but inline in a tell envelope |
| EnvelopeRuns.AccountRemove | crates/factories_actor/src/message/envelope.rs:226-262 | an envelope that leaves takes exactly its values along |
| EnvelopeRuns.BoxesRemove | crates/factories_actor/src/message/envelope.rs:401-416 | the other envelopes keep their boxes and contents |
| EnvelopeRuns.Program.DoOpen | crates/factories_actor/src/message/envelope.rs:212-262 | a matching unwrap hands out exactly the contents, any other changes nothing |
| EnvelopeRuns.Program.Run | crates/factories_actor/src/message/envelope.rs:82-480 | after any sequence of operations every value is held, dropped or handed out exactly once, no box is freed twice or leaked |
| Extension.ExtensionSet.Insert | crates/factories_extension/src/lib.rs:118-152 | adds and drops nothing, or replaces and drops exactly the displaced box, once |
| Extension.ExtensionSet.Get | crates/factories_extension/src/lib.rs:156-167 | the value under the key, if any |
| Extension.ExtensionSet.InheritFrom | crates/factories_extension/src/lib.rs:176-202 | fills exactly the absent keys the source offers as inheritable, with clones in new boxes |
| Extension.ExtensionSet.Drop | crates/factories_extension/src/lib.rs:211-220 | every box of the set dropped once, in order, and no other |
| Extension.ExplicitElseFirstInherited | crates/factories_extension/src/lib.rs:118-202 | after any sequence a key holds its last explicit value, else what the first inherited source offered |
| Extension.InterleavingIrrelevant | crates/factories_extension/src/lib.rs:169-175 | how inserts interleave with inherits makes no difference |
| Extension.BuildReadDrop | crates/factories_extension/src/lib.rs:118-220 | a set built by any sequence, read and dropped, gives the resolved value; the boxes dropped meanwhile are exactly those allocated meanwhile, each once |

## Left out

- Weak memory orderings: atomic operations are sequentially consistent steps.
- The internals of tokio channels, `FuturesUnordered`, `BufWriter` and mutexes: their documented contracts are assumed (bounded FIFO with close, some ready future is yielded, atomic append). The writer never fails.
- Tasks and wakers are identities; spurious wake-ups and the executor's fairness are not modelled.
- The run loops see the mailbox as the set of messages it holds; lanes and their order are in `Mailbox`, and the two are not composed into one system.
- Handlers terminate or are dropped; liveness of blocking watcher delivery (`WatchDeliveryPolicy::Always`) is not claimed, since the code documents that deadlocks can be built with it.
- Custom run loops, drivers and binders that break the documented contracts.
- Pass-through of the concurrent loop's real lock strategies: only the unguarded lock's flag is modelled, for the loop that may use it.
- The clock, tracing and logging: clock readings are parameters of the steps that take them.
- The proc macros, handle and launcher wrappers, protocol calls, `PartialArray`, the task-handle vtable and capture-schema visitors: token generation, thin forwarding or easy structural recursion.
- 64-bit pointers and `usize` are assumed (a 64-byte cache line, 8-byte header); lengths that would overflow a position count as past the end of the input.
- Exhaustion of the 64-bit ID spaces: dispatch IDs, per-actor event numbers and actor IDs are unbounded. `ActorId::new` itself is only the assumption that actors have distinct identities.
- Names are byte sequences that are valid UTF-8, not strings.
- Rust values are identities with contents; alignment inside a data area, and unwinding out of user `Clone` or `Drop` code, are not modelled.
- Box addresses are never reused, so that freeing once is a statement about allocations.
- Causality keeps one log for all sinks: an actor whose sink differs from its sender's has causes in the other sink's part of the log.
- Timeline.TimesOrdered: requires the wall clock plus the mono span to fit 64 bits; beyond that times wrap.
- Timeline.EventTime: adds in wrapping 64-bit arithmetic, as a release build does; a debug build panics where the sum would wrap.
- SinkTimes.StreamTimesExact: requires a clock that never goes backwards on a thread, which the cycle counters promise only on one core or when synchronized, and at most 2^32 distinct names in the segment.
- Encoder.IndicesResolve: requires at most 2^32 distinct names, beyond which the code's index truncates.
- Sink.CaptureConservation: requires every appended segment body to fit the 32-bit length prefix, which the code truncates silently.
