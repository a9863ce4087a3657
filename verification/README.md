# Railyard: model and proofs

Railyard runs Docker in a virtual machine on macOS. Most of it wires libraries together; this
project models the parts that carry logic of their own and proves what they promise.

* **Idle shutdown** (`StopLatch`, `ContainerdMonitor`, `IdleShutdown`, `IdleHistory`): a counter goroutine
  receives over a rendezvous channel from any number of connection handlers and one containerd
  monitor, with a timer that every message re-arms. `IdleShutdown` is a transition system with a
  place for each handler, one for the monitor, and virtual time; its runs are all interleavings.
* **Event bus** (`Channels`, `EventBus`, `BusRuns`, `BusHistory`, `BusRefinement`): `EventBus` is the
  bus as an object over shared channels; `BusRuns` is the bus under concurrent emitters, registrations, readers, closes,
  cleanups and cancellation. An `Emit` is a start, one step for each channel, and an end, so that
  emitters overlap under the read lock. `BusRefinement` relates the two.
* **Shutdown wakeup** (`ShutdownWakeup`, `StatusHistory`): the check-then-listen of `Shutdown` against the state
  watcher, on top of every run of the bus.
* **Paths** (`Strings`, `Template`, `Odometer`, `Interpolation`, `InterpolationLaws`,
  `PathResolution`): two-pass substitution with a mixed-radix counter stepped in place, and the file
  search on top of it, for every order in which a map may be enumerated (`MapOrder`).
* **Clock** (`Clock`, `ClockStream`): offset estimate, adaptive threshold, adjustment, and the
  request identifiers on the wire, wrapping at 2^32.
* **List and logs** (`LinkedList`, `LogFile`, `LogRotation`, `LogRecords`, `LogStream`): the doubly
  linked list with its cursor operations in the heap, the log rotator on top of it, reading its files
  back, and one stream from the directory scan to the end of its messages.
* **Services** (`Notify`, `ServiceLaunch`): the notify socket and the two senders on one unbuffered
  channel.
* **Sysctl** (`Sysctl`), **stream proxy** (`Proxy`), **share tags** (`ShareTags`).

Goroutine protocols are transition systems: `Enabled` and `Apply` give one atomic step, `Feasible`
says that every step of a run was enabled, `Exec` gives the state after it, and the theorems hold
for every feasible run. The `…History` modules tell the state, and the actions that are possible in
it, from the actions of the run alone, and say what can still happen. Code that updates objects or locals in place is classes and loops, each
proved against a function or predicate about which the laws are then proved.

The environment enters as parameters: what the guest, containerd and the clock report are
sequences or actions; `filepath.Join`, `os.Stat`, `MkdirAll`, the lower-casing of a character,
`net.Dial` and whether the virtualization framework takes a device are function parameters.

## Where the code does not do what it is meant to do

Each of these is kept as the code has it, with the exact condition.

* `taskSet` is a nil map (`internal/host/containerd.go:56`): `IdleShutdown.NilSetCrashesIff` says
  which runs die of it; the flag `made` stands for the allocated set.
* A repeated start event adds to the latch again (`IdleShutdown.RepeatedStart`): the count is tracked
  tasks plus open connections if and only if the events held no such repetition
  (`IdleShutdown.CountIsExact`), and after one idle shutdown is lost for good
  (`IdleShutdown.RepeatPinsLatch`). The daemon can still stop, short of a wrap of the counter, if and
  only if there was no such repetition and there are fewer than 2^64 tasks (`IdleHistory.CanStopIff`).
* An accepted connection is not counted until its `Add(1)` is received, so that the daemon can stop
  over it (`IdleShutdown.StopsOverWaitingHandler`); `IdleShutdown.StopsOverWaitingIff` and
  `IdleShutdown.StopsIff` say exactly when.
* When the status is already stopped, `Shutdown` ranges over a nil channel, and its own first
  `UpdateStatus` can overwrite "stopped" (`ShutdownWakeup.StopBeforeCheckBlocks`,
  `ShutdownWakeup.StopFirstIsOverwritten`). The state watcher can also leave without setting
  "stopped", when the channel of states closes (`internal/host/vm_darwin.go:143`). From the moment
  `Shutdown` takes the mutex to check, it can get stuck if and only if the watcher is not already
  about to report "stopped" (`ShutdownWakeup.GetsStuckIff`); as long as the channel of states stays
  open, if and only if the watcher had already left (`ShutdownWakeup.GetsStuckOpenIff`); and it can
  return if and only if the watcher had not left (`ShutdownWakeup.CanReturnIff`).
* A substituted value that looks like a token is scanned again by the second pass, so that an
  output path and the first input candidate can differ
  (`InterpolationLaws.SubstitutedTokenIsRescanned`). They agree, for all values of the multi-valued
  variables, if and only if the second pass sees the same tokens of these variables as the first one
  kept (`InterpolationLaws.HeadIsSingleIff`, `PathResolution.OutputIsFirstCandidateIff`).
* `PushFront` and `PushBack` do not record the list in the node, and every cursor operation
  dereferences it: the flag `records` is false as shipped, and each operation panics exactly then.
* The second `Write` in `internal/applog/dir.go:49` overwrites `n`: the count is exact if and only if
  every message ended in a newline (`LogFile.CountIsExactIff`). Over a given set of messages no run
  ever makes a file of several messages over the limit if and only if all of them end in a newline
  or none is short enough to follow another one, that is |m| + 2 > maxSize for each
  (`LogStream.LimitKeptIff`; the runs that break it are in `LogRotation.OverflowingRun`). Opening the next file
  panics when two rotations fall in one second: `LogRotation.TurnPanicsIff`.
* A service that ends with an unknown status looks like one that ends with 1, and one that ends with -1
  like one that ends with 0: `ServiceLaunch.SameCodeIff`.
* A message with a newline inside reads back as several records: `LogRecords.MessagesReadBack`.
* The readiness send has no recover, and the channel may be closed: `ServiceLaunch.CrashReachableIff`.
* `readProxy` does not repeat a short read, and a size above 65535 loses its upper bits:
  `Proxy.ReadFrameExactIff`, `Proxy.FrameRoundTripIff`.
* Very large clock offsets saturate: `Clock.OffsetAccuracyIff`.

## Model

| member | source | states |
|---|---|---|
| StopLatch.Add64 | internal/host/stop.go:29 | unsigned 64-bit addition wraps modulo 2^64 and stays a word |
| StopLatch.Run | internal/host/stop.go:11-41 | the receive-or-timer loop ends at the first observation that ends it (negative count, timer at zero, closed channel) and not before; its count is the plain sum of the received Adds while that fits a word |
| StopLatch.EndsAtFirstEnd | internal/host/stop.go:14-40 | for any schedule whose partial sums fit a word, the first ending observation alone decides between stop, return and panic, and the count there is the sum of what came before |
| StopLatch.EndedStays | internal/host/stop.go:17-37 | nothing observed after the loop has ended changes its outcome |
| ContainerdMonitor.Monitor | internal/host/containerd.go:56-121 | over any listing and event stream the set holds exactly the tasks whose last event says that they run, the updates sent are exactly those the events call for, no prefix of them sums below zero, and with a nil set the first listed or started task crashes |
| ContainerdMonitor.Balance | internal/host/containerd.go:72-118 | the updates sum to the tracked tasks plus one for each repeated start, and never go negative |
| IdleShutdown.PanicsIff | internal/host/stop.go:21-27 | from any reachable state, a step panics with "negative count" exactly when it gives back an Add while a positive multiple of 2^64 of them are outstanding |
| IdleShutdown.NoUnderflow | internal/host/stop.go:11-41 | in every interleaving of handlers, monitor and timer, the panic needs at least 2^64 outstanding Adds at some earlier moment |
| IdleShutdown.CountIsDelivered | internal/host/vmguest.go:120-125 | in every run the count is the sum of the delivered Adds, each handler's net credit is 0 or 1, and the monitor's is its tracked tasks plus repeated starts less the one in flight, never negative |
| IdleShutdown.CountIsExact | internal/host/containerd.go:70-118 | in every run short of a wrap the count is tracked tasks, less the one whose Add is in flight, plus the connections whose Add(1) was received and Add(-1) was not, if and only if no observed start event repeated a tracked task |
| IdleShutdown.TasksAreTracked | internal/host/containerd.go:70-118 | the set holds exactly the tasks whose last observed event says that they run, and the one whose Add(-1) is in flight |
| IdleShutdown.RepeatedStart | internal/host/containerd.go:106-109 | for every task two start events give a count of two with one task tracked |
| IdleShutdown.StopsOnce | internal/host/stop.go:33-38 | stop() is called at most once in a run, with count zero, a full delay after the last Add |
| IdleShutdown.NothingReceivedAfterStop | internal/host/stop.go:34-37 | after stop() no Add is ever received again and a handler blocked in Add stays blocked |
| IdleShutdown.RepeatPinsLatch | internal/host/containerd.go:106-109 | after an observed start event for a tracked task the latch never fires again in any continuation, short of the counter wrapping |
| IdleShutdown.NilSetCrashesIff | internal/host/containerd.go:56-109 | a run dies of the nil set exactly when the set is not allocated and the monitor handles a listed task or a start event |
| IdleShutdown.StopsIff | internal/host/stop.go:33-38 | in every reachable state where the timer can fire, short of a wrap, it stops the daemon exactly when no connection is served or closing, no task is counted and no start was repeated |
| IdleShutdown.StopsOverWaitingIff | internal/host/vmguest.go:120-124 | at any firing of the timer in any run, the daemon stops and a given connection then waits in its Add(1) to the end of the run, exactly when the count is zero and that connection is waiting |
| IdleShutdown.StopsOverWaitingHandler | internal/host/vmguest.go:120-124 | such a run exists for every delay and connection |
| IdleShutdown.StepKeeps | internal/host/stop.go:11-41 | every step of every participant keeps the invariant and moves the outstanding total by exactly its Add |
| IdleHistory.ConnectionsFollow | internal/host/vmguest.go:120-125 | in every run each connection waits in its Add(1), is served, or leaves in its Add(-1), exactly as its own last action says |
| IdleHistory.CreditFollows | internal/host/vmguest.go:120-125 | a connection owes an Add(-1) exactly from the receipt of its Add(1) to that of its Add(-1) |
| IdleHistory.MonitorDelivers | internal/host/containerd.go:70-118 | the latch receives from the monitor exactly the updates that its events call for, in order, but for the one in which it is blocked |
| IdleHistory.TimesFollow | internal/host/stop.go:11-41 | the timer is started anew by every received Add and every time it fires, and by nothing else |
| IdleHistory.StopIsRecorded | internal/host/stop.go:33-38 | stop() is called at a firing of the timer, with count zero, and with the last Add received before it on record |
| IdleHistory.EnabledIffAllowed | internal/host/stop.go:11-41 | in every run of a living process exactly the actions are possible that the run allows: by the places of the connections, the updates still to be received, and the time since the timer was started |
| IdleHistory.CanStopIff | internal/host/stop.go:33-38 | from every reachable state in which the latch runs and never wrapped, some continuation without a wrap stops the daemon if and only if no observed start event repeated a tracked task and there are fewer than 2^64 tasks |
| IdleHistory.ConnectionServed | internal/host/vmguest.go:120-125 | while the latch runs every new connection can be counted and served |
| IdleHistory.ConnectionGone | internal/host/vmguest.go:123-124 | and given back, after which the count is one less |
| Channels.Channel.Send | internal/event/pubsub.go:177-190 | a send puts the event in an open channel with room, drops it on a full one, and reports false exactly on a closed one |
| Channels.Channel.Close | internal/event/pubsub.go:207-211 | close marks the channel and panics exactly when it was closed |
| EventBus.Bus.Listen | internal/event/pubsub.go:240-259 | adds exactly the pair of the channel's type and the channel to the flat set, keys and types staying in step |
| EventBus.Bus.Unlisten | internal/event/pubsub.go:285-302 | removes exactly that pair and leaves no empty set behind |
| EventBus.Bus.Tap | internal/event/pubsub.go:261-271 | adds the channel to the taps and nothing else |
| EventBus.Bus.Untap | internal/event/pubsub.go:273-283 | removes the channel from the taps and nothing else |
| EventBus.Bus.Emit | internal/event/pubsub.go:213-238 | every tap and every listener of the event's type is offered the event once, no other channel is touched, and the failed sends are exactly those to closed channels |
| EventBus.Bus.SendAll | internal/event/pubsub.go:192-205 | in any iteration order each channel of the set is offered the event once; the type assertion holds |
| EventBus.Bus.Cancel | internal/event/pubsub.go:159-172 | closes every registered channel and panics exactly when one of them was closed already |
| BusRuns.StepKeeps | internal/event/pubsub.go:177-302 | every step of any emitter, subscriber, registration, cleanup or cancellation keeps the bus invariant |
| BusRuns.IndexIsFlatSet | internal/event/pubsub.go:192-302 | after every run the type index stands for the flat set of registrations: no stored set is empty and every channel is under its own type |
| BusRuns.EveryEmissionStarts | internal/event/pubsub.go:220-238 | every emission was started by one Emit, which fixed its targets as the channels registered at that moment |
| BusRuns.DeliveredWhileRegistered | internal/event/pubsub.go:213-238 | whatever a subscriber received has its channel's type and was emitted while that channel was registered |
| BusRuns.OnceAndInOrder | internal/event/pubsub.go:192-238 | a subscriber receives each emission at most once, those of one emitter in its program order, and reads them in the order of the channel |
| BusRuns.EveryOutcomeHappened | internal/event/pubsub.go:177-205 | every recorded outcome of a send is what one particular send of the run met |
| BusRuns.MissedOnlyWhenFullOrClosed | internal/event/pubsub.go:177-238 | once Emit returned, a target lacks the event only if its one send found the channel closed or holding its capacity in unread events |
| BusRuns.CleanupRemovesClosed | internal/event/pubsub.go:200-204 | the asynchronous removal after a failed send concerns a closed channel, which is then registered for no type, uses up one removal, and leaves every other registration |
| BusHistory.RegisteredIffListed | internal/event/pubsub.go:200-302 | after every run a channel is registered, for the types it takes, exactly when its last registration came after its last removal by Unlisten, Untap or a cleanup |
| BusHistory.NoTargetAfterRemoval | internal/event/pubsub.go:200-238 | once its removal or cleanup ran, a channel is no target of a later emission unless it registered again |
| BusHistory.CleanupsAreDue | internal/event/pubsub.go:200-204 | every send that met a closed channel starts one removal of it, and each is made once |
| BusHistory.ChannelsFollow | internal/event/pubsub.go:177-205 | every channel got exactly the events whose sends found room, in the order of the sends, and its subscriber has read as many of them, from the first on, as it made reads |
| BusHistory.EmittersFollow | internal/event/pubsub.go:213-238 | the read locks are held by exactly the goroutines whose last Emit has not ended |
| BusHistory.ClosedIffShut | internal/event/pubsub.go:159-172 | a channel is closed exactly when its subscriber or a cancellation that found it registered closed it, and the process dies exactly in a cancellation that finds a registered channel closed |
| BusHistory.EverySendRecorded | internal/event/pubsub.go:177-205 | what a send met stays on record with its emission |
| BusHistory.EnabledIffAllowed | internal/event/pubsub.go:159-302 | in every run of a living process exactly the actions are possible that the run allows: registrations with no read lock held, sends to the targets not yet reached with untyped channels first, an end once all are reached, removals that are due |
| BusHistory.WindUp | internal/event/pubsub.go:200-238 | from every reachable state the Emits and removals under way can be brought to their ends, and then every channel whose removal was due is off the bus |
| BusRefinement.EmitAlone | internal/event/pubsub.go:213-238 | in any enumeration order of taps and listeners a start, its sends and its end can be made, and offer the event exactly once to each channel registered for it |
| BusRefinement.EmitRefines | internal/event/pubsub.go:213-238 | the Emit of the bus object keeps it standing for the state after that start, sends and end, and fails on exactly the channels newly to be cleaned up |
| BusRefinement.ListenRefines | internal/event/pubsub.go:240-259 | Listen on the object keeps it standing for the state after one registration of a typed channel in the runs |
| BusRefinement.TapRefines | internal/event/pubsub.go:261-271 | Tap does what one registration of an untyped channel does |
| BusRefinement.UnlistenRefines | internal/event/pubsub.go:285-302 | Unlisten does what one removal of a typed channel does, whether it was registered or not |
| BusRefinement.UntapRefines | internal/event/pubsub.go:273-283 | Untap does what one removal of an untyped channel does |
| BusRefinement.CancelRefines | internal/event/pubsub.go:159-172 | Cancel does what a cancellation in the runs does: it panics exactly when a registered channel was closed before, with the same channels closed by then |
| ShutdownWakeup.NoLostWakeup | internal/host/vmguest.go:154-200 | in every interleaving where Shutdown registers, the later change to stopped is in its channel exactly once, and still there until Shutdown reads it |
| ShutdownWakeup.NeverDropped | internal/event/pubsub.go:177-190 | every send to Shutdown's channel is the watcher's stopped event and finds room |
| ShutdownWakeup.GetsStuckIff | internal/host/vm_darwin.go:127-144 | in every reachable state in which Shutdown has the mutex to check (and the bus has not crashed), some continuation gets stuck (over the nil channel, or registered with nothing left to come) if and only if the state watcher is not already about to report "stopped" |
| ShutdownWakeup.GetsStuckOpenIff | internal/host/vmguest.go:166-200 | assuming that the channel of states stays open in the continuation, if and only if the state watcher has already left |
| ShutdownWakeup.CanReturnIff | internal/host/vmguest.go:166-200 | from such a state some continuation returns if and only if the watcher has not left |
| ShutdownWakeup.ReturnsUnlessLate | internal/host/vmguest.go:166-200 | from such a state, if the watcher had left no continuation ever returns; if it was about to report "stopped", or had not left and the channel of states stays open, a waiting Shutdown returns with its next receive once the watcher has left |
| ShutdownWakeup.GetStuck | internal/host/vmguest.go:169-195 | the stuck continuation from any such state, the bus drained of its emitters: blocked over the nil channel when the status was stopped, else waiting under an overwritten status |
| ShutdownWakeup.GetStuckAnyway | internal/host/vm_darwin.go:127-144 | the stuck continuation when the watcher has not left and is not about to report "stopped": the channel of states closes on it |
| ShutdownWakeup.ReturnsIff | internal/host/vmguest.go:195-200 | in a state where Shutdown waits on its channel and the watcher has gone, a receive is possible exactly when the status is stopped, and it returns |
| ShutdownWakeup.ReceivableIff | internal/host/vmguest.go:195-200 | a waiting Shutdown can receive exactly when the status is stopped and the watcher has made its send to it, whether or not the watcher has gone |
| ShutdownWakeup.StuckForever | internal/host/vmguest.go:195-200 | a stuck state (ranging over the nil channel, or waiting with the watcher gone and the status not stopped) stays stuck in every continuation |
| ShutdownWakeup.StopBeforeCheckBlocks | internal/host/vmguest.go:169-195 | the watcher can leave between Shutdown's status update and its check, and the run then ends in the range over the nil channel |
| ShutdownWakeup.StopFirstIsOverwritten | internal/host/vmguest.go:155-174 | the watcher can leave before Shutdown's own status update, and the run then ends in waiting under the overwritten status |
| ShutdownWakeup.StepKeeps | internal/host/vm_darwin.go:49-58 | every step of watcher, Shutdown and the rest of the bus keeps mutual exclusion, the status rules and the state of Shutdown's channel |
| StatusHistory.ThreadsTell | internal/host/vm_darwin.go:49-58 | an action of Shutdown or the watcher that changes the status emits the new one exactly once, to whoever is registered, and no other action of theirs emits anything |
| StatusHistory.EveryChangeIsTold | internal/host/vm_darwin.go:49-58 | in every run the status is the value set last, and the status events emitted are the successive values, each once and in order |
| StatusHistory.WatcherReports | internal/host/vm_darwin.go:127-144 | whenever the watcher watches and the mutex is free, either state of the machine can be reported and set, after which it leaves or watches on, or the channel of states can close |
| StatusHistory.ComesToCheck | internal/host/vmguest.go:155-170 | from every reachable state of a living process a Shutdown that has not checked the status yet can come to its check |
| StatusHistory.OthersAreFree | internal/event/pubsub.go:159-302 | what the rest of the process is assumed not to do on the bus meanwhile: cancel it, emit a status event or in the name of the two threads, touch Shutdown's own channel; all else is possible |
| Strings.SplitFree | internal/host/config/parsers.go:71 | no part of a split holds the separator |
| Strings.JoinSplit | internal/host/config/parsers.go:85 | the parts joined again are the string |
| Strings.SplitJoin | internal/host/config/parsers.go:85 | parts without the separator are recovered from the joined string |
| Template.RenderParse | internal/host/config/parsers.go:53-61 | cutting a string into texts and tokens and writing it back changes nothing |
| Template.ParseRenderIff | internal/host/config/parsers.go:103-113 | texts and tokens written out are found again exactly when no text between them looks like a match |
| Template.ParseScannable | internal/host/config/parsers.go:53-61 | what the scan itself produces is always of that kind |
| Template.ParseToken | internal/host/config/parsers.go:53 | the leftmost match after a harmless text is the token that follows it |
| Odometer.ValueOf | internal/host/config/parsers.go:131-143 | every number below the product of the radices has digits that stand for it |
| Odometer.OfValue | internal/host/config/parsers.go:131-143 | digits are the only ones for their number, which is below the product |
| Odometer.NextAddsOne | internal/host/config/parsers.go:131-143 | a step of the counters adds one, or on the last number returns false with all counters at zero |
| Odometer.ValueIsLexicographic | internal/host/config/parsers.go:131-143 | the numbers follow the digits from the first one on, so that the last variable varies fastest |
| Odometer.Increment | internal/host/config/parsers.go:131-143 | the in-place loop over the counters performs that step |
| Interpolation.FirstPass | internal/host/config/parsers.go:61-82 | the first pass puts in the single-valued variables, keeps the other tokens, and makes one fresh counter for each distinct multi-valued variable |
| Interpolation.Enumerate | internal/host/config/parsers.go:88-100 | the loop ends and yields the combinations in mixed-radix order, for any order of the counters |
| Interpolation.InterpolateStep | internal/host/config/parsers.go:103-113 | however the template was put together from tokens and texts that do not look like one, every token of a variable becomes its selected value and nothing else changes |
| Interpolation.Interpolater | internal/host/config/parsers.go:55-101 | the whole function: one path with first values, or all combinations in some order of the variables; every path is its substituted text with a leading "~/" taken for HOME |
| Interpolation.PathsExpand | internal/host/config/parsers.go:56-126 | in both forms a substituted text "~/" + rest becomes rest joined to HOME, or to the empty path when HOME is not set, and any other text stays as it is |
| InterpolationLaws.OnePathPerCombination | internal/host/config/parsers.go:84-100 | the paths correspond one to one to the assignments of values to the distinct multi-valued variables, in mixed-radix order, and their number is the product of the list lengths |
| InterpolationLaws.SecondPassIff | internal/host/config/parsers.go:61-113 | the second pass sees exactly the tokens that the first kept if and only if no text it wrote looks like a match |
| InterpolationLaws.NoDollarSuffices | internal/host/config/parsers.go:61-113 | that holds when no literal and no single value contains a '$' |
| InterpolationLaws.ScannableSuffices | internal/host/config/parsers.go:61-113 | and then the second pass sees the same tokens of the multi-valued variables as the first one kept |
| InterpolationLaws.NoMultiSuffices | internal/host/config/parsers.go:84-86 | so it does whenever the template has no multi-valued variable, whatever the single values hold |
| InterpolationLaws.PathIsSubstitution | internal/host/config/parsers.go:84-113 | when the second pass sees the same tokens of the multi-valued variables, each path is the template with every occurrence of a variable replaced by the same value |
| InterpolationLaws.OptionsAreSelections | internal/host/config/parsers.go:53-103 | when the second pass sees the same tokens, each option is the template with one of the listed values for each variable, and every such selection is the one of an option |
| InterpolationLaws.InterpolateIsHead | internal/host/config/parsers.go:115-121 | when the second pass sees the same tokens of the multi-valued variables, interpolate equals the head of interpolateOptions, for every order of the variables |
| InterpolationLaws.HeadIsSingleIff | internal/host/config/parsers.go:61-121 | the two forms agree for all values of the multi-valued variables if and only if the second pass sees the same tokens of these variables as the first one kept |
| InterpolationLaws.SubstitutedTokenIsRescanned | internal/host/config/parsers.go:103-121 | for every variable whose one value spells the token of a multi-valued one, the two differ in the way given |
| PathResolution.Search | internal/host/config/path.go:75-87 | the loop finds the first candidate of the wanted kind |
| PathResolution.Path.ResolveInput | internal/host/config/path.go:74-104 | resolves to the first existing candidate of the wanted kind, or leaves Resolved as it was |
| PathResolution.Path.ResolveOutputFile | internal/host/config/path.go:106-130 | resolves to the interpolated absolute path unless stat or the directory creation fails, and says whether it existed |
| PathResolution.OutputIsFirstCandidate | docs/searchpath.md:20-22 | when the second pass sees the same tokens of the multi-valued variables, an output file goes to the first directory of the list, as the first candidate of the matching input search |
| PathResolution.OutputIsFirstCandidateIff | docs/searchpath.md:20-22 | it does so for all values of these variables, roots and ways of joining if and only if the second pass sees those tokens |
| PathResolution.OutputPlace | internal/host/config/path.go:106-112 | an output file goes to an absolute text as it is, below the home directory for "~/", and below the root otherwise |
| Clock.OffsetAccuracyIff | internal/rpc/time.go:94-107 | for any one-way delays the computed offset is within latency + 1 ns of the true one if and only if the true one fits a Duration up to that distance |
| Clock.Timesync.Adjtime | internal/guest/time_linux.go:32-50 | steps on the first call or from half a second, slews otherwise, and a step has Sec*10^9 + Usec equal to the offset with 0 <= Usec < 10^9 |
| Clock.StepIsUnique | internal/guest/time_linux.go:41-47 | there is only one such pair: the truncating division and its correction amount to floor division |
| Clock.RemainingError | internal/rpc/time.go:106-117 | an accepted step leaves an error of at most latency + 1 ns, a call that changes nothing at most half a millisecond more |
| Clock.SyncClock | internal/rpc/time.go:94-119 | one exchange: rejected above the threshold, refused on another id, adjusted above half a millisecond, the next threshold twice the latency; and against a host clock sent as seconds and nanoseconds, an adjustment is within latency + 1 ns of the true offset and clocks in sync are at most half a millisecond more apart |
| Clock.UnixRoundTrip | internal/rpc/time.go:35-37 | a clock reading is recovered from the seconds and nanoseconds on the wire |
| Clock.GuestClock | internal/rpc/time.go:46-69 | the loop ends at the first cycle that fails (stream error, wrong id, refused adjustment) or after which the context is cancelled, end of stream does not end it, and adjtime gets exactly the offsets of the cycles that call for it, ids wrapping at 2^32 |
| Clock.AdjustmentsAccurate | internal/rpc/time.go:94-119 | in any run every offset handed over is within latency + 1 ns of how far the host clock was ahead when it was read for that cycle |
| Clock.RejectionsDouble | internal/rpc/time.go:95-100 | k rejections in a row force the last latency above 2^(k-1) times the first threshold |
| Clock.RejectionsBounded | internal/rpc/time.go:95-100 | latencies bounded by 2^e thresholds allow at most e rejections in a row |
| ClockStream.NeverWrongId | internal/rpc/time.go:102-104 | on a stream that keeps order, against HostClock, the unexpected-id branch is never taken, across wraparound |
| ClockStream.ReplyIsCurrent | internal/rpc/time.go:85-104 | the only reply that can be read is the one to the current request |
| ClockStream.CycleCompletes | internal/rpc/time.go:16-69 | from every reachable state with the guest there its exchange can be completed, by the reply or by the end of the stream, and the next one has the next identifier |
| LinkedList.List.PushFront | internal/util/list.go:31-44 | head, tail, links and length stay consistent and acyclic; the contents gain v in front |
| LinkedList.List.PushBack | internal/util/list.go:46-59 | the same at the back |
| LinkedList.List.PopFront | internal/util/list.go:61-77 | removes and returns the first element, or reports an empty list |
| LinkedList.List.PopBack | internal/util/list.go:79-95 | removes and returns the last element, or reports an empty list |
| LinkedList.List.Front | internal/util/list.go:97-103 | the first element, or none |
| LinkedList.List.Back | internal/util/list.go:105-111 | the last element, or none |
| LinkedList.List.Clear | internal/util/list.go:121-125 | leaves a consistent empty list |
| LinkedList.List.Slice | internal/util/list.go:200-208 | the walk along the links visits the contents in order |
| LinkedList.List.InsertBefore | internal/util/list.go:148-159 | panics exactly when the owner is not recorded; otherwise one node with v is put in before the cursor |
| LinkedList.List.InsertAfter | internal/util/list.go:161-172 | the same after the cursor |
| LinkedList.List.Remove | internal/util/list.go:174-188 | panics exactly when the owner is not recorded; otherwise exactly the cursor's node goes, and the cursor can still move on |
| LinkedList.List.RemoveWhere | internal/util/list.go:190-198 | removing the current node during the loop still visits every element once, and the filtered sequence is left |
| LinkedList.CursorValues | internal/util/list.go:148-188 | on the values, the cursor operations are insertion and removal at a position |
| LogFile.SizeIsCountPlusDrift | internal/applog/dir.go:43-55 | the bytes written are the bytes counted plus those of the messages that needed a newline |
| LogFile.CountIsExactIff | internal/applog/dir.go:43-55 | the count is the size exactly when every message ended in a newline |
| LogFile.FileSize | internal/applog/dir.go:39-41 | a file holds one message, or at most maxSize bytes beyond the uncounted ones |
| LogFile.FileSizeExact | internal/applog/dir.go:39-41 | with newline-terminated messages a file of more than one message is at most maxSize long |
| LogFile.UnterminatedOverflows | internal/applog/dir.go:39-55 | for any unterminated message, and any limit that lets some message follow another, the size rule lets these two make up one file of several messages over the limit |
| LogRotation.Trim | internal/applog/dir.go:78-83 | pops exactly the oldest files beyond maxFiles, oldest first |
| LogRotation.PushAndTrim | internal/applog/dir.go:76-83 | a new file is in front and the list holds the newest min(maxFiles, n + 1) |
| LogRotation.NameTakenIff | internal/applog/dir.go:64-70 | the new file's name exists exactly when the newest file was made in the same second, for a clock that does not go back |
| LogRotation.TurnPanicsIff | internal/applog/dir.go:38-57 | a message panics exactly when it is empty or needs a rotation in the second of the newest file |
| LogRotation.TurnKeeps | internal/applog/dir.go:38-57 | otherwise its line is whole at the end of the newest file and of the stream's content |
| LogRotation.RunContent | internal/applog/dir.go:38-57 | over any run the files, oldest to newest and counting deleted ones, hold the earlier bytes and then the lines of the messages in arrival order |
| LogRotation.RunKeeps | internal/applog/dir.go:38-84 | after any run every file made by a rotation holds whole messages within the size rule, files are in time order and the newest one is open |
| LogRotation.MadeFileSize | internal/applog/dir.go:39-41 | so with terminated messages such a file is at most maxSize long or holds one message |
| LogRotation.OverflowingRun | internal/applog/dir.go:38-57 | for any unterminated message, and any limit that lets some message follow another, a run of the loop from an empty stream over these two makes a file of several messages over the limit |
| LogRotation.OpenFileInFront | internal/applog/dir.go:74-83 | as long as the invariant holds the list is strictly newest first and the open file is in front of it, so trimming never drops it |
| LogRotation.FileLog.constructor | internal/applog/dir.go:212-248 | goes on at the end of the newest listed file with its size as the count, or with no file, and meets the invariant of the runs |
| LogRotation.FileLog.Rotate | internal/applog/dir.go:59-84 | panics exactly when the name exists; otherwise the new empty file is open and listed, the list holds the newest min(maxFiles, total) of all files, and the others were removed |
| LogRotation.FileLog.Write | internal/applog/dir.go:39-55 | one turn of the receive loop, rotating exactly when there is no file or no room by the count |
| LogRotation.FileLog.Run | internal/applog/dir.go:38-57 | the loop over all messages, up to the first panic; once it added a file the list holds the newest min(maxFiles, total), and the open file is in front of it |
| LogRotation.Scan | internal/applog/dir.go:197-207 | the scan lists the parsed names of one stream newest first |
| LogFile.LineIs | internal/applog/dir.go:43-49 | a message is written first and whole, and then exactly the newline that it lacks |
| LogRecords.MessagesReadBack | internal/applog/dir.go:38-57 | after any run, cutting the files at their newlines gives the earlier records and then the messages in arrival order, each without its own newline, if and only if no message has a newline inside |
| LogRecords.FreshStreamReadsBack | internal/applog/dir.go:38-57 | the same for a stream without earlier files |
| LogStream.LimitKeptIff | internal/applog/dir.go:38-57 | for every set of messages and every limit: in all runs over these messages, from any directory and with a clock that does not go back, every file made holds one message or at most maxSize bytes, if and only if every (non-empty) message of the set ends in a newline or none fits behind another |
| LogStream.TurnsFrom | internal/applog/dir.go:38-57 | what a run puts in the files it makes are non-empty messages that it received |
| LogStream.Serve | internal/applog/dir.go:190-248 | scan, newFileLog and run together: unless it panics, the files hold the bytes found and then the lines of all messages, the limit is kept under that condition, and once a file was added the newest min(maxFiles, total) are listed with the open one in front; read back at the newlines the files give the earlier records and then the messages exactly when none has a newline inside |
| Notify.ReadNotify | internal/host/service_darwin.go:23-42 | decodes the lines of a datagram, cut at its newlines, into a map |
| Notify.LastLineWins | internal/host/service_darwin.go:31-39 | a key has a value exactly when some line sets it and no later line sets another |
| Notify.ReadyIff | internal/host/service_darwin.go:18-42 | the service is ready exactly when some line is READY=1 and no later line sets READY to something else |
| ServiceLaunch.Code | internal/host/service_darwin.go:104-111 | the translated code is never zero |
| ServiceLaunch.CodeIs | internal/host/service_darwin.go:104-111 | the code is the exit status, -1 for the status 0, and 1 when the wait failed |
| ServiceLaunch.SameCodeIff | internal/host/service_darwin.go:104-111 | two ends of a service look alike exactly when they are the same, or one has the status 1 and the other none, or one the status 0 and the other -1 |
| ServiceLaunch.SaysReadyIff | internal/host/service_darwin.go:18-42 | the same for the lines of a datagram |
| ServiceLaunch.SuccessIsReady | internal/host/service_darwin.go:85-91 | in every interleaving LaunchService succeeds only on the 0 that waitNotify sent after it read READY=1, never on a closed channel's zero |
| ServiceLaunch.SuccessNeverSendsOnClosed | internal/host/service_darwin.go:100-140 | in a run whose launch succeeds nothing is ever sent on the closed channel |
| ServiceLaunch.FirstWaitIsTheCode | internal/host/service_darwin.go:100-116 | the first Wait returns the translated non-zero code of the exit, every later one zero |
| ServiceLaunch.CrashReachableIff | internal/host/service_darwin.go:134-137 | from any reachable state the unrecovered send on the closed channel can still happen exactly while the launch has not timed out and READY was read and not delivered, or can still arrive because the launch has not returned |
| ServiceLaunch.CanSucceedIff | internal/host/service_darwin.go:84-95 | the launch can still succeed exactly when it did, or still waits and the notify socket has not failed |
| ServiceLaunch.FailureIsTheExit | internal/host/service_darwin.go:87-95 | a launch that fails with a code, or because the service ended, does so for an end of the service with that status, or an unknown one for the code 1, unless the notify socket failed |
| ServiceLaunch.WaitReturns | internal/host/service_darwin.go:100-116 | after a successful launch the service can end in every way, Wait then gives its code, and zero when called again |
| ServiceLaunch.CanTimeOut | internal/host/service_darwin.go:84-86 | as long as LaunchService waits it can time out |
| ServiceLaunch.CanTakeCode | internal/host/service_darwin.go:87-95 | and take the code with which the service ends |
| ServiceLaunch.CanTakeError | internal/host/service_darwin.go:123-132 | and an error of the notify socket |
| Sysctl.LoadSysctls | internal/sysctl/sysctl.go:9-35 | the nested loops with their errors compute the left fold over files and lines |
| Sysctl.ReadLineIs | internal/sysctl/sysctl.go:19-30 | between its outer spaces a line is nothing when empty or a comment, an error naming the text when it has no '=', and otherwise the trimmed sides of the first '=' |
| Sysctl.LoadsIff | internal/sysctl/sysctl.go:21-28 | lines load exactly when none is malformed, and the error names the first malformed one |
| Sysctl.LastEntryWins | internal/sysctl/sysctl.go:19-31 | a key ends up with the value of the last line that sets it |
| Sysctl.LaterFilesOverride | internal/sysctl/sysctl.go:12-32 | loading several files is merging their maps with later ones winning, and the first error is the result |
| Sysctl.FilesLoadClean | internal/sysctl/sysctl.go:20-30 | whatever loads has trimmed keys without '=' or comment mark and trimmed one-line values |
| Sysctl.CompileSysctls | tools/rootprep/sysctl.go:51-77 | writes one line for each key of the loaded map, in some order of the keys |
| Sysctl.RoundTrip | tools/rootprep/sysctl.go:73-77 | for every input that loads, the printed map loads again to the same map, in any key order |
| Proxy.FrameRoundTripIff | internal/rpc/proxy.go:60-72 | a frame decodes to its data with the following bytes left exactly when the data is below 65536 bytes |
| Proxy.FramesRoundTrip | internal/rpc/proxy.go:53-84 | any sequence of such frames decodes to itself |
| Proxy.ReadFrameExactIff | internal/rpc/proxy.go:53-69 | readProxy returns the data and leaves exactly the following bytes if and only if each of its two reads is satisfied in one piece |
| Proxy.Conn.Read | internal/rpc/proxy.go:56-66 | a read fills a front part of the buffer with the next piece and consumes just that |
| Proxy.ReadProxy | internal/rpc/proxy.go:53-69 | the two reads into fresh buffers, whatever pieces the connection delivers |
| Proxy.WriteProxy | internal/rpc/proxy.go:71-84 | writes the whole frame, only its size, or nothing, by how many of the two writes succeed |
| Proxy.Dial | internal/rpc/proxy.go:86-102 | sends the request as far as writes succeed and hands over exactly when the reply is empty, with nothing beyond the reply consumed |
| Proxy.ServeStreamProxy | internal/rpc/proxy.go:14-44 | the server's part up to the tunnel, with the answer it writes in each case, as far as writes succeed |
| Proxy.ServerRecovers | internal/rpc/proxy.go:16-32 | for a network without ':' the server recovers exactly the network and the address and leaves the following bytes |
| Proxy.ConnectedIff | internal/rpc/proxy.go:91-101 | the client takes a reply for success exactly when its length is zero modulo 65536 |
| Proxy.Handshake | internal/rpc/proxy.go:14-102 | both sides together: Dial succeeds exactly when the server reached the target, and then no byte of either tunnel direction is consumed |
| Proxy.AnswerArrives | internal/rpc/proxy.go:22-40 | whatever the request, the client reads the answer that belongs to it: nothing, the text of the dial error, or "invalid address" when there was no colon |
| ShareTags.UniqueName | internal/host/vm_darwin.go:464-469 | the retry loop terminates and yields the first free name of the cumulative sequence |
| ShareTags.FirstFreeIsUnique | internal/host/vm_darwin.go:466-469 | that name is determined by the labels in use |
| ShareTags.CandidateIs | internal/host/vm_darwin.go:464-469 | the k-th name tried is the first one with all numbers from 1 to k behind it in decimal, each after a '-' |
| ShareTags.BaseIs | internal/host/vm_darwin.go:458 | the base of a path is its last element whatever slashes follow, "/" for slashes alone, and "." for nothing |
| ShareTags.InvalidBaseIff | internal/host/vm_darwin.go:460-462 | a mountpoint is refused exactly when it is empty, slashes alone, or its last element is "." or ".." |
| ShareTags.TagsDistinct | internal/host/vm_darwin.go:454-471 | all tags are pairwise distinct, in any order of the shares |
| ShareTags.TagsDistinctInAnyCase | internal/host/vm_darwin.go:466-471 | they stay distinct after case folding, because each is in lower case already |
| ShareTags.PlainTagsIff | internal/host/vm_darwin.go:456-471 | every share gets its plain lower-cased basename exactly when these names are pairwise distinct |
| ShareTags.VirtualMachine.SetupShares | internal/host/vm_darwin.go:452-511 | devices and mounts are appended pairwise with the same tag, source and access mode; an invalid basename or a refused device ends it with that error and the earlier shares in place |

## Left out

- Virtualization.framework, vsock, DHCP, netlink, mount and adjtimex: foreign calls without visible semantics; where a model needs one it is a parameter.
- Docker and containerd clients, gob and net/rpc transport, HTTP, cobra, launchd, plist, JSON and YAML decoding: library wrappers.
- Liveness that depends on the Go scheduler, such as that a parked goroutine eventually runs: the theorems are safety, exact conditions and bounds.
- Channel operations on buffered channels are atomic steps in `BusRuns`; capacity-zero channels with a parked receiver are not modelled there, so a send to one counts as full.
- Shutdown's error returns between the listen and the wait (`internal/host/vmguest.go:185-191`): they only end the wait early. The claims on the wakeup are about runs in which the bus is not cancelled, nobody but the watcher sets the status after Shutdown began, and no second close of a channel crashed the process.
- IdleShutdown.CountIsExact: its condition is exact as long as the counter never wrapped; the code's 64-bit counter is kept as it is, and 2^64 outstanding Adds are out of reach of a process. The same holds for `IdleShutdown.StopsIff`, `IdleShutdown.RepeatPinsLatch` and `IdleHistory.CanStopIff`.
- LogRotation.FileLog.Rotate: the second of a deleted file still counts as taken; the code would create that file again, which can happen only after the clock stepped back.
- LogRotation: maxFiles below 1, which would remove the open file, is outside the claims on retention; the removal of files is asynchronous in the code and appears as the list of removed names. Several streams and the router to them are not modelled; each stream is one `FileLog`.
- LogRotation.Scan: the directory listing comes as the parsed times in name order; that name order is time order is a property of the configured pattern and is asked for where it matters (`StoreOk`).
- LinkedList: a cursor operation on a node that is no longer in its list is outside the claims; MarshalJSON and the plain forward iterator are left out.
- BusRefinement: relates each operation with nobody else on the bus; overlapping Emits are in `BusRuns` only.
- ServiceLaunch: the error returns before the channel exists (missing name, listen or launch failure) are left out; Wait is called only after a successful launch, as the callers do.
- Strings.TrimSpace: works on characters; the decoding of UTF-8 is not modelled.
- ShareTags: lower-casing is any idempotent character mapping that leaves digits and '-', so full Unicode case folding with length changes is left out.
- Proxy.ServeStreamProxy: the copying after the handshake is left out.
- PathResolution: ResolveOutputDir, ResolveListenSocket and ParseSize would only add easy members.
- Disk sizing, the daemon state file, control sockets, superblock probes and sysctl file listing: command or file plumbing.
