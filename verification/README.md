# A verified model of the OSS audio plugin's state machines

The plugin connects FreeBSD's OSS sound devices to PipeWire. Most of its difficulty is not in the
system calls but in small state machines that have to survive re-entrant callbacks, partial kernel
I/O, late clocks and devices that are replaced while they are in use. This project models those
state machines in Dafny 4.11 and proves what they promise.

`dafny verify dfyconfig.toml` checks everything.

## How the model is laid out

| module | what it models |
|---|---|
| `HookTrace`, `Hooks` | intrusive listener lists: what a traversal means as a trace, and the pointer code with its woven cursor, list splicing and isolation, proved to do that |
| `EventTrace`, `EventHub` | the notification queue with activation barriers: per-step invariants on values, and the re-entrant object whose methods keep them |
| `Catalog`, `Monitor` | hotplug re-scans, and the monitor that publishes them through an `EventHub` |
| `Rebuild` | main thread, data loop and rebuild worker as one transition system |
| `Silence`, `DspWriter`, `DspReader` | frame-aligned byte streams over a kernel that accepts or returns any part of a request |
| `BufferPolicy` | ring geometry in saturating 32-bit arithmetic |
| `WakeTrace`, `DriverTiming` | the driver's one-shot timer, deadline and duplicate-wake rejection: value level, and the object that refines it |
| `Servo` | the delay-locked loop and its bandwidth estimator, over reals |
| `Xrun` | event counting across wraps, resets and several native counters |
| `Negotiation`, `ChannelMap` | nearest-format snapping, reorder admission and native channel order words |

Objects that the program updates in place are classes, loops are loops, and each method is proved
against a specification function or an invariant; expressions and arithmetic are functions with
lemmas. The rebuild protocol is a transition system on values because its three threads interleave.
Callbacks are finite scripts that re-enter the very methods that called them: `HookTrace.Script` may
unlink any hook, append hooks, start nested traversals and greet a new hook with the whole list set aside;
`EventHub.Script` may publish, queue, flush,
register and leave. Kernel answers are nondeterministic in the byte streams and parameters elsewhere.

## Main results

* **Traversal.** Every callback runs on a hook linked at that moment, hooks that stay are called
  exactly once and in order, an unlinked hook is never called again, nobody present at the end was
  missed, and the list stays a well-formed ring with only the cursor gone, also when callbacks set the
  list and its running cursors aside and join it again. Every callback does all its script says, in order.
* **Barriers.** In every run of nested dispatches and registrations each linked listener has received
  its greeting and then, in order and without gaps, exactly what was published after it registered;
  there is one drain owner at most, who leaves hears nothing more, and nobody else goes. Composed with the catalog: at rest, every listener's own copy
  equals the catalog's groups, whenever it registered.
* **Rebuild.** In every interleaving a consumed completion answers an order that no install, release,
  pause or suspend has overtaken; it puts the device that was opened for that order into the port and the
  old one on its way to be closed, or what else its outcome says; every opened device has exactly one owner and is closed at most
  once, never by the data loop; a stop that returns zero leaves every mailbox empty, and so it stays.
* **Streams.** Every write appends exactly the reported prefix, whatever the kernel does; silence has the
  right byte at every stream position; reads hand out whole frames, and the output is the native
  stream with exactly the torn frames removed.
* **Wakes.** A driving node with a deadline is always woken by an eighth of the longest period after it at
  the latest, or retried within 10 ms, whatever wakes, commands, cycles and device replacements come in what
  order. In a run without a replacement a cycle that follows k
  others comes no earlier than k half periods, less one grace, after the deadline the run began with, and in
  wall time no earlier than k + 1 half periods after a first cycle, less one grace and one second; a
  replacement starts the timeline afresh (`WakeTrace.ReplacementReanchors`).
* **Servo.** The correction follows the clamped error through the two stages and the integrator, and a larger
  error never speeds the clock up; a loop that diverges relocks at once. The bandwidth is zero or within [0.001, cap] and both filter stages stay within
  3 pi * 0.128 * max_err / rate in every run.
* **Accounting.** Events reported equal events that happened, across wraps and clears, exactly as long as
  fewer than 2^32 pass between readings. For the plain totals that the backend-neutral tracker also accepts,
  though the OSS backend sends none, `Xrun.SnapshotAcrossClear` says exactly when an unobserved clear loses events.

## Where the code does not do what its comments suggest

* `WakeTrace.RetryIsLostBeforeFirstRead`: before the first successful clock read the deadline is zero,
  and selecting the next wake parks a driving node; `SelectArmsIff` gives the exact condition.
* `WakeTrace.LateDriverTakesBoth`: the comment at crates/core/src/node/timing.rs:185-188 says the late half
  of a timer/device pair never starts a second cycle. A driver that runs more than a period late (but
  less than the stall limit) takes both halves; `SecondWakeIff` gives the exact condition.
* `DspWriter.EndBufferSequence` returns false with a frame still open exactly when the channel runs with one,
  silence did not close it (under a shadowed pause none is written) and the driver refuses to stop the
  channel; its contract states this as an equivalence.

## Model

| member | source | states |
|---|---|---|
| Hooks.ListenerList.ForEachHook | crates/core/src/spa/hooks.rs:17-70 | the woven-cursor loop makes exactly the calls `Walk` prescribes under arbitrary re-entrant callbacks, keeps the ring and all set-aside rings well formed and apart, and leaves each as those events make it: only the cursor is gone |
| Hooks.ListenerList.Advance | crates/core/src/spa/hooks.rs:43-69 | one turn: the cursor hops before the callback, other traversals' cursors are skipped, and events so far plus events owed stay what was asked for |
| Hooks.ListenerList.Call | crates/core/src/spa/hooks.rs:61-69 | after a callback that changed the list arbitrarily, or set it aside and joined it again, the links around the cursor are the old ones after its events |
| Hooks.ListenerList.RunCallback | crates/core/src/spa/hooks.rs:130-139 | a callback's pointer work, in whatever lists its hooks are, is the actions of its script, with every list apart from the others |
| Hooks.ListenerList.Unregister | crates/core/src/spa/hooks.rs:245-247 | a hook leaves the one list that holds it, the active or a set-aside one, and nothing happens if none does |
| Hooks.ListenerList.WithIsolated | crates/core/src/spa/hooks.rs:219-255 | a greeting runs with the new hook alone, nested registrations included; afterwards the surviving saved hooks stand in front of what registered meanwhile, running cursors in their places |
| Hooks.ListenerList.Hop | crates/core/src/spa/hooks.rs:49-58 | unlink and relink moves the cursor past exactly one link |
| Hooks.ListenerList.InsertAfter | crates/core/src/spa/hooks.rs:36-42 | the link enters right behind the given one and the ring stays doubly linked |
| Hooks.ListenerList.Remove | crates/core/src/spa/hooks.rs:20-27 | plain unlink removes exactly that link |
| Hooks.ListenerList.Splice | crates/core/src/spa/hooks.rs:263-279 | the other list's links stand behind the given one in order, and both rings stay doubly linked |
| Hooks.ListenerList.AppendFrom | crates/core/src/spa/hooks.rs:263-279 | the other list's hooks follow in registration order and it is left empty |
| Hooks.ListenerList.Isolate | crates/core/src/spa/hooks.rs:219-244 | the new listener is alone and every other link, cursors included, is on the save list in order |
| Hooks.ListenerList.Join | crates/core/src/spa/hooks.rs:227-236 | the saved links come back in front of the new ones |
| HookTrace.WalkSound | crates/core/src/spa/hooks.rs:5-16 | every event of a traversal meets the list it happens on, at every nesting depth |
| HookTrace.CallsHitLinkedHooks | crates/core/src/spa/hooks.rs:5-16 | a called hook is linked at the moment of the call |
| HookTrace.NeverCalledAfterUnlink | crates/core/src/spa/hooks.rs:5-16 | a hook called after it was unlinked was registered again in between |
| HookTrace.SurvivorsCalledOnceInOrder | crates/core/src/spa/hooks.rs:5-16 | hooks registered throughout are called exactly once each, in list order |
| HookTrace.NobodyIsMissed | crates/core/src/spa/hooks.rs:5-16 | whoever is linked when the traversal returns was called by it, also if appended or greeted meanwhile |
| HookTrace.RunIsObeyed | crates/core/src/spa/hooks.rs:130-139 | a callback does everything its script says, in order: who is unlinked is gone and nobody else, who is appended stands at the end, an emission reaches all, a greeting runs with the new hook alone |
| HookTrace.CallIsAnswered | crates/core/src/spa/hooks.rs:61-69 | the first listener in front of the cursor is called and its callback is obeyed in full before the next is reached |
| EventHub.EventHub.BeginDispatch | crates/core/src/spa/hooks.rs:380-389 | a turn is claimed exactly when nobody owns one |
| EventHub.EventHub.Enqueue | crates/core/src/node/events.rs:168-178 | a notification goes to the end of the queue and into the history, without draining |
| EventHub.EventHub.DispatchAll | crates/core/src/spa/hooks.rs:405-414 | the whole transaction is published in order; without an outer owner the queue is empty afterwards, with one nobody has received anything yet; who does not leave stays |
| EventHub.EventHub.FlushAll | crates/core/src/node/events.rs:298-302 | drains if the turn is free and otherwise changes nothing |
| EventHub.EventHub.Drain | crates/core/src/spa/hooks.rs:393-401 | only the owner drains; it ends with an empty queue and the turn released, whatever callbacks append |
| EventHub.EventHub.DispatchNext | crates/core/src/node/events.rs:238-264 | a message is traversed to every listener, a barrier activates its listener |
| EventHub.EventHub.Traverse | crates/core/src/node/events.rs:240-256 | every listener still linked receives the message once and its callback runs; who does not leave stays |
| EventHub.EventHub.Deliver | crates/core/src/spa/hooks.rs:43-69 | the listener in front of the cursor receives exactly this message, then its callback runs with the next answer |
| EventHub.EventHub.Register | crates/core/src/node/events.rs:204-230 | a listener registers on the active list exactly when nothing older is pending, else behind a barrier |
| EventHub.EventHub.AddListener | crates/core/src/node/events.rs:349-391 | registration, isolated greeting under the dispatch turn, join and drain keep every listener's history right; the new listener is linked afterwards unless it left |
| EventHub.EventHub.Greet | crates/core/src/node/events.rs:359-383 | the initial events reach the new listener only, who may leave in the middle |
| EventHub.EventHub.Unlink | crates/core/src/spa/hooks.rs:5-16 | the listener is linked nowhere afterwards: it is cut out of the one list it is on, and every other listener, list position, the queue, the history and what everyone saw are unchanged |
| EventHub.EventHub.RunCallback | crates/core/src/node/events.rs:198-203 | inside a callback nobody who was there before receives anything; what its script publishes, registers and removes is published, registered and gone, and nobody else leaves |
| EventTrace.PopMsgKeeps | crates/core/src/spa/hooks.rs:393-401 | taking a message off the queue keeps every listener's position in the history |
| EventTrace.HopKeeps | crates/core/src/spa/hooks.rs:43-69 | delivering to one listener completes it up to the message just taken |
| EventTrace.PopBarrierKeeps | crates/core/src/device/events.rs:175-179 | a barrier activates its listener exactly when everything before its registration is through |
| EventTrace.DeferKeeps | crates/core/src/spa/hooks.rs:369-378 | a barrier queued behind older work marks the listener's starting point |
| EventTrace.IsolateKeeps | crates/core/src/device/events.rs:186-203 | registering on the idle active list starts at the end of the history |
| EventTrace.GreetKeeps | crates/core/src/device/mod.rs:89-105 | each greeting message extends the greeting, nothing else |
| EventTrace.UnlinkKeeps | crates/core/src/spa/hooks.rs:5-16 | leaving disturbs nobody else and makes a pending barrier inert |
| EventTrace.UnlinkLeaves | crates/core/src/spa/hooks.rs:5-16 | after an unlink the listener occurs in no list, and nothing else is different |
| EventTrace.LeftHearsNothing | crates/core/src/spa/hooks.rs:43-69 | in every later state a listener that left has seen what it had seen when it left, and is not linked |
| EventTrace.DrainedMeansComplete | crates/core/src/device/events.rs:183-203 | after a drain each listener saw its greeting and then exactly what was published since, in order |
| EventTrace.NothingOutOfOrder | crates/core/src/node/events.rs:198-203 | at any moment what a listener saw is a beginning of that, also if it left |
| EventTrace.ReplicaIsCurrent | crates/core/src/device/events.rs:183-203 | a listener that folds what it sees holds the publisher's state |
| Catalog.GroupingPartitions | crates/freebsd-oss/src/freebsd_oss/devices.rs:494-504 | each listed unit is in exactly the group of its parent, and object ids never clash |
| Catalog.GroupByParent | crates/freebsd-oss/src/freebsd_oss/devices.rs:494-504 | groups in name order hold the units of their parent in listing order; unreadable units are left out |
| Catalog.DeviceCatalog.Snapshots | crates/freebsd-oss/src/freebsd_oss/devices.rs:643-648 | lists every nonempty group in name order |
| Catalog.DeviceCatalog.Rescan | crates/freebsd-oss/src/freebsd_oss/devices.rs:654-723 | the changes replayed on the old objects give the new ones, after every single change the objects are well formed, detached groups are retracted first also when the read fails, and no other change is superfluous |
| Catalog.DeviceCatalog.Force | crates/freebsd-oss/src/freebsd_oss/devices.rs:660-687 | each detach event retracts the first group that lists the unit, or the named parent, and takes that group alone out |
| Catalog.RetractGone | crates/freebsd-oss/src/freebsd_oss/devices.rs:697-706 | what is left after the retractions is what both scans share |
| Catalog.AnnounceNew | crates/freebsd-oss/src/freebsd_oss/devices.rs:707-716 | what is there after the announcements is the new scan |
| Catalog.Find | crates/freebsd-oss/src/freebsd_oss/devices.rs:661-675 | the first group that lists the unit, or that bears the parent's name; none only if no group does |
| Catalog.DetachedKeepsTheRest | crates/freebsd-oss/src/freebsd_oss/devices.rs:660-687 | named parents are gone after the detach events, groups no event concerns are still there, and nothing is invented |
| Catalog.ListingRebuilds | crates/freebsd-oss/src/freebsd_oss/devices.rs:643-648 | a listing applied to nothing gives back the groups |
| Catalog.RegistryIsCurrent | crates/freebsd-oss/src/freebsd_oss/devices.rs:607-723 | a consumer that keeps objects by id, starts from a listing and applies the changes holds exactly the current groups |
| Catalog.ReplacementIsAnnounced | crates/freebsd-oss/src/freebsd_oss/devices.rs:656-659 | a detached group is retracted first and announced anew even when the re-read is identical |
| Monitor.Monitor.OnHotplug | crates/core/src/monitor/mod.rs:311-360 | a re-scan is published as one transaction and the published history still rebuilds the catalog |
| Monitor.Monitor.AddListener | crates/core/src/monitor/mod.rs:195-242 | a new listener is told the catalog's own listing |
| Monitor.Monitor.ListenersMirrorTheCatalog | crates/core/src/monitor/mod.rs:105-121 | at rest every linked listener's copy equals the catalog's groups, as a list and as a registry by id |
| Rebuild.StepKeeps | crates/core/src/node/rebuild/worker.rs:489-704 | every step of every thread keeps the protocol invariant |
| Rebuild.RunKeepsInv | crates/core/src/node/rebuild.rs:284-402 | it holds in every state of every interleaving |
| Rebuild.EveryDeviceHasOneOwner | crates/core/src/node/rebuild.rs:305-399 | an opened device has one owner until it is closed, at most once; the data loop closes none and hands every device onward |
| Rebuild.LeaseStopsTheCycle | crates/core/src/node/rebuild.rs:284-303 | under takeover a cycle neither consumes a completion nor queues a rebuild, and the port is pending |
| Rebuild.PendingIsNeverStranded | crates/core/src/node/rebuild/worker.rs:519-576 | without a lease, pending means exactly one current order or completion in flight, and the deferred cell is free when needed |
| Rebuild.NoStaleCompletion | crates/core/src/node/rebuild.rs:305-330 | a consumed completion answers the only order since, carries its fence count, and no install, release, pause or suspend took effect in between |
| Rebuild.ConsumedTakesEffect | crates/core/src/node/rebuild.rs:305-402 | what consuming does, outcome by outcome: a new device takes the port's place and the old one is ordered closed; a failure leaves the port empty and unconfigured; an abort changes nothing but the claim; a busy device takes the old one along and stays pending |
| Rebuild.InstalledWasOpenedForItsOrder | crates/core/src/node/rebuild.rs:305-349 | the device put into the port is one the worker opened for that very order, with the port's generation and the current fence count |
| Rebuild.SubmittedIsKept | crates/core/src/node/rebuild/worker.rs:489-517 | a submitted command is in the worker's slot or retained, and overwrites nothing |
| Rebuild.TurnsBegin | crates/core/src/node/rebuild/worker.rs:470-484 | a turn of the data loop first hands a retained command to the worker, and does nothing under takeover or if that command does not fit |
| Rebuild.WorkerAnswers | crates/core/src/node/rebuild/worker.rs:628-704 | only a request that is still current keeps the device it opened; a busy device is retried once and once only |
| Rebuild.InstallTakesEffect | crates/core/src/node/rebuild.rs:86-195 | a synchronous install that reaches its swap puts what it opened into the port, fences the old generation off and holds the device it replaced |
| Rebuild.ReleaseTakesEffect | crates/core/src/node/ports.rs:340-375 | a release takes the device out, with the port unconfigured, fenced off and under takeover |
| Rebuild.StopTakesEffect | crates/core/src/node/commands.rs:228-311 | a stop that reaches the data loop ends its cycles under takeover; a suspend takes device and configuration, a pause neither |
| Rebuild.CommandProceeds | crates/core/src/node/rebuild.rs:86-195 | an install evicts the port's device if it was busy, once at most, and alone can fail by itself; a stop or release is done when the mailboxes are |
| Rebuild.OrderTakesEffect | crates/core/src/node/rebuild/worker.rs:519-576 | an order goes out for a configured port only, untried, with its generation, and makes it pending |
| Rebuild.OpensOnlyIfCurrent | crates/core/src/node/rebuild/worker.rs:619-656 | the worker opens a device only for a started node and the current generation |
| Rebuild.WorkerKnowsIfStarted | crates/core/src/node/commands.rs:190-246 | in every run the flag the worker reads agrees with the data loop whenever no start or stop is under way, also after a stop that was lost |
| Rebuild.FencesCountChanges | crates/core/src/node/commands.rs:228-311 | the change counter used there moves exactly with those four |
| Rebuild.StopReturnsQuiet | crates/core/src/node/commands.rs:227-342 | a Pause or Suspend that returns zero leaves mailboxes, worker, deferred cell and lease empty |
| Rebuild.StoppedNodeStaysQuiet | crates/core/src/node/commands.rs:227-342 | they stay empty while the node is stopped, absent a new install |
| Rebuild.WaitIdleTerminates | crates/core/src/node/rebuild/worker.rs:343-360 | nobody adds work during the wait, the worker can always move, and every move leaves less |
| DspWriter.DspWriter.Write | crates/freebsd-oss/src/freebsd_oss/dsp.rs:1195-1251 | appends exactly the reported prefix for any kernel behaviour; the status is the last native error's, written out code by code, exactly when the write is incomplete because of it; if the kernel never took nothing, the write is complete or ends on a frame |
| DspWriter.DspWriter.WriteExact | crates/freebsd-oss/src/freebsd_oss/dsp.rs:1361-1391 | pushes a prefix, all of it unless refused, and terminates by bytes left and tries left |
| DspWriter.DspWriter.WriteBuffered | crates/freebsd-oss/src/freebsd_oss/dsp.rs:1393-1437 | every accepted byte moves the frame phase |
| DspWriter.DspWriter.WriteBulk | crates/freebsd-oss/src/freebsd_oss/dsp.rs:1217-1235 | only the split frame is completed, the rest stays with the caller |
| DspWriter.DspWriter.WriteRetained | crates/freebsd-oss/src/freebsd_oss/dsp.rs:1183-1194 | passing the retained suffix again reproduces the input, whatever is refused |
| DspWriter.DspWriter.RealignWithSilence | crates/freebsd-oss/src/freebsd_oss/dsp.rs:1257-1269 | closes an open frame with the bytes it lacks, in phase |
| DspWriter.DspWriter.AlignedSilenceChunk | crates/freebsd-oss/src/freebsd_oss/dsp.rs:1271-1277 | a partial chunk ends on a frame and is never empty |
| DspWriter.DspWriter.WriteSilence | crates/freebsd-oss/src/freebsd_oss/dsp.rs:1439-1465 | every byte is the silent byte of its stream position; unrefused, the open frame is closed and all whole frames are written |
| DspWriter.DspWriter.WriteUniformSilence | crates/freebsd-oss/src/freebsd_oss/dsp.rs:1291-1303 | the byte fill is exact silence and stays frame aligned |
| DspWriter.DspWriter.WritePatternSilence | crates/freebsd-oss/src/freebsd_oss/dsp.rs:1309-1333 | cached silence resumes at the byte the open frame is at, across short writes |
| DspWriter.DspWriter.EndBufferSequence | crates/freebsd-oss/src/freebsd_oss/dsp.rs:1340-1355 | a frame stays open exactly when the channel runs with one, silence did not close it and the driver refuses to stop it; a reset is reported only with an empty ring and no open frame |
| DspWriter.DspWriter.Suspend | crates/freebsd-oss/src/freebsd_oss/dsp.rs:892-904 | a stopped channel has an empty ring and no open frame, a refusal changes nothing |
| DspWriter.DspWriter.Configure | crates/freebsd-oss/src/freebsd_oss/dsp.rs:847-858 | the silence cache exists exactly for nonuniform patterns and holds the pattern |
| DspWriter.DspWriter.PrimeBuffer | crates/freebsd-oss/src/freebsd_oss/dsp.rs:1042-1097 | records the granted geometry and queues whole frames of silence up to the target |
| DspWriter.DspWriter.RetuneBuffer | crates/freebsd-oss/src/freebsd_oss/dsp.rs:1099-1171 | a changed period is taken in place, at its second sighting, exactly when the ring admits it; the ring's size, quantum and delay stay as granted |
| DspWriter.DspWriter.RetuneWithinPlan | crates/freebsd-oss/src/freebsd_oss/dsp.rs:1099-1171 | on a ring granted as planned no covered period change stops the channel, and the ring stays so over every run of them |
| DspWriter.PhaseExact | crates/core/src/backend/mod.rs:1196-1207 | silence taken at the frame's offset continues the stream in phase |
| Silence.UniformFormats | crates/core/src/backend/mod.rs:1166-1190 | every stream position has its sample byte within the frame; a byte fill is silence exactly for one-byte samples, and then it is one of the writer's four bytes |
| Silence.SilenceIsTheMidpoint | crates/core/src/backend/mod.rs:1166-1184 | read in its own width and byte order, silence is the middle of the range of an unsigned format, zero of a signed one |
| Silence.SilencePattern.UniformByte | crates/core/src/backend/mod.rs:1209-1218 | a byte is reported exactly when every position is that byte |
| Silence.SilencePattern.FillAt | crates/core/src/backend/mod.rs:1196-1207 | fills the given part with the pattern from the frame offset on |
| DspReader.DspReader.Read | crates/freebsd-oss/src/freebsd_oss/dsp.rs:487-538 | hands out whole frames from a frame boundary on, drops one frame per torn read, and answers with the status of the last native answer, written out code by code |
| DspReader.DspReader.SkipTail | crates/freebsd-oss/src/freebsd_oss/dsp.rs:492-511 | the torn frame's tail is consumed before anything else |
| DspReader.DspReader.RecoverOverrun | crates/freebsd-oss/src/freebsd_oss/dsp.rs:246-279 | recovers exactly at the third consecutive overrun with a full ring |
| DspReader.DspReader.RetuneBuffer | crates/freebsd-oss/src/freebsd_oss/dsp.rs:414-460 | as for playback, with the reset of the stream stated, and the counter that makes it the second sighting |
| DspReader.DspReader.RetuneWithinPlan | crates/freebsd-oss/src/freebsd_oss/dsp.rs:414-460 | the same for capture: no period change up to the largest restarts the stream |
| DspReader.DspReader.ClearOverrunObservation | crates/freebsd-oss/src/freebsd_oss/dsp.rs:233-235 | a cycle without an overrun ends the streak of full rings |
| DspReader.DspReader.Suspend | crates/freebsd-oss/src/freebsd_oss/dsp.rs:467-478 | a reset ring forgets the torn frame |
| DspReader.NothingElseIsLost | crates/freebsd-oss/src/freebsd_oss/dsp.rs:481-486 | output plus one frame per torn frame accounts for every byte consumed; consumed plus skip is whole frames |
| DspReader.AcceptFrames | crates/freebsd-oss/src/freebsd_oss/dsp.rs:525-537 | one read extends the output by its whole frames and tears at most the last |
| BufferPolicy.FourPeriodsFit | crates/freebsd-oss/src/freebsd_oss/buffer.rs:70-75 | four of the largest planned periods fit the kernel limit |
| BufferPolicy.RequestIsNotTruncated | crates/freebsd-oss/src/freebsd_oss/buffer.rs:125-152 | within two periods of delay and transfers up to the largest period the limit does not cut the request |
| BufferPolicy.RetunesStayInPlaceIff | crates/freebsd-oss/src/freebsd_oss/buffer.rs:105-116 | a ring takes every period up to the largest in place exactly when it holds that one's requirement |
| BufferPolicy.RetunesStayInPlace | crates/freebsd-oss/src/freebsd_oss/buffer.rs:296-353 | a ring granted as planned never needs to be rebuilt for a later period |
| BufferPolicy.CaptureRetunesStayInPlace | crates/freebsd-oss/src/freebsd_oss/buffer.rs:202-217 | the same for capture |
| BufferPolicy.HeadroomIff | crates/freebsd-oss/src/freebsd_oss/buffer.rs:160-177 | target keeps floor below and write plus quantum above exactly when the grant holds all three |
| BufferPolicy.AdmissionGivesHeadroom | crates/freebsd-oss/src/freebsd_oss/dsp.rs:720-736 | every admitted ring below the 32-bit maximum has that headroom and believes an underrun at exactly one period |
| BufferPolicy.OverflowIsRefused | crates/freebsd-oss/src/freebsd_oss/buffer.rs:105-116 | a geometry whose needs overflow 32 bits is refused by every ring below the 32-bit maximum |
| BufferPolicy.CaptureHeadroom | crates/freebsd-oss/src/freebsd_oss/buffer.rs:188-199 | the peak stays one arrival below the ring, and one above the target exactly when the ring holds it |
| BufferPolicy.CaptureAdmission | crates/freebsd-oss/src/freebsd_oss/buffer.rs:210-217 | an admitted capture ring has both |
| BufferPolicy.RetunedGeometry | crates/freebsd-oss/src/freebsd_oss/buffer.rs:298-353 | every number of a retuned ring: size and quantum stay, the goal is the delay or floor with room for write and delivery, for now the target is what will be in the ring after this write, and the ring is admitted exactly if both needs fit |
| BufferPolicy.CaptureGeometryIs | crates/freebsd-oss/src/freebsd_oss/buffer.rs:188-260 | every number of a capture ring: target, peak and exact admission |
| BufferPolicy.RequestIff | crates/freebsd-oss/src/freebsd_oss/buffer.rs:125-152 | the size asked for is the smallest of 64 KiB or more that admits this period and the largest, within the budget |
| BufferPolicy.CaptureRequestIff | crates/freebsd-oss/src/freebsd_oss/buffer.rs:202-208 | the same for capture: four of this period and four of the largest |
| BufferPolicy.LimitIsAFifthOfASecond | crates/freebsd-oss/src/freebsd_oss/buffer.rs:27-36 | the scaled budget is 200 ms of audio between 128 KiB and 4 MiB |
| BufferPolicy.GraphFramesAreWholeDeviceFrames | crates/freebsd-oss/src/freebsd_oss/buffer.rs:53-67 | graph frames are the whole device frames of the same time, in bytes |
| BufferPolicy.LargestPeriod | crates/freebsd-oss/src/freebsd_oss/buffer.rs:70-75 | the largest planned period is a 2048-frame cycle or as many whole frames as fit the budget four times |
| BufferPolicy.DeliveryIsWholeFrames | crates/freebsd-oss/src/freebsd_oss/buffer.rs:262-272 | a delivery is rounded up to the fewest whole frames that hold it |
| BufferPolicy.UnderrunBand | crates/freebsd-oss/src/freebsd_oss/dsp.rs:720-736 | exactly which fills are low enough to believe a counted underrun |
| WakeTrace.NoLostWakeup | crates/core/src/node/timing.rs:83-258 | in every run of wakes, commands, cycles and device replacements, on every early exit and under re-entry from ready, a driving node with a deadline is woken in time: its timer is set to the deadline or at most an eighth of the longest period of the run later, or to a 10 ms retry |
| WakeTrace.WakeStaysAwake | crates/core/src/node/timing.rs:83-131 | whatever happened before and inside, a finished wake leaves a driving node with such a timer |
| WakeTrace.OpKeepsAwake | crates/core/src/node/commands.rs:74-131 | io changes, Start, Pause, Suspend, process with or without a finished rebuild, and device replacement keep it so |
| WakeTrace.SelectIsPrompt | crates/core/src/node/timing.rs:479-533 | the timer is set to the deadline itself without a device registration, and to an eighth of a period after it, at least 1 ns, with one |
| WakeTrace.UpdateIsPrompt | crates/core/src/node/timing.rs:543-569 | the timer fires now, retries after 10 ms without a clock, or is parked for a node that does not drive |
| WakeTrace.SetIoMeans | crates/core/src/node/commands.rs:92-125 | the role follows the two areas, and the timer is touched on a real transition only |
| WakeTrace.CycleMeans | crates/core/src/node/timing.rs:133-258 | exactly when a wake starts a graph cycle, and that the deadline then moves by the corrected period from itself, or from now if it lags more than a second |
| WakeTrace.SkippedCycleMeans | crates/core/src/node/timing.rs:133-258 | what a wake without a cycle leaves: the next wake selected if it was undrained, not for a driving node or early, a 10 ms retry if the clock failed or no cycle is set |
| WakeTrace.ProcessMeans | crates/core/src/node/process.rs:59-107 | process takes a finished rebuild over first, which fires at once, selects the next wake outside ready, and does nothing on a stopped node |
| WakeTrace.PeriodIsCorrected | crates/core/src/node/timing.rs:507-510 | a period is duration over rate times the correction, rounded down to nanoseconds |
| WakeTrace.SelectArmsIff | crates/core/src/node/timing.rs:518-533 | selecting the next wake arms a driving node exactly when a deadline is known |
| WakeTrace.RetryIsLostBeforeFirstRead | crates/core/src/node/timing.rs:543-569 | a run that loses the wake before the first clock read |
| WakeTrace.StepIsHalfAtLeast | crates/core/src/node/timing.rs:507-510 | a cycle advances the deadline by at least half a period |
| WakeTrace.DeadlineAdvances | crates/core/src/node/timing.rs:180-244 | over a steady run, without a replacement, the deadline moves by half a period per cycle at least |
| WakeTrace.CyclesAreSpaced | crates/core/src/node/timing.rs:180-244 | without a replacement in between, a cycle that follows k others starts no earlier than k half periods, less one grace, after the deadline at the run's start |
| WakeTrace.CyclesAreSpacedInTime | crates/core/src/node/timing.rs:180-244 | and no earlier than k + 1 half periods after a cycle that started at the run's start, less one grace and the second a driver may lag |
| WakeTrace.ReplacementReanchors | crates/core/src/node/rebuild.rs:325-345 | after a replacement the next wake starts a cycle exactly if it is no more than a grace ahead of the moment of the replacement |
| WakeTrace.SecondWakeIff | crates/core/src/node/timing.rs:487-495 | exactly when a second wake starts another cycle |
| WakeTrace.PairStartsOneCycle | crates/core/src/node/timing.rs:180-195 | a pair starts one cycle if its second half comes within half a period, less a grace, of the shared deadline |
| WakeTrace.LateDriverTakesBoth | crates/core/src/node/timing.rs:180-206 | a late driver whose pair starts two cycles |
| DriverTiming.DriverTiming.OnWake | crates/core/src/node/timing.rs:83-131 | the whole wake, with ready's re-entry, does what the trace says and leaves the node armed within an eighth of its period |
| DriverTiming.DriverTiming.WakeCycle | crates/core/src/node/timing.rs:133-258 | a graph cycle starts exactly for a timely edge of a driving node with a clock and a cycle to run; the deadline then moves by the corrected period, otherwise the node is left armed |
| DriverTiming.DriverTiming.SelectNextWake | crates/core/src/node/timing.rs:518-533 | without a device registration the timer is set to the deadline, with one to an eighth of a period later, written out; parked without a deadline or a driving role |
| DriverTiming.DriverTiming.UpdateDriverWake | crates/core/src/node/timing.rs:543-569 | fires at once from a fresh anchor, retries without a clock, or parks a node that does not drive |
| DriverTiming.DriverTiming.SetIo | crates/core/src/node/commands.rs:92-125 | re-arms only on a real transition and keeps an armed node armed |
| DriverTiming.DriverTiming.Start | crates/core/src/node/commands.rs:190-208 | starts only when negotiated, with a fresh role and wake |
| DriverTiming.DriverTiming.Stop | crates/core/src/node/commands.rs:227-246 | stops and parks |
| DriverTiming.DriverTiming.ProcessDataCycle | crates/core/src/node/process.rs:59-107 | a finished rebuild is taken over first; a deferred process then selects the next wake, one inside ready does not |
| DriverTiming.DriverTiming.ReplaceDevice | crates/core/src/node/rebuild.rs:160-185 | a started node fires at once from a fresh anchor when its device is replaced, and stays armed |
| Servo.ServoPort.Cycle | crates/core/src/node/timing.rs:11-79 | the raw error, cut to half the setup period or 256 frames, feeds the two stages and the integrator with the old gains; the correction is 1 - (z2 + z3), and exactly when that is outside [0.5, 2] the loop relocks; the estimator sees the same error, and a fresh loop ends at its ceiling |
| Servo.LargerErrorSlowsTheClock | crates/core/src/node/timing.rs:54-66 | from equal states a larger error never gives a larger correction, and a smaller one if the loop has any gain |
| Servo.ServoPort.CommitGeometry | crates/core/src/node/sink/buffer.rs:25-53 | a committed geometry relocks the loop; a zero period is refused |
| Servo.SpaDll.Update | crates/core/src/node/dll.rs:56-62 | the two stages and the integrator, each fed by the one before, within any bound their input respects |
| Servo.SpaDll.SetBw | crates/core/src/node/dll.rs:39-46 | the gains of a bandwidth; the input gain does not depend on the period |
| Servo.GainsOfBandwidth | crates/core/src/node/dll.rs:39-46 | the three gains as the loop's definition has them |
| Servo.BwAdapt.Update | crates/core/src/node/dll.rs:129-176 | every error is logged with its time and kind; cold start at the ceiling, retuning only after a window, to the bandwidth mean and variance ask for, within the range; nothing while unconfigured |
| Servo.BwAdapt.Estimate | crates/core/src/node/dll.rs:154-160 | the running mean and variance satisfy their recurrence |
| Servo.BandwidthAskedFor | crates/core/src/node/dll.rs:172-173 | a thousandth of mean plus deviation, cut to the range |
| Servo.ForgivenVariance | crates/core/src/node/dll.rs:158-171 | of a fill reading's variance a 24th of the squared step is forgiven, of a timestamp's nothing |
| Servo.BwCap | crates/core/src/node/dll.rs:109-114 | the ceiling lies between the two classic bandwidths |
| Servo.CapIff | crates/core/src/node/dll.rs:109-114 | the classic maximum exactly up to deliveries of one period, the classic minimum from eight on, inversely proportional between |
| Servo.MixStaysWithin | crates/core/src/node/dll.rs:56-62 | a stage that starts and is fed within a bound stays there |
| Servo.TuneStaysBounded | crates/core/src/node/dll.rs:39-46 | retuning keeps the bounds |
| Xrun.XrunTracker.Observe | crates/core/src/backend/mod.rs:619-672 | the reported events, frames and bytes, the new baseline, also when another counter replaces the one remembered; other units are untouched |
| Xrun.GainIsSinceTheBaseline | crates/core/src/backend/mod.rs:598-616 | a gain leads from the baseline to the reading: under a modulus it is the one number below it that does, without one the difference or, after a restart, the whole reading |
| Xrun.ReadingIsExactIff | crates/core/src/backend/mod.rs:598-616 | a reading reports the events since the last one modulo 2^32, so exactly those if and only if they are fewer |
| Xrun.EventsAreConserved | crates/core/src/node/state.rs:254-275 | over any interleaving of wakes, polls, other units and new epochs, reported equals happened |
| Xrun.SnapshotAcrossClear | crates/core/src/backend/mod.rs:598-616 | across an unobserved clear nothing is reported twice, and everything is reported exactly if nothing was lost and the clear shows |
| Negotiation.RawAudio.SnapToCaps | crates/core/src/node/format.rs:10-107 | the request is rewritten in place to the first closest format, channel count with its layout's own positions, and rate of the chosen configuration, and true is returned exactly when format, channels or rate differ |
| Negotiation.Choose | crates/core/src/node/format.rs:16-48 | the chosen configuration is the first lexicographically nearest that offers a format |
| Negotiation.SnapToIsNearest | crates/core/src/node/format.rs:50-104 | within a configuration the result is spelled out: the count and positions of the first closest layout, or AUX 0, 1, ..., and the first closest rate, or the rate cut to the range |
| Negotiation.ChosenIsNearest | crates/core/src/node/format.rs:16-48 | the chosen configuration compared with every other by format, closest count, closest rate and preference, without naming the distances |
| Negotiation.DistancesAreAttained | crates/core/src/node/format.rs:22-44 | each distance is that of some offered value, and no offered value is closer |
| Negotiation.SnapIsAdmitted | crates/core/src/backend/mod.rs:1366-1384 | for well-formed caps the snapped format is admitted |
| Negotiation.RateAdmittedIff | crates/core/src/backend/mod.rs:1337-1346 | a range admits a rate exactly when one of its rates is within the tolerance |
| Negotiation.LayoutsOffered | crates/core/src/backend/mod.rs:1251-1271 | the layouts compared are those of exactly the admitted channel counts |
| Negotiation.SnapIsNearest | crates/core/src/node/format.rs:16-48 | no configuration is nearer than the one snapped to |
| Negotiation.SnapIsIdempotent | crates/core/src/node/format.rs:10-107 | a second snap changes nothing |
| Negotiation.SnappedFits | crates/core/src/node/format.rs:50-104 | a configuration admits what is snapped to it |
| Negotiation.ArgMin | crates/core/src/node/format.rs:60-66 | the first of the smallest distances |
| ChannelMap.AdmitsReorder | crates/core/src/backend/mod.rs:1290-1295 | the rule accepts exactly the permutations without repetition |
| ChannelMap.Pigeonhole | crates/core/src/backend/mod.rs:1290-1295 | as many distinct advertised places as advertised use each once |
| ChannelMap.NativeChannelOrder | crates/freebsd-oss/src/freebsd_oss/backend.rs:224-285 | refused unless a reordering of the default; none exactly for the default, else the order word of the request |
| ChannelMap.EncodeDecodes | crates/freebsd-oss/src/freebsd_oss/backend.rs:257-270 | the word's digits are the requested channels |
| ChannelMap.DefaultsDecode | crates/freebsd-oss/src/freebsd_oss/backend.rs:212-222 | the default words decode to the default channels |
| ChannelMap.StandardReorderingsAreNative | crates/freebsd-oss/src/freebsd_oss/backend.rs:162-184 | every admitted reordering of a standard map has a native order that decodes back |

## Left out

- System calls, ioctls, kqueue and devd decoding, descriptors, sysctl and sndstat parsing: foreign calls, represented by their results only.
- SPA vtables, version gates, raw pointer projection, pods, dictionaries and log output: plumbing around the modelled logic.
- Direct result emissions to the listener being greeted (crates/core/src/spa/hooks.rs:160-190) and format publication epochs: they bypass the notification queue.
- Node teardown, thread start-up and the BUSY state of the mailboxes in the rebuild protocol: moves through a mailbox are single steps, and the process is alive throughout.
- Several ports per node: the program itself fixes the number at one.
- Pause and resume with a shadowed queue (crates/freebsd-oss/src/freebsd_oss/dsp.rs:905-960): only the flag they set is read by the model.
- Diagnostics, rate-limited messages and the low-water and wake-threshold settings of the streams.
- Rounding of floating point and the precision of sleeping: reals and abstract retries.
- Volume curves, routes, profiles and property parsing: no state machine behind them.
- Hooks.ListenerList.Unregister: finds the list that holds the hook by searching; the program unlinks it through its own links and trusts the client that it is linked.
- EventHub.EventHub.AddListener: does not use the linked lists of `Hooks`; the active list and its cursor are sequences there, which is what `ForEachHook` is proved to implement.
- DspWriter.DspWriter.Write: does not model 32-bit overflow of byte counts; buffers and strides are taken to be far below 2^31.
- DspWriter.DspWriter.RealignWithSilence: does not model an open frame that lacks more than the 4096 bytes of the repair buffer, on which the program panics.
- WakeTrace.NoLostWakeup: does not model a failing arm operation or 64-bit wrap of clock times.
- WakeTrace.CyclesAreSpaced: does not model rounding in the period computation.
- Rebuild.NoStaleCompletion: does not model 64-bit wrap of the generation number.
- Catalog.DeviceCatalog.Rescan: does not model names as strings; a name is its rank in string order, and a detach subject is already decoded.
- Monitor.Monitor.OnHotplug: does not model a hotplug event inside a listener callback; events of the main loop do not nest.
- Servo.ServoPort.Cycle: does not model a port that is skipped while it recovers; such a cycle leaves the servo untouched.
