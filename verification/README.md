# Verified models of a CoreSight fuzzing proxy

The proxy sits between AFL++ and a target traced by Arm CoreSight hardware. For
each test case it obtains a parked child from a fork server inside the target,
opens a trace window, lets the child run, decodes what the hardware wrote, and
leaves a coverage map for AFL++. This project models the four stateful parts of
that loop and proves what they keep over whole runs:

- **Hybrid coverage** (`Coverage*`, `Hybrid*`). Each input runs in path mode;
  a new path is confirmed by an edge pass, anything else is discarded and shown
  a remembered map. `Hybrid` holds the transitions, `HybridRuns` the runs,
  `HybridEngine` and `HybridProxy` the array code proved to take exactly those
  transitions. The other `Hybrid*` modules prove the run properties.
- **Decoder handshake, ring, buffer and trace windows** (`Handshake`,
  `HandshakeDrains`, `HandshakeLeftovers`, `HandshakeWindows`, `EtrRing`,
  `TraceBuffer`, `TracePath`, `EtmWindow`, `EtmDriver`).
- **Frequency governor** (`Governor`, `GovernorClimb`, `RetryLoop`,
  `GovernorSessions`, `FreqGovernor`, `FreqTable`, `CpuPolicy`,
  `CpufreqDriver`, `PinnedSessions`).
- **Nested fork-server protocol** (`ForkServer`).

State that the source updates in place is a class (`Engine`, `GovernorState`,
`Driver`, `Buffer`, `Tracer`) or an array method; each such method is proved
equal to a pure transition, and the run lemmas are about those transitions. The
two protocols are state machines whose runs are arbitrary interleavings of
atomic steps. All modules verify together with `dafny verify dfyconfig.toml`.

## Results that contradict an expectation

- *`virgin_atom` inside `virgin_atom_real`* is not an invariant, because a purge
  can fire inside a confirm between the two clears. `ContainmentCanBeLost` gives
  a run, `ContainmentIff` the exact condition over every run,
  `ContainmentLostIff` the test case that loses it, `StraysAreOnePath` the bound
  that always holds.
- *All discards of one input show one map* fails when the first of them was
  answered with nothing, its path's confirm having overflowed or its path having
  added no bits and never been confirmed. `DiscardsCanDiffer` gives a run,
  `DiscardsAgreeIff` the exact condition, read off the run's history.
- *A drain only happens inside an open attempt's window.* When the child dies
  during a drain, the decoder thread can open the sinks again after `stop_trace`
  closed them (src/common.c:217-236 against src/common.c:986).
  `SinksLeftOpenIff` says exactly when, by where the decoder is as `stop_trace`
  closes them; `SinksCanBeLeftOpen` reaches it. The next attempt then opens a
  window on top of another, and under the PID filter its comparators are written
  while the ETMs trace: `ComparatorsCanBeWrong` gives the run,
  `OpenWindowIsRightIff` the exact condition. Without draining (the Stalker backend) none of this can happen.
- *A drain happens only while the child is stopped.* `suspend_pending` survives
  from one attempt to the next: between attempts it is set exactly when no drain
  was waiting for it as the exit was signalled (`SuspendLeftSetIff`), and always
  without draining (`SuspendAtIdleIff`). A drain can then take a notice older
  than its own SIGSTOP and fetch before the child stops (`DrainCanFetchEarly`).
  `FetchesEarlyIff` is the exact condition, `FreshDrainsAreHalted` what every
  other drain has.
- *A forced-minimum run is not evidence*, says the comment at
  src/freq_gov.c:478-479; `freq_gov_on_result` counts it all the same. The index
  stays where the retries put it exactly when the forced run is clean
  (`ForcedRunCountsIff`). The model follows the code.
- *The write cursor stays inside the trace buffer* exactly when the buffer is a
  whole number of 8-byte words (`CursorsInOrderIff`); src/common.c:631-632 takes
  the ETR's size as it is.
- *An open window is traced* in every build that cycles the ETMs; in the others a
  `disable_trace` leaves them off for every later window until the next
  reconfiguration (`OpenWindowTracesIff`). The proxy never asks for one.
- *The direct ETR read* is exact if and only if the hardware's wrap flag tells
  whether the ring was filled (`ReadIsExactIff`): always from the base, and from
  any other start unless the stream passes the end without filling the ring
  (`ReadAfterIsExactIff`).

## Hypotheses

- Handshake: decoding is on, `start_trace` succeeds, no drain takes an error
  exit, the trace does not grow and nobody kills a child before it is first
  resumed, no signal but SIGSTOP stops a child (any other stop takes the exit
  branch at src/cs-proxy.c:353-355 with the child still there, so the decoder
  would poll it for ever), `fini_trace` has not been called.
- Fork server: every forked child reaches its SIGSTOP and stays parked until it
  is resumed; no read or write fails.
- Hybrid: executions that crash or time out bypass the engine and are not part
  of its runs. The checksum of a map is an arbitrary function. A test case
  carries every map its passes would decode, so any sequence of test cases is a
  run.
- CPU policy: a write that would make the minimum exceed the maximum is refused,
  as is a speed without the userspace governor; the policy found at start-up is
  readable and within the hardware bounds.
- Trace buffer: a byte count fits an `int` and a read returns at most what was
  pending. The wrap flag is set when the write pointer comes round to the base.
- ETMs: writing back a configuration enters programming mode and starting a
  trace leaves it; pids are positive; the branch-broadcast bits start clear
  (`ModesAgreeIff` proves this necessary).

## Model

| member | source | states |
|---|---|---|
| Coverage.ClassesAreOrderedBits | src/hybrid.c:87-91 | a hit-count class is a single bit, zero exactly for count zero, monotone in the count, and changes exactly at counts 1, 2, 3, 4, 8, 16, 32 and 128; classifying twice changes exactly the classes of counts 3 to 31 |
| Coverage.NoNewBits | src/hybrid.c:206-217 | the verdict is 0 exactly when the virgin map already covers the classified map, and clearing then changes nothing |
| Coverage.ClearingLowersSetBits | src/hybrid.c:206-217 | clearing never adds virgin bits and removes at least one when the verdict is nonzero |
| Coverage.ClearingKeepsReached | src/hybrid.c:233-239 | clearing never lowers the count of reached bytes and raises it on verdict 2 |
| CoverageLoops.Classify | src/hybrid.c:125-128 | the loop leaves the classified copy and touches nothing else |
| CoverageLoops.HasNewBits | src/hybrid.c:206-217 | returns 2 for a byte reached for the first time, 1 for only a new class, 0 otherwise, and leaves the virgin map cleared by the classes |
| CoverageLoops.PeekNewBits | src/hybrid.c:220-231 | returns what `has_new_bits` would on the same maps despite its early exit, changing nothing |
| CoverageLoops.CountReached | src/hybrid.c:233-239 | counts exactly the bytes that are not 255 |
| HybridShadow.Shadow | src/hybrid.c:206-217 | after every run `virgin_edge` equals the map AFL++ gets by folding every map it was shown, and every cached or remembered map is covered by it |
| HybridShadow.VerdictsAgreeWithAfl | src/hybrid.c:291-385 | in every run a discard shows AFL++ no new bit, and new edges and tuples are counted exactly when AFL++ sees them |
| HybridResidue.StraysAreOnePath | src/hybrid.c:244-277 | after every run, bits virgin in `virgin_atom` but not in `virgin_atom_real` lie inside the classified path of the confirm where the latest purge fired with new edges, and there are none if it fired elsewhere or never |
| HybridResidue.ContainmentLostIff | src/hybrid.c:359-374 | a test case breaks containment exactly when its confirm purges, finds new edges and its path has a bit still virgin in `virgin_atom_real` |
| HybridResidue.StraysStep | src/hybrid.c:321-374 | from any state, the exact bits virgin in `virgin_atom` but not in `virgin_atom_real` after a test case: the path's bits still virgin in the latter when its confirm purges with new edges, none after any other purge, unchanged for a filtered path, and otherwise those before without the path's |
| HybridResidue.ContainmentIff | src/hybrid.c:244-374 | after every run containment fails exactly when the latest purge fired in a confirm with new edges and some bit of its path that had led to no new edge before has been on no unfiltered path since |
| HybridResidue.ContainmentCanBeLost | src/hybrid.c:244-277 | at every nonzero map size, a run of 2998 test cases on two paths that differ in one byte, under any checksum whose low half tells them apart, ends with containment broken |
| HybridPacing.TickKeepsPace | src/hybrid.c:244-277 | a purge is attempted exactly when the interval has elapsed and performed exactly when also wanted; the clock invariant is kept |
| HybridPacing.Pacing | src/hybrid.c:244-277 | in every run the interval lies in [2857, 30000], purges never exceed attempts, and 2857 * attempts <= real_execs < 30000 * (attempts + 1) |
| HybridPurges.PathPassPurges | src/hybrid.c:244-252 | at every test case of every run the path pass works on `virgin_atom_real` exactly when the interval has elapsed and the positions shown to AFL++ grew by at most 1% since the last attempt or twice the positions of `virgin_atom_real` are fewer than those of `virgin_atom`, and on `virgin_atom` otherwise |
| HybridPurges.ConfirmPassPurges | src/hybrid.c:359-368 | the confirm decides by the same rule, with the path's bits already cleared and before any edge is |
| HybridPurges.NotedIsShown | src/hybrid.c:274-276 | what the last attempt noted is the number of positions AFL++ had been shown by then |
| HybridPurges.VerdictIff | src/hybrid.c:321-357 | at every test case of every run a discard happens exactly when the checksum is filtered or the path map after that decision covers the classified path |
| HybridPurges.IntervalInRun | src/hybrid.c:255-267 | in every run the interval changes only at a purge from the twenty-first on, to 3000, 7500, 15000 or 30000 by the share of confirms below 1/10, 1/4 or 1/2, times attempts per purge, rounded down and at most 30000 |
| HybridPurges.FirstIntervals | src/hybrid.c:75-75 | until the twenty-first purge the interval is 3000 |
| HybridPacing.Conservation | src/hybrid.c:303-357 | in every run each path execution is filtered, old or confirmed, each discard is an input hit, a cache hit or empty, and real_execs = path_execs + confirms |
| HybridCounters.CountersCount | src/hybrid.c:303-405 | after every run each counter is the number of test cases of its own kind: filtered, old, confirmed, answered from the input cache, from the path cache, with nothing, sampled, sampled with overflow, and samples that would have shown AFL++ a new bit or position, filtered or not |
| HybridPacing.Budget | src/hybrid.c:342-370 | in every run confirms plus virgin path bits stay within 8 * map_size * (1 + purges), new edges plus virgin edge bits within 8 * map_size, new tuples within the reached bytes |
| HybridFilter.TablesRecordHistory | src/hybrid.c:371-374 | after every run each half table holds exactly the halves of the checksums whose confirm found nothing |
| HybridFilter.FilteredIff | src/hybrid.c:334-340 | a checksum is filtered exactly when its upper 16 bits and its lower 16 bits each occur in some marked checksum |
| HybridFilter.NeverForgets | src/hybrid.c:334-374 | once a path's confirm found no new edge, every later execution with its checksum is discarded, through any number of purges |
| HybridCaches.CacheIsLatestEntry | src/hybrid.c:376-384 | a cache slot holds the latest overflow-free confirm that maps to it |
| HybridCaches.CacheHitIsLatestConfirm | src/hybrid.c:303-319 | a path-cache hit shows the edge map of the latest overflow-free confirm with that very checksum |
| HybridCaches.ConfirmedPathKeepsItsMap | src/hybrid.c:376-382 | a discard of an input nobody asked for shows the edge map of the overflow-free confirm of its checksum unless a checksum congruent to it modulo 256 was confirmed since |
| HybridCaches.ConfirmedInputKeepsItsMap | src/hybrid.c:291-301 | every later discard of an input shows the edge map of its first overflow-free confirm unless a key congruent to it modulo 64 asked for one since |
| HybridCaches.RememberedStays | src/hybrid.c:291-301 | a remembered map stays until another key is remembered in its slot |
| HybridCaches.DiscardsAgree | src/hybrid.c:291-319 | after an answered discard, every later discard of that nonzero key shows the same map unless another key displaced it |
| HybridCaches.DiscardsAgreeIff | src/hybrid.c:303-319 | two discards of one key with nothing displacing it differ exactly when the first was answered with nothing and the history gained a nonempty map in between: the first one asked for on the key's behalf or, if none was, that of the latest overflow-free confirm with the path's checksum, not evicted from its slot |
| HybridCaches.UnansweredThenShown | src/hybrid.c:291-319 | after an unanswered discard a later one of the key shows a nonempty map exactly when the history gained one |
| HybridCaches.DiscardsCanDiffer | src/hybrid.c:303-319 | at every nonzero map size and under any checksum, a run of four test cases in which one input is shown an empty map and then another |
| HybridSampling.ErasedStateAgrees | src/hybrid.c:387-405 | erasing every sample from a run leaves all state but the sample counters and map unchanged |
| HybridSampling.SamplingIsNonInterfering | src/cs-proxy.c:478-499 | erasing every sample from a run leaves every verdict and every map shown to AFL++ unchanged |
| HybridSampling.MissedIff | src/hybrid.c:387-405 | a position is missed exactly when some sampled discard reached it and no shown map ever did |
| HybridSampling.CountMissed | src/hybrid.c:408-415 | counts exactly the missed positions |
| HybridEngine.Engine.constructor | src/hybrid.c:103-121 | the initial state, with separate maps |
| HybridEngine.Engine.PurgeCheck | src/hybrid.c:244-277 | the in-place purge check takes the specified clock and map transition |
| HybridEngine.Engine.RememberInput | src/hybrid.c:291-301 | the input slot after remembering, all else unchanged |
| HybridEngine.Engine.AnswerDiscard | src/hybrid.c:303-319 | the shared map becomes the answer, and counters and input cache follow |
| HybridEngine.Engine.AfterPath | src/hybrid.c:321-357 | the in-place path pass equals the specified transition, verdict and shown map |
| HybridEngine.Engine.AfterConfirm | src/hybrid.c:359-385 | the in-place confirm equals the specified transition, with the purge between the two clears |
| HybridEngine.Engine.AfterSample | src/hybrid.c:387-405 | the in-place sample equals the specified transition |
| HybridProxy.RunTestCase | src/cs-proxy.c:457-499 | the proxy's path, confirm or sample sequence with its saved copy of the map plays exactly one test case of a run |
| FreqTable.UnsortedInRange | src/freq_gov.c:148-176 | whatever the file lists, every table entry lies within the hardware bounds |
| FreqTable.InRangeLists | src/freq_gov.c:163-168 | the filter keeps each frequency within the bounds as often as the file lists it, and no other |
| FreqTable.FillTable | src/freq_gov.c:148-176 | the loop keeps, in file order, as many in-range frequencies as fit, or both bounds when there is none |
| FreqTable.SortTable | src/freq_gov.c:178-187 | the in-place insertion sort leaves a sorted permutation and does not touch the rest |
| FreqTable.ReadTable | src/freq_gov.c:148-187 | the finished table is sorted and within the bounds: exactly the two bounds if the file lists none within them, else each listed frequency within them as often as it is listed, or the first 64 of those |
| Governor.AlwaysConsistent | src/freq_gov.c:502-548 | every interleaving of results of both modes, ramps and copies keeps the governor's invariant |
| Governor.WindowInvariants | src/freq_gov.c:502-548 | in every run indices stay in the table, the interval in [100, 1000], the ATOM clean count below the adapting interval, the ADDR one below 1000, and 100 * stable + clean within total minus overflowed |
| Governor.OptIndexIsRoundedMean | src/freq_gov.c:314-323 | `opt_freq` rounds the mean stable index to the nearest and its clamp never acts |
| Governor.SettledIsLastClean | src/freq_gov.c:444-468 | a ramp settles on the last rung before the first overflow, or on the floor |
| GovernorClimb.WithinWindow | src/freq_gov.c:519-522 | with a fixed window, fewer clean results in a row than it still asks for change neither the index nor the stable count |
| GovernorClimb.WindowClimbs | src/freq_gov.c:519-537 | the clean result that completes a window raises the index by exactly one, to the top at most, and records one stable window at the index it ran |
| GovernorClimb.WindowsClimb | src/freq_gov.c:519-537 | k whole clean windows climb k rungs, or to the top |
| GovernorClimb.WindowIsFifth | src/freq_gov.c:541-547 | between 100 and 1000 the window is a fifth of the executions per overflow, rounded down |
| GovernorClimb.WindowFollowsPathMode | src/freq_gov.c:540-547 | in every run the window is 100 in edge-only mode, 1000 before the first path-mode overflow, and then set by the path mode's counts alone |
| GovernorClimb.StartsAtTop | src/freq_gov.c:422-424 | without a ramp the first execution of either mode runs at the top of the table |
| GovernorClimb.HybridStart | src/cs-proxy.c:537-544 | hybrid's calibration starts both modes on the last rung before the edge pass's first overflow, or on the floor |
| RetryLoop.PreciseTestCase | src/cs-proxy.c:692-740 | for every overflow pattern an ADDR test case runs the schedule of its starting index cut at the first clean attempt |
| RetryLoop.RetriesAreBounded | src/cs-proxy.c:692-740 | at most five attempts at strictly falling indices, all but the last overflowed, nothing forced left pending |
| RetryLoop.AllOverflow | src/freq_gov.c:552-568 | if all overflow the whole schedule runs: down to 0 from 3 or less, 4,3,2,1 from 4, and k to k-3 then 0 from 5 or more |
| RetryLoop.PathTestCase | src/freq_gov.c:552-563 | a path-mode test case runs exactly once |
| RetryLoop.DisabledTestCase | src/freq_gov.c:552-568 | a disabled governor runs each test case once and changes nothing |
| GovernorSessions.NoForcedRunLeaks | src/freq_gov.c:473-500 | over any session of test cases in both modes, confirms, samples, ramps and copied starts, no forced-minimum run is pending when the next work starts |
| GovernorSessions.SamplesSpareThePathPass | src/cs-proxy.c:478-499 | erasing every sampled edge pass from any session after calibration leaves the path pass's whole search and the shared window unchanged |
| RetryLoop.ForcedRunCountsIff | src/freq_gov.c:473-548 | from index k >= 5 with four overflows the fifth attempt runs at 0, and the index ends at k - 4 exactly when that forced run is clean and at k - 5 exactly when it overflows |
| RetryLoop.EveryOverflowCounts | src/freq_gov.c:502-530 | a test case whose first attempt overflows ends one rung down, to the floor at most, for each of its overflowing attempts, the forced one included |
| FreqGovernor.GovernorState.OnResult | src/freq_gov.c:502-548 | the in-place update equals the specified step |
| FreqGovernor.GovernorState.Calibrate | src/freq_gov.c:444-468 | the ramp loop settles where specified and stops after the first overflow |
| FreqGovernor.GovernorState.Apply | src/freq_gov.c:473-486 | the index run at, and the forced run consumed |
| FreqGovernor.GovernorState.RunTestCase | src/cs-proxy.c:692-740 | the retry loop makes exactly the specified attempts and terminates |
| FreqGovernor.RampSettles | src/freq_gov.c:444-468 | with the first overflow at rung i the ramp makes i + 1 runs and settles one rung below |
| CpuPolicy.PinIsAccepted | src/freq_gov.c:195-217 | the four writes of a pin are all accepted and pin minimum, maximum and speed |
| CpuPolicy.RestoreIsAccepted | src/freq_gov.c:378-420 | from any usable policy the staged operations are all accepted and reinstate the saved one |
| CpuPolicy.RestoreAfterAnyCut | src/freq_gov.c:230-243 | cut any run between any two writes, also inside a restore: restoring is accepted throughout, gives back the policy found, and doing it again changes nothing |
| CpuPolicy.SkippingIsInvisible | src/freq_gov.c:195-217 | after every call of every run, skipping redundant writes leaves the policy that always writing would |
| CpuPolicy.WritesPerChange | src/freq_gov.c:195-217 | a run of settings makes four writes for each change of frequency and none for a repetition |
| CpuPolicy.LastTargetIsPinned | src/freq_gov.c:195-217 | while the governor runs the policy is pinned to the last frequency asked for and no write is refused |
| PinnedSessions.RunsAtItsFrequency | src/cs-proxy.c:373-405 | in every session of test cases, confirms, samples and ramps every execution runs with the policy pinned to the table's frequency at its index, the proxy's work after it at the maximum, and no write is refused |
| PinnedSessions.SessionInTable | src/freq_gov.c:444-486 | every index any session runs at is a rung of the table |
| PinnedSessions.RetriesSlowDown | src/freq_gov.c:178-187 | with the table sorted, no attempt of a precise test case runs faster than an earlier one |
| PinnedSessions.SessionCounts | src/cs-proxy.c:457-499 | over every session each mode's execution and overflow counts are those of its own attempts, confirms and samples, ramps left out |
| CpufreqDriver.Driver.constructor | src/freq_gov.c:378-420 | the staged operations are the restore of the policy found, none dropped for want of room |
| CpufreqDriver.Driver.SetFreq | src/freq_gov.c:195-217 | the write sequence equals the specified step |
| CpufreqDriver.Driver.RestoreSystem | src/freq_gov.c:230-243 | the replay loop equals writing the staged operations in order |
| EtrRing.RingContents | src/common.c:579-601 | where each of the newest captured bytes lies in the ring, for any start and any amount |
| EtrRing.ReadIsExactIff | src/common.c:579-610 | the read returns exactly the newest min(written, size) bytes in order if and only if the wrap flag says whether the ring was filled |
| EtrRing.ReadAfterIsExactIff | src/common.c:579-610 | with the flag set by the write pointer coming round, the read is exact unless the stream passes the end of the ring without filling it |
| EtrRing.ReadFromBaseIsExact | src/common.c:579-610 | a ring emptied to its base is read exactly, whatever amount was written |
| EtrRing.DirectRead | src/common.c:603-610 | the two copies place those bytes at the cursor and nothing elsewhere |
| TraceBuffer.HandedOnceInOrder | src/common.c:833-919 | removing the alignment gaps from what the decoder took leaves the fetched bytes, each once and in order |
| TraceBuffer.WholeFramesHaveNoGap | src/common.c:833-919 | chunks of whole 8-byte frames are handed over without any gap |
| TraceBuffer.GrownSize | src/common.c:833-898 | doubling terminates with the least power-of-two multiple that fits |
| TraceBuffer.Buffer.Reset | src/common.c:613-644 | a new execution starts with both cursors at the base, keeping the pages or mapping max(ETR, 8 MiB) afresh, for every ETR size |
| TraceBuffer.WholeRingFits | src/common.c:629-632 | a fresh mapping is the larger of the ETR and 8 MiB |
| TraceBuffer.Buffer.Fetch | src/common.c:833-898 | tells whether the cursor stays inside; if so the chunk lands 8-aligned, the buffer grows as needed, earlier bytes and the decode cursor stay, and base <= decoded <= write cursor <= end; it always does for a buffer of whole words, which stays one |
| TraceBuffer.CursorsInOrderIff | src/common.c:854-891 | the write cursor stays within the buffer over every sequence of fetches if and only if the buffer's size is a multiple of 8 |
| TraceBuffer.FillThenFetch | src/common.c:854-859 | a buffer of any other size, filled and then fetched into once more, has its cursor past the end: the remaining size wraps and nothing grows |
| TraceBuffer.Buffer.Decode | src/common.c:900-919 | a decode takes everything not yet decoded; on success all fetched bytes have been handed over once in order, on failure the cursor stays |
| TracePath.CollectTrace | src/common.c:833-919 | over any sequence of streams, each captured into a ring emptied to its base and fetched, with decodes anywhere in between, what the decoder took without gaps is the newest bytes of every stream in order, and it is the whole trace exactly when every stream fits the ring |
| TracePath.NothingLostIff | src/common.c:579-610 | the concatenated reads equal the concatenated streams exactly when every stream fits the ring |
| Handshake.StepKeepsInv | src/common.c:158-304 | every step of proxy, decoder, child and relay keeps the handshake invariant |
| Handshake.StopReturnsAfterDecode | src/common.c:982-1010 | `stop_trace` returns only after the final fetch and decode of that same attempt |
| Handshake.IdleIsClean | src/common.c:935-1010 | between attempts start and stop are clear, the decoder waits for a start, the child is gone and the status pipe empty |
| Handshake.NeverBothBlocked | src/common.c:167-177 | both threads wait only while a status of the child is already on its way |
| Handshake.NeverStuckOnceGone | src/common.c:186-304 | with the child gone some thread can always step until `stop_trace` returns |
| Handshake.ReturnsWithinRank | src/common.c:186-304 | with the child gone every schedule returns from `stop_trace` within a bounded number of steps |
| Handshake.SinksBetweenAttempts | src/common.c:772-799 | without draining the sinks are closed between attempts; with it they are open only if a drain opened them after `stop_trace` had closed them |
| HandshakeLeftovers.SinksLeftOpenIff | src/common.c:982-1010 | from every reachable state in which `stop_trace` is about to close the sinks, and under every schedule afterwards, they are open between attempts exactly when a drain that had not opened them again was under way at that moment |
| HandshakeLeftovers.SuspendLeftSetIff | src/common.c:930-932 | from every reachable state in which the exit is about to be signalled, and under every schedule afterwards, the suspend flag is set between attempts exactly when the decoder was not waiting for it at that moment |
| Handshake.SuspendCanBeLeftSet | src/common.c:930-932 | a reachable idle state with a suspend still pending, with or without draining |
| Handshake.SinksCanBeLeftOpen | src/common.c:217-236 | a reachable idle state with the sinks open |
| HandshakeDrains.SuspendAtIdleIff | src/common.c:921-932 | after every run that ends between attempts the suspend flag is set exactly when no drain took it after the last exit was signalled, and always without draining |
| HandshakeDrains.LeftoverIsStale | src/common.c:203-215 | a flag left set stays a notice until a drain takes it, so the next SIGSTOP is stale |
| HandshakeDrains.FreshDrainsAreHalted | src/common.c:203-226 | in every interleaving a drain whose SIGSTOP was sent with no notice on its way has its child stopped and reported, or dead, throughout |
| HandshakeDrains.FetchesEarlyIff | src/common.c:203-226 | from every reachable state about to stop a running child, some schedule fetches before it stops exactly when a notice is already on its way |
| HandshakeDrains.DrainCanFetchEarly | src/common.c:203-226 | a reachable state in which a drain has fetched and its child has not stopped |
| HandshakeWindows.WindowsAlternateIff | src/common.c:186-258 | in every interleaving windows open only on closed sinks exactly when no attempt arms sinks left open; always so without draining |
| HandshakeWindows.OpenWindowIsRight | src/common.c:706-770 | for every such interleaving, with mode changes anywhere, an open window has every comparator at the child's pid and every mode in agreement |
| HandshakeWindows.OpenWindowIsRightIff | src/common.c:706-770 | for every interleaving, with mode changes anywhere, an open window has every comparator at the child's pid exactly when it was not armed on sinks left open with no mode change since |
| HandshakeWindows.ComparatorsCanBeWrong | src/config.c:553-561 | whatever pids the children have, a run of two attempts whose calls, each carrying the pid of its own attempt's child, leave the second child's window open with some comparator not at its pid, on every board with the PID filter |
| HandshakeWindows.CallsMakeWindows | src/common.c:217-226 | the calls read off a run of the two threads open and close exactly the run's windows, each for a child with a pid |
| HandshakeWindows.SinksCanBeArmedOpen | src/common.c:935-979 | with draining, a second attempt can be about to arm sinks still open |
| EtmWindow.ModesAgreeIff | src/common.c:417-435 | over all runs, whatever reconfiguring wipes, every ETM's bb bit, `current_bb_mode` and Stalker's mode equal the mode last requested whenever a window is open, if and only if the bits start clear |
| EtmWindow.ComparatorsIff | src/config.c:512-574 | under the PID filter an open window has every comparator at its child's pid, written in programming mode, exactly when it was not opened straight on top of another |
| EtmWindow.ClosedIsProgrammable | src/config.c:576-606 | under Stalker or the PID filter, while the next opening will not reconfigure (configured, and no mode change since), every ETM is in programming mode exactly while the window is closed |
| EtmWindow.OpenWindowTracesIff | src/config.c:553-561 | in every build and after every run an open window has every ETM tracing exactly when the build cycles the ETMs or they were not all turned off since the last reconfiguration |
| EtmWindow.UnfilteredComparators | src/common.c:714-727 | without the PID filter the comparators keep the pid of the last reconfiguration, the child's under Stalker and the one passed on otherwise |
| EtmWindow.AlternatingNeverOverlaps | src/config.c:512-606 | strictly alternating windows never overlap, mode changes aside |
| EtmWindow.OverlapsIff | src/config.c:512-606 | an open window overlaps another exactly when its opening followed an opening with no mode change in between |
| EtmDriver.Tracer.SetEtmBbMode | src/config.c:339-388 | the loop sets every ETM's bb bit and leaves it tracing |
| EtmDriver.Tracer.ConfigureTrace | src/config.c:273-334 | the two passes clean every ETM and program every comparator |
| EtmDriver.Tracer.EnableTraceSinksOnly | src/config.c:512-574 | each ETM is retargeted and cycled exactly in the builds that cycle |
| EtmDriver.Tracer.DisableCsTrace | src/common.c:772-799 | closes the window and returns the ETMs to programming mode in the builds that cycle |
| EtmDriver.Tracer.TraceSetBbMode | src/common.c:417-435 | the in-place mode change equals the specified call |
| EtmDriver.Tracer.EnableCsTrace | src/common.c:706-770 | both branches of opening a window equal the specified call |
| ForkServer.StepKeepsInv | libforksrv/libforksrv.c:77-135 | every step of proxy and fork server keeps the protocol invariant |
| ForkServer.OuterLockstep | src/cs-proxy.c:692-763 | in every run AFL++ gets one pid then one status per request, and between test cases both inner pipes are empty |
| ForkServer.StatusOfLastAttempt | src/cs-proxy.c:580-585 | the reported pid is the first main attempt's and the status is the final one of the last main attempt, whatever hidden runs occurred |
| ForkServer.LoopsLeaveTogether | src/cs-proxy.c:345-363 | both inner loops leave on the same message, which is any status but a stop by signal 19 |
| ForkServer.RelayEndsOn | libforksrv/libforksrv.c:121-133 | once the fork server has relayed an exit, a death by a signal or a stop by another signal it listens again; after a stop by signal 19 it waits on |
| ForkServer.ReadEndsOn | src/cs-proxy.c:349-357 | the proxy's read of such a status ends the execution with nothing left in the pipes, and its read of a stop by signal 19 does not |
| ForkServer.LastStatusIsReported | src/cs-proxy.c:692-763 | whatever ends the last main attempt, a crash included, is the status AFL++ is sent, whatever confirm or sample runs before the report |
| ForkServer.ExecutionsInOrder | src/cs-proxy.c:502-578 | within a test case no ramp goes on once its replacement was asked for, and after a confirm or sample there is no main attempt and no second one before the report |
| ForkServer.PidIsAPid | src/cs-proxy.c:316-328 | what the proxy reads as a pid is the pid of a parked child |
| ForkServer.NobodyWaitsInVain | libforksrv/libforksrv.c:77-135 | a proxy waiting for a reply finds the fork server able to step |

## Left out

- CSAL register access, device registration and board tables: foreign calls and constants.
- The decoders: a decode is an arbitrary map and an overflow flag.
- File, procfs and sysfs parsing, CPU affinity, ptrace helpers, trace export, src/cs-trace.c and src/stalker.c: plumbing and thin drivers.
- `hash32` and the FNV-1a input key: arbitrary functions, since no property depends on their mixing.
- Rounding of the purge heuristic's `double` arithmetic: exact rationals, and the stated bounds have slack for it.
- Wrap-around of 64-bit counters: counters are mathematical integers.
- Crashed and timed-out executions in hybrid mode: they bypass the engine and keep the path map.
- HybridEngine.Engine.AnswerDiscard: cache slots, input slots and filter tables are sequence fields, not separately allocated buffers, so their aliasing is not modelled; the virgin and classified maps are arrays.
- Error exits, allocation failure, pid reuse and `fini_trace`.
- Early death of a child before its SIGSTOP, where libforksrv/libforksrv.c:110-115 sends a status in place of a pid.
- CpuPolicy.RestoreAfterAnyCut: a policy whose values could not be read at start-up (zeros) is staged as the code does but not covered.
- TraceBuffer.Buffer.Fetch: a negative byte count from a failed ETR read is not modelled, nor is the page rounding of the mapping; a copy past the end of the buffer ends the model, since C leaves what follows undefined.
- HybridSampling.SamplingIsNonInterfering: compares the engine, not the governor; a sample is also a result of the edge pass (src/cs-proxy.c:493) and can move the frequency of later confirms, while the path pass is spared (`GovernorSessions.SamplesSpareThePathPass`).
- A child stopped by a signal other than SIGSTOP: excluded from the handshake, covered by the fork-server protocol.
- EtrRing.DirectRead: the two copies read the ring as one step; the hardware writing meanwhile is not modelled.
- EtmWindow.ModesAgreeIff: speaks of windows as `enable_cs_trace` leaves them; the moments inside that call, while the child is parked, are not windows. The `armored` backend's decoder has no mode of its own, so its agreement is the ETMs' and the proxy's.
