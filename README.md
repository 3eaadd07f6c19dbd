# busypy: the load controller and the coordinator's policy

busypy generates configurable CPU and memory load. Worker processes
(`busypy.py`) burn CPU in a busy loop and hold memory in a list of 100 MB
chunks. A coordinator (`busypyserver.py`) hands every worker its CPU and
memory targets over gRPC, and decides when to stop serving.

This project models the two sequential cores of the system and proves
properties of them.

- **Worker** (modules `Controller`, `Memory`, `Worker`):
  - The duty-cycle controller: a geometric search on the sleep duration, then
    fine steps, then a floor clamp that doubles the batch size at most once.
  - Applying the coordinator's answer.
  - The coarse memory bring-up (`set_memory`) and the per-round band step.

  `Controller` and `Memory` are pure specifications. `Worker.WorkerController`
  is the worker's state as a class, and its methods are the steps of the
  source. There are two exceptions:
  - `BandStep` is the corrected band step, because the source's raises on an
    empty hog (see "## Findings").
  - `RecordMeasurement` only stores the reading and sets the flag, so no
    function stands behind it.

  The other methods are proved against those functions.
- **Coordinator** (modules `Registry`, `Clients`, `Server`):
  - The client registry `clientIPs`: pids seen per address, and pids of the
    targeted address that were sent an update. `Registry` holds its
    operations as functions on maps; `Clients.ClientIPs` is the mutable
    object.
  - The request handler `GetSettings`, with its registration clock, quorum
    stop, targeted acknowledgement and monitor mode.
  - `set_run_server`.

  The coordinator's module-level state lives in `Server.GRPCServer`: the
  `update` flag of the settings, `run_server`, the registry and the handler's
  clock. The command-line configuration is a `Config` value fixed at
  construction. The current time is a parameter of the handler.

Measurements are inputs:
- The CPU percentage is the argument of `RecordMeasurement`.
- The band step takes the two memory readings the source makes (one per
  comparison) as two arguments.
- For the bring-up, `usage(n)` is the process's memory percentage while it
  holds `n` chunks. A ghost witness `bound` with `usage(bound) >= target`
  stands for the assumption that the target is reachable. Without one,
  `set_memory` does not end.

Sleep durations are exact `real`s, so the model states the decision rules
and not IEEE rounding.

Two details of the code are easy to misread:
- In the fine phase, a measurement equal to the target shortens the sleep.
  Only a measurement strictly above the target lengthens it
  (busypy.py:216-220).
- The targeted acknowledgement is recorded per (address, pid), not per
  address. An update is sent to each pid of the target address on its first
  call in the stable window. The server stops once the acknowledged pids
  equal the pids seen there (busypyserver.py:181-189). `Server.TargetedScenario`
  walks through this with two pids.

`Server.QuorumScenario` walks through the quorum stop with three workers.
A known worker that calls back 4 seconds after the last registration
leaves the server running, because the window is not open yet. The first
call more than 5 seconds after it stops the server.

A target update on the worker resets only the sleep duration. The search
budget the tick uses is a local variable of the busy loop's function, and
the reset at busypy.py:137 assigns a module-level name that nothing reads.
`Worker.WorkerController.Exchange` and the trace lemmas use this as-written
update (`Controller.Retarget`). The evidently intended re-arm
(`Controller.Rearm`) is stated beside it, under "## Findings".

## Model

| member | source | states |
|---|---|---|
| Controller.Initial | busypy.py:186-189 | a fresh worker starts at sleep 0.4 with the full search budget of 20 and 500 units per batch, not yet doubled, which satisfies the lifetime invariant |
| Controller.Tick | busypy.py:200-227 | after any tick sleep is at least `SLEEP_INC`; the invariant is kept; the budget never grows and stays 0 once 0; the batch size changes only by the single doubling and never after it |
| Controller.Retarget | busypy.py:137-138 | a target update as written sets sleep back to 0.4 and keeps the search budget, the batch size and its doubling record |
| Controller.Rearm | busypy.py:137-138 | the intended target update restores budget 20 and sleep 0.4 and keeps the batch size and its doubling record |
| Controller.TickSearchBelowTarget | busypy.py:206-209 | a search tick below target lowers the budget by exactly one and scales sleep by 0.8 before the clamp, the floor after it |
| Controller.TickSearchReachedTarget | busypy.py:210-212 | a search tick at or above target sets the budget to 0 and changes nothing else |
| Controller.TickFineAboveTarget | busypy.py:216-217 | in the fine phase a measurement strictly above target adds exactly `SLEEP_INC` |
| Controller.TickFineAtOrBelowTarget | busypy.py:218-220 | in the fine phase a measurement at or below target, equality included, subtracts `SLEEP_INC` only when sleep is at least that, and the clamp keeps the floor |
| Controller.TickFloorClamp | busypy.py:223-227 | an adjustment below the floor is raised to the floor and doubles the batch size unless it was doubled before; otherwise the adjustment stands |
| Controller.RunValid | busypy.py:186-227 | over any sequence of ticks and as-written target updates, sleep stays at or above the floor, the budget within 0..20, and the batch size at 500 or 1000 |
| Controller.RunKeepsDoubling | busypy.py:225-227 | once doubled, no later tick or target update resets the doubling or changes the batch size, so it doubles at most once per lifetime |
| Controller.SearchStaysOver | busypy.py:206-212 | once the budget is 0 the search never re-opens: neither ticks nor as-written target updates raise the budget |
| Controller.SearchEndsWithinBudget | busypy.py:206-212 | after as many ticks as the budget, with no target update, the controller is in the fine phase |
| Controller.RetargetInFinePhaseStaysFine | busypy.py:137-138 | as written, after a target update in the fine phase, the next tick below target is a fine step from 0.4 to 0.3999 with the budget still 0 |
| Controller.RetargetRestartsSearch | busypy.py:137-138 | with the intended re-arm, from any phase, the next tick is a search tick from sleep 0.4 |
| Memory.ReachesUnique | busypy.py:92-95 | the chunk count at which the bring-up stops is unique |
| Memory.Band | busypy.py:167-172 | above the band, exactly the last chunk is released (none when the hog is empty); below it, exactly one chunk is appended; inside it nothing changes; the length moves by at most one |
| Memory.BandAsWritten | busypy.py:169-170 | the step as written fails exactly when the hog is empty and the reading is above the band, and otherwise agrees with `Band` |
| Memory.BringUpThenPopFromEmpty | busypy.py:92-95 | a process already above target plus tolerance with no chunk: the bring-up stops at zero chunks and the next band step pops from the empty list |
| Memory.SettledStaysSettled | busypy.py:167-172 | once usage is inside the band, further band steps leave the hog unchanged |
| Memory.BandConverges | busypy.py:162-172 | on a host where memory grows with chunks by at most one band width per chunk, and the band is reachable, band steps reach the band |
| Worker.WorkerController.constructor | busypy.py:86-97 | start-up leaves the initial controller, the configured targets and a hog at the count where the bring-up stops |
| Worker.WorkerController.SetMemory | busypy.py:92-95 | the hog is rebuilt from empty, out of chunks only, up to the least count whose usage reaches the memory target |
| Worker.WorkerController.RecordMeasurement | busypy.py:113-117 | the sampler publishes the CPU reading and raises the update flag |
| Worker.WorkerController.ControlTick | busypy.py:200-227 | without a fresh measurement nothing changes; with one the flag is cleared and the controller takes one `Tick` against the CPU target; the invariant is kept |
| Worker.WorkerController.Exchange | busypy.py:127-143 | a failed exchange changes nothing; an answer with `update` copies CPU target and exit, resets sleep to 0.4 but not the search budget, and rebuilds the hog only if the memory target changed; one without `update` leaves targets and controller alone; an exit order stops the busy loop |
| Worker.WorkerController.BandStep | busypy.py:167-172 | the hog after the round is `Band` of the hog before it, on the two readings |
| Registry.Add | busypyserver.py:42-56 | the flag is true iff the pair was new; afterwards exactly the old pairs plus this one are recorded; a new pid goes to the end of its address's list; a repeated pair leaves the map unchanged; other addresses are untouched |
| Registry.AddKeepsWellFormed | busypyserver.py:48-54 | recording a pair keeps no duplicate pid per address and no empty list, and adds an address only when the address is new |
| Registry.RemoveFirst | busypyserver.py:74 | `list.remove` shortens the list by one when the element is present. `remove_ip_pid` never passes an absent element (busypyserver.py:72), and Python would raise ValueError on one; the model returns the list unchanged |
| Registry.RemoveFirstIsFirstOccurrence | busypyserver.py:74 | the element's first occurrence is the one taken out, and the other elements keep their order |
| Registry.RemoveFirstMultiset | busypyserver.py:74 | exactly one copy of the element goes, if there is one, and every other element keeps its count |
| Registry.RemoveFirstRemovesAll | busypyserver.py:74 | on a list without duplicates, `list.remove` takes the element out altogether and keeps every other element |
| Registry.RemoveFirstNoDup | busypyserver.py:74 | `list.remove` keeps a list free of duplicates |
| Registry.Remove | busypyserver.py:65-79 | an absent pair returns false and changes nothing; for a present one the address's list loses the pid, the address goes away with its last pid, and other addresses are untouched |
| Registry.RemoveKeepsWellFormed | busypyserver.py:71-78 | on a well-formed registry, removal takes out exactly the given pair and keeps no duplicate pid and no empty list |
| Registry.AddressesAtMostPairs | busypyserver.py:81-82 | the number of addresses is at most the number of (address, pid) pairs |
| Clients.ClientIPs.constructor | busypyserver.py:38-40 | both maps start empty |
| Clients.ClientIPs.AddIp | busypyserver.py:42-56 | `add_ip` is `Add` on the seen map: true iff the pair was new, the invariant kept, the address count grows only for a new address |
| Clients.ClientIPs.IsIpActive | busypyserver.py:58-63 | true iff some pid is recorded under the address |
| Clients.ClientIPs.RemoveIpPid | busypyserver.py:65-79 | `remove_ip_pid` is `Remove` on the seen map: true iff the pair was recorded, the invariant kept |
| Clients.ClientIPs.Total | busypyserver.py:81-82 | the count is the number of distinct addresses, which is at most the number of pairs |
| Clients.ClientIPs.TargetedClient | busypyserver.py:84-97 | `targeted_client` is `Add` on the acknowledged map and leaves the seen map alone |
| Clients.ClientIPs.IsTargetedUpdated | busypyserver.py:99-105 | true iff the address is in both maps and exactly the pids seen under it are acknowledged |
| Server.GRPCServer.constructor | busypyserver.py:15-26 | the server starts with an empty registry, the clock at the start time, `update` set and the serve loop running |
| Server.GRPCServer.SetRunServer | busypyserver.py:29-31 | `run_server` takes the given value |
| Server.GRPCServer.StableWindow | busypyserver.py:175-189 | in the window the quorum rule stops the server when the configured count equals the distinct addresses; a call from the target address records its pid as acknowledged, and the first acknowledgement sets `update` and stops the server once all seen pids there are acknowledged |
| Server.GRPCServer.GetSettings | busypyserver.py:152-194 | the caller is registered; a new registrant, or any call in monitor mode, restarts the clock; only a known caller more than 5 s after the last registrant opens the window; every acknowledged pair is a registered pair; the server is stopped only by the quorum or the complete acknowledgement and never restarted; with a target or in monitor mode `update` is true only on a first acknowledgement; the answer carries the configured cpu, mem and exit |

## Left out

- The gRPC transport: stubs, channels, deadlines, the serve loop and the
  mapping of call metadata to ip and pid. The handler takes the caller's ip
  and pid directly. The request's reported cpu, mem and exit are only
  printed by the source, so the handler does not take them.
- Worker.WorkerController.Exchange: the classification of RPC errors is
  merged into one failed exchange (`None`), which changes nothing. The final
  report to the coordinator after an exit order is not modelled, because
  its answer is ignored.
- The keyboard-interrupt handler of the sampler, signal handling,
  `force_exit` and the end condition of the sampler's loop. These are
  cross-thread signalling.
- Threads and the shared lock. Each step is one atomic method. The source
  does not enforce this everywhere:
  - the coordinator runs `GetSettings` on a pool of 10 threads with no lock
    (busypyserver.py:198);
  - the worker's target update writes `sleep` outside the lock
    (busypy.py:127-138), so a tick's read-modify-write at busypy.py:209, 217
    or 220 can overwrite the reset.

  Atomic handlers and an atomic exchange are assumptions of the model. It
  does not capture interleavings, such as lost updates or the band steps of
  several processes on one host.
- psutil. CPU and memory readings are parameters, and `usage` is an
  abstract function.
- The busy work itself (sorting and arithmetic), `time.sleep`, printing, and
  the division of the targets by the number of processes.
- Command-line parsing, and the discovery of the host's IP address.
- IEEE rounding of the sleep duration, which is modelled with exact
  rationals.
- Worker.WorkerController.SetMemory: it requires a chunk count at which
  usage reaches the target. The source loops forever, or runs out of memory,
  when no such count exists.
- Memory.BandConverges: it is stated for a steady host. Usage must be a
  function of the chunk count, monotone, and grow by at most one band width
  per chunk. Other processes and the allocator make real readings vary.
- Server.GRPCServer.GetSettings: time is a parameter (`now`), not a clock
  read.

## Findings

| source | as written | input that shows it | evidently intended | confidence | as-written member | corrected member |
|---|---|---|---|---|---|---|
| busypy.py:169-170 | above the band the band step calls `MEMORY_HOG.pop()` without checking the hog is non-empty; the IndexError is raised outside the `try`, so the sampler thread ends and the worker no longer takes targets or exits on order | a memory target of 0% on a process already using 3%: the bring-up stops at zero chunks, and the next reading of 3% is above 0 + 2 | above the band with nothing to release, do nothing | not executed | Memory.BandAsWritten, Memory.BringUpThenPopFromEmpty | Memory.Band, Worker.WorkerController.BandStep |
| busypy.py:137 | the sampler resets `binary_src_count` to 20 on a target update, but under its `global` declaration (busypy.py:111) that is a module-level name; the budget the tick reads (busypy.py:206) is local to `f`, which does not declare it global (busypy.py:84, 187), so the reset never reaches the tick | a worker whose first tick measured at or above target (budget 0), then an answer with `update`, then a reading below target: the next tick is a fine tick taking sleep from 0.4 to 0.3999, not a search tick | a target update re-arms the search with the full budget of 20 as well as sleep 0.4 | not executed | Controller.Retarget, Controller.RetargetInFinePhaseStaysFine, Worker.WorkerController.Exchange | Controller.Rearm, Controller.RetargetRestartsSearch |
