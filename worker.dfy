/** One worker process's state and the steps that change it (busypy.py,
    function `f`). The sampler thread records measurements, exchanges
    settings with the coordinator and regulates memory; the busy-loop
    thread runs the control tick. Each step is one atomic method here. */
module Worker {

  import opened Wrappers
  import opened Protocol
  import opened Controller
  import opened Memory

  class WorkerController {
    /** Seconds slept after each batch of busy work. */
    var sleep: real
    /** Remaining search ticks (`binary_src_count`). */
    var budget: int
    /** Units of busy work per batch. */
    var busyIterations: int
    /** Whether the batch size has been doubled. */
    var increaseDone: bool
    /** Set by the sampler when a fresh CPU measurement is available,
        consumed by the control tick. */
    var update: bool
    /** Last measured CPU percentage, truncated to an integer. */
    var currentCpu: int
    /** The cached targets and exit order (`BusyPySettings`). */
    var targetCpu: real
    var targetMem: real
    var exit: bool
    /** Whether the busy loop goes on. */
    var running: bool
    /** The memory hog: the chunks held to occupy memory. */
    var memoryHog: seq<Chunk>

    /** The controller's share of the state. */
    function State(): Control
      reads this
    {
      Control(sleep, budget, busyIterations, increaseDone)
    }

    ghost predicate Valid()
      reads this
    {
      Controller.Valid(State()) && AllChunks(memoryHog)
    }

    /** Worker start-up (busypy.py:86-97, 186-189): the first bring-up of the
        memory hog, then the initial controller. `usage` gives the memory
        percentage at each chunk count and `bound` a count that reaches
        `mem`; without one the bring-up loop would not end. */
    constructor (cpu: real, mem: real, usage: nat -> real, ghost bound: nat)
      requires mem <= usage(bound)
      ensures Valid() && State() == Initial()
      ensures targetCpu == cpu && targetMem == mem && !exit && running
      ensures !update && currentCpu == 0
      ensures Reaches(usage, mem, |memoryHog|)
    {
      targetCpu, targetMem, exit := cpu, mem, false;
      update, currentCpu, running := false, 0, true;
      memoryHog := [];
      sleep, budget := SLEEP_INITIAL_VALUE, SLEEP_INITIAL_BINARY_SRC_COUNT;
      busyIterations, increaseDone := BUSY_ITERATIONS_INITIAL, false;
      new;
      SetMemory(usage, bound);
    }

    /** Coarse bring-up `set_memory` (busypy.py:92-95): drain the hog, then
        add chunks while usage is below the memory target. It stops at the
        first chunk count whose usage reaches the target. */
    method SetMemory(usage: nat -> real, ghost bound: nat)
      requires targetMem <= usage(bound)
      modifies this`memoryHog
      ensures AllChunks(memoryHog)
      ensures Reaches(usage, targetMem, |memoryHog|)
    {
      memoryHog := [];
      while usage(|memoryHog|) < targetMem
        invariant AllChunks(memoryHog)
        invariant |memoryHog| <= bound
        invariant forall j: nat :: j < |memoryHog| ==> usage(j) < targetMem
        decreases bound - |memoryHog|
      {
        memoryHog := memoryHog + [CHUNK];
      }
    }

    /** The sampler publishes a measurement and flags it for the control
        tick (busypy.py:113-117). */
    method RecordMeasurement(cpu: int)
      modifies this`currentCpu, this`update
      ensures currentCpu == cpu && update
    {
      currentCpu := cpu;
      update := true;
    }

    /** The control tick of the busy loop (busypy.py:200-227). Without a
        fresh measurement nothing changes; with one, the flag is consumed
        and the controller takes one `Tick` on the measurement against the
        CPU target. `Valid()` carries the floor `sleep >= SLEEP_INC` and
        the single doubling of the batch size across ticks. */
    method ControlTick()
      requires Valid()
      modifies this`sleep, this`budget, this`busyIterations, this`increaseDone, this`update
      ensures Valid() && !update
      ensures State() == if old(update) then Tick(old(State()), old(currentCpu), old(targetCpu)) else old(State())
      ensures old(increaseDone) ==> increaseDone && busyIterations == old(busyIterations)
    {
      if update {
        update := false;
        if budget > 0 {
          budget := budget - 1;
          if (currentCpu as real) < targetCpu {
            sleep := sleep * SLEEP_INC_FAST_FACTOR;
          } else {
            budget := 0;
          }
        } else {
          if (currentCpu as real) > targetCpu {
            sleep := sleep + SLEEP_INC;
          } else if sleep >= SLEEP_INC {
            sleep := sleep - SLEEP_INC;
          }
        }
        if sleep < SLEEP_INC {
          sleep := SLEEP_INC;
          if !increaseDone {
            busyIterations := busyIterations * 2;
            increaseDone := true;
          }
        }
      }
    }

    /** Applying the coordinator's answer (busypy.py:127-143). `None` is a
        failed exchange: nothing changes. An answer with `update` copies the
        CPU target and the exit order, rebuilds the hog only if the memory
        target changed, and resets the sleep duration; the search budget is
        not reset (see `Controller.Retarget`). One without `update` leaves
        the targets and the controller alone. Either way an exit order in
        force stops the busy loop. */
    method Exchange(response: Option<Settings>, usage: nat -> real, ghost bound: nat)
      requires Valid()
      requires response.Some? && response.value.update && response.value.memoryPercent as real != targetMem
               ==> response.value.memoryPercent as real <= usage(bound)
      modifies this`targetMem, this`targetCpu, this`exit, this`sleep, this`memoryHog, this`running
      ensures Valid()
      ensures var applied := response.Some? && response.value.update;
              && State() == (if applied then Retarget(old(State())) else old(State()))
              && targetCpu == (if applied then response.value.cpuLoadPercent as real else old(targetCpu))
              && exit == (if applied then response.value.clientExit else old(exit))
      ensures var rebuilt := response.Some? && response.value.update
                             && response.value.memoryPercent as real != old(targetMem);
              && targetMem == (if rebuilt then response.value.memoryPercent as real else old(targetMem))
              && (rebuilt ==> Reaches(usage, targetMem, |memoryHog|))
              && (!rebuilt ==> memoryHog == old(memoryHog))
      ensures running == (old(running) && !(response.Some? && exit))
    {
      if response.Some? {
        var newTargets := response.value;
        if newTargets.update {
          if targetMem != newTargets.memoryPercent as real {
            targetMem := newTargets.memoryPercent as real;
            SetMemory(usage, bound);
          }
          targetCpu := newTargets.cpuLoadPercent as real;
          exit := newTargets.clientExit;
          sleep := SLEEP_INITIAL_VALUE;
        }
        if exit {
          running := false;
        }
      }
    }

    /** The per-round band step (busypy.py:167-172), as corrected: with an
        empty hog above the band there is nothing to release and nothing
        changes, where the source's `pop()` raises (see `BandAsWritten`). */
    method BandStep(measuredHigh: real, measuredLow: real)
      requires Valid()
      modifies this`memoryHog
      ensures Valid()
      ensures memoryHog == Band(old(memoryHog), targetMem, measuredHigh, measuredLow)
    {
      var lowMem := targetMem - MEM_TOLERANCE_PERCENT;
      var hiMem := targetMem + MEM_TOLERANCE_PERCENT;
      if measuredHigh > hiMem {
        if memoryHog != [] {
          memoryHog := memoryHog[..|memoryHog| - 1];
        }
      } else if measuredLow < lowMem {
        memoryHog := memoryHog + [CHUNK];
      }
    }
  }
}
