/** The duty-cycle controller of a worker's busy loop (busypy.py).

    The busy loop sleeps `sleep` seconds after every batch of
    `busyIterations` units of work. Each time the sampler flags a fresh CPU
    measurement, one control tick adjusts `sleep`: first a geometric search
    (multiply by 0.8) that lasts at most `budget` ticks and stops at the first
    measurement at or above target, then fine steps of `SLEEP_INC`. Sleep may
    never fall below `SLEEP_INC`; the first time it would, the batch size is
    doubled instead. Sleep durations are exact rationals here, not IEEE
    doubles, so what is stated is the decision logic. */
module Controller {

  /** Fine step of the sleep duration and its floor, in seconds. */
  const SLEEP_INC: real := 0.0001
  /** Factor applied to the sleep duration in each search tick. */
  const SLEEP_INC_FAST_FACTOR: real := 0.8
  /** Sleep duration at start and after every target update. */
  const SLEEP_INITIAL_VALUE: real := 0.4
  /** Number of search ticks granted at start and after every target update. */
  const SLEEP_INITIAL_BINARY_SRC_COUNT: int := 20
  /** Units of work per batch at start. */
  const BUSY_ITERATIONS_INITIAL: int := 500

  /** The controller's share of the worker state: `budget` is the
      remaining search budget (`binary_src_count`), `increaseDone` records
      that the batch size has been doubled. */
  datatype Control = Control(sleep: real, budget: int, busyIterations: int, increaseDone: bool)

  /** What can happen to the controller between two ticks of a worker's life:
      a tick on a fresh measurement against the current target, or a target
      update from the coordinator. */
  datatype Event = Measured(cpu: int, target: real) | Retargeted

  function Max(a: real, b: real): real
  {
    if a < b then b else a
  }

  /** The controller's invariant over a worker's whole life: the sleep
      duration is at least the floor, the search budget lies within its
      initial value, and the batch size is 500 until the one doubling and
      1000 after it. */
  predicate Valid(c: Control)
  {
    && SLEEP_INC <= c.sleep
    && 0 <= c.budget <= SLEEP_INITIAL_BINARY_SRC_COUNT
    && c.busyIterations == (if c.increaseDone then 2 * BUSY_ITERATIONS_INITIAL else BUSY_ITERATIONS_INITIAL)
  }

  /** The controller of a freshly started worker (busypy.py:186-189). */
  function Initial(): (c: Control)
    ensures Valid(c) && c.budget == SLEEP_INITIAL_BINARY_SRC_COUNT && !c.increaseDone
  {
    Control(SLEEP_INITIAL_VALUE, SLEEP_INITIAL_BINARY_SRC_COUNT, BUSY_ITERATIONS_INITIAL, false)
  }

  /** The search or fine adjustment of one tick, before the floor clamp
      (busypy.py:206-220). */
  function Adjust(c: Control, cpu: int, target: real): Control
  {
    if c.budget > 0 then
      if (cpu as real) < target then
        c.(budget := c.budget - 1, sleep := c.sleep * SLEEP_INC_FAST_FACTOR)
      else
        c.(budget := 0)
    else if (cpu as real) > target then
      c.(sleep := c.sleep + SLEEP_INC)
    else if c.sleep >= SLEEP_INC then
      c.(sleep := c.sleep - SLEEP_INC)
    else
      c
  }

  /** The floor clamp that ends every tick (busypy.py:223-227). */
  function Clamp(c: Control): Control
  {
    if c.sleep < SLEEP_INC then
      if !c.increaseDone then
        c.(sleep := SLEEP_INC, busyIterations := c.busyIterations * 2, increaseDone := true)
      else
        c.(sleep := SLEEP_INC)
    else
      c
  }

  /** One control tick on measured cpu `cpu` against target `target`. */
  function Tick(c: Control, cpu: int, target: real): (r: Control)
    ensures SLEEP_INC <= r.sleep
    ensures Valid(c) ==> Valid(r)
    ensures Valid(c) ==> r.budget <= c.budget && (c.budget == 0 ==> r.budget == 0)
    ensures c.increaseDone ==> r.increaseDone && r.busyIterations == c.busyIterations
    ensures r.busyIterations != c.busyIterations ==>
              !c.increaseDone && r.increaseDone && r.busyIterations == 2 * c.busyIterations
  {
    Clamp(Adjust(c, cpu, target))
  }

  /** A target update as the worker performs it (busypy.py:137-138): only
      the sleep duration goes back to its initial value. The search budget
      the tick reads is a local variable of the busy loop's function
      (busypy.py:187), while line 137 assigns the module-level name declared
      `global` in the sampler (busypy.py:111), which nothing reads; so the
      budget, the batch size and its doubling record are kept. */
  function Retarget(c: Control): (r: Control)
    ensures r.sleep == SLEEP_INITIAL_VALUE
    ensures r.budget == c.budget && r.busyIterations == c.busyIterations && r.increaseDone == c.increaseDone
    ensures Valid(c) ==> Valid(r)
  {
    c.(sleep := SLEEP_INITIAL_VALUE)
  }

  /** The target update as evidently intended: it re-arms the search with
      the full budget as well as the initial sleep. */
  function Rearm(c: Control): (r: Control)
    ensures r.budget == SLEEP_INITIAL_BINARY_SRC_COUNT && r.sleep == SLEEP_INITIAL_VALUE
    ensures r.busyIterations == c.busyIterations && r.increaseDone == c.increaseDone
    ensures Valid(c) ==> Valid(r)
  {
    c.(budget := SLEEP_INITIAL_BINARY_SRC_COUNT, sleep := SLEEP_INITIAL_VALUE)
  }

  /** Search phase, measured cpu below target: the budget drops by exactly
      one and sleep is scaled by 0.8 before the floor clamp. */
  lemma TickSearchBelowTarget(c: Control, cpu: int, target: real)
    requires c.budget > 0 && (cpu as real) < target
    ensures Adjust(c, cpu, target).sleep == c.sleep * SLEEP_INC_FAST_FACTOR
    ensures Tick(c, cpu, target).budget == c.budget - 1
    ensures Tick(c, cpu, target).sleep == Max(c.sleep * SLEEP_INC_FAST_FACTOR, SLEEP_INC)
  {
  }

  /** Search phase, measured cpu at or above target: the search ends at once
      (budget 0) and nothing else changes. */
  lemma TickSearchReachedTarget(c: Control, cpu: int, target: real)
    requires Valid(c) && c.budget > 0 && target <= (cpu as real)
    ensures Tick(c, cpu, target) == c.(budget := 0)
  {
  }

  /** Fine phase, measured cpu strictly above target: one step longer. */
  lemma TickFineAboveTarget(c: Control, cpu: int, target: real)
    requires Valid(c) && c.budget == 0 && (cpu as real) > target
    ensures Tick(c, cpu, target) == c.(sleep := c.sleep + SLEEP_INC)
  {
  }

  /** Fine phase, measured cpu at or below target (equality included): one
      step shorter, but only when sleep is at least one step; under the
      invariant that guard always holds and the clamp restores the floor. */
  lemma TickFineAtOrBelowTarget(c: Control, cpu: int, target: real)
    requires c.budget <= 0 && (cpu as real) <= target
    ensures Adjust(c, cpu, target).sleep == (if c.sleep >= SLEEP_INC then c.sleep - SLEEP_INC else c.sleep)
    ensures Tick(c, cpu, target).budget == c.budget
    ensures Valid(c) ==> Tick(c, cpu, target).sleep == Max(c.sleep - SLEEP_INC, SLEEP_INC)
  {
  }

  /** The floor clamp: when the adjustment leaves sleep below the floor,
      sleep becomes the floor and the batch size doubles unless it has
      doubled before; otherwise the adjustment stands. */
  lemma TickFloorClamp(c: Control, cpu: int, target: real)
    ensures var a := Adjust(c, cpu, target);
            var r := Tick(c, cpu, target);
            if a.sleep < SLEEP_INC then
              r.sleep == SLEEP_INC && r.increaseDone && r.budget == a.budget
              && r.busyIterations == (if c.increaseDone then c.busyIterations else 2 * c.busyIterations)
            else
              r == a
  {
  }

  function Step(c: Control, e: Event): Control
  {
    match e
    case Measured(cpu, target) => Tick(c, cpu, target)
    case Retargeted => Retarget(c)
  }

  /** The controller after a sequence of events. */
  function Run(c: Control, events: seq<Event>): Control
    decreases |events|
  {
    if events == [] then c else Run(Step(c, events[0]), events[1..])
  }

  predicate NoRetarget(events: seq<Event>)
  {
    forall i :: 0 <= i < |events| ==> events[i].Measured?
  }

  /** The invariant holds over a worker's whole life, whatever the
      measurements and target updates: sleep never falls below the floor,
      the budget never goes negative, and the batch size is 500 or 1000. */
  lemma {:induction false} RunValid(c: Control, events: seq<Event>)
    requires Valid(c)
    ensures Valid(Run(c, events))
    decreases |events|
  {
    if events != [] {
      RunValid(Step(c, events[0]), events[1..]);
    }
  }

  /** Once doubled, the batch size stays doubled: neither ticks nor target
      updates undo the doubling, so it happens at most once per lifetime. */
  lemma {:induction false} RunKeepsDoubling(c: Control, events: seq<Event>)
    requires c.increaseDone
    ensures Run(c, events).increaseDone && Run(c, events).busyIterations == c.busyIterations
    decreases |events|
  {
    if events != [] {
      RunKeepsDoubling(Step(c, events[0]), events[1..]);
    }
  }

  /** Once the search is over it never re-opens: ticks keep the budget at
      0, and target updates do not touch it. */
  lemma {:induction false} SearchStaysOver(c: Control, events: seq<Event>)
    requires Valid(c) && c.budget == 0
    ensures Run(c, events).budget == 0
    decreases |events|
  {
    if events != [] {
      SearchStaysOver(Step(c, events[0]), events[1..]);
    }
  }

  /** The search lasts at most as many ticks as its budget: after that many
      measurements without a target update the controller is in the fine
      phase. */
  lemma {:induction false} SearchEndsWithinBudget(c: Control, events: seq<Event>)
    requires Valid(c) && NoRetarget(events) && c.budget <= |events|
    ensures Run(c, events).budget == 0
    decreases |events|
  {
    if events != [] {
      var next := Step(c, events[0]);
      assert next.budget <= c.budget - 1 || next.budget == 0;
      if next.budget == 0 {
        SearchStaysOver(next, events[1..]);
      } else {
        SearchEndsWithinBudget(next, events[1..]);
      }
    }
  }

  /** As written, a target update in the fine phase leaves the worker in
      the fine phase: the next tick below target is a fine step down from
      the initial sleep duration, not a search tick. */
  lemma RetargetInFinePhaseStaysFine(c: Control, cpu: int, target: real)
    requires Valid(c) && c.budget == 0 && (cpu as real) < target
    ensures Run(c, [Retargeted, Measured(cpu, target)])
            == c.(sleep := SLEEP_INITIAL_VALUE - SLEEP_INC)
  {
    var events := [Retargeted, Measured(cpu, target)];
    assert events[1..] == [Measured(cpu, target)];
    assert events[1..][1..] == [];
    assert Run(c, events) == Run(Retarget(c), [Measured(cpu, target)]);
    assert Run(Retarget(c), [Measured(cpu, target)]) == Tick(Retarget(c), cpu, target);
  }

  /** With the intended re-arm, from whatever phase, the next tick is a
      search tick from the initial sleep duration. */
  lemma RetargetRestartsSearch(c: Control, cpu: int, target: real)
    requires Valid(c)
    ensures var r := Tick(Rearm(c), cpu, target);
            if (cpu as real) < target then
              r.budget == SLEEP_INITIAL_BINARY_SRC_COUNT - 1
              && r.sleep == SLEEP_INITIAL_VALUE * SLEEP_INC_FAST_FACTOR
            else
              r.budget == 0 && r.sleep == SLEEP_INITIAL_VALUE
  {
  }
}
