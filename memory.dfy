/** The memory regulator of a worker (busypy.py).

    The worker holds a list of fixed-size chunks, the "memory hog". After a
    change of the memory target it drains the list and grows it chunk by
    chunk until the process's memory percentage reaches the target (the
    coarse bring-up). On every sampler round it then keeps the percentage in
    a band of `MEM_TOLERANCE_PERCENT` points around the target: above the
    band it releases the newest chunk, below it it adds one.

    The process's memory percentage comes from the operating system. For the
    bring-up it is modelled as `usage(n)`, the percentage while the process
    holds `n` chunks; the band step takes its two measurements as inputs. */
module Memory {

  /** Half-width of the band, in percentage points. */
  const MEM_TOLERANCE_PERCENT: real := 2.0
  /** Size of one chunk, in megabytes. */
  const MEMORY_HOG_CHUNK_SIZE_MB: nat := 100

  /** One chunk of occupied memory (a string of `megabytes` MiB of '*'). */
  datatype Chunk = Chunk(megabytes: nat)

  const CHUNK: Chunk := Chunk(MEMORY_HOG_CHUNK_SIZE_MB)

  predicate AllChunks(hog: seq<Chunk>)
  {
    forall i :: 0 <= i < |hog| ==> hog[i] == CHUNK
  }

  /** `n` chunks is where the bring-up stops: usage reaches the target
      there and at no smaller count. */
  ghost predicate Reaches(usage: nat -> real, target: real, n: nat)
  {
    target <= usage(n) && forall j: nat :: j < n ==> usage(j) < target
  }

  /** Two counts where the bring-up stops are the same count. */
  lemma ReachesUnique(usage: nat -> real, target: real, n: nat, m: nat)
    requires Reaches(usage, target, n) && Reaches(usage, target, m)
    ensures n == m
  {
  }

  /** The band step with the source's two measurements: `measuredHigh` is
      compared with the top of the band and, only when it is not above it,
      `measuredLow` with the bottom (busypy.py:167-172). Above the band with
      an empty hog there is nothing to release and the hog stays empty. */
  function Band(hog: seq<Chunk>, mem: real, measuredHigh: real, measuredLow: real): (r: seq<Chunk>)
    ensures |hog| - 1 <= |r| <= |hog| + 1
    ensures |r| < |hog| <==> hog != [] && measuredHigh > mem + MEM_TOLERANCE_PERCENT
    ensures |r| > |hog| <==> measuredHigh <= mem + MEM_TOLERANCE_PERCENT && measuredLow < mem - MEM_TOLERANCE_PERCENT
    ensures |r| <= |hog| ==> r == hog[..|r|]
    ensures |r| > |hog| ==> r == hog + [CHUNK]
    ensures AllChunks(hog) ==> AllChunks(r)
  {
    if measuredHigh > mem + MEM_TOLERANCE_PERCENT then
      if hog == [] then hog else hog[..|hog| - 1]
    else if measuredLow < mem - MEM_TOLERANCE_PERCENT then
      hog + [CHUNK]
    else
      hog
  }

  /** Outcome of the band step as the source writes it. */
  datatype BandOutcome = Adjusted(hog: seq<Chunk>) | PopFromEmpty

  /** The band step exactly as written: `MEMORY_HOG.pop()` on an empty list
      raises IndexError, outside any handler, which ends the sampler thread. */
  function BandAsWritten(hog: seq<Chunk>, mem: real, measuredHigh: real, measuredLow: real): (r: BandOutcome)
    ensures r.PopFromEmpty? <==> hog == [] && measuredHigh > mem + MEM_TOLERANCE_PERCENT
    ensures r.Adjusted? ==> r.hog == Band(hog, mem, measuredHigh, measuredLow)
  {
    if measuredHigh > mem + MEM_TOLERANCE_PERCENT then
      if hog == [] then PopFromEmpty else Adjusted(hog[..|hog| - 1])
    else if measuredLow < mem - MEM_TOLERANCE_PERCENT then
      Adjusted(hog + [CHUNK])
    else
      Adjusted(hog)
  }

  /** The input that shows it: when the process already uses more than the
      target plus the tolerance while holding no chunk (a target of 0% on
      a process using 3%, say), the bring-up stops at the empty hog and the
      very next band step pops from it. */
  lemma BringUpThenPopFromEmpty(usage: nat -> real, mem: real)
    requires mem + MEM_TOLERANCE_PERCENT < usage(0)
    ensures Reaches(usage, mem, 0)
    ensures BandAsWritten([], mem, usage(0), usage(0)) == PopFromEmpty
  {
  }

  /** Usage is inside the band around `mem` at `n` chunks. */
  ghost predicate InBand(usage: nat -> real, mem: real, n: nat)
  {
    mem - MEM_TOLERANCE_PERCENT <= usage(n) <= mem + MEM_TOLERANCE_PERCENT
  }

  /** A steady host: more chunks never mean less memory, and one chunk is
      worth at most the width of the band. */
  ghost predicate Granular(usage: nat -> real)
  {
    forall i: nat, j: nat :: i <= j ==>
      usage(i) <= usage(j) && (j == i + 1 ==> usage(j) <= usage(i) + 2.0 * MEM_TOLERANCE_PERCENT)
  }

  /** One band step on a steady host, both measurements taken at the
      current hog. */
  function Regulate(usage: nat -> real, mem: real, hog: seq<Chunk>): seq<Chunk>
  {
    Band(hog, mem, usage(|hog|), usage(|hog|))
  }

  /** The hog after `n` band steps. */
  function Settle(usage: nat -> real, mem: real, hog: seq<Chunk>, n: nat): seq<Chunk>
    decreases n
  {
    if n == 0 then hog else Settle(usage, mem, Regulate(usage, mem, hog), n - 1)
  }

  /** Once inside the band the hog no longer changes. */
  lemma {:induction false} SettledStaysSettled(usage: nat -> real, mem: real, hog: seq<Chunk>, n: nat)
    requires InBand(usage, mem, |hog|)
    ensures Settle(usage, mem, hog, n) == hog
    decreases n
  {
    if n > 0 {
      assert Regulate(usage, mem, hog) == hog;
      SettledStaysSettled(usage, mem, hog, n - 1);
    }
  }

  /** On a steady host whose band is reachable (usage with no chunk is not
      above it, and some chunk count is not below it), repeated band steps
      bring usage into the band, and by SettledStaysSettled it stays there. */
  lemma {:induction false} BandConverges(usage: nat -> real, mem: real, hog: seq<Chunk>, bound: nat)
    requires Granular(usage)
    requires usage(0) <= mem + MEM_TOLERANCE_PERCENT
    requires mem - MEM_TOLERANCE_PERCENT <= usage(bound)
    ensures exists n: nat :: InBand(usage, mem, |Settle(usage, mem, hog, n)|)
    decreases if usage(|hog|) > mem + MEM_TOLERANCE_PERCENT then |hog|
              else if usage(|hog|) < mem - MEM_TOLERANCE_PERCENT then bound - |hog|
              else 0
  {
    var len := |hog|;
    if InBand(usage, mem, len) {
      assert Settle(usage, mem, hog, 0) == hog;
    } else {
      var next := Regulate(usage, mem, hog);
      if usage(len) > mem + MEM_TOLERANCE_PERCENT {
        // Releasing a chunk cannot jump below the band.
        assert len > 0;
        assert |next| == len - 1;
        assert usage(len) <= usage(len - 1) + 2.0 * MEM_TOLERANCE_PERCENT;
        assert usage(|next|) >= mem - MEM_TOLERANCE_PERCENT;
      } else {
        // Adding a chunk cannot jump above the band.
        assert usage(len) < mem - MEM_TOLERANCE_PERCENT;
        assert len < bound;
        assert |next| == len + 1;
        assert usage(len + 1) <= usage(len) + 2.0 * MEM_TOLERANCE_PERCENT;
        assert usage(|next|) <= mem + MEM_TOLERANCE_PERCENT;
      }
      BandConverges(usage, mem, next, bound);
      var n: nat :| InBand(usage, mem, |Settle(usage, mem, next, n)|);
      assert Settle(usage, mem, hog, n + 1) == Settle(usage, mem, next, n);
    }
  }
}
