/** The two product-spawning rules of the cell, one physics step at a time and
    over a run of steps: the `readyToReceive` latch of the bridge extension and
    the fixed-interval spawn clock of the conveyors extension. */
module SpawnPolicy {

  // ---------------------------------------------------------------------------
  // The readyToReceive latch
  // ---------------------------------------------------------------------------

  /** What one step of the latch decides: whether a product spawns, and the latch afterwards. */
  datatype LatchDecision = LatchDecision(spawn: bool, latch: bool)

  /** One step of `_spawning_new_product` against the value read from `readyToReceive`:
      spawn when ready and not already spawning, clear the latch when not ready. */
  function LatchStep(latch: bool, ready: bool): (d: LatchDecision)
    ensures d.spawn <==> ready && !latch
    ensures d.latch == ready
  {
    if ready && !latch then LatchDecision(true, true)
    else if !ready then LatchDecision(false, false)
    else LatchDecision(false, latch)
  }

  /** The spawn decisions of a run of steps, starting from latch `latch`. */
  function LatchSpawns(latch: bool, ready: seq<bool>): (s: seq<bool>)
    ensures |s| == |ready|
    decreases |ready|
  {
    if ready == [] then []
    else
      var d := LatchStep(latch, ready[0]);
      [d.spawn] + LatchSpawns(d.latch, ready[1..])
  }

  /** The latch after a run of steps. */
  function LatchAfter(latch: bool, ready: seq<bool>): bool
    decreases |ready|
  {
    if ready == [] then latch else LatchAfter(LatchStep(latch, ready[0]).latch, ready[1..])
  }

  /** A product spawns on step `i` exactly when `readyToReceive` is high there and
      was low on the step before (or, on the first step, the latch was clear):
      the latch is an edge detector on `readyToReceive`. */
  lemma {:induction false} SpawnsExactlyOnRisingEdges(latch: bool, ready: seq<bool>, i: nat)
    requires i < |ready|
    ensures LatchSpawns(latch, ready)[i] <==> ready[i] && !(if i == 0 then latch else ready[i - 1])
    decreases i
  {
    if i > 0 {
      SpawnsExactlyOnRisingEdges(LatchStep(latch, ready[0]).latch, ready[1..], i - 1);
    }
  }

  /** After a non-empty run the latch holds the last value read: set while
      `readyToReceive` is high, cleared when it is low. */
  lemma {:induction false} LatchMirrorsLastInput(latch: bool, ready: seq<bool>)
    requires ready != []
    ensures LatchAfter(latch, ready) == ready[|ready| - 1]
    decreases |ready|
  {
    if |ready| > 1 {
      LatchMirrorsLastInput(LatchStep(latch, ready[0]).latch, ready[1..]);
    }
  }

  /** While `readyToReceive` is held high from step `i` through step `k`, no
      product spawns after step `i`: at most one spawn per rising edge. */
  lemma HeldHighSpawnsAtMostOnce(latch: bool, ready: seq<bool>, i: nat, k: nat)
    requires i <= k < |ready|
    requires forall j :: i <= j <= k ==> ready[j]
    ensures forall j :: i < j <= k ==> !LatchSpawns(latch, ready)[j]
  {
    forall j | i < j <= k
      ensures !LatchSpawns(latch, ready)[j]
    {
      SpawnsExactlyOnRisingEdges(latch, ready, j);
    }
  }

  /** For `readyToReceive` = F, F, T, T, T, F, T from a clear latch, products
      spawn on steps 2 and 6 only. */
  lemma ReadyToReceiveTrace()
    ensures LatchSpawns(false, [false, false, true, true, true, false, true])
            == [false, false, true, false, false, false, true]
  {
    var ready := [false, false, true, true, true, false, true];
    var s := LatchSpawns(false, ready);
    forall i | 0 <= i < 7
      ensures s[i] == [false, false, true, false, false, false, true][i]
    {
      SpawnsExactlyOnRisingEdges(false, ready, i);
    }
  }

  // ---------------------------------------------------------------------------
  // The fixed-interval spawn clock
  // ---------------------------------------------------------------------------

  /** The clock value above which a product is spawned. */
  const SpawnInterval: real := 4.0

  /** The clock value set by `UIBuilder.__init__` and by every menu open. */
  const InitialClock: real := 2.0

  /** What one step of the clock decides: whether a product spawns, and the clock afterwards. */
  datatype ClockDecision = ClockDecision(spawn: bool, clock: real)

  /** One step of `_spawn_clock`: add the step; past the interval, spawn and restart from 0. */
  function ClockStep(clock: real, step: real): (d: ClockDecision)
    ensures d.clock <= SpawnInterval
    ensures d.spawn <==> clock + step > SpawnInterval
    ensures d.spawn ==> d.clock == 0.0
    ensures !d.spawn ==> d.clock == clock + step
  {
    var c := clock + step;
    if c > SpawnInterval then ClockDecision(true, 0.0) else ClockDecision(false, c)
  }

  /** The spawn decisions of a run of steps of sizes `steps`, starting from `clock`. */
  function ClockSpawns(clock: real, steps: seq<real>): (s: seq<bool>)
    ensures |s| == |steps|
    decreases |steps|
  {
    if steps == [] then []
    else
      var d := ClockStep(clock, steps[0]);
      [d.spawn] + ClockSpawns(d.clock, steps[1..])
  }

  /** The clock after a run of steps. */
  function ClockAfter(clock: real, steps: seq<real>): real
    decreases |steps|
  {
    if steps == [] then clock else ClockAfter(ClockStep(clock, steps[0]).clock, steps[1..])
  }

  /** `_spawning_new_product` after a run of steps: set by a spawn, never cleared. */
  function SpawningAfter(spawning: bool, clock: real, steps: seq<real>): bool
    decreases |steps|
  {
    if steps == [] then spawning
    else
      var d := ClockStep(clock, steps[0]);
      SpawningAfter(spawning || d.spawn, d.clock, steps[1..])
  }

  /** After at least one step, or from a clock that already is within the
      interval, the clock is at most 4, whatever the step sizes. */
  lemma {:induction false} ClockStaysWithinInterval(clock: real, steps: seq<real>)
    requires clock <= SpawnInterval || steps != []
    ensures ClockAfter(clock, steps) <= SpawnInterval
    decreases |steps|
  {
    if steps != [] {
      ClockStaysWithinInterval(ClockStep(clock, steps[0]).clock, steps[1..]);
    }
  }

  /** With unit steps from a whole clock value `c`, the clock counts modulo 5 and
      a product spawns on step `k` exactly when `c + k + 1` is a multiple of 5. */
  lemma {:induction false} UnitStepSchedule(clock: real, c: int, steps: seq<real>)
    requires 0 <= c <= 4 && clock == c as real
    requires forall j :: 0 <= j < |steps| ==> steps[j] == 1.0
    ensures ClockAfter(clock, steps) == ((c + |steps|) % 5) as real
    ensures forall k :: 0 <= k < |steps| ==> (ClockSpawns(clock, steps)[k] <==> (c + k + 1) % 5 == 0)
    decreases |steps|
  {
    if steps != [] {
      var next := if c == 4 then 0 else c + 1;
      var d := ClockStep(clock, steps[0]);
      assert d.clock == next as real;
      UnitStepSchedule(d.clock, next, steps[1..]);
      var s := ClockSpawns(clock, steps);
      var rest := ClockSpawns(d.clock, steps[1..]);
      assert s == [d.spawn] + rest;
      forall k | 0 < k < |steps|
        ensures s[k] <==> (c + k + 1) % 5 == 0
      {
        assert s[k] == rest[k - 1];
        assert next + k == c + k + 1 || next + k + 5 == c + k + 1;
      }
    }
  }

  /** From the initial clock 2.0 with steps of 1.0, the first product spawns on
      the third step (index 2) and then on every fifth step. */
  lemma MenuOpenSchedule(steps: seq<real>)
    requires forall j :: 0 <= j < |steps| ==> steps[j] == 1.0
    ensures forall k :: 0 <= k < |steps| ==> (ClockSpawns(InitialClock, steps)[k] <==> k % 5 == 2)
  {
    UnitStepSchedule(InitialClock, 2, steps);
    forall k | 0 <= k < |steps|
      ensures ClockSpawns(InitialClock, steps)[k] <==> k % 5 == 2
    {
      assert (2 + k + 1) % 5 == 0 <==> k % 5 == 2;
    }
  }

  /** `_spawning_new_product` ends a run set exactly when it started set or some
      step of the run spawned a product; once set, it stays set. */
  lemma {:induction false} SpawningNeverCleared(spawning: bool, clock: real, steps: seq<real>)
    ensures SpawningAfter(spawning, clock, steps) <==> spawning || true in ClockSpawns(clock, steps)
    decreases |steps|
  {
    if steps != [] {
      var d := ClockStep(clock, steps[0]);
      SpawningNeverCleared(spawning || d.spawn, d.clock, steps[1..]);
      assert ClockSpawns(clock, steps) == [d.spawn] + ClockSpawns(d.clock, steps[1..]);
    }
  }
}
