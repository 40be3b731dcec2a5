/**
 * The comparison counter run by the "give up" button of the reconciliation
 * demo, in both files: every interval tick adds a random step to the count,
 * and the tick that reaches the target clamps the count to it and stops.
 * Math.random is a nondeterministic draw of the integer floor(random * 50).
 */
module ComparisonCounter {

  const Target: nat := 2847

  /** js/main.js: the increment is ceil(target / (1500 ms / 30 ms)). */
  const Duration: nat := 1500
  const IntervalTime: nat := 30
  const Increment: nat := (Target + Duration / IntervalTime - 1) / (Duration / IntervalTime)

  /** Which file's counter runs. */
  datatype Variant =
    | Current   // js/main.js: count += increment; count += floor(random * 50) - 25
    | Legacy    // backup-20260123-152753/main.js: count += floor(random * 50) + 20

  /** The step one tick adds for a draw of floor(random * 50). */
  function StepFor(v: Variant, draw: nat): int
    requires draw < 50
  {
    match v
    case Current => Increment + draw - 25
    case Legacy => draw + 20
  }

  /** The smallest and largest step a tick can add. */
  function MinStep(v: Variant): nat { match v case Current => 32 case Legacy => 20 }
  function MaxStep(v: Variant): nat { match v case Current => 81 case Legacy => 69 }

  lemma StepRange(v: Variant, draw: nat)
    requires draw < 50
    ensures MinStep(v) <= StepFor(v, draw) <= MaxStep(v)
    ensures Increment == 57
  {
  }

  /**
   * Runs the counter to its end. The trace holds the count before the first
   * tick (0) and after every tick: it rises strictly at every tick, by one
   * random step at every tick but the last, which is clamped to the target;
   * so the run ends at exactly 2847, and the full steps before the last tick
   * stay below the target (at most target / MinStep of them).
   */
  method RunCounter(v: Variant) returns (trace: seq<int>)
    ensures |trace| >= 2 && trace[0] == 0 && trace[|trace| - 1] == Target
    ensures forall k :: 0 <= k < |trace| - 1 ==> trace[k] < Target
    ensures forall k :: 1 <= k < |trace| ==> trace[k - 1] < trace[k] <= trace[k - 1] + MaxStep(v)
    ensures forall k :: 1 <= k < |trace| - 1 ==> trace[k - 1] + MinStep(v) <= trace[k]
    ensures (|trace| - 2) * MinStep(v) < Target
  {
    var count := 0;
    trace := [0];
    var done := false;
    while !done
      invariant |trace| >= 1 && trace[0] == 0 && count == trace[|trace| - 1]
      invariant done ==> |trace| >= 2 && count == Target
      invariant forall k :: 0 <= k < |trace| - 1 ==> trace[k] < Target
      invariant !done ==> count < Target
      invariant forall k :: 1 <= k < |trace| ==> trace[k - 1] < trace[k] <= trace[k - 1] + MaxStep(v)
      invariant forall k :: 1 <= k < |trace| - (if done then 1 else 0) ==> trace[k - 1] + MinStep(v) <= trace[k]
      invariant !done ==> count >= (|trace| - 1) * MinStep(v)
      invariant done ==> (|trace| - 2) * MinStep(v) < Target
      decreases Target - count, if done then 0 else 1
    {
      var draw: nat :| draw < 50;
      StepRange(v, draw);
      var next := count + StepFor(v, draw);
      if next >= Target {
        next := Target;
        done := true;
      }
      count := next;
      trace := trace + [count];
    }
  }
}
