/** The rotation runbook as a procedure: it keeps to its own rules and ends with the new key alone. */
module Runbook {
  import opened Wire
  import opened Base64
  import opened KeyRing
  import opened Boundary
  import opened Cluster
  import opened Rotation

  /** One deployment of every replica, in order. */
  function Rollout(n: nat, raw: string): seq<Op> {
    seq(n, i requires 0 <= i < n => Deploy(i, raw))
  }

  /** What the operator does in a run, without the traffic around it. */
  function Operator(ops: seq<Op>): seq<Op> {
    if ops == [] then []
    else
      var last := ops[|ops| - 1];
      Operator(ops[..|ops| - 1]) + if last.Observe? then [] else [last]
  }

  /** Around the operator's steps there are only requests to the `n` replicas, restarts and time. */
  predicate Ordinary(n: nat, ops: seq<Op>) {
    forall i :: 0 <= i < |ops| && ops[i].Observe? ==>
      !ops[i].step.Redeploy? && (ops[i].step.Serve? ==> ops[i].step.replica < n)
  }

  function Elapsed(ops: seq<Op>): real {
    if ops == [] then 0.0
    else
      var last := ops[|ops| - 1];
      Elapsed(ops[..|ops| - 1])
      + if last.Observe? && last.step.Tick? && last.step.elapsed > 0.0 then last.step.elapsed else 0.0
  }

  /** The operator deploys `raw` to one replica after the other, amid any traffic. */
  ghost predicate RollsOut(n: nat, raw: string, ops: seq<Op>) {
    Ordinary(n, ops) && Operator(ops) == Rollout(n, raw)
  }

  /** Nothing but traffic. */
  ghost predicate Idle(n: nat, ops: seq<Op>) {
    Ordinary(n, ops) && Operator(ops) == []
  }

  lemma RunOne(f: Fleet, op: Op)
    ensures RunOps(f, [op]) == Perform(f, op)
    ensures Disciplined(f, [op]) <==> Allowed(f, op)
  {
    RunNext(RUNBOOK, f, [], op);
    assert [] + [op] == [op];
  }

  // ---------- traffic ----------

  /** Traffic leaves the plan and the rings alone. */
  predicate Undisturbed(before: Fleet, after: Fleet) {
    && after.plan == before.plan
    && |after.system.replicas| == |before.system.replicas|
    && (forall i :: 0 <= i < |after.system.replicas| ==> after.system.replicas[i].keys == before.system.replicas[i].keys)
  }

  lemma TrafficPasses(f: Fleet, step: Step)
    requires Ordinary(|f.system.replicas|, [Observe(step)])
    ensures Allowed(f, Observe(step))
    ensures var after := Perform(f, Observe(step));
      && Undisturbed(f, after)
      && after.system.clock == f.system.clock + if step.Tick? && step.elapsed > 0.0 then step.elapsed else 0.0
  {
    assert [Observe(step)][0].step == step;
  }

  lemma OrdinaryParts(n: nat, ops: seq<Op>)
    requires Ordinary(n, ops) && ops != []
    ensures Ordinary(n, ops[..|ops| - 1]) && Ordinary(n, [ops[|ops| - 1]])
  {
  }

  lemma {:induction false} IdlePasses(f: Fleet, ops: seq<Op>)
    requires Idle(|f.system.replicas|, ops)
    ensures Disciplined(f, ops) && Undisturbed(f, RunOps(f, ops))
    ensures RunOps(f, ops).system.clock == f.system.clock + Elapsed(ops)
  {
    if ops != [] {
      var front, last := ops[..|ops| - 1], ops[|ops| - 1];
      OrdinaryParts(|f.system.replicas|, ops);
      IdlePasses(f, front);
      TrafficPasses(RunOps(f, front), last.step);
    }
  }

  // ---------- one phase ----------

  /** `after` is `before` with the first `k` replicas on the target ring of the phase. */
  predicate Progressed(before: Fleet, after: Fleet, k: nat) {
    && after.plan.(doneAt := before.plan.doneAt) == before.plan
    && (before.plan.doneAt <= before.system.clock ==> after.plan.doneAt <= after.system.clock)
    && |after.system.replicas| == |before.system.replicas|
    && (forall i :: 0 <= i < k && i < |after.system.replicas| ==> after.system.replicas[i].keys == before.plan.Target())
  }

  lemma DeployProgresses(before: Fleet, f: Fleet, k: nat, raw: string)
    requires Progressed(before, f, k) && k < |f.system.replicas|
    requires LoadedKeys(raw) == Success(before.plan.Target())
    ensures Allowed(f, Deploy(k, raw)) && Progressed(before, Perform(f, Deploy(k, raw)), k + 1)
  {
    DeployInstalls(f.system, k, raw, before.plan.Target());
    var after := Perform(f, Deploy(k, raw));
    forall i | 0 <= i < k + 1 && i < |after.system.replicas| ensures after.system.replicas[i].keys == before.plan.Target() {
    }
  }

  lemma TrafficProgresses(before: Fleet, f: Fleet, k: nat, step: Step)
    requires Progressed(before, f, k) && Ordinary(|f.system.replicas|, [Observe(step)])
    ensures Allowed(f, Observe(step)) && Progressed(before, Perform(f, Observe(step)), k)
  {
    TrafficPasses(f, step);
  }

  lemma RolloutLast(n: nat, raw: string, front: seq<Op>, op: Op)
    requires Rollout(n, raw) == front + [op]
    ensures n > 0 && op == Deploy(n - 1, raw) && front == Rollout(n - 1, raw)
  {
    assert |Rollout(n, raw)| == n;
    assert op == Rollout(n, raw)[n - 1];
    forall i | 0 <= i < n - 1 ensures front[i] == Rollout(n - 1, raw)[i] {
      assert front[i] == Rollout(n, raw)[i];
    }
  }

  /** Deploying the first `k` replicas one after the other, amid any traffic, is allowed and brings them
      to the ring of the phase. */
  lemma {:induction false} RolloutCompletes(f: Fleet, k: nat, raw: string, ops: seq<Op>)
    requires k <= |f.system.replicas| && LoadedKeys(raw) == Success(f.plan.Target())
    requires Ordinary(|f.system.replicas|, ops) && Operator(ops) == Rollout(k, raw)
    ensures Disciplined(f, ops) && Progressed(f, RunOps(f, ops), k)
  {
    if ops == [] {
      assert k == |Rollout(k, raw)| == 0;
    } else {
      var front, last := ops[..|ops| - 1], ops[|ops| - 1];
      OrdinaryParts(|f.system.replicas|, ops);
      if last.Observe? {
        RolloutCompletes(f, k, raw, front);
        TrafficProgresses(f, RunOps(f, front), k, last.step);
      } else {
        RolloutLast(k, raw, Operator(front), last);
        RolloutCompletes(f, k - 1, raw, front);
        DeployProgresses(f, RunOps(f, front), k - 1, raw);
      }
    }
  }

  /** Moving on to a phase and rolling it out is allowed whenever moving on is, and completes. */
  lemma PhaseCompletes(f: Fleet, move: Op, raw: string, part: seq<Op>)
    requires Allowed(f, move) && (move.Begin? || move.MoveTo?)
    requires LoadedKeys(raw) == Success(Perform(f, move).plan.Target())
    requires RollsOut(|f.system.replicas|, raw, part)
    ensures var ops := [move] + part;
      && Disciplined(f, ops)
      && Progressed(Perform(f, move), RunOps(f, ops), |f.system.replicas|)
      && RolledOut(RunOps(f, ops))
  {
    RunOne(f, move);
    RunOpsAppend(f, [move], part);
    RolloutCompletes(Perform(f, move), |f.system.replicas|, raw, part);
  }

  // ---------- the whole procedure ----------

  /** A fleet settled on `key`: every replica seals and unseals with it alone. */
  predicate SettledOn(f: Fleet, key: Bytes) {
    f.plan.phase.Settled? && f.plan.current == key && RolledOut(f)
  }

  /** The parts of a run in which the operator follows the runbook: the traffic before, each phase's
      rollout, and the wait. */
  datatype Conduct = Conduct(before: seq<Op>, one: seq<Op>, two: seq<Op>, wait: seq<Op>, three: seq<Op>)
  {
    /** The strings are the runbook's, and the wait is a time to live at least. */
    ghost predicate Follows(n: nat, current: Bytes, next: Bytes) {
      && Idle(n, before)
      && RollsOut(n, RingString([current, next]), one)
      && RollsOut(n, RingString([next, current]), two)
      && Idle(n, wait) && Elapsed(wait) >= TTL
      && RollsOut(n, RingString([next]), three)
    }

    function Run(next: Bytes): seq<Op> {
      before + ([Begin(next)] + one) + ([MoveTo(Switch)] + two) + wait + ([MoveTo(Retire)] + three) + [MoveTo(Settled)]
    }
  }

  /** Following the runbook from a settled fleet of any size, amid any requests, restarts and delays, is
      allowed by its rules at every step and leaves the fleet settled on the new key. */
  lemma {:induction false} ProcedureRotates(f: Fleet, next: Bytes, conduct: Conduct)
    requires SettledOn(f, f.plan.current)
    requires |f.plan.current| >= MINIMUM_KEY_BYTES && |next| >= MINIMUM_KEY_BYTES
    requires conduct.Follows(|f.system.replicas|, f.plan.current, next)
    ensures Disciplined(f, conduct.Run(next)) && SettledOn(RunOps(f, conduct.Run(next)), next)
  {
    var current := f.plan.current;
    var plan := Plan(current, next, Introduce, 0.0);
    RingStringLoads(plan);
    RingStringLoads(plan.(phase := Switch));
    RingStringLoads(plan.(phase := Retire));
    var one, two := [Begin(next)] + conduct.one, [MoveTo(Switch)] + conduct.two;
    var three, end := [MoveTo(Retire)] + conduct.three, [MoveTo(Settled)];

    IdlePasses(f, conduct.before);
    var f0 := RunOps(f, conduct.before);
    PhaseCompletes(f0, Begin(next), RingString(plan.Target()), conduct.one);
    var f1 := RunOps(f0, one);
    PhaseCompletes(f1, MoveTo(Switch), RingString(plan.(phase := Switch).Target()), conduct.two);
    var f2 := RunOps(f1, two);
    IdlePasses(f2, conduct.wait);
    var f3 := RunOps(f2, conduct.wait);
    PhaseCompletes(f3, MoveTo(Retire), RingString(plan.(phase := Retire).Target()), conduct.three);
    var f4 := RunOps(f3, three);
    RunOne(f4, MoveTo(Settled));

    RunOpsAppend(f, conduct.before, one);
    RunOpsAppend(f, conduct.before + one, two);
    RunOpsAppend(f, conduct.before + one + two, conduct.wait);
    RunOpsAppend(f, conduct.before + one + two + conduct.wait, three);
    RunOpsAppend(f, conduct.before + one + two + conduct.wait + three, end);
  }
}
