/** Key rotation by the runbook (docs/runbooks/rotate-request-state-key.md): three phases, each
    rolled out to every replica before the next, the last one a full time to live after the second. */
module Rotation {
  import opened Wire
  import opened Base64
  import opened Text
  import opened KeyRing
  import opened Gates
  import opened Boundary
  import opened Cluster

  /** The phases of a rotation; `RollBack` returns from phase two to the ring of phase one, `Restore` from
      phase three to the ring of phase two. */
  datatype Phase = Settled | Introduce | Switch | RollBack | Retire | Restore

  /** Where the operator stands: rotating from `current` to `next`; `doneAt` is when the rollout of
      this phase was last completed. */
  datatype Plan = Plan(current: Bytes, next: Bytes, phase: Phase, doneAt: real)
  {
    /** The ring this phase deploys. */
    function Target(): Keys {
      match phase
      case Settled => [current]
      case Introduce => [current, next]
      case Switch => [next, current]
      case RollBack => [current, next]
      case Retire => [next]
      case Restore => [next, current]
    }
  }

  datatype Fleet = Fleet(system: System, plan: Plan)

  /** What happens to a fleet: traffic, time and restarts; one replica deployed with a ring string;
      a rotation begun; the operator moving on to a phase. */
  datatype Op =
    | Observe(step: Step)
    | Deploy(replica: nat, raw: string)
    | Begin(next: Bytes)
    | MoveTo(phase: Phase)

  predicate RolledOut(f: Fleet) {
    forall i :: 0 <= i < |f.system.replicas| ==> f.system.replicas[i].keys == f.plan.Target()
  }

  /** The runbook's rules one by one: phase two only once every replica has phase one; phase three
      only once every replica has phase two, and one time to live later; no falling back from phase
      three to a ring whose old key seals. */
  datatype Rules = Rules(introduced: bool, switched: bool, waited: bool, backInTime: bool)

  const RUNBOOK := Rules(true, true, true, true)

  /** What the rules that are kept allow. Falling back from phase two to phase one, or from phase three
      to phase two's ring, is allowed at any moment. */
  ghost predicate AllowedUnder(rules: Rules, f: Fleet, op: Op) {
    match op
    case Observe(step) => !step.Redeploy? && (step.Serve? ==> step.replica < |f.system.replicas|)
    case Deploy(i, raw) => i < |f.system.replicas| && LoadedKeys(raw) == Success(f.plan.Target())
    case Begin(_) => f.plan.phase.Settled?
    case MoveTo(phase) =>
      match phase
      case Introduce => false
      case Switch =>
        && (f.plan.phase.Introduce? || f.plan.phase.RollBack? || f.plan.phase.Restore?)
        && (rules.introduced ==> RolledOut(f))
      case RollBack => f.plan.phase.Switch? || (!rules.backInTime && f.plan.phase.Retire?)
      case Retire =>
        || f.plan.phase.Restore?
        || (&& f.plan.phase.Switch?
            && (rules.switched ==> RolledOut(f))
            && (rules.waited ==> f.system.clock >= f.plan.doneAt + TTL))
      case Restore => f.plan.phase.Retire?
      case Settled => f.plan.phase.Retire?
  }

  ghost predicate Allowed(f: Fleet, op: Op) {
    AllowedUnder(RUNBOOK, f, op)
  }

  ghost function Perform(f: Fleet, op: Op): Fleet {
    match op
    case Observe(step) => f.(system := Apply(f.system, step))
    case Deploy(i, raw) =>
      if i < |f.system.replicas| then
        var after := f.(system := Apply(f.system, Step.Redeploy(i, raw, f.system.replicas[i].gate)));
        if !RolledOut(f) && RolledOut(after) then after.(plan := f.plan.(doneAt := f.system.clock)) else after
      else f
    case Begin(next) => f.(plan := Plan(f.plan.current, next, Introduce, f.system.clock))
    case MoveTo(phase) =>
      if phase.Settled? then f.(plan := Plan(f.plan.next, f.plan.next, Settled, f.system.clock))
      else f.(plan := f.plan.(phase := phase, doneAt := f.system.clock))
  }

  ghost function RunOps(f: Fleet, ops: seq<Op>): Fleet {
    if ops == [] then f else Perform(RunOps(f, ops[..|ops| - 1]), ops[|ops| - 1])
  }

  /** Every operation of the run is one the rules allow when it happens. */
  ghost predicate Keeps(rules: Rules, f: Fleet, ops: seq<Op>) {
    ops == [] || (Keeps(rules, f, ops[..|ops| - 1]) && AllowedUnder(rules, RunOps(f, ops[..|ops| - 1]), ops[|ops| - 1]))
  }

  /** Every operation of the run keeps to the runbook. */
  ghost predicate Disciplined(f: Fleet, ops: seq<Op>) {
    Keeps(RUNBOOK, f, ops)
  }

  lemma RunNext(rules: Rules, f: Fleet, ops: seq<Op>, op: Op)
    ensures RunOps(f, ops + [op]) == Perform(RunOps(f, ops), op)
    ensures Keeps(rules, f, ops + [op]) <==> Keeps(rules, f, ops) && AllowedUnder(rules, RunOps(f, ops), op)
  {
    assert (ops + [op])[..|ops|] == ops;
  }

  lemma {:induction false} RunOpsAppend(f: Fleet, a: seq<Op>, b: seq<Op>)
    ensures RunOps(f, a + b) == RunOps(RunOps(f, a), b)
    ensures Disciplined(f, a + b) <==> Disciplined(f, a) && Disciplined(RunOps(f, a), b)
  {
    if b == [] {
      assert a + b == a;
    } else {
      var front, last := b[..|b| - 1], b[|b| - 1];
      RunOpsAppend(f, a, front);
      assert b == front + [last] && a + b == (a + front) + [last];
      RunNext(RUNBOOK, f, a + front, last);
      RunNext(RUNBOOK, RunOps(f, a), front, last);
    }
  }

  // ---------- the safety invariant ----------

  /** The rings replicas may be configured with in each phase. */
  predicate InPhase(plan: Plan, keys: Keys) {
    match plan.phase
    case Settled => [plan.current] <= keys
    case Introduce => [plan.current] <= keys
    case Switch => keys == [plan.current, plan.next] || keys == [plan.next, plan.current]
    case RollBack => keys == [plan.current, plan.next] || keys == [plan.next, plan.current]
    case Retire => keys == [plan.next, plan.current] || keys == [plan.next]
    case Restore => keys == [plan.next, plan.current] || keys == [plan.next]
  }

  /** The keys a live state may be sealed under in each phase. */
  predicate InUse(plan: Plan, key: Key) {
    match plan.phase
    case Settled => key == Configured(plan.current)
    case Introduce => key == Configured(plan.current)
    case Switch => key == Configured(plan.current) || key == Configured(plan.next)
    case RollBack => key == Configured(plan.current) || key == Configured(plan.next)
    case Retire => key == Configured(plan.next)
    case Restore => key == Configured(plan.next)
  }

  /** All replicas run the same gate for the same audience. */
  ghost predicate Alike(f: Fleet, gate: Gate, audience: Option<string>) {
    forall i :: 0 <= i < |f.system.replicas| ==>
      f.system.replicas[i].gate == gate && f.system.replicas[i].audience == audience
  }

  predicate Safe(f: Fleet) {
    && (forall i :: 0 <= i < |f.system.replicas| ==> InPhase(f.plan, f.system.replicas[i].keys))
    && (forall k :: 0 <= k < |f.system.issued| && Live(f.system.issued[k], f.system.clock) ==>
          InUse(f.plan, f.system.issued[k].key))
    && (forall k :: 0 <= k < |f.system.issued| ==> f.system.issued[k].expires <= f.system.clock + TTL)
    && (f.plan.phase.Switch? && RolledOut(f) ==>
          forall k :: 0 <= k < |f.system.issued| && f.system.issued[k].key != Configured(f.plan.next) ==>
            f.system.issued[k].expires <= f.plan.doneAt + TTL)
  }

  /** Every live state can be unsealed by every replica. */
  predicate Covered(f: Fleet) {
    forall i, k :: 0 <= i < |f.system.replicas| && 0 <= k < |f.system.issued| && Live(f.system.issued[k], f.system.clock) ==>
      Unseals(f.system.replicas[i].Ring(), f.system.issued[k])
  }

  lemma SafeIsCovered(f: Fleet)
    requires Safe(f)
    ensures Covered(f)
  {
    forall i, k | 0 <= i < |f.system.replicas| && 0 <= k < |f.system.issued| && Live(f.system.issued[k], f.system.clock)
      ensures Unseals(f.system.replicas[i].Ring(), f.system.issued[k])
    {
      assert InPhase(f.plan, f.system.replicas[i].keys) && InUse(f.plan, f.system.issued[k].key);
    }
  }

  /** Whatever a replica seals in a phase is sealed under a key in use. */
  lemma SealsInUse(plan: Plan, r: Replica)
    requires InPhase(plan, r.keys)
    ensures InUse(plan, r.Ring()[0])
    ensures plan.phase.Switch? && r.keys == plan.Target() ==> r.Ring()[0] == Configured(plan.next)
  {
  }

  lemma ServeKeepsSafe(f: Fleet, i: nat, req: ClientRequest, nonce: string)
    requires Safe(f) && i < |f.system.replicas|
    ensures Safe(f.(system := Served(f.system, i, req, nonce)))
  {
    ServedIssues(f.system, i, req, nonce);
    SealsInUse(f.plan, f.system.replicas[i]);
  }

  lemma ObserveKeepsSafe(f: Fleet, step: Step)
    requires Safe(f) && Allowed(f, Observe(step))
    ensures Safe(Perform(f, Observe(step)))
  {
    match step
    case Serve(i, req, nonce) => ServeKeepsSafe(f, i, req, nonce);
    case Tick(elapsed) =>
    case Restart(i) =>
      if i < |f.system.replicas| {
        var before, after := f.system.replicas, Restarted(f.system, i).replicas;
        assert forall j :: 0 <= j < |before| ==> after[j].keys == before[j].keys;
      }
  }

  lemma DeployEffect(f: Fleet, i: nat, raw: string)
    requires i < |f.system.replicas| && LoadedKeys(raw) == Success(f.plan.Target())
    ensures var after, r := Perform(f, Deploy(i, raw)), f.system.replicas[i];
      && after.system == f.system.(
           replicas := f.system.replicas[i := Replica(r.gate, r.audience, f.plan.Target(), f.system.processes)],
           processes := f.system.processes + 1)
      && (after.plan == f.plan || after.plan == f.plan.(doneAt := f.system.clock))
  {
  }

  lemma DeployKeepsSafe(f: Fleet, i: nat, raw: string)
    requires Safe(f) && Allowed(f, Deploy(i, raw))
    ensures Safe(Perform(f, Deploy(i, raw)))
  {
    var before, after := f.system.replicas, Perform(f, Deploy(i, raw)).system.replicas;
    DeployEffect(f, i, raw);
    forall j | 0 <= j < |after| ensures InPhase(f.plan, after[j].keys) {
      assert after[j].keys == if j == i then f.plan.Target() else before[j].keys;
    }
  }

  lemma MoveKeepsSafe(f: Fleet, op: Op)
    requires Safe(f) && Allowed(f, op) && (op.Begin? || op.MoveTo?)
    ensures Safe(Perform(f, op))
  {
  }

  lemma {:induction false} PerformKeepsSafe(f: Fleet, op: Op)
    requires Safe(f) && Allowed(f, op)
    ensures Safe(Perform(f, op))
  {
    match op
    case Observe(step) => ObserveKeepsSafe(f, step);
    case Deploy(i, raw) => DeployKeepsSafe(f, i, raw);
    case _ => MoveKeepsSafe(f, op);
  }

  /** A fleet between rotations that has issued nothing yet. */
  predicate Starting(f: Fleet) {
    && f.plan.phase.Settled?
    && Fresh(f.system)
    && RolledOut(f)
  }

  lemma {:induction false} RunKeepsSafe(f: Fleet, ops: seq<Op>)
    requires Safe(f) && Disciplined(f, ops)
    ensures Safe(RunOps(f, ops))
  {
    if ops != [] {
      RunKeepsSafe(f, ops[..|ops| - 1]);
      PerformKeepsSafe(RunOps(f, ops[..|ops| - 1]), ops[|ops| - 1]);
    }
  }

  /** Rotation safety: through any number of rotations by the runbook, with any number of replicas
      deployed in any order, every live state issued by any replica is unsealable by every replica. */
  lemma EveryLiveStateUnseals(f: Fleet, ops: seq<Op>)
    requires Starting(f) && Disciplined(f, ops)
    ensures Covered(RunOps(f, ops))
  {
    RunKeepsSafe(f, ops);
    SafeIsCovered(RunOps(f, ops));
  }

  // ---------- rotation is invisible ----------

  lemma PerformKeepsAlike(f: Fleet, op: Op, gate: Gate, audience: Option<string>)
    requires Alike(f, gate, audience) && Allowed(f, op)
    ensures Alike(Perform(f, op), gate, audience)
  {
    if op.Deploy? {
      DeployEffect(f, op.replica, op.raw);
    }
  }

  lemma {:induction false} RunKeepsAlike(f: Fleet, ops: seq<Op>, gate: Gate, audience: Option<string>)
    requires Alike(f, gate, audience) && Disciplined(f, ops)
    ensures Alike(RunOps(f, ops), gate, audience)
  {
    if ops != [] {
      RunKeepsAlike(f, ops[..|ops| - 1], gate, audience);
      PerformKeepsAlike(RunOps(f, ops[..|ops| - 1]), ops[|ops| - 1], gate, audience);
    }
  }

  /** One server that never rotates: it holds a single key and serves all the traffic. */
  function Solitary(f: Fleet, gate: Gate, audience: Option<string>, pin: Bytes): System {
    System(f.system.clock, [Replica(gate, audience, [pin], 0)], [], 1, [])
  }

  /** What the lone server does while the fleet performs `op`. */
  ghost function SoloStep(s: System, op: Op): System {
    match op
    case Observe(Serve(_, req, nonce)) => Apply(s, Serve(0, req, nonce))
    case Observe(Tick(elapsed)) => Apply(s, Tick(elapsed))
    case _ => s
  }

  ghost function SoloRun(s: System, ops: seq<Op>): System {
    if ops == [] then s else SoloStep(SoloRun(s, ops[..|ops| - 1]), ops[|ops| - 1])
  }

  /** Same clock, same traffic, same answers, same audit records; issued states differ at most in the
      key they are sealed under. */
  ghost predicate Mirrors(s: System, solo: System, gate: Gate, audience: Option<string>, pin: Bytes) {
    && s.clock == solo.clock
    && solo.replicas == [Replica(gate, audience, [pin], 0)]
    && |s.issued| == |solo.issued|
    && (forall k :: 0 <= k < |s.issued| ==> s.issued[k].(key := Configured(pin)) == solo.issued[k])
    && |s.history| == |solo.history|
    && (forall j :: 0 <= j < |s.history| ==> s.history[j].(replica := 0) == solo.history[j])
  }

  lemma SameAdmission(f: Fleet, solo: System, gate: Gate, audience: Option<string>, pin: Bytes, i: nat, req: ClientRequest)
    requires Safe(f) && Alike(f, gate, audience) && Mirrors(f.system, solo, gate, audience, pin)
    requires i < |f.system.replicas|
    ensures Admit(f.system.replicas[i].Ring(), audience, f.system.issued, f.system.clock, req)
         == Admit(solo.replicas[0].Ring(), audience, solo.issued, solo.clock, req)
  {
    SafeIsCovered(f);
    if req.presented.Replay? && req.presented.index < |f.system.issued| {
      var token, twin := f.system.issued[req.presented.index], solo.issued[req.presented.index];
      assert twin == token.(key := Configured(pin));
      assert Unseals(solo.replicas[0].Ring(), twin);
    }
  }

  lemma ServeMirrors(f: Fleet, solo: System, gate: Gate, audience: Option<string>, pin: Bytes, i: nat, req: ClientRequest,
                     nonce: string)
    requires Safe(f) && Alike(f, gate, audience) && Mirrors(f.system, solo, gate, audience, pin)
    requires i < |f.system.replicas|
    ensures Mirrors(Served(f.system, i, req, nonce), Served(solo, 0, req, nonce), gate, audience, pin)
  {
    SameAdmission(f, solo, gate, audience, pin, i, req);
    assert solo.replicas[0].Ring()[0] == Configured(pin);
    var after, twin := Served(f.system, i, req, nonce), Served(solo, 0, req, nonce);
    assert after.history == f.system.history + [Last(after)] && twin.history == solo.history + [Last(twin)];
    assert Last(after).(replica := 0) == Last(twin);
  }

  lemma PerformMirrors(f: Fleet, solo: System, op: Op, gate: Gate, audience: Option<string>, pin: Bytes)
    requires Safe(f) && Alike(f, gate, audience) && Mirrors(f.system, solo, gate, audience, pin)
    requires Allowed(f, op)
    ensures Mirrors(Perform(f, op).system, SoloStep(solo, op), gate, audience, pin)
  {
    match op
    case Observe(Serve(i, req, nonce)) => ServeMirrors(f, solo, gate, audience, pin, i, req, nonce);
    case Deploy(i, raw) => DeployEffect(f, i, raw);
    case _ =>
  }

  lemma {:induction false} RunMirrors(f: Fleet, ops: seq<Op>, gate: Gate, audience: Option<string>, pin: Bytes)
    requires Starting(f) && Alike(f, gate, audience) && Disciplined(f, ops)
    ensures Mirrors(RunOps(f, ops).system, SoloRun(Solitary(f, gate, audience, pin), ops), gate, audience, pin)
  {
    if ops != [] {
      var front := ops[..|ops| - 1];
      RunKeepsSafe(f, front);
      RunKeepsAlike(f, front, gate, audience);
      RunMirrors(f, front, gate, audience, pin);
      PerformMirrors(RunOps(f, front), SoloRun(Solitary(f, gate, audience, pin), front), ops[|ops| - 1], gate, audience, pin);
    }
  }

  /** Rotation is invisible: through any number of rotations by the runbook and under any routing of
      requests, a fleet answers every request and records every decision exactly as one server that
      never rotates does at the same instants. */
  lemma RotationIsInvisible(f: Fleet, ops: seq<Op>, gate: Gate, audience: Option<string>, pin: Bytes)
    requires Starting(f) && Alike(f, gate, audience) && Disciplined(f, ops)
    ensures var fleet := RunOps(f, ops).system.history;
      var solo := SoloRun(Solitary(f, gate, audience, pin), ops).history;
      && |fleet| == |solo|
      && forall j :: 0 <= j < |fleet| ==>
           && fleet[j].request == solo[j].request && fleet[j].time == solo[j].time
           && fleet[j].response == solo[j].response && fleet[j].records == solo[j].records
  {
    RunMirrors(f, ops, gate, audience, pin);
  }

  // ---------- where the runbook's conditions matter ----------

  /** A replica in a phase seals with the new key, once past phase one. */
  predicate SealsNew(phase: Phase) {
    phase.Switch? || phase.Retire? || phase.Restore?
  }

  /** A replica in phase `q` holds the key a replica in phase `p` seals with, unless one is ahead of
      the other by more than a phase: sealing with the new key before the other has begun, or sealing
      with the old key when the other has dropped it. */
  lemma PhasesHandOverIff(plan: Plan, p: Phase, q: Phase, a: Replica, b: Replica)
    requires plan.current != plan.next
    requires a.keys == plan.(phase := p).Target() && b.keys == plan.(phase := q).Target()
    ensures a.Ring()[0] in b.Ring() <==> !(SealsNew(p) && q.Settled?) && !(!SealsNew(p) && q.Retire?)
  {
    var sealing := a.keys[0];
    assert sealing == if SealsNew(p) then plan.next else plan.current;
    assert a.Ring()[0] == Configured(sealing);
    assert Configured(sealing) in b.Ring() <==> sealing in b.keys;
  }

  /** Between replicas in arbitrary phases, a retry within the time to live is rejected exactly when
      the asker already seals with the new key and the other has not begun, or the asker still seals
      with the old key and the other is in phase three. */
  lemma {:induction false} PhasesThatDoNotMix(s: System, a: nat, b: nat, req: ClientRequest, nonce: string, answers: Value,
                                              again: string, elapsed: real, plan: Plan, p: Phase, q: Phase)
    requires a < |s.replicas| && b < |s.replicas| && 0.0 <= elapsed < TTL && plan.current != plan.next
    requires s.replicas[a].audience == s.replicas[b].audience
    requires s.replicas[a].keys == plan.(phase := p).Target() && s.replicas[b].keys == plan.(phase := q).Target()
    requires Last(Served(s, a, req, nonce)).response.Asked?
    ensures var later := Served(s, a, req, nonce).(clock := s.clock + elapsed);
      Last(Served(later, b, RetryOf(req, answers, |s.issued|), again)).response.Rejected?
      <==> (SealsNew(p) && q.Settled?) || (!SealsNew(p) && q.Retire?)
  {
    HandoffAcceptedIff(s, a, b, req, nonce, answers, again, elapsed);
    PhasesHandOverIff(plan, p, q, s.replicas[a], s.replicas[b]);
  }

  /** The rollback the runbook recommends, `<old>,<new>`, is not one every replica in any phase can
      unseal: a state sealed by a replica rolled back to it is rejected by the replicas still in phase
      three, and by no others. */
  lemma {:induction false} RollbackFailsInPhaseThree(s: System, a: nat, b: nat, req: ClientRequest, nonce: string,
                                                     answers: Value, again: string, elapsed: real, plan: Plan, q: Phase)
    requires a < |s.replicas| && b < |s.replicas| && 0.0 <= elapsed < TTL && plan.current != plan.next
    requires s.replicas[a].audience == s.replicas[b].audience
    requires s.replicas[a].keys == plan.(phase := RollBack).Target() && s.replicas[b].keys == plan.(phase := q).Target()
    requires Last(Served(s, a, req, nonce)).response.Asked?
    ensures var later := Served(s, a, req, nonce).(clock := s.clock + elapsed);
      Last(Served(later, b, RetryOf(req, answers, |s.issued|), again)).response.Rejected? <==> q.Retire?
  {
    PhasesThatDoNotMix(s, a, b, req, nonce, answers, again, elapsed, plan, RollBack, q);
  }

  lemma DeployInstalls(s: System, i: nat, raw: string, keys: Keys)
    requires i < |s.replicas| && LoadedKeys(raw) == Success(keys)
    ensures var after := Redeployed(s, i, raw, s.replicas[i].gate);
      && |after.replicas| == |s.replicas| && after.replicas[i].keys == keys
      && after.replicas[i].gate == s.replicas[i].gate
      && after.issued == s.issued && after.clock == s.clock
  {
  }

  /** A state sealed under a key the replica no longer holds is rejected. */
  lemma DroppedKeyRejects(s: System, i: nat, req: ClientRequest, nonce: string)
    requires i < |s.replicas| && req.presented.Replay? && req.presented.index < |s.issued|
    requires !Unseals(s.replicas[i].Ring(), s.issued[req.presented.index])
    ensures Last(Served(s, i, req, nonce)).response.Rejected?
  {
    RejectedIff(s, i, req, nonce);
  }

  /** The string the runbook writes for a ring. */
  function RingString(keys: Keys): string {
    Join(EncodedAll(keys), ',')
  }

  lemma RingStringLoads(plan: Plan)
    requires |plan.current| >= MINIMUM_KEY_BYTES && |plan.next| >= MINIMUM_KEY_BYTES
    ensures LoadedKeys(RingString(plan.Target())) == Success(plan.Target())
  {
    PlainRing(plan.Target());
  }

  /** Replica `i` is deployed with the ring of phase two. */
  ghost function Switched(s: System, i: nat, current: Bytes, next: Bytes): System
    requires i < |s.replicas|
  {
    Redeployed(s, i, RingString([next, current]), s.replicas[i].gate)
  }

  /** It goes through phases two and three, `elapsed` seconds apart. */
  ghost function SwitchedThenRetired(s: System, i: nat, current: Bytes, next: Bytes, elapsed: real): System
    requires i < |s.replicas|
  {
    Redeployed(Switched(s, i, current, next).(clock := s.clock + elapsed), i, RingString([next]), s.replicas[i].gate)
  }

  lemma RetiredHolds(s: System, i: nat, current: Bytes, next: Bytes, elapsed: real)
    requires i < |s.replicas| && |current| >= MINIMUM_KEY_BYTES && |next| >= MINIMUM_KEY_BYTES
    ensures var two, three := Switched(s, i, current, next), SwitchedThenRetired(s, i, current, next, elapsed);
      && |two.replicas| == |three.replicas| == |s.replicas|
      && two.replicas[i].keys == [next, current] && three.replicas[i].keys == [next]
      && three.issued == s.issued && three.clock == s.clock + elapsed
  {
    PlainRing([next, current]);
    PlainRing([next]);
    DeployInstalls(s, i, RingString([next, current]), [next, current]);
    DeployInstalls(Switched(s, i, current, next).(clock := s.clock + elapsed), i, RingString([next]), [next]);
  }

  /** Without the wait before phase three, a state that has not expired is rejected: ask just before
      phase two, deploy phases two and three with less than one time to live between, retry. */
  lemma {:induction false} RetiringEarlyRejects(s: System, i: nat, req: ClientRequest, nonce: string, answers: Value,
                                                again: string, elapsed: real, current: Bytes, next: Bytes)
    requires i < |s.replicas| && 0.0 < elapsed < TTL && current != next
    requires |current| >= MINIMUM_KEY_BYTES && |next| >= MINIMUM_KEY_BYTES
    requires s.replicas[i].keys == [current, next]
    requires Last(Served(s, i, req, nonce)).response.Asked?
    ensures var k, asked := |s.issued|, Served(s, i, req, nonce);
      var two, three := Switched(asked, i, current, next), SwitchedThenRetired(asked, i, current, next, elapsed);
      && k < |three.issued| && i < |two.replicas| && i < |three.replicas| && Live(three.issued[k], three.clock)
      && Unseals(two.replicas[i].Ring(), three.issued[k])
      && Last(Served(three, i, RetryOf(req, answers, k), again)).response.Rejected?
  {
    var k, asked := |s.issued|, Served(s, i, req, nonce);
    AskIssues(s, i, req, nonce);
    assert asked.issued[k].key == Configured(current) && asked.issued[k].expires == s.clock + TTL;
    RetiredHolds(asked, i, current, next, elapsed);
    DroppedKeyRejects(SwitchedThenRetired(asked, i, current, next, elapsed), i, RetryOf(req, answers, k), again);
  }
}
