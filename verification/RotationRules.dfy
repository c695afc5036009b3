/** Why each rule of the rotation runbook is there: a fleet keeps every live approval valid under a set
    of rules exactly when it keeps them all. */
module RotationRules {
  import opened Wire
  import opened KeyRing
  import opened Boundary
  import opened Cluster
  import opened ApprovalSafety
  import opened Rotation
  import opened Handover
  import opened Witness

  /** However a fleet starts and runs, as long as it keeps these rules, every replica can unseal every
      live state. */
  ghost predicate Protect(rules: Rules) {
    forall f, ops: seq<Op> :: Keeps(rules, f, ops) && Starting(f) ==> Covered(RunOps(f, ops))
  }

  /** Some replica rejects the explicit yes to a question that was put for the very call and has not
      expired. */
  ghost predicate TurnsAway(f: Fleet) {
    exists i, k ::
      && 0 <= i < |f.system.replicas| && 0 <= k < |f.system.issued|
      && Live(f.system.issued[k], f.system.clock)
      && BoundTo(f.system.issued[k], CALL, f.system.replicas[i].audience)
      && !Unseals(f.system.replicas[i].Ring(), f.system.issued[k])
      && Last(Served(f.system, i, RetryOf(CALL, YES, k), "")).response.Rejected?
  }

  /** Two replicas of the concrete deployment, settled on the old key. */
  const START := Fleet(
    System(0.0, [Replica(GATE, None, [OLD], 0), Replica(GATE, None, [OLD], 1)], [], 2, []),
    Plan(OLD, OLD, Settled, 0.0))

  /** Where the two replicas stand while they rotate to the new key. */
  ghost predicate Stands(f: Fleet, a: Keys, b: Keys, phase: Phase) {
    && |f.system.replicas| == 2
    && f.system.replicas[0].keys == a && f.system.replicas[1].keys == b
    && (forall i :: 0 <= i < 2 ==> f.system.replicas[i].gate == GATE && f.system.replicas[i].audience == None)
    && f.plan.current == OLD && f.plan.next == NEW && f.plan.phase == phase && f.plan.doneAt <= f.system.clock
  }

  /** The run keeps the rules and ends in `f`. */
  ghost predicate Leads(rules: Rules, ops: seq<Op>, f: Fleet) {
    Keeps(rules, START, ops) && RunOps(START, ops) == f
  }

  /** One more operation of the run. */
  lemma Onward(rules: Rules, ops: seq<Op>, f: Fleet, op: Op)
    requires Leads(rules, ops, f) && AllowedUnder(rules, f, op)
    ensures Leads(rules, ops + [op], Perform(f, op))
  {
    RunNext(rules, START, ops, op);
  }

  /** Deploying one replica with the ring of the phase. */
  ghost function Deployment(f: Fleet, i: nat): Op {
    Deploy(i, RingString(f.plan.Target()))
  }

  lemma DeployOne(rules: Rules, f: Fleet, a: Keys, b: Keys, phase: Phase, i: nat)
    requires Stands(f, a, b, phase) && i < 2
    ensures AllowedUnder(rules, f, Deployment(f, i))
    ensures var after, ring := Perform(f, Deployment(f, i)), f.plan.Target();
      && Stands(after, if i == 0 then ring else a, if i == 1 then ring else b, phase)
      && after.system.issued == f.system.issued && after.system.clock == f.system.clock
  {
    KeysDiffer();
    RingStringLoads(f.plan);
    DeployEffect(f, i, RingString(f.plan.Target()));
  }

  /** The call, put to one replica, issues one state under the first key of its ring. */
  lemma AskOne(rules: Rules, f: Fleet, a: Keys, b: Keys, phase: Phase, i: nat)
    requires Stands(f, a, b, phase) && i < 2 && f.system.issued == []
    ensures AllowedUnder(rules, f, Observe(Serve(i, CALL, "")))
    ensures var after := Perform(f, Observe(Serve(i, CALL, "")));
      && Stands(after, a, b, phase) && after.system.clock == f.system.clock
      && |after.system.issued| == 1
      && var token := after.system.issued[0];
         && token.key == f.system.replicas[i].Ring()[0] && token.expires == f.system.clock + TTL
         && BoundTo(token, CALL, None)
  {
    CallAsks(f.system, i, "");
    AskIssues(f.system, i, CALL, "");
  }

  // ---------- the steps of the runs below ----------

  lemma Onto(rules: Rules, ops: seq<Op>, f: Fleet, a: Keys, b: Keys, phase: Phase, to: Phase)
      returns (more: seq<Op>, after: Fleet)
    requires Leads(rules, ops, f) && Stands(f, a, b, phase) && AllowedUnder(rules, f, MoveTo(to)) && !to.Settled?
    ensures Leads(rules, more, after) && Stands(after, a, b, to)
    ensures after.system == f.system && after.plan.doneAt == f.system.clock
  {
    Onward(rules, ops, f, MoveTo(to));
    more, after := ops + [MoveTo(to)], Perform(f, MoveTo(to));
  }

  lemma Waited(rules: Rules, ops: seq<Op>, f: Fleet, a: Keys, b: Keys, phase: Phase) returns (more: seq<Op>, after: Fleet)
    requires Leads(rules, ops, f) && Stands(f, a, b, phase)
    ensures Leads(rules, more, after) && Stands(after, a, b, phase)
    ensures after.plan == f.plan && after.system == f.system.(clock := f.system.clock + TTL)
  {
    Onward(rules, ops, f, Observe(Tick(TTL)));
    more, after := ops + [Observe(Tick(TTL))], Perform(f, Observe(Tick(TTL)));
  }

  lemma Deployed(rules: Rules, ops: seq<Op>, f: Fleet, a: Keys, b: Keys, phase: Phase, i: nat)
      returns (more: seq<Op>, after: Fleet)
    requires Leads(rules, ops, f) && Stands(f, a, b, phase) && i < 2
    ensures var ring := f.plan.Target();
      Leads(rules, more, after) && Stands(after, if i == 0 then ring else a, if i == 1 then ring else b, phase)
    ensures after.system.issued == f.system.issued && after.system.clock == f.system.clock
  {
    DeployOne(rules, f, a, b, phase, i);
    Onward(rules, ops, f, Deployment(f, i));
    more, after := ops + [Deployment(f, i)], Perform(f, Deployment(f, i));
  }

  lemma BothDeployed(rules: Rules, ops: seq<Op>, f: Fleet, a: Keys, b: Keys, phase: Phase) returns (more: seq<Op>, after: Fleet)
    requires Leads(rules, ops, f) && Stands(f, a, b, phase)
    ensures Leads(rules, more, after) && Stands(after, f.plan.Target(), f.plan.Target(), phase)
    ensures after.system.issued == f.system.issued && after.system.clock == f.system.clock
  {
    more, after := Deployed(rules, ops, f, a, b, phase, 0);
    more, after := Deployed(rules, more, after, f.plan.Target(), b, phase, 1);
  }

  lemma AskedOnce(rules: Rules, ops: seq<Op>, f: Fleet, a: Keys, b: Keys, phase: Phase, i: nat)
      returns (more: seq<Op>, after: Fleet)
    requires Leads(rules, ops, f) && Stands(f, a, b, phase) && i < 2 && f.system.issued == []
    ensures Leads(rules, more, after) && Stands(after, a, b, phase) && after.plan == f.plan
    ensures after.system.clock == f.system.clock && Pending(after, f.system.replicas[i].Ring()[0])
  {
    AskOne(rules, f, a, b, phase, i);
    Onward(rules, ops, f, Observe(Serve(i, CALL, "")));
    more, after := ops + [Observe(Serve(i, CALL, ""))], Perform(f, Observe(Serve(i, CALL, "")));
  }

  /** One live state for the call is out, sealed under `key`. */
  ghost predicate Pending(f: Fleet, key: Key) {
    && |f.system.issued| == 1 && f.system.issued[0].key == key
    && BoundTo(f.system.issued[0], CALL, None) && Live(f.system.issued[0], f.system.clock)
  }

  lemma Rejection(f: Fleet, a: Keys, b: Keys, phase: Phase, i: nat, key: Key)
    requires Stands(f, a, b, phase) && i < 2 && Pending(f, key) && key !in f.system.replicas[i].Ring()
    ensures TurnsAway(f) && !Covered(f)
  {
    DroppedKeyRejects(f.system, i, RetryOf(CALL, YES, 0), "");
  }

  /** The rotation begins. */
  lemma Begun(rules: Rules) returns (ops: seq<Op>, f: Fleet)
    ensures Leads(rules, ops, f) && Stands(f, [OLD], [OLD], Introduce) && f.system == START.system
  {
    Onward(rules, [], START, Begin(NEW));
    ops, f := [] + [Begin(NEW)], Perform(START, Begin(NEW));
  }

  const PHASE_ONE: Keys := [OLD, NEW]
  const PHASE_TWO: Keys := [NEW, OLD]
  const PHASE_THREE: Keys := [NEW]

  lemma PhaseOne(rules: Rules) returns (ops: seq<Op>, f: Fleet)
    ensures Leads(rules, ops, f) && Stands(f, PHASE_ONE, PHASE_ONE, Introduce) && f.system.issued == []
  {
    ops, f := Begun(rules);
    ops, f := BothDeployed(rules, ops, f, [OLD], [OLD], Introduce);
  }

  lemma PhaseTwo(rules: Rules, ops: seq<Op>, f: Fleet) returns (more: seq<Op>, after: Fleet)
    requires Leads(rules, ops, f) && Stands(f, PHASE_ONE, PHASE_ONE, Introduce)
    ensures Leads(rules, more, after) && Stands(after, PHASE_TWO, PHASE_TWO, Switch)
    ensures after.system.issued == f.system.issued && after.system.clock == f.system.clock
  {
    more, after := Onto(rules, ops, f, PHASE_ONE, PHASE_ONE, Introduce, Switch);
    more, after := BothDeployed(rules, more, after, PHASE_ONE, PHASE_ONE, Switch);
  }

  lemma RetireBegins(rules: Rules, ops: seq<Op>, f: Fleet) returns (more: seq<Op>, after: Fleet)
    requires Leads(rules, ops, f) && Stands(f, PHASE_TWO, PHASE_TWO, Switch)
    ensures Leads(rules, more, after) && Stands(after, PHASE_TWO, PHASE_TWO, Retire)
    ensures after.system.issued == f.system.issued
  {
    more, after := Waited(rules, ops, f, PHASE_TWO, PHASE_TWO, Switch);
    assert AllowedUnder(rules, after, MoveTo(Retire));
    more, after := Onto(rules, more, after, PHASE_TWO, PHASE_TWO, Switch, Retire);
  }

  lemma PhaseThree(rules: Rules) returns (ops: seq<Op>, f: Fleet)
    ensures Leads(rules, ops, f) && Stands(f, PHASE_THREE, PHASE_THREE, Retire) && f.system.issued == []
  {
    ops, f := PhaseOne(rules);
    ops, f := PhaseTwo(rules, ops, f);
    ops, f := RetireBegins(rules, ops, f);
    ops, f := BothDeployed(rules, ops, f, PHASE_TWO, PHASE_TWO, Retire);
  }

  // ---------- one run for each rule ----------

  /** Phase two on one replica before the other has phase one. */
  lemma WithoutIntroduction(rules: Rules) returns (ops: seq<Op>, f: Fleet)
    requires !rules.introduced
    ensures Leads(rules, ops, f) && TurnsAway(f) && !Covered(f)
  {
    KeysDiffer();
    ops, f := Begun(rules);
    ops, f := Onto(rules, ops, f, [OLD], [OLD], Introduce, Switch);
    ops, f := Deployed(rules, ops, f, [OLD], [OLD], Switch, 0);
    ops, f := AskedOnce(rules, ops, f, PHASE_TWO, [OLD], Switch, 0);
    Rejection(f, PHASE_TWO, [OLD], Switch, 1, Configured(NEW));
  }

  lemma RetireFromPhaseOne(rules: Rules) returns (ops: seq<Op>, f: Fleet)
    requires !rules.switched
    ensures Leads(rules, ops, f) && Stands(f, PHASE_ONE, PHASE_ONE, Retire) && f.system.issued == []
  {
    ops, f := PhaseOne(rules);
    ops, f := Onto(rules, ops, f, PHASE_ONE, PHASE_ONE, Introduce, Switch);
    ops, f := Waited(rules, ops, f, PHASE_ONE, PHASE_ONE, Switch);
    ops, f := Onto(rules, ops, f, PHASE_ONE, PHASE_ONE, Switch, Retire);
  }

  /** Phase three on one replica while the other is still in phase one. */
  lemma WithoutSwitch(rules: Rules) returns (ops: seq<Op>, f: Fleet)
    requires !rules.switched
    ensures Leads(rules, ops, f) && TurnsAway(f) && !Covered(f)
  {
    KeysDiffer();
    ops, f := RetireFromPhaseOne(rules);
    ops, f := Deployed(rules, ops, f, PHASE_ONE, PHASE_ONE, Retire, 0);
    ops, f := AskedOnce(rules, ops, f, PHASE_THREE, PHASE_ONE, Retire, 1);
    Rejection(f, PHASE_THREE, PHASE_ONE, Retire, 0, Configured(OLD));
  }

  /** A state of phase one is still out when every replica has phase two. */
  lemma AskedBeforePhaseTwo(rules: Rules) returns (ops: seq<Op>, f: Fleet)
    ensures Leads(rules, ops, f) && Stands(f, PHASE_TWO, PHASE_TWO, Switch) && Pending(f, Configured(OLD))
  {
    ops, f := PhaseOne(rules);
    ops, f := AskedOnce(rules, ops, f, PHASE_ONE, PHASE_ONE, Introduce, 0);
    ops, f := PhaseTwo(rules, ops, f);
  }

  /** Phase three without waiting for the states of phase one to expire. */
  lemma WithoutWait(rules: Rules) returns (ops: seq<Op>, f: Fleet)
    requires !rules.waited
    ensures Leads(rules, ops, f) && TurnsAway(f) && !Covered(f)
  {
    KeysDiffer();
    ops, f := AskedBeforePhaseTwo(rules);
    ops, f := Onto(rules, ops, f, PHASE_TWO, PHASE_TWO, Switch, Retire);
    ops, f := Deployed(rules, ops, f, PHASE_TWO, PHASE_TWO, Retire, 0);
    Rejection(f, PHASE_THREE, PHASE_TWO, Retire, 0, Configured(OLD));
  }

  /** The rollback of the runbook, from phase three. */
  lemma RollBackTooLate(rules: Rules) returns (ops: seq<Op>, f: Fleet)
    requires !rules.backInTime
    ensures Leads(rules, ops, f) && TurnsAway(f) && !Covered(f)
  {
    KeysDiffer();
    ops, f := PhaseThree(rules);
    ops, f := Onto(rules, ops, f, PHASE_THREE, PHASE_THREE, Retire, RollBack);
    ops, f := Deployed(rules, ops, f, PHASE_THREE, PHASE_THREE, RollBack, 1);
    ops, f := AskedOnce(rules, ops, f, PHASE_THREE, PHASE_ONE, RollBack, 1);
    Rejection(f, PHASE_THREE, PHASE_ONE, RollBack, 0, Configured(OLD));
  }

  /** A set of the rules protects every approval through every run exactly when it is all of them:
      without any one of them there is a run in which an explicit yes in time is rejected. */
  lemma {:induction false} EveryRuleIsNeeded(rules: Rules)
    ensures Protect(rules) <==> rules == RUNBOOK
    ensures rules != RUNBOOK ==> exists ops :: Keeps(rules, START, ops) && TurnsAway(RunOps(START, ops))
  {
    if rules == RUNBOOK {
      forall f, ops: seq<Op> | Keeps(rules, f, ops) && Starting(f) ensures Covered(RunOps(f, ops)) {
        EveryLiveStateUnseals(f, ops);
      }
    } else {
      var ops, f := [], START;
      if !rules.introduced {
        ops, f := WithoutIntroduction(rules);
      } else if !rules.switched {
        ops, f := WithoutSwitch(rules);
      } else if !rules.waited {
        ops, f := WithoutWait(rules);
      } else {
        ops, f := RollBackTooLate(rules);
      }
      assert Keeps(rules, START, ops) && TurnsAway(RunOps(START, ops));
      assert Starting(START);
    }
  }

  // ---------- replicas in different phases ----------

  /** Two replicas of the concrete deployment, one in phase `p` and one in phase `q`. */
  function Mixed(p: Phase, q: Phase): (s: System)
    ensures |s.replicas| == 2
  {
    var plan := Plan(OLD, NEW, Settled, 0.0);
    System(0.0,
           [Replica(GATE, None, plan.(phase := p).Target(), 0), Replica(GATE, None, plan.(phase := q).Target(), 1)],
           [], 2, [])
  }

  /** In the concrete deployment the first replica puts the question, whatever the phases, and the
      explicit yes at the second is rejected for the pairs that do not mix; in particular after the
      runbook's rollback of the first while the second is in phase three. */
  lemma {:induction false} EveryMixOccurs(p: Phase, q: Phase)
    ensures var asked := Served(Mixed(p, q), 0, CALL, "");
      && |asked.replicas| == 2 && Last(asked).response.Asked?
      && (Last(Served(asked, 1, RetryOf(CALL, YES, 0), "")).response.Rejected?
          <==> (SealsNew(p) && q.Settled?) || (!SealsNew(p) && q.Retire?))
  {
    var s, plan := Mixed(p, q), Plan(OLD, NEW, Settled, 0.0);
    assert OLD != NEW by {
      KeysDiffer();
    }
    CallAsks(s, 0, "");
    assert Served(s, 0, CALL, "").clock == s.clock + 0.0;
    PhasesThatDoNotMix(s, 0, 1, CALL, "", YES, "", 0.0, plan, p, q);
  }

  /** By the runbook, amid phase one, the first replica is asked and some time passes. */
  lemma AskAndWait(elapsed: real) returns (before: seq<Op>, f: Fleet)
    requires elapsed > 0.0
    ensures Leads(RUNBOOK, before, f) && Stands(f, PHASE_ONE, PHASE_ONE, Introduce) && f.system.issued == []
    ensures var run := before + [Observe(Serve(0, CALL, ""))] + [Observe(Tick(elapsed))];
      Disciplined(START, run) && RunOps(START, run).system.clock == f.system.clock + elapsed
  {
    var ask, tick := Observe(Serve(0, CALL, "")), Observe(Tick(elapsed));
    before, f := PhaseOne(RUNBOOK);
    AskOne(RUNBOOK, f, PHASE_ONE, PHASE_ONE, Introduce, 0);
    Onward(RUNBOOK, before, f, ask);
    Onward(RUNBOOK, before + [ask], Perform(f, ask), tick);
  }

  lemma StartIsReady()
    ensures Starting(START) && Alike(START, GATE, None) && |START.system.replicas| == 2
  {
  }

  /** The good case in the same deployment: the question is put by the first replica, and the explicit
      yes runs the call at the second up to the time to live and not after. */
  lemma {:induction false} RoundTripOccurs(elapsed: real) returns (before: seq<Op>)
    requires elapsed > 0.0
    ensures var run := before + [Observe(Serve(0, CALL, ""))] + [Observe(Tick(elapsed))];
      && Disciplined(START, run) && 1 < |RunOps(START, run).system.replicas|
      && (Last(Served(RunOps(START, run).system, 1, RetryOf(CALL, YES, 0), "")).response.Ran? <==> elapsed < 600.0)
  {
    var f;
    before, f := AskAndWait(elapsed);
    assert f == RunOps(START, before) && Last(Served(f.system, 0, CALL, "")).response.Asked? by {
      CallAsks(f.system, 0, "");
    }
    YesIsConsent();
    StartIsReady();
    ApprovalTravels(START, GATE, None, before, 0, CALL, "", [Observe(Tick(elapsed))], 1, YES, "");
  }

  /** One approval, two executions: in the same run the explicit yes runs the gated call at the second
      replica, and repeated there at once it runs again. */
  lemma {:induction false} ReuseOccurs(elapsed: real) returns (before: seq<Op>)
    requires 0.0 < elapsed < TTL
    ensures var run := before + [Observe(Serve(0, CALL, ""))] + [Observe(Tick(elapsed))];
      && Disciplined(START, run) && 1 < |RunOps(START, run).system.replicas|
      && var now, retry := RunOps(START, run).system, RetryOf(CALL, YES, 0);
         && RanGated(Last(Served(now, 1, retry, "")))
         && RanGated(Last(Served(Served(now, 1, retry, ""), 1, retry, "")))
  {
    before := RoundTripOccurs(elapsed);
    var run := before + [Observe(Serve(0, CALL, ""))] + [Observe(Tick(elapsed))];
    StartIsReady();
    RunKeepsAlike(START, run, GATE, None);
    CallIsGated();
    RetryReads(GATE, CALL, YES, 0);
    ApprovalIsReusable(RunOps(START, run).system, 1, RetryOf(CALL, YES, 0), "", "");
  }
}
