/** The approval round trip through a rotating fleet: asked on one replica, answered on any other. */
module Handover {
  import opened Wire
  import opened Approval
  import opened Gates
  import opened Boundary
  import opened Cluster
  import opened ApprovalSafety
  import opened Rotation

  lemma PerformFollows(f: Fleet, op: Op)
    ensures Follows(Perform(f, op).system, f.system)
    ensures Inv(f.system) ==> Inv(Perform(f, op).system)
  {
    match op
    case Observe(step) => AppliedKeepsInv(f.system, step);
    case Deploy(i, raw) =>
      if i < |f.system.replicas| {
        AppliedKeepsInv(f.system, Step.Redeploy(i, raw, f.system.replicas[i].gate));
      }
    case _ =>
  }

  lemma AppliedKeepsInv(s: System, step: Step)
    ensures Follows(Apply(s, step), s)
    ensures Inv(s) ==> Inv(Apply(s, step))
  {
    StepFollows(s, step);
    if Inv(s) {
      ApplyKeepsInv(s, step);
    }
  }

  lemma {:induction false} FleetFollows(f: Fleet, ops: seq<Op>)
    ensures Follows(RunOps(f, ops).system, f.system)
    ensures Inv(f.system) ==> Inv(RunOps(f, ops).system)
  {
    if ops != [] {
      FleetFollows(f, ops[..|ops| - 1]);
      PerformFollows(RunOps(f, ops[..|ops| - 1]), ops[|ops| - 1]);
    }
  }

  /** The retry is a call of the same tool by the same caller, and its answers are the ones given. */
  lemma RetryReads(gate: Gate, call: ClientRequest, answers: Value, index: nat)
    requires Gated(gate, call.Plain()) && !Truthy(call.Plain().Answers())
    ensures var retry := RetryOf(call, answers, index).Plain();
      && Gated(gate, retry) && ToolDecision(gate, retry) == ToolDecision(gate, call.Plain())
      && (Truthy(retry.Answers()) && ExplicitConsent(retry.Answers()) <==> ExplicitConsent(answers))
  {
    LookupPut(call.Plain().Params(), "inputResponses", answers, "name");
    LookupPut(call.Plain().Params(), "inputResponses", answers, "inputResponses");
    LookupPut(call.Plain().Params(), "inputResponses", answers, "input_responses");
    ConsentIsTruthy(answers);
  }

  /** In a system where approvals are on record and every live state unseals, a question's state `k` is
      admitted with the repeated call on any replica until it expires. */
  lemma RetryAdmittedIff(f: Fleet, b: nat, call: ClientRequest, answers: Value, k: nat, audience: Option<string>)
    requires Covered(f) && b < |f.system.replicas| && k < |f.system.issued|
    requires f.system.replicas[b].audience == audience && BoundTo(f.system.issued[k], call, audience)
    ensures var s, retry := f.system, RetryOf(call, answers, k);
      Admit(s.replicas[b].Ring(), s.replicas[b].audience, s.issued, s.clock, retry).Some? <==> Live(s.issued[k], s.clock)
  {
    RetryIsSameCall(call, answers, k);
    assert BoundTo(f.system.issued[k], RetryOf(call, answers, k), audience);
  }

  /** The round trip on one system: the state was issued for the call, and the retry comes to any
      replica. */
  lemma RetryRuns(f: Fleet, gate: Gate, audience: Option<string>, b: nat, call: ClientRequest, k: nat, answers: Value,
                  again: string)
    requires Inv(f.system) && Covered(f) && Alike(f, gate, audience)
    requires b < |f.system.replicas| && k < |f.system.issued| && BoundTo(f.system.issued[k], call, audience)
    requires Gated(gate, call.Plain()) && ToolDecision(gate, call.Plain()).allowed && !Truthy(call.Plain().Answers())
    ensures Last(Served(f.system, b, RetryOf(call, answers, k), again)).response.Ran?
       <==> ExplicitConsent(answers) && Live(f.system.issued[k], f.system.clock)
  {
    RetryAdmittedIff(f, b, call, answers, k, audience);
    RetryReads(gate, call, answers, k);
    if Live(f.system.issued[k], f.system.clock) {
      AdmittedRetryRunsIff(f.system, b, RetryOf(call, answers, k), again);
    }
  }

  /** What an ask leaves behind for the retry. */
  lemma AskLeaves(f: Fleet, gate: Gate, audience: Option<string>, a: nat, call: ClientRequest, nonce: string)
    requires Alike(f, gate, audience) && a < |f.system.replicas|
    requires Last(Served(f.system, a, call, nonce)).response.Asked?
    ensures var k, after := |f.system.issued|, Served(f.system, a, call, nonce);
      && |after.issued| == k + 1
      && BoundTo(after.issued[k], call, audience) && after.issued[k].expires == f.system.clock + TTL
    ensures Gated(gate, call.Plain()) && ToolDecision(gate, call.Plain()).allowed && !Truthy(call.Plain().Answers())
  {
    var r := f.system.replicas[a];
    AskMints(f.system, a, call, nonce);
    AskIssues(f.system, a, call, nonce);
    var inner := Admit(r.Ring(), r.audience, f.system.issued, f.system.clock, call).value;
    AdmittedReadsTheCall(r, f.system, call);
    AsksIff(gate, inner, nonce);
  }

  /** An approval travels: from the start of a fleet, through any number of rotations by the runbook and
      any traffic, a question put by any replica and answered at any other, however the rotation went
      on in between, runs the call exactly when the answer is an explicit yes and comes within the
      time to live. */
  lemma {:induction false} ApprovalTravels(f: Fleet, gate: Gate, audience: Option<string>, before: seq<Op>, a: nat,
                                           call: ClientRequest, nonce: string, after: seq<Op>, b: nat, answers: Value,
                                           again: string)
    requires Starting(f) && Alike(f, gate, audience)
    requires Disciplined(f, before + [Observe(Serve(a, call, nonce))] + after)
    requires a < |RunOps(f, before).system.replicas| && b < |f.system.replicas|
    requires Last(Served(RunOps(f, before).system, a, call, nonce)).response.Asked?
    ensures var asked := RunOps(f, before).system;
      var now := RunOps(f, before + [Observe(Serve(a, call, nonce))] + after).system;
      && b < |now.replicas|
      && (Last(Served(now, b, RetryOf(call, answers, |asked.issued|), again)).response.Ran?
          <==> ExplicitConsent(answers) && now.clock < asked.clock + TTL)
  {
    var ask := Observe(Serve(a, call, nonce));
    var f1 := RunOps(f, before);
    var f2 := RunOps(f, before + [ask]);
    var f3 := RunOps(f, before + [ask] + after);
    RunOpsAppend(f, before + [ask], after);
    RunNext(RUNBOOK, f, before, ask);
    FleetFollows(f, before);
    RunKeepsAlike(f, before, gate, audience);
    AskLeaves(f1, gate, audience, a, call, nonce);
    PerformFollows(f1, ask);
    FleetFollows(f2, after);
    RunKeepsAlike(f, before + [ask] + after, gate, audience);
    EveryLiveStateUnseals(f, before + [ask] + after);
    var k := |f1.system.issued|;
    assert f3.system.issued[k] == f2.system.issued[k];
    RetryRuns(f3, gate, audience, b, call, k, answers, again);
  }
}
