/** Stateless replicas behind a load balancer, as a step system. */
module Cluster {
  import opened Wire
  import opened Audit
  import opened Approval
  import opened KeyRing
  import opened Gates
  import opened Boundary

  /** One server process, numbered `process`: its middleware and the keys it was configured with. */
  datatype Replica = Replica(gate: Gate, audience: Option<string>, keys: Keys, process: nat)
  {
    function Ring(): Ring {
      Build(keys, process)
    }
  }

  datatype Response =
    | Rejected
    | Refused(error: McpError)
    | Asked(message: string, token: nat)
    | Ran

  /** One served request: where and when, under which gate, what was recorded and answered. */
  datatype Exchange = Exchange(
    time: real,
    replica: nat,
    gate: Gate,
    request: ClientRequest,
    records: seq<AuditRecord>,
    response: Response)

  /** `issued` lists every sealed state clients were ever sent; `processes` counts process starts. */
  datatype System = System(
    clock: real,
    replicas: seq<Replica>,
    issued: seq<Token>,
    processes: nat,
    history: seq<Exchange>)

  datatype Step =
    | Tick(elapsed: real)
    | Serve(replica: nat, request: ClientRequest, nonce: string)
    | Redeploy(replica: nat, raw: string, gate: Gate)
    | Restart(replica: nat)

  function ResponseTo(verdict: Verdict, token: nat): Response {
    match verdict
    case Refuse(error) => Refused(error)
    case Ask(question) => Asked(question.message, token)
    case Forward => Ran
  }

  /** One replica serves one request: boundary first, then the middleware. */
  function Served(s: System, i: nat, req: ClientRequest, nonce: string): System
    requires i < |s.replicas|
  {
    var r := s.replicas[i];
    match Admit(r.Ring(), r.audience, s.issued, s.clock, req)
    case None =>
      s.(history := s.history + [Exchange(s.clock, i, r.gate, req, [], Rejected)])
    case Some(inner) =>
      var ruling := RuleOn(r.gate, inner, nonce);
      var exchange := Exchange(s.clock, i, r.gate, req, ruling.records, ResponseTo(ruling.verdict, |s.issued|));
      s.(history := s.history + [exchange],
         issued := if ruling.verdict.Ask?
                   then s.issued + [Seal(r.Ring(), r.audience, s.clock, req, ruling.verdict.question.requestState)]
                   else s.issued)
  }

  /** A process starts with the ring its configuration gives; one whose keys do not load never
      replaces the process that runs. */
  ghost function Redeployed(s: System, i: nat, raw: string, gate: Gate): System
    requires i < |s.replicas|
  {
    match LoadedKeys(raw)
    case Failure(_) => s
    case Success(keys) =>
      s.(replicas := s.replicas[i := Replica(gate, s.replicas[i].audience, keys, s.processes)],
         processes := s.processes + 1)
  }

  function Restarted(s: System, i: nat): System
    requires i < |s.replicas|
  {
    s.(replicas := s.replicas[i := s.replicas[i].(process := s.processes)],
       processes := s.processes + 1)
  }

  ghost function Apply(s: System, step: Step): System {
    match step
    case Tick(elapsed) => if elapsed > 0.0 then s.(clock := s.clock + elapsed) else s
    case Serve(i, req, nonce) => if i < |s.replicas| then Served(s, i, req, nonce) else s
    case Redeploy(i, raw, gate) => if i < |s.replicas| then Redeployed(s, i, raw, gate) else s
    case Restart(i) => if i < |s.replicas| then Restarted(s, i) else s
  }

  ghost function Run(s: System, steps: seq<Step>): System {
    if steps == [] then s else Apply(Run(s, steps[..|steps| - 1]), steps[|steps| - 1])
  }

  /** A deployment whose ring string loads starts a new process with those keys and that gate in place of one
      replica; any other leaves the system as it is. A restart keeps the configuration. */
  lemma DeploymentsAndRestarts(s: System, i: nat, raw: string, gate: Gate)
    requires i < |s.replicas|
    ensures LoadedKeys(raw).Failure? ==> Apply(s, Redeploy(i, raw, gate)) == s
    ensures LoadedKeys(raw).Success? ==>
              var after := Apply(s, Redeploy(i, raw, gate));
              && after.replicas[i].keys == LoadedKeys(raw).value && after.replicas[i].gate == gate
              && after.replicas[i].process == s.processes && after.replicas[i].audience == s.replicas[i].audience
    ensures var after := Apply(s, Restart(i));
      && after.replicas[i].keys == s.replicas[i].keys && after.replicas[i].gate == s.replicas[i].gate
      && after.replicas[i].process == s.processes
    ensures forall step :: step in {Redeploy(i, raw, gate), Restart(i)} ==>
              var after := Apply(s, step);
              && |after.replicas| == |s.replicas| && after.issued == s.issued && after.history == s.history && after.clock == s.clock
              && forall j :: 0 <= j < |s.replicas| && j != i ==> after.replicas[j] == s.replicas[j]
  {
  }

  /** Nothing served and nothing issued yet; replicas, gates, rings and clock are arbitrary. */
  predicate Fresh(s: System) {
    s.issued == [] && s.history == []
  }

  /** Later systems remember every issued state, and their clock has not gone back. */
  predicate Follows(later: System, s: System) {
    s.issued <= later.issued && s.clock <= later.clock && |later.replicas| == |s.replicas|
  }

  lemma StepFollows(s: System, step: Step)
    ensures Follows(Apply(s, step), s)
  {
  }

  lemma {:induction false} RunFollows(s: System, steps: seq<Step>)
    ensures Follows(Run(s, steps), s)
  {
    if steps != [] {
      RunFollows(s, steps[..|steps| - 1]);
      StepFollows(Run(s, steps[..|steps| - 1]), steps[|steps| - 1]);
    }
  }

  // ---------- handing an approval from one replica to another ----------

  /** The last exchange of a system that has served something. */
  function Last(s: System): Exchange
    requires s.history != []
  {
    s.history[|s.history| - 1]
  }

  /** A call without a state is answered with the approval question exactly when the tool's rule wants
      approval, the caller is authorized, and there are no answers yet. */
  lemma AskedIff(s: System, i: nat, req: ClientRequest, nonce: string)
    requires i < |s.replicas| && req.presented.Nothing?
    ensures var gate := s.replicas[i].gate;
      Last(Served(s, i, req, nonce)).response.Asked?
      <==> Gated(gate, req.Plain()) && ToolDecision(gate, req.Plain()).allowed && !Truthy(req.Plain().Answers())
  {
    InnerReadsTheCall(req, None);
    AsksIff(s.replicas[i].gate, Inner(req, None), nonce);
  }

  lemma AsWrittenReadsTheCall(req: ClientRequest, state: string)
    requires Lookup(req.Plain().Params(), "request_state") == Some(Str(state)) && state != ""
    ensures var inner := InnerAsWritten(req);
      && inner.ToolName() == req.Plain().ToolName() && inner.Answers() == req.Plain().Answers()
      && inner.State() == Str(state)
  {
    var entries := Without(req.Plain().Params(), "requestState");
    assert Lookup(entries, "name") == Lookup(req.Plain().Params(), "name");
    assert Lookup(entries, "inputResponses") == Lookup(req.Plain().Params(), "inputResponses");
    assert Lookup(entries, "input_responses") == Lookup(req.Plain().Params(), "input_responses");
    assert Lookup(entries, "request_state") == Lookup(req.Plain().Params(), "request_state");
  }

  lemma NothingPresentedNeverRuns(s: System, i: nat, req: ClientRequest, nonce: string)
    requires i < |s.replicas| && req.presented.Nothing? && Gated(s.replicas[i].gate, req.Plain())
    ensures !Last(Served(s, i, req, nonce)).response.Ran?
  {
    InnerReadsTheCall(req, None);
    ToolRunsIff(s.replicas[i].gate, Inner(req, None), nonce);
  }

  /** Why both state fields must have been through the boundary: a gated call that carries a pending
      state in `request_state`, in a system that has asked nothing, never runs as the boundary hands it
      on. If the field reached the middleware as the client wrote it, the call would run exactly when the
      caller is authorized and says yes. */
  lemma {:induction false} StateFieldsNeedTheBoundary(s: System, i: nat, req: ClientRequest, state: string, nonce: string)
    requires Fresh(s) && i < |s.replicas| && req.presented.Nothing? && Gated(s.replicas[i].gate, req.Plain())
    requires Lookup(req.Plain().Params(), "request_state") == Some(Str(state)) && IsPending(Str(state))
    ensures !Last(Served(s, i, req, nonce)).response.Ran?
    ensures var gate := s.replicas[i].gate;
      ResponseTo(RuleOn(gate, InnerAsWritten(req), nonce).verdict, |s.issued|).Ran?
      <==> ToolDecision(gate, req.Plain()).allowed && ExplicitConsent(req.Plain().Answers())
  {
    NothingPresentedNeverRuns(s, i, req, nonce);
    AsWrittenReadsTheCall(req, state);
    ConsentIsTruthy(req.Plain().Answers());
    ToolRunsIff(s.replicas[i].gate, InnerAsWritten(req), nonce);
  }

  /** A question comes with one new sealed state, sealed under the first key and bound to the call. */
  lemma {:induction false} AskIssues(s: System, i: nat, req: ClientRequest, nonce: string)
    requires i < |s.replicas| && Last(Served(s, i, req, nonce)).response.Asked?
    ensures var after := Served(s, i, req, nonce);
      var r := s.replicas[i];
      && |after.issued| == |s.issued| + 1
      && var token := after.issued[|s.issued|];
      && token == Seal(r.Ring(), r.audience, s.clock, req, token.state)
      && IsPending(Str(token.state))
      && Last(after).response.token == |s.issued|
  {
    var r := s.replicas[i];
    var inner := Admit(r.Ring(), r.audience, s.issued, s.clock, req);
    AsksIff(r.gate, inner.value, nonce);
  }

  lemma RejectedIff(s: System, i: nat, req: ClientRequest, nonce: string)
    requires i < |s.replicas|
    ensures var r := s.replicas[i];
      Last(Served(s, i, req, nonce)).response.Rejected?
      <==> Admit(r.Ring(), r.audience, s.issued, s.clock, req).None?
  {
  }

  /** An ask served by replica `a` and its retry on replica `b`, `elapsed` seconds later, gets past
      the boundary exactly when `b` holds the key `a` seals with and the state has not expired. */
  lemma {:induction false} HandoffAcceptedIff(s: System, a: nat, b: nat, req: ClientRequest, nonce: string, answers: Value,
                                              again: string, elapsed: real)
    requires a < |s.replicas| && b < |s.replicas| && elapsed >= 0.0
    requires s.replicas[a].audience == s.replicas[b].audience
    requires Last(Served(s, a, req, nonce)).response.Asked?
    ensures var later := Served(s, a, req, nonce).(clock := s.clock + elapsed);
      Last(Served(later, b, RetryOf(req, answers, |s.issued|), again)).response.Rejected?
      <==> s.replicas[a].Ring()[0] !in s.replicas[b].Ring() || elapsed >= TTL
  {
    AskIssues(s, a, req, nonce);
    var later := Served(s, a, req, nonce).(clock := s.clock + elapsed);
    var retry := RetryOf(req, answers, |s.issued|);
    RetryIsSameCall(req, answers, |s.issued|);
    assert BoundTo(later.issued[|s.issued|], retry, s.replicas[b].audience);
    RejectedIff(later, b, retry, again);
  }

  // ---------- rings without configuration ----------

  predicate Booted(s: System) {
    && (forall i :: 0 <= i < |s.replicas| ==> s.replicas[i].process < s.processes)
    && (forall i, j :: 0 <= i < j < |s.replicas| ==> s.replicas[i].process != s.replicas[j].process)
    && (forall k :: 0 <= k < |s.issued| && s.issued[k].key.ProcessLocal? ==> s.issued[k].key.id < s.processes)
  }

  /** What serving does to the issued states: at most one more, sealed here and now. */
  lemma ServedIssues(s: System, i: nat, req: ClientRequest, nonce: string)
    requires i < |s.replicas|
    ensures var after := Served(s, i, req, nonce);
      && after.replicas == s.replicas && after.clock == s.clock && after.processes == s.processes
      && |s.issued| <= |after.issued| <= |s.issued| + 1
      && (forall k :: 0 <= k < |s.issued| ==> after.issued[k] == s.issued[k])
      && (|after.issued| > |s.issued| ==>
            && after.issued[|s.issued|].key == s.replicas[i].Ring()[0]
            && after.issued[|s.issued|].expires == s.clock + TTL)
  {
  }

  lemma ServedStaysBooted(s: System, i: nat, req: ClientRequest, nonce: string)
    requires Booted(s) && i < |s.replicas|
    ensures Booted(Served(s, i, req, nonce))
  {
    ServedIssues(s, i, req, nonce);
    assert s.replicas[i].process < s.processes;
  }

  lemma StepStaysBooted(s: System, step: Step)
    requires Booted(s)
    ensures Booted(Apply(s, step))
  {
    match step
    case Serve(i, req, nonce) =>
      if i < |s.replicas| {
        ServedStaysBooted(s, i, req, nonce);
      }
    case _ =>
  }

  lemma {:induction false} StaysBooted(s: System, steps: seq<Step>)
    requires Booted(s)
    ensures Booted(Run(s, steps))
  {
    if steps != [] {
      StaysBooted(s, steps[..|steps| - 1]);
      StepStaysBooted(Run(s, steps[..|steps| - 1]), steps[|steps| - 1]);
    }
  }

  /** In every reachable system, a replica without configured keys seals under a key no other replica
      holds, and once it restarts it rejects every state issued before. */
  lemma {:induction false} UnconfiguredReplicasAreAlone(s: System, steps: seq<Step>, i: nat, j: nat, req: ClientRequest)
    requires Booted(s)
    requires i < |Run(s, steps).replicas| && Run(s, steps).replicas[i].keys == []
    requires j < |Run(s, steps).replicas| && j != i
    ensures var now := Run(s, steps);
      && now.replicas[i].Ring()[0] !in now.replicas[j].Ring()
      && var after := Restarted(now, i);
         req.presented.Replay? ==>
           Admit(after.replicas[i].Ring(), after.replicas[i].audience, after.issued, after.clock, req).None?
  {
    StaysBooted(s, steps);
    var now := Run(s, steps);
    var own := now.replicas[i].Ring()[0];
    assert own in now.replicas[i].Ring();
    var after := Restarted(now, i);
    if req.presented.Replay? && req.presented.index < |after.issued| {
      assert !Unseals(after.replicas[i].Ring(), after.issued[req.presented.index]);
    }
  }
}
