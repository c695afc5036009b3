/** Approval safety over whole runs of the replicated system, whatever clients replay, reorder or
    re-target, and however replicas are redeployed. */
module ApprovalSafety {
  import opened Wire
  import opened Audit
  import opened Approval
  import opened Gates
  import opened Boundary
  import opened Cluster

  /** The exchange ran a handler for a tool whose rule wants approval, under enforcement. */
  predicate RanGated(x: Exchange) {
    x.response.Ran? && Gated(x.gate, x.request.Plain())
  }

  /** Exchange `x` put the approval question for a call to an authorized caller and sealed `token`
      for it as number `k`. */
  ghost predicate AskedFor(x: Exchange, k: nat, token: Token) {
    && x.response.Asked? && x.response.token == k
    && Gated(x.gate, x.request.Plain())
    && ToolDecision(x.gate, x.request.Plain()).allowed
    && BoundTo(token, x.request, token.audience)
    && token.expires == x.time + TTL
    && IsPending(Str(token.state))
    && Hit(x.records, 1, APPROVAL, PENDING)
    && ShowsCall(x.response.message, x.request.Name(), x.request.Arguments())
  }

  ghost predicate Minted(history: seq<Exchange>, k: nat, token: Token) {
    exists a :: 0 <= a < |history| && AskedFor(history[a], k, token)
  }

  /** Exchange `a` asked for the very call that exchange `x` ran, less than one time to live before, and the
      question showed that call. */
  ghost predicate Approves(a: Exchange, x: Exchange) {
    && a.response.Asked?
    && x.request.presented == Replay(a.response.token)
    && a.request.operation == x.request.operation
    && a.request.Name() == x.request.Name()
    && a.request.Arguments() == x.request.Arguments()
    && a.request.caller.binding == x.request.caller.binding
    && a.time <= x.time < a.time + TTL
    && Gated(a.gate, a.request.Plain())
    && ToolDecision(a.gate, a.request.Plain()).allowed
    && Hit(a.records, 1, APPROVAL, PENDING)
    && ShowsCall(a.response.message, x.request.Name(), x.request.Arguments())
  }

  /** Exchange `j` was consented to in its own request and asked for in an earlier exchange. */
  ghost predicate Justified(history: seq<Exchange>, j: nat)
    requires j < |history|
  {
    && ToolDecision(history[j].gate, history[j].request.Plain()).allowed
    && ExplicitConsent(history[j].request.Plain().Answers())
    && exists a :: 0 <= a < j && Approves(history[a], history[j])
  }

  /** Every issued state stems from a recorded ask, and every gated run so far is justified. */
  ghost predicate Inv(s: System) {
    && (forall k :: 0 <= k < |s.issued| ==> Minted(s.history, k, s.issued[k]))
    && (forall j :: 0 <= j < |s.history| ==> s.history[j].time <= s.clock)
    && (forall j :: 0 <= j < |s.history| && RanGated(s.history[j]) ==> Justified(s.history, j))
  }

  // ---------- one exchange ----------

  lemma MintedGrows(history: seq<Exchange>, x: Exchange, k: nat, token: Token)
    requires Minted(history, k, token)
    ensures Minted(history + [x], k, token)
  {
    var a :| 0 <= a < |history| && AskedFor(history[a], k, token);
    assert (history + [x])[a] == history[a];
  }

  lemma JustifiedGrows(history: seq<Exchange>, x: Exchange, j: nat)
    requires j < |history| && Justified(history, j)
    ensures Justified(history + [x], j)
  {
    var a :| 0 <= a < j && Approves(history[a], history[j]);
    assert (history + [x])[a] == history[a] && (history + [x])[j] == history[j];
  }

  /** The exchange a served request adds. */
  lemma ServedAppends(s: System, i: nat, req: ClientRequest, nonce: string)
    requires i < |s.replicas|
    ensures var after := Served(s, i, req, nonce);
      && |after.history| == |s.history| + 1
      && after.history == s.history + [Last(after)]
      && Last(after).time == after.clock == s.clock
      && Last(after).request == req && Last(after).gate == s.replicas[i].gate && Last(after).replica == i
      && after.replicas == s.replicas
      && (Last(after).response.Asked? || after.issued == s.issued)
  {
  }

  /** A served ask mints exactly the state it is answered with. */
  lemma AskMints(s: System, i: nat, req: ClientRequest, nonce: string)
    requires i < |s.replicas| && Last(Served(s, i, req, nonce)).response.Asked?
    ensures var after := Served(s, i, req, nonce);
      && |after.issued| == |s.issued| + 1
      && after.issued[..|s.issued|] == s.issued
      && AskedFor(Last(after), |s.issued|, after.issued[|s.issued|])
  {
    var r := s.replicas[i];
    var inner := Admit(r.Ring(), r.audience, s.issued, s.clock, req).value;
    AskIssues(s, i, req, nonce);
    AsksIff(r.gate, inner, nonce);
    AdmittedReadsTheCall(r, s, req);
    QuestionShowsTheCall(r.gate, inner, nonce);
  }

  /** The question a replica answers with is the message under its own rule's prompt that shows the client's
      own call. */
  lemma {:induction false} AskedPutsTheCall(s: System, i: nat, req: ClientRequest, nonce: string)
    requires i < |s.replicas| && Last(Served(s, i, req, nonce)).response.Asked?
    ensures PutsCall(s.replicas[i].gate.policy, Last(Served(s, i, req, nonce)).response.message, req.Plain().ToolName(),
                     req.Arguments())
  {
    var r := s.replicas[i];
    AdmittedReadsTheCall(r, s, req);
    AskPutsTheCall(r.gate, Admit(r.Ring(), r.audience, s.issued, s.clock, req).value, nonce);
  }

  lemma AdmittedReadsTheCall(r: Replica, s: System, req: ClientRequest)
    requires Admit(r.Ring(), r.audience, s.issued, s.clock, req).Some?
    ensures var inner := Admit(r.Ring(), r.audience, s.issued, s.clock, req).value;
      && inner.ToolName() == req.Plain().ToolName()
      && Get(inner.Params(), "name") == req.Name() && inner.Arguments() == req.Arguments()
      && inner.Answers() == req.Plain().Answers()
      && inner.operation == req.operation && inner.caller == req.caller
      && (inner.State().Str? ==> req.presented.Replay? && req.presented.index < |s.issued|
                                 && inner.State() == Str(s.issued[req.presented.index].state))
  {
    InnerReadsTheCall(req, None);
    if req.presented.Replay? {
      InnerReadsTheCall(req, Some(s.issued[req.presented.index].state));
    }
  }

  /** A gated run presents an issued, live state bound to its call, together with an explicit yes. */
  lemma {:induction false} GatedRunPresents(s: System, i: nat, req: ClientRequest, nonce: string)
    requires i < |s.replicas| && RanGated(Last(Served(s, i, req, nonce)))
    ensures req.presented.Replay? && req.presented.index < |s.issued|
    ensures var token := s.issued[req.presented.index];
      && BoundTo(token, req, s.replicas[i].audience) && Live(token, s.clock)
      && Unseals(s.replicas[i].Ring(), token)
    ensures ExplicitConsent(req.Plain().Answers())
    ensures ToolDecision(s.replicas[i].gate, req.Plain()).allowed
  {
    var r := s.replicas[i];
    var inner := Admit(r.Ring(), r.audience, s.issued, s.clock, req).value;
    AdmittedReadsTheCall(r, s, req);
    ToolRunsIff(r.gate, inner, nonce);
  }

  lemma StatesStayMinted(s: System, i: nat, req: ClientRequest, nonce: string, k: nat)
    requires Inv(s) && i < |s.replicas| && k < |Served(s, i, req, nonce).issued|
    ensures var after := Served(s, i, req, nonce); Minted(after.history, k, after.issued[k])
  {
    var after := Served(s, i, req, nonce);
    ServedAppends(s, i, req, nonce);
    if Last(after).response.Asked? {
      AskMints(s, i, req, nonce);
    }
    if k < |s.issued| {
      assert after.issued[k] == after.issued[..|s.issued|][k];
      MintedGrows(s.history, Last(after), k, s.issued[k]);
    } else {
      assert AskedFor(after.history[|s.history|], k, after.issued[k]);
    }
  }

  lemma NewRunIsJustified(s: System, i: nat, req: ClientRequest, nonce: string)
    requires Inv(s) && i < |s.replicas| && RanGated(Last(Served(s, i, req, nonce)))
    ensures Justified(Served(s, i, req, nonce).history, |s.history|)
  {
    var after := Served(s, i, req, nonce);
    ServedAppends(s, i, req, nonce);
    GatedRunPresents(s, i, req, nonce);
    var k := req.presented.index;
    var a :| 0 <= a < |s.history| && AskedFor(s.history[a], k, s.issued[k]);
    assert Approves(after.history[a], Last(after));
  }

  lemma RunsStayJustified(s: System, i: nat, req: ClientRequest, nonce: string, j: nat)
    requires Inv(s) && i < |s.replicas| && j < |Served(s, i, req, nonce).history|
    requires RanGated(Served(s, i, req, nonce).history[j])
    ensures Justified(Served(s, i, req, nonce).history, j)
  {
    ServedAppends(s, i, req, nonce);
    if j < |s.history| {
      JustifiedGrows(s.history, Last(Served(s, i, req, nonce)), j);
    } else {
      NewRunIsJustified(s, i, req, nonce);
    }
  }

  lemma ServedKeepsInv(s: System, i: nat, req: ClientRequest, nonce: string)
    requires Inv(s) && i < |s.replicas|
    ensures Inv(Served(s, i, req, nonce))
  {
    var after := Served(s, i, req, nonce);
    ServedAppends(s, i, req, nonce);
    forall k | 0 <= k < |after.issued| ensures Minted(after.history, k, after.issued[k]) {
      StatesStayMinted(s, i, req, nonce, k);
    }
    forall j | 0 <= j < |after.history| && RanGated(after.history[j]) ensures Justified(after.history, j) {
      RunsStayJustified(s, i, req, nonce, j);
    }
  }

  lemma ApplyKeepsInv(s: System, step: Step)
    requires Inv(s)
    ensures Inv(Apply(s, step))
  {
    match step
    case Serve(i, req, nonce) =>
      if i < |s.replicas| {
        ServedKeepsInv(s, i, req, nonce);
      }
    case _ =>
  }

  lemma {:induction false} RunKeepsInv(s: System, steps: seq<Step>)
    requires Inv(s)
    ensures Inv(Run(s, steps))
  {
    if steps != [] {
      RunKeepsInv(s, steps[..|steps| - 1]);
      ApplyKeepsInv(Run(s, steps[..|steps| - 1]), steps[|steps| - 1]);
    }
  }

  // ---------- whole runs ----------

  /** Every execution of an approval-gated tool in any run carried an explicit accept with
      `approve: true`, by an authorized caller, and was preceded within the time to live by an ask
      for the same tool, arguments and principal, put to a caller holding a granting role. */
  lemma {:induction false} ApprovalSafety(start: System, steps: seq<Step>, j: nat)
    requires Fresh(start)
    requires j < |Run(start, steps).history| && RanGated(Run(start, steps).history[j])
    ensures var history := Run(start, steps).history;
      && ToolDecision(history[j].gate, history[j].request.Plain()).allowed
      && ExplicitConsent(history[j].request.Plain().Answers())
      && exists a :: 0 <= a < j && Approves(history[a], history[j])
  {
    RunKeepsInv(start, steps);
  }

  lemma {:induction false} AdmittedRetryRunsIff(s: System, i: nat, req: ClientRequest, nonce: string)
    requires Inv(s) && i < |s.replicas| && Gated(s.replicas[i].gate, req.Plain()) && req.presented.Replay?
    requires Admit(s.replicas[i].Ring(), s.replicas[i].audience, s.issued, s.clock, req).Some?
    ensures Last(Served(s, i, req, nonce)).response.Ran?
       <==> && ToolDecision(s.replicas[i].gate, req.Plain()).allowed
            && Truthy(req.Plain().Answers()) && ExplicitConsent(req.Plain().Answers())
  {
    var r := s.replicas[i];
    var inner := Admit(r.Ring(), r.audience, s.issued, s.clock, req).value;
    AdmittedReadsTheCall(r, s, req);
    var token := s.issued[req.presented.index];
    InnerReadsTheCall(req, Some(token.state));
    assert Minted(s.history, req.presented.index, token);
    assert IsPending(Str(token.state));
    ToolRunsIff(r.gate, inner, nonce);
  }

  /** The state the request presents was issued for this call, has not expired, and is sealed under a
      key replica `i` holds. */
  predicate Admissible(s: System, i: nat, req: ClientRequest)
    requires i < |s.replicas| && req.presented.Replay?
  {
    var r, k := s.replicas[i], req.presented.index;
    && k < |s.issued| && Unseals(r.Ring(), s.issued[k]) && BoundTo(s.issued[k], req, r.audience)
    && Live(s.issued[k], s.clock)
  }

  /** In every reachable system, a call of a gated tool with a state attached runs exactly when the
      caller is authorized, answers with an explicit yes, and presents a live state that was issued
      for this call under a key the replica holds. What ran before does not matter. */
  lemma {:induction false} RetryRunsIff(start: System, steps: seq<Step>, s: System, i: nat, req: ClientRequest, nonce: string)
    requires Fresh(start) && s == Run(start, steps)
    requires i < |s.replicas| && Gated(s.replicas[i].gate, req.Plain())
    requires req.presented.Replay?
    ensures Last(Served(s, i, req, nonce)).response.Ran?
       <==> && ToolDecision(s.replicas[i].gate, req.Plain()).allowed
            && Truthy(req.Plain().Answers()) && ExplicitConsent(req.Plain().Answers())
            && Admissible(s, i, req)
  {
    RunKeepsInv(start, steps);
    if Admit(s.replicas[i].Ring(), s.replicas[i].audience, s.issued, s.clock, req).Some? {
      AdmittedRetryRunsIff(s, i, req, nonce);
    }
  }

  /** Nothing uses an approval up: a gated call that ran runs again when repeated at once, so one ask
      can be followed by any number of executions until its state expires. */
  lemma {:induction false} ApprovalIsReusable(s: System, i: nat, req: ClientRequest, nonce: string, again: string)
    requires i < |s.replicas| && RanGated(Last(Served(s, i, req, nonce)))
    ensures var once := Served(s, i, req, nonce);
      && once.issued == s.issued
      && RanGated(Last(Served(once, i, req, again)))
  {
    var once := Served(s, i, req, nonce);
    ServedAppends(s, i, req, nonce);
    var r := s.replicas[i];
    var inner := Admit(r.Ring(), r.audience, s.issued, s.clock, req).value;
    AdmittedReadsTheCall(r, s, req);
    ToolRunsIff(r.gate, inner, nonce);
    ToolRunsIff(r.gate, inner, again);
  }
}
