/** What the audit records of a whole replicated system say about what happened in it. */
module ClusterAudit {
  import opened Audit
  import opened Gates
  import opened Server
  import opened AuditTrail
  import opened Boundary
  import opened Cluster
  import opened ApprovalSafety

  /** The records of all replicas, in the order of the exchanges. */
  function Trail(history: seq<Exchange>): seq<AuditRecord> {
    if history == [] then [] else Trail(history[..|history| - 1]) + history[|history| - 1].records
  }

  function RanTool(x: Exchange): nat {
    if x.response.Ran? && x.request.operation == TOOLS_CALL then 1 else 0
  }

  function ToolsRun(history: seq<Exchange>): nat {
    if history == [] then 0 else ToolsRun(history[..|history| - 1]) + RanTool(history[|history| - 1])
  }

  function GatedToolsRun(history: seq<Exchange>): nat {
    if history == [] then 0
    else GatedToolsRun(history[..|history| - 1]) + if RanGated(history[|history| - 1]) then 1 else 0
  }

  function Asks(history: seq<Exchange>): nat {
    if history == [] then 0
    else Asks(history[..|history| - 1]) + if history[|history| - 1].response.Asked? then 1 else 0
  }

  function ErrorOf(x: Exchange): seq<McpError> {
    if x.response.Refused? then [x.response.error] else []
  }

  /** The errors clients were sent. */
  function ErrorsSent(history: seq<Exchange>): seq<McpError> {
    if history == [] then [] else ErrorsSent(history[..|history| - 1]) + ErrorOf(history[|history| - 1])
  }

  /** Every exchange was under an enforcing gate; the gates may differ and change. */
  predicate Enforced(history: seq<Exchange>) {
    forall j :: 0 <= j < |history| ==> history[j].gate.enforce
  }

  // ---------- one exchange ----------

  /** The records of an exchange count up to what happened in it. */
  predicate Counted(x: Exchange) {
    && Count(x.records, TOOLS_CALL, ALLOW)
       == RanTool(x) + Count(x.records, APPROVAL, PENDING) + Count(x.records, APPROVAL, DENY)
    && Count(x.records, APPROVAL, ALLOW) == (if RanGated(x) then 1 else 0)
    && Count(x.records, APPROVAL, PENDING) == (if x.response.Asked? then 1 else 0)
  }

  /** Its deny record, if any, tells of its error. */
  predicate Told(x: Exchange) {
    && AtWarning(x.records) == Denials(x.records)
    && |Denials(x.records)| == |ErrorOf(x)|
    && (x.response.Refused? ==> Explains(Denials(x.records)[0], x.response.error))
  }

  predicate Booked(x: Exchange) {
    && (x.response.Rejected? ==> x.records == [])
    && (x.gate.enforce ==> Counted(x) && Told(x))
  }

  lemma ServedRuling(s: System, i: nat, req: ClientRequest, nonce: string) returns (inbound: Inbound)
    requires i < |s.replicas|
    requires Admit(s.replicas[i].Ring(), s.replicas[i].audience, s.issued, s.clock, req).Some?
    ensures var x, gate := Last(Served(s, i, req, nonce)), s.replicas[i].gate;
      var ruling := RulingOf(gate, inbound);
      && x.records == ruling.records && x.response == ResponseTo(ruling.verdict, |s.issued|)
      && inbound.req.operation == req.operation
      && (Gated(gate, inbound.req) <==> Gated(gate, req.Plain()))
  {
    var r := s.replicas[i];
    AdmittedReadsTheCall(r, s, req);
    inbound := Inbound(Admit(r.Ring(), r.audience, s.issued, s.clock, req).value, Moment(nonce, 0, ""));
  }

  lemma PendingOfRuling(gate: Gate, inbound: Inbound)
    requires gate.enforce
    ensures var ruling := RulingOf(gate, inbound);
      Count(ruling.records, APPROVAL, PENDING) == if ruling.verdict.Ask? then 1 else 0
  {
    EnforcedRecords(gate, inbound);
    CountFew(RulingOf(gate, inbound).records, APPROVAL, PENDING);
  }

  lemma CountsOfExchange(gate: Gate, inbound: Inbound)
    requires gate.enforce
    ensures var ruling := RulingOf(gate, inbound);
      && Count(ruling.records, TOOLS_CALL, ALLOW)
         == (if ruling.verdict.Forward? && inbound.req.operation == TOOLS_CALL then 1 else 0)
            + Count(ruling.records, APPROVAL, PENDING) + Count(ruling.records, APPROVAL, DENY)
      && Count(ruling.records, APPROVAL, ALLOW) == if ruling.verdict.Forward? && Gated(gate, inbound.req) then 1 else 0
  {
    CountsOfRuling(gate, inbound);
    assert [inbound.req][1..] == [];
  }

  lemma ServedIsCounted(s: System, i: nat, req: ClientRequest, nonce: string)
    requires i < |s.replicas| && s.replicas[i].gate.enforce
    ensures Counted(Last(Served(s, i, req, nonce)))
  {
    if Admit(s.replicas[i].Ring(), s.replicas[i].audience, s.issued, s.clock, req).Some? {
      var inbound := ServedRuling(s, i, req, nonce);
      CountsOfExchange(s.replicas[i].gate, inbound);
      PendingOfRuling(s.replicas[i].gate, inbound);
    }
  }

  lemma ServedIsTold(s: System, i: nat, req: ClientRequest, nonce: string)
    requires i < |s.replicas| && s.replicas[i].gate.enforce
    ensures Told(Last(Served(s, i, req, nonce)))
  {
    if Admit(s.replicas[i].Ring(), s.replicas[i].audience, s.issued, s.clock, req).Some? {
      var inbound := ServedRuling(s, i, req, nonce);
      DenialsOfRuling(s.replicas[i].gate, inbound);
    }
  }

  lemma ServedIsBooked(s: System, i: nat, req: ClientRequest, nonce: string)
    requires i < |s.replicas|
    ensures Booked(Last(Served(s, i, req, nonce)))
  {
    if s.replicas[i].gate.enforce {
      ServedIsCounted(s, i, req, nonce);
      ServedIsTold(s, i, req, nonce);
    }
  }

  // ---------- a history ----------

  predicate AllBooked(history: seq<Exchange>) {
    forall j :: 0 <= j < |history| ==> Booked(history[j])
  }

  lemma {:induction false} HistoryCounts(history: seq<Exchange>)
    requires AllBooked(history) && Enforced(history)
    ensures var trail := Trail(history);
      && Count(trail, TOOLS_CALL, ALLOW)
         == ToolsRun(history) + Count(trail, APPROVAL, PENDING) + Count(trail, APPROVAL, DENY)
      && Count(trail, APPROVAL, ALLOW) == GatedToolsRun(history)
      && Count(trail, APPROVAL, PENDING) == Asks(history)
  {
    if history != [] {
      var front, last := history[..|history| - 1], history[|history| - 1];
      HistoryCounts(front);
      assert Counted(last);
      CountAppend(Trail(front), last.records, TOOLS_CALL, ALLOW);
      CountAppend(Trail(front), last.records, APPROVAL, PENDING);
      CountAppend(Trail(front), last.records, APPROVAL, DENY);
      CountAppend(Trail(front), last.records, APPROVAL, ALLOW);
    }
  }

  lemma {:induction false} HistoryTells(history: seq<Exchange>)
    requires AllBooked(history) && Enforced(history)
    ensures var denials, errors := Denials(Trail(history)), ErrorsSent(history);
      && |denials| == |errors|
      && (forall i :: 0 <= i < |errors| ==> Explains(denials[i], errors[i]))
      && AtWarning(Trail(history)) == denials
  {
    if history != [] {
      var front, last := history[..|history| - 1], history[|history| - 1];
      HistoryTells(front);
      assert Told(last);
      DenialsAppend(Trail(front), last.records);
    }
  }

  // ---------- runs ----------

  lemma StepBooks(s: System, step: Step)
    requires AllBooked(s.history)
    ensures AllBooked(Apply(s, step).history)
    ensures |Apply(s, step).issued| - Asks(Apply(s, step).history) == |s.issued| - Asks(s.history)
  {
    match step
    case Serve(i, req, nonce) =>
      if i < |s.replicas| {
        ServedAppends(s, i, req, nonce);
        ServedIsBooked(s, i, req, nonce);
        var after := Served(s, i, req, nonce);
        assert after.history[..|after.history| - 1] == s.history;
      }
    case _ =>
  }

  lemma {:induction false} RunBooks(s: System, steps: seq<Step>)
    requires AllBooked(s.history)
    ensures AllBooked(Run(s, steps).history)
    ensures |Run(s, steps).issued| - Asks(Run(s, steps).history) == |s.issued| - Asks(s.history)
  {
    if steps != [] {
      RunBooks(s, steps[..|steps| - 1]);
      StepBooks(Run(s, steps[..|steps| - 1]), steps[|steps| - 1]);
    }
  }

  /** Conservation over every run of the replicated system, under enforcing gates that may differ from
      replica to replica and change with every deployment: allowed tool calls are those that ran, were
      put to a human or were refused approval; executions of gated tools are the recorded approvals;
      and the pending records are the states that were issued. What the boundary rejects leaves no
      record. */
  lemma {:induction false} ReplicatedConservation(start: System, steps: seq<Step>)
    requires Fresh(start) && Enforced(Run(start, steps).history)
    ensures var now := Run(start, steps);
      var trail := Trail(now.history);
      && Count(trail, TOOLS_CALL, ALLOW)
         == ToolsRun(now.history) + Count(trail, APPROVAL, PENDING) + Count(trail, APPROVAL, DENY)
      && Count(trail, APPROVAL, ALLOW) == GatedToolsRun(now.history)
      && Count(trail, APPROVAL, PENDING) == |now.issued|
      && forall j :: 0 <= j < |now.history| && now.history[j].response.Rejected? ==> now.history[j].records == []
  {
    RunBooks(start, steps);
    HistoryCounts(Run(start, steps).history);
  }

  /** Over every such run the deny records of all replicas and the AUTHORIZATION_DENIED errors sent to
      clients match one to one and in order, and a logger set to WARNING keeps exactly those records. */
  lemma {:induction false} ReplicatedDenials(start: System, steps: seq<Step>)
    requires Fresh(start) && Enforced(Run(start, steps).history)
    ensures var history := Run(start, steps).history;
      var denials, errors := Denials(Trail(history)), ErrorsSent(history);
      && |denials| == |errors|
      && (forall i :: 0 <= i < |errors| ==> Explains(denials[i], errors[i]))
      && AtWarning(Trail(history)) == denials
  {
    RunBooks(start, steps);
    HistoryTells(Run(start, steps).history);
  }
}
