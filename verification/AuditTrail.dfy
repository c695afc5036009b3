/** What the audit trail of a whole run of requests says about what happened in it. */
module AuditTrail {
  import opened Wire
  import opened Policies
  import opened PolicyLoader
  import opened Audit
  import opened Gates
  import opened Discovery
  import opened Server

  /** One request and the moment it is served at. */
  datatype Inbound = Inbound(req: Request, moment: Moment)

  function RulingOf(gate: Gate, inbound: Inbound): Ruling {
    RuleOn(gate, inbound.req, inbound.moment.nonce)
  }

  /** The audit stream a run leaves. */
  function Records(gate: Gate, run: seq<Inbound>): seq<AuditRecord> {
    if run == [] then [] else RulingOf(gate, run[0]).records + Records(gate, run[1..])
  }

  /** The requests handlers execute in a run. */
  function Handled(gate: Gate, run: seq<Inbound>): seq<Request> {
    if run == [] then []
    else (if RulingOf(gate, run[0]).verdict.Forward? then [run[0].req] else []) + Handled(gate, run[1..])
  }

  /** The errors a run raises. */
  function Errors(gate: Gate, run: seq<Inbound>): seq<McpError> {
    if run == [] then []
    else
      var verdict := RulingOf(gate, run[0]).verdict;
      (if verdict.Refuse? then [verdict.error] else []) + Errors(gate, run[1..])
  }

  function ToolRuns(requests: seq<Request>): nat {
    if requests == [] then 0
    else (if requests[0].operation == TOOLS_CALL then 1 else 0) + ToolRuns(requests[1..])
  }

  function GatedRuns(gate: Gate, requests: seq<Request>): nat {
    if requests == [] then 0
    else (if Gated(gate, requests[0]) then 1 else 0) + GatedRuns(gate, requests[1..])
  }

  // ---------- conservation ----------

  /** A record of the given operation and outcome, at the level that outcome is emitted at. */
  predicate Is(record: AuditRecord, operation: string, outcome: string) {
    && record.operation == operation && record.outcome == outcome
    && record.level == if outcome == DENY then Warning else Info
  }

  /** A deny record and the error raised with it name the same target and reason. */
  predicate Explains(record: AuditRecord, error: McpError) {
    && error.code == AUTHORIZATION_DENIED
    && record.target == error.target
    && record.reason == error.detail.reason
  }

  /** The records of a ruling under enforcement, by its verdict. */
  lemma EnforcedRecords(gate: Gate, inbound: Inbound)
    requires gate.enforce
    ensures var req, ruling := inbound.req, RulingOf(gate, inbound);
      var records := ruling.records;
      if req.operation == TOOLS_CALL then
        match ruling.verdict
        case Ask(_) => |records| == 2 && Is(records[0], TOOLS_CALL, ALLOW) && Is(records[1], APPROVAL, PENDING)
        case Refuse(error) =>
          if error.detail.Unauthorized? then
            |records| == 1 && Is(records[0], TOOLS_CALL, DENY) && Explains(records[0], error)
          else
            |records| == 2 && Is(records[0], TOOLS_CALL, ALLOW) && Is(records[1], APPROVAL, DENY) && Explains(records[1], error)
        case Forward =>
          if Gated(gate, req) then |records| == 2 && Is(records[0], TOOLS_CALL, ALLOW) && Is(records[1], APPROVAL, ALLOW)
          else |records| == 1 && Is(records[0], TOOLS_CALL, ALLOW)
      else if req.operation == RESOURCES_READ then
        match ruling.verdict
        case Ask(_) => false
        case Refuse(error) =>
          |records| == 1 && Is(records[0], RESOURCES_READ, DENY) && Explains(records[0], error) && error.detail.Unauthorized?
        case Forward => |records| == 1 && Is(records[0], RESOURCES_READ, ALLOW)
      else records == [] && ruling.verdict.Forward?
  {
  }

  /** What the records of one enforced request count up to. */
  lemma CountsOfRuling(gate: Gate, inbound: Inbound)
    requires gate.enforce
    ensures var ruling := RulingOf(gate, inbound);
      var runs := if ruling.verdict.Forward? then [inbound.req] else [];
      && Count(ruling.records, TOOLS_CALL, ALLOW)
         == ToolRuns(runs) + Count(ruling.records, APPROVAL, PENDING) + Count(ruling.records, APPROVAL, DENY)
      && GatedRuns(gate, runs) == Count(ruling.records, APPROVAL, ALLOW)
  {
    var records := RulingOf(gate, inbound).records;
    EnforcedRecords(gate, inbound);
    CountFew(records, TOOLS_CALL, ALLOW);
    CountFew(records, APPROVAL, PENDING);
    CountFew(records, APPROVAL, DENY);
    CountFew(records, APPROVAL, ALLOW);
    assert [inbound.req][1..] == [];
  }

  lemma {:induction false} RunsAppend(gate: Gate, a: seq<Request>, b: seq<Request>)
    ensures ToolRuns(a + b) == ToolRuns(a) + ToolRuns(b)
    ensures GatedRuns(gate, a + b) == GatedRuns(gate, a) + GatedRuns(gate, b)
  {
    if a == [] {
      assert a + b == b;
    } else {
      assert (a + b)[1..] == a[1..] + b;
      RunsAppend(gate, a[1..], b);
    }
  }

  /** Over every enforced run: each allowed tool call either ran, was put to a human, or was refused
      approval; and handlers ran a gated tool exactly as often as an approval was recorded. */
  lemma {:induction false} AuditConservation(gate: Gate, run: seq<Inbound>)
    requires gate.enforce
    ensures var records := Records(gate, run);
      && Count(records, TOOLS_CALL, ALLOW)
         == ToolRuns(Handled(gate, run)) + Count(records, APPROVAL, PENDING) + Count(records, APPROVAL, DENY)
      && GatedRuns(gate, Handled(gate, run)) == Count(records, APPROVAL, ALLOW)
  {
    if run != [] {
      var head, tail := RulingOf(gate, run[0]).records, Records(gate, run[1..]);
      AuditConservation(gate, run[1..]);
      CountsOfRuling(gate, run[0]);
      CountAppend(head, tail, TOOLS_CALL, ALLOW);
      CountAppend(head, tail, APPROVAL, PENDING);
      CountAppend(head, tail, APPROVAL, DENY);
      CountAppend(head, tail, APPROVAL, ALLOW);
      RunsAppend(gate, if RulingOf(gate, run[0]).verdict.Forward? then [run[0].req] else [], Handled(gate, run[1..]));
    }
  }

  lemma DenialsOfRuling(gate: Gate, inbound: Inbound)
    requires gate.enforce
    ensures var ruling := RulingOf(gate, inbound);
      && AtWarning(ruling.records) == Denials(ruling.records)
      && |Denials(ruling.records)| == (if ruling.verdict.Refuse? then 1 else 0)
      && (ruling.verdict.Refuse? ==> Explains(Denials(ruling.records)[0], ruling.verdict.error))
  {
    var records := RulingOf(gate, inbound).records;
    EnforcedRecords(gate, inbound);
    FilterFew(records, TOOLS_CALL);
    if |records| == 2 {
      FilterFew([records[0]], TOOLS_CALL);
      FilterFew([records[1]], TOOLS_CALL);
    }
  }

  /** Over every enforced run the deny records and the AUTHORIZATION_DENIED errors match one to one
      and in order, and a logger set to WARNING keeps exactly the deny records. */
  lemma {:induction false} DenialsAreErrors(gate: Gate, run: seq<Inbound>)
    requires gate.enforce
    ensures var denials, errors := Denials(Records(gate, run)), Errors(gate, run);
      && |denials| == |errors|
      && (forall i :: 0 <= i < |errors| ==> Explains(denials[i], errors[i]))
      && AtWarning(Records(gate, run)) == denials
  {
    if run != [] {
      DenialsAreErrors(gate, run[1..]);
      DenialsOfRuling(gate, run[0]);
      DenialsAppend(RulingOf(gate, run[0]).records, Records(gate, run[1..]));
    }
  }

  // ---------- shadow mode ----------

  function Shadow(gate: Gate): Gate {
    gate.(enforce := false)
  }

  function Enforcing(gate: Gate): Gate {
    gate.(enforce := true)
  }

  /** Shadow mode leaves one record of each decision, the same one enforcement leaves first. */
  lemma ShadowRecords(gate: Gate, inbound: Inbound)
    ensures var shadow, enforced := RulingOf(Shadow(gate), inbound), RulingOf(Enforcing(gate), inbound);
      && shadow.verdict.Forward?
      && |shadow.records| <= 1
      && shadow.records <= enforced.records
      && (shadow.records == [] ==> enforced.records == [])
      && (shadow.records != [] ==>
            (shadow.records[0].outcome == DENY <==> enforced.verdict.Refuse? && enforced.verdict.error.detail.Unauthorized?))
  {
  }

  /** One request: shadow mode records the same decision, forwards, and records a denial exactly when
      enforcement refuses for lack of authorization. */
  lemma ShadowOfRuling(gate: Gate, inbound: Inbound, operation: string)
    requires operation == TOOLS_CALL || operation == RESOURCES_READ
    ensures var shadow, enforced := RulingOf(Shadow(gate), inbound), RulingOf(Enforcing(gate), inbound);
      && Of(shadow.records, operation) == Of(enforced.records, operation)
      && shadow.verdict.Forward?
      && (Denials(shadow.records) != [] <==> enforced.verdict.Refuse? && enforced.verdict.error.detail.Unauthorized?)
  {
    var shadow, enforced := RulingOf(Shadow(gate), inbound).records, RulingOf(Enforcing(gate), inbound).records;
    ShadowRecords(gate, inbound);
    EnforcedRecords(Enforcing(gate), inbound);
    FilterFew(shadow, operation);
    FilterFew(enforced, operation);
    if |enforced| == 2 {
      FilterFew([enforced[0]], operation);
      FilterFew([enforced[1]], operation);
      assert shadow == [enforced[0]];
    }
  }

  /** Shadow mode predicts enforcement on every run of requests: the tool-call and resource-read
      records are identical, shadow mode blocks nothing, and the requests it records as denied are
      exactly those enforcement refuses for lack of authorization. */
  lemma {:induction false} ShadowPredictsEnforcement(gate: Gate, run: seq<Inbound>, operation: string)
    requires operation == TOOLS_CALL || operation == RESOURCES_READ
    ensures Of(Records(Shadow(gate), run), operation) == Of(Records(Enforcing(gate), run), operation)
    ensures Errors(Shadow(gate), run) == [] && |Handled(Shadow(gate), run)| == |run|
    ensures forall i :: 0 <= i < |run| ==>
              (Denials(RulingOf(Shadow(gate), run[i]).records) != []
               <==> && RulingOf(Enforcing(gate), run[i]).verdict.Refuse?
                    && RulingOf(Enforcing(gate), run[i]).verdict.error.detail.Unauthorized?)
  {
    if run != [] {
      ShadowPredictsEnforcement(gate, run[1..], operation);
      ShadowOfRuling(gate, run[0], operation);
      OfAppend(RulingOf(Shadow(gate), run[0]).records, Records(Shadow(gate), run[1..]), operation);
      OfAppend(RulingOf(Enforcing(gate), run[0]).records, Records(Enforcing(gate), run[1..]), operation);
      forall i | 1 <= i < |run| ensures run[i] == run[1..][i - 1] {
      }
    }
  }

  // ---------- fail closed ----------

  predicate Undeclared(gate: Gate, req: Request) {
    forall i :: 0 <= i < |req.caller.roles| ==> req.caller.roles[i] !in gate.policy.declaredRoles
  }

  /** With a policy the loader accepted and under enforcement, a run of calls by callers without any
      declared role executes no tool and reads no resource. */
  lemma {:induction false} FailClosed(gate: Gate, doc: Value, run: seq<Inbound>)
    requires gate.enforce && LoadedFrom(gate.policy, doc)
    requires forall i :: 0 <= i < |run| ==> Undeclared(gate, run[i].req)
    ensures forall req :: req in Handled(gate, run) ==> req.operation != TOOLS_CALL && req.operation != RESOURCES_READ
  {
    if run != [] {
      FailClosed(gate, doc, run[1..]);
      var req := run[0].req;
      assert Undeclared(gate, req);
      UndeclaredRolesGetNothing(gate.policy, doc, gate.glob, req.ToolName(), req.caller.roles);
      UndeclaredRolesGetNothing(gate.policy, doc, gate.glob, req.Uri(), req.caller.roles);
    }
  }

  /** Such a caller's tool listing is empty, whatever the handler lists. */
  lemma {:induction false} UndeclaredSeesNothing(gate: Gate, doc: Value, roles: seq<string>, listing: Listing)
    requires LoadedFrom(gate.policy, doc)
    requires forall r :: r in roles ==> r !in gate.policy.declaredRoles
    ensures listing.Models? ==> Filtered(gate.policy, roles, listing) == Models([])
    ensures listing.Serialized? && HasToolList(listing.value) ==>
              var result := Filtered(gate.policy, roles, listing);
              result.Serialized? && HasToolList(result.value) && Tools(result.value) == []
  {
    DiscoveryAgreesWithInvocation(gate.policy, roles, listing);
    forall name ensures !DecideTool(gate.policy, name, roles).allowed {
      UndeclaredRolesGetNothing(gate.policy, doc, gate.glob, name, roles);
    }
    match listing
    case Models(tools) =>
      KeepNone(tools, (t: ToolModel) => DecideTool(gate.policy, t.name, roles).allowed);
    case Serialized(value) =>
      if HasToolList(value) {
        KeepNone(Tools(value), (t: Value) => DecideTool(gate.policy, NameOf(t), roles).allowed);
      }
  }

  lemma {:induction false} KeepNone<T>(items: seq<T>, f: T -> bool)
    requires forall i :: 0 <= i < |items| ==> !f(items[i])
    ensures Keep(items, f) == []
  {
    if items != [] {
      KeepNone(items[1..], f);
    }
  }

  // ---------- argument values ----------

  /** The requests are the same but for the values of their arguments. */
  predicate SameButArgumentValues(a: Request, b: Request) {
    && a.operation == b.operation && a.caller == b.caller && a.protocolVersion == b.protocolVersion
    && a.ToolName() == b.ToolName() && a.Uri() == b.Uri() && a.Answers() == b.Answers() && a.State() == b.State()
    && (a.Arguments().Mapping? <==> b.Arguments().Mapping?)
    && (a.Arguments().Mapping? ==> KeyNames(a.Arguments().entries) == KeyNames(b.Arguments().entries))
  }

  /** Argument values never reach the audit trail: runs that differ only in them leave identical
      records and execute the same requests, up to those values. */
  lemma {:induction false} ArgumentValuesStayOut(gate: Gate, a: seq<Inbound>, b: seq<Inbound>)
    requires |a| == |b|
    requires forall i :: 0 <= i < |a| ==> SameButArgumentValues(a[i].req, b[i].req)
    ensures Records(gate, a) == Records(gate, b)
    ensures |Handled(gate, a)| == |Handled(gate, b)| && Errors(gate, a) == Errors(gate, b)
  {
    if a != [] {
      ArgumentValuesStayOut(gate, a[1..], b[1..]);
      RulingIgnoresArgumentValues(gate, a[0], b[0]);
    }
  }

  lemma RulingIgnoresArgumentValues(gate: Gate, a: Inbound, b: Inbound)
    requires SameButArgumentValues(a.req, b.req)
    ensures RulingOf(gate, a).records == RulingOf(gate, b).records
    ensures RulingOf(gate, a).verdict.Forward? <==> RulingOf(gate, b).verdict.Forward?
    ensures RulingOf(gate, a).verdict.Refuse? <==> RulingOf(gate, b).verdict.Refuse?
    ensures RulingOf(gate, a).verdict.Refuse? ==> RulingOf(gate, a).verdict.error == RulingOf(gate, b).verdict.error
  {
  }
}
