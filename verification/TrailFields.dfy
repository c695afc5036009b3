/** What each audit record says, field by field, in terms of the request it is about and the policy. */
module TrailFields {
  import opened Text
  import opened Wire
  import opened Policies
  import opened Audit
  import opened Approval
  import opened Gates
  import opened AuditTrail
  import opened Boundary
  import opened Cluster
  import opened ApprovalSafety

  /** `listed` lists, in ascending order, exactly the strings with a property. */
  ghost predicate Lists(listed: seq<string>, wanted: string -> bool) {
    Ascending(listed) && forall x :: x in listed <==> wanted(x)
  }

  /** `rule` is the one that decides on the request: the tool's own, or the selected one of the resource. */
  ghost predicate Deciding(gate: Gate, req: Request, rule: Rule) {
    if req.operation == "tools/call" then
      exists i :: 0 <= i < |gate.policy.tools| && gate.policy.tools[i].key == req.ToolName() && gate.policy.tools[i].rule == rule
    else
      exists i: nat :: Selected(gate.policy.resources, gate.glob, req.Uri(), i) && gate.policy.resources[i].rule == rule
  }

  /** The classification of the deciding rule, or nothing without one. */
  ghost predicate Classified(gate: Gate, req: Request, classification: Option<string>) {
    && (forall rule :: Deciding(gate, req, rule) ==> classification == Some(rule.classification))
    && ((forall rule :: !Deciding(gate, req, rule)) ==> classification == None)
  }

  /** The roles the deciding rule allows, or none without one. */
  ghost predicate Required(gate: Gate, req: Request, roles: seq<string>) {
    && (forall rule :: Deciding(gate, req, rule) ==> Lists(roles, x => x in rule.allowRoles))
    && ((forall rule :: !Deciding(gate, req, rule)) ==> roles == [])
  }

  /** The names of a call's arguments; nothing when they are not a mapping. */
  ghost predicate NamesRecorded(arguments: Value, names: Option<seq<string>>) {
    if arguments.Mapping? then names.Some? && ListsNames(names.value, arguments) else names == None
  }

  /** The deciding rule allows a role of the caller's. */
  ghost predicate RoleGrants(gate: Gate, req: Request) {
    exists rule, role :: Deciding(gate, req, rule) && role in req.caller.roles && role in rule.allowRoles
  }

  ghost function ReasonFor(gate: Gate, req: Request): string {
    if RoleGrants(gate, req) then "granted by role"
    else if exists rule :: Deciding(gate, req, rule) then "caller holds none of the roles this tool requires"
    else if req.operation == "tools/call" then "no policy entry for this tool (default deny)"
    else "no policy entry for this resource (default deny)"
  }

  /** The record of the decision on a request. */
  ghost predicate RecordsDecision(gate: Gate, req: Request, r: AuditRecord) {
    && r.operation == req.operation
    && r.protocolVersion == req.protocolVersion
    && Lists(r.grantedRoles, x => x in req.caller.roles)
    && Required(gate, req, r.requiredRoles)
    && Classified(gate, req, r.classification)
    && (if req.operation == "tools/call" then NamesRecorded(req.Arguments(), r.argumentNames) else r.argumentNames == None)
    && r.outcome == (if RoleGrants(gate, req) then "allow" else "deny")
    && r.reason == ReasonFor(gate, req)
  }

  /** The record of what became of the approval of a tool call. */
  ghost predicate RecordsApproval(gate: Gate, req: Request, r: AuditRecord) {
    && req.operation == "tools/call" && r.operation == "approval"
    && r.protocolVersion == None && r.grantedRoles == [] && r.requiredRoles == [] && r.argumentNames == None
    && Classified(gate, req, r.classification)
    && (r.outcome == "pending" <==> !Truthy(req.Answers()))
    && (r.outcome == "pending" ==> r.reason == "awaiting human approval")
    && (r.outcome == "allow" ==> r.reason == "approved by human")
  }

  /** The record is about this request: by its caller, on its target, and at the level of its outcome. */
  ghost predicate Describes(gate: Gate, req: Request, r: AuditRecord) {
    && r.principal == req.caller.principal
    && r.target == (if req.operation == "tools/call" then req.ToolName() else req.Uri())
    && r.level == (if r.outcome == "deny" then Warning else Info)
    && (RecordsDecision(gate, req, r) || RecordsApproval(gate, req, r))
  }

  // ---------- one record ----------

  lemma ToolRuleDecides(gate: Gate, req: Request)
    requires req.operation == TOOLS_CALL
    ensures var found := Find(gate.policy.tools, req.ToolName());
      && (found.Some? ==> forall rule :: Deciding(gate, req, rule) <==> rule == found.value)
      && (found.None? ==> forall rule :: !Deciding(gate, req, rule))
  {
    FindExactly(gate.policy.tools, req.ToolName());
  }

  lemma ResourceRuleDecides(gate: Gate, req: Request)
    requires req.operation == RESOURCES_READ
    ensures var found := SelectRule(gate.policy.resources, gate.glob, req.Uri());
      && (found.Some? ==> forall rule :: Deciding(gate, req, rule) <==> rule == found.value)
      && (found.None? ==> forall rule :: !Deciding(gate, req, rule))
  {
    SelectsEarliestLongest(gate.policy.resources, gate.glob, req.Uri());
  }

  /** The decision of a found rule, or the default denial. */
  lemma DecisionFields(gate: Gate, req: Request, found: Option<Rule>, decision: Decision)
    requires found.Some? ==> forall rule :: Deciding(gate, req, rule) <==> rule == found.value
    requires found.None? ==> forall rule :: !Deciding(gate, req, rule)
    requires var granted := Sorted(Roles(req.caller.roles));
      if found.Some? then decision == Match(found.value, decision.target, granted)
      else decision == Deny(decision.reason, decision.target, granted)
    ensures Lists(decision.grantedRoles, x => x in req.caller.roles)
    ensures Required(gate, req, decision.requiredRoles) && Classified(gate, req, decision.classification)
    ensures decision.allowed <==> RoleGrants(gate, req)
    ensures found.Some? ==> decision.reason == ReasonFor(gate, req)
    ensures found.None? ==> !RoleGrants(gate, req) && !exists rule :: Deciding(gate, req, rule)
  {
    if found.Some? {
      assert Deciding(gate, req, found.value);
      GrantedListIsTheRoleSet(req.caller.roles);
      if role :| role in req.caller.roles && role in found.value.allowRoles {
        assert role in Roles(req.caller.roles) * found.value.allowRoles;
      }
      if decision.allowed {
        var role :| role in Roles(req.caller.roles) * found.value.allowRoles;
        assert role in req.caller.roles && role in found.value.allowRoles;
      }
    }
  }

  lemma ApprovalRecordsDescribe(gate: Gate, req: Request, nonce: string)
    requires req.operation == TOOLS_CALL
    ensures var records := RuleApproval(gate.policy, req, nonce).records;
      |records| == 1 && RecordsApproval(gate, req, records[0]) && Describes(gate, req, records[0])
  {
    var answers := req.Answers();
    if !Truthy(answers) {
      ApprovalRecordDescribes(gate, req, PENDING, AWAITING);
    } else {
      match Check(req.State(), answers)
      case Some(error) => ApprovalRecordDescribes(gate, req, DENY, Reason(error));
      case None => ApprovalRecordDescribes(gate, req, ALLOW, APPROVED);
    }
  }

  lemma NamesAreRecorded(arguments: Value)
    ensures NamesRecorded(arguments, match EntriesOf(arguments)
                                     case Some(entries) => Some(Sorted(KeyNames(entries)))
                                     case None => None)
  {
    SortedListsNames(arguments);
  }

  lemma ToolRecordDescribes(gate: Gate, req: Request)
    requires req.operation == TOOLS_CALL
    ensures RecordsDecision(gate, req, ToolRecord(gate, req)) && Describes(gate, req, ToolRecord(gate, req))
  {
    var decision := ToolDecision(gate, req);
    ToolRuleDecides(gate, req);
    DecisionFields(gate, req, Find(gate.policy.tools, req.ToolName()), decision);
    NamesAreRecorded(req.Arguments());
  }

  lemma ResourceRecordDescribes(gate: Gate, req: Request)
    requires req.operation == RESOURCES_READ
    ensures RecordsDecision(gate, req, ResourceRecord(gate, req)) && Describes(gate, req, ResourceRecord(gate, req))
  {
    var decision := ResourceDecision(gate, req);
    ResourceRuleDecides(gate, req);
    DecisionFields(gate, req, SelectRule(gate.policy.resources, gate.glob, req.Uri()), decision);
  }

  lemma ApprovalRecordDescribes(gate: Gate, req: Request, outcome: string, reason: string)
    requires req.operation == TOOLS_CALL
    requires outcome == PENDING <==> !Truthy(req.Answers())
    requires outcome == PENDING ==> reason == AWAITING
    requires outcome == ALLOW ==> reason == APPROVED
    requires outcome != ""
    ensures var r := ApprovalRecord(gate.policy, req.ToolName(), req.caller.principal, outcome, reason);
      RecordsApproval(gate, req, r) && Describes(gate, req, r)
  {
    ToolRuleDecides(gate, req);
    var found := Find(gate.policy.tools, req.ToolName());
    if found.Some? {
      assert Deciding(gate, req, found.value);
    }
  }

  // ---------- rulings and runs ----------

  /** The first record is of the decision and any second one of the approval. */
  ghost predicate WellRecorded(gate: Gate, req: Request, records: seq<AuditRecord>) {
    && |records| <= 2
    && (records != [] ==> RecordsDecision(gate, req, records[0]))
    && (|records| == 2 ==> RecordsApproval(gate, req, records[1]))
    && (forall k :: 0 <= k < |records| ==> Describes(gate, req, records[k]))
  }

  lemma OneRecord(gate: Gate, req: Request, r: AuditRecord)
    requires RecordsDecision(gate, req, r) && Describes(gate, req, r)
    ensures WellRecorded(gate, req, [r])
  {
  }

  lemma TwoRecords(gate: Gate, req: Request, r: AuditRecord, a: AuditRecord)
    requires RecordsDecision(gate, req, r) && Describes(gate, req, r)
    requires RecordsApproval(gate, req, a) && Describes(gate, req, a)
    ensures WellRecorded(gate, req, [r, a])
  {
  }

  lemma ToolCallRecords(gate: Gate, req: Request, nonce: string)
    ensures var records, record := RuleToolCall(gate, req, nonce).records, ToolRecord(gate, req);
      records == [record] || records == [record] + RuleApproval(gate.policy, req, nonce).records
  {
  }

  lemma ToolRecordsTell(gate: Gate, req: Request, nonce: string)
    requires req.operation == TOOLS_CALL
    ensures WellRecorded(gate, req, RuleToolCall(gate, req, nonce).records)
  {
    var record, approval := ToolRecord(gate, req), RuleApproval(gate.policy, req, nonce).records;
    ToolCallRecords(gate, req, nonce);
    ToolRecordDescribes(gate, req);
    ApprovalRecordsDescribe(gate, req, nonce);
    OneRecord(gate, req, record);
    TwoRecords(gate, req, record, approval[0]);
    assert [record] + approval == [record, approval[0]];
  }

  /** The records of a ruling say who asked for what, under which rule, with which roles and argument names,
      and how it ended. */
  lemma {:induction false} RecordsTellTheRequest(gate: Gate, req: Request, nonce: string)
    ensures WellRecorded(gate, req, RuleOn(gate, req, nonce).records)
  {
    if req.operation == TOOLS_CALL {
      ToolRecordsTell(gate, req, nonce);
    } else if req.operation == RESOURCES_READ {
      ResourceRecordDescribes(gate, req);
      OneRecord(gate, req, ResourceRecord(gate, req));
    }
  }

  /** An error tells its caller what the record of it says. */
  lemma ErrorsTellTheRecord(gate: Gate, req: Request, nonce: string)
    requires RuleOn(gate, req, nonce).verdict.Refuse?
    ensures var ruling := RuleOn(gate, req, nonce);
      var error := ruling.verdict.error;
      && error.code == -32003
      && error.target == (if req.operation == "tools/call" then req.ToolName() else req.Uri())
      && match error.detail
         case Unauthorized(reason, requiredRoles, classification) =>
           |ruling.records| == 1 && reason == ruling.records[0].reason
           && requiredRoles == ruling.records[0].requiredRoles && classification == ruling.records[0].classification
         case NotApproved(reason) =>
           |ruling.records| == 2 && reason == ruling.records[1].reason
  {
  }

  /** Every record of a run is about one of its requests. */
  lemma {:induction false} RunRecordsTell(gate: Gate, run: seq<Inbound>, r: AuditRecord)
    requires r in Records(gate, run)
    ensures exists i :: 0 <= i < |run| && Describes(gate, run[i].req, r)
  {
    if r in RulingOf(gate, run[0]).records {
      RecordsTellTheRequest(gate, run[0].req, run[0].moment.nonce);
    } else {
      RunRecordsTell(gate, run[1..], r);
      var i :| 0 <= i < |run[1..]| && Describes(gate, run[1..][i].req, r);
      assert run[i + 1] == run[1..][i];
    }
  }

  /** The same through the boundary: a record of an exchange is about the client's own request. */
  predicate SameFields(a: Request, b: Request) {
    && a.operation == b.operation && a.caller == b.caller && a.protocolVersion == b.protocolVersion
    && a.ToolName() == b.ToolName() && a.Uri() == b.Uri() && a.Arguments() == b.Arguments() && a.Answers() == b.Answers()
  }

  lemma SameFieldsSameRule(gate: Gate, a: Request, b: Request, rule: Rule)
    requires SameFields(a, b)
    ensures Deciding(gate, a, rule) <==> Deciding(gate, b, rule)
  {
  }

  lemma SameFieldsSameGrant(gate: Gate, a: Request, b: Request)
    requires SameFields(a, b)
    ensures RoleGrants(gate, a) <==> RoleGrants(gate, b)
    ensures ReasonFor(gate, a) == ReasonFor(gate, b)
  {
    forall rule ensures Deciding(gate, a, rule) <==> Deciding(gate, b, rule) {
      SameFieldsSameRule(gate, a, b, rule);
    }
  }

  lemma SameFieldsSameReport(gate: Gate, a: Request, b: Request, roles: seq<string>, classification: Option<string>)
    requires SameFields(a, b)
    ensures Required(gate, a, roles) ==> Required(gate, b, roles)
    ensures Classified(gate, a, classification) ==> Classified(gate, b, classification)
  {
    forall rule ensures Deciding(gate, a, rule) <==> Deciding(gate, b, rule) {
      SameFieldsSameRule(gate, a, b, rule);
    }
  }

  lemma SameFieldsSameDescription(gate: Gate, a: Request, b: Request, r: AuditRecord)
    requires SameFields(a, b) && Describes(gate, a, r)
    ensures Describes(gate, b, r)
  {
    SameFieldsSameGrant(gate, a, b);
    SameFieldsSameReport(gate, a, b, r.requiredRoles, r.classification);
    if RecordsDecision(gate, a, r) {
      assert RecordsDecision(gate, b, r);
    } else {
      assert RecordsApproval(gate, b, r);
    }
  }

  lemma ServedRecordsTell(s: System, i: nat, req: ClientRequest, nonce: string, r: AuditRecord)
    requires i < |s.replicas| && r in Last(Served(s, i, req, nonce)).records
    ensures Describes(s.replicas[i].gate, req.Plain(), r)
  {
    var replica := s.replicas[i];
    var inner := Admit(replica.Ring(), replica.audience, s.issued, s.clock, req).value;
    InnerReadsTheCall(req, None);
    if req.presented.Replay? {
      InnerReadsTheCall(req, Some(s.issued[req.presented.index].state));
    }
    RecordsTellTheRequest(replica.gate, inner, nonce);
    assert SameFields(inner, req.Plain());
    SameFieldsSameDescription(replica.gate, inner, req.Plain(), r);
  }

  ghost predicate AllDescribed(history: seq<Exchange>) {
    forall j, r :: 0 <= j < |history| && r in history[j].records ==> Describes(history[j].gate, history[j].request.Plain(), r)
  }

  lemma StepKeepsDescribed(s: System, step: Step)
    requires AllDescribed(s.history)
    ensures AllDescribed(Apply(s, step).history)
  {
    match step
    case Serve(i, req, nonce) =>
      if i < |s.replicas| {
        var after := Served(s, i, req, nonce);
        ServedAppends(s, i, req, nonce);
        forall j, r | 0 <= j < |after.history| && r in after.history[j].records
          ensures Describes(after.history[j].gate, after.history[j].request.Plain(), r)
        {
          if j == |s.history| {
            ServedRecordsTell(s, i, req, nonce, r);
          }
        }
      }
    case _ =>
  }

  /** In every run of the replicated system, every record any replica left is about the request of its
      exchange, under the policy that replica had then. */
  lemma {:induction false} ReplicatedRecordsTell(start: System, steps: seq<Step>)
    requires Fresh(start)
    ensures AllDescribed(Run(start, steps).history)
  {
    if steps != [] {
      ReplicatedRecordsTell(start, steps[..|steps| - 1]);
      StepKeepsDescribed(Run(start, steps[..|steps| - 1]), steps[|steps| - 1]);
    }
  }
}
