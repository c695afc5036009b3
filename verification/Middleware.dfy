/** The policy middleware with its effects (governance/middleware.py). */
module Middleware {
  import opened Text
  import opened Wire
  import opened Policies
  import opened Audit
  import opened Approval
  import opened Gates
  import opened Discovery
  import opened Server

  datatype Reply =
    | Failed(error: McpError)
    | InputRequired(question: Question)
    | Answered(result: HandlerResult)

  class PolicyEnforcementMiddleware {
    const gate: Gate
    const audit: AuditLog

    constructor (gate: Gate, audit: AuditLog)
      ensures this.gate == gate && this.audit == audit
    {
      this.gate, this.audit := gate, audit;
    }

    /** The effects of one request follow its ruling: the records are appended, a refusal or a question
        leaves handlers and store alone, and a forwarded request reaches its handler once, whose answer is
        the reply. */
    twostate predicate CarriedOut(ruling: Ruling, req: Request, next: Dispatcher, moment: Moment, reply: Reply)
      reads this, audit, next, next.connector
    {
      && audit.records == old(audit.records) + ruling.records
      && match ruling.verdict
         case Refuse(error) =>
           reply == Failed(error) && next.handled == old(next.handled)
           && next.connector.State() == old(next.connector.State())
         case Ask(question) =>
           reply == InputRequired(question) && next.handled == old(next.handled)
           && next.connector.State() == old(next.connector.State())
         case Forward =>
           && reply.Answered?
           && next.handled == old(next.handled) + [req]
           && next.connector.State() == StoreAfter(next.book, old(next.connector.State()), req, moment.stamp)
           && (req.operation != TOOLS_LIST ==>
                 Handles(next.book, next.catalogue, old(next.connector.State()), req, moment, reply.result))
    }

    /** `__call__`: the audit stream grows by exactly the records of the ruling; handlers run for
        forwarded requests and for nothing else, and then once; their answers are passed on, but for a
        listing, which under enforcement is cut down to the tools the caller may call. */
    method Call(req: Request, next: Dispatcher, moment: Moment) returns (reply: Reply)
      modifies audit, next, next.connector
      ensures CarriedOut(RuleOn(gate, req, moment.nonce), req, next, moment, reply)
      ensures req.operation == TOOLS_LIST && !gate.enforce ==> reply == Answered(Catalogue(next.catalogue))
      ensures req.operation == TOOLS_LIST && gate.enforce ==>
                && reply.Answered? && reply.result.Catalogue?
                && Offers(gate.policy, req.caller.roles, next.catalogue, reply.result.listing)
    {
      if req.operation == TOOLS_CALL {
        reply := GuardToolCall(req, next, moment);
      } else if req.operation == RESOURCES_READ {
        reply := GuardResourceRead(req, next, moment);
      } else if req.operation == TOOLS_LIST {
        reply := FilterToolList(req, next, moment);
      } else {
        var result := next.CallNext(req, moment);
        reply := Answered(result);
      }
    }

    method GuardToolCall(req: Request, next: Dispatcher, moment: Moment) returns (reply: Reply)
      requires req.operation == TOOLS_CALL
      modifies audit, next, next.connector
      ensures CarriedOut(RuleToolCall(gate, req, moment.nonce), req, next, moment, reply)
    {
      var tool := req.ToolName();
      var arguments := req.Arguments();
      var principal := req.caller.principal;
      var decision := DecideTool(gate.policy, tool, req.caller.roles);
      audit.Record(principal, TOOLS_CALL, decision, EntriesOf(arguments), req.protocolVersion, None);
      var denied := RaiseIfDenied(decision);
      if denied.Some? {
        return Failed(denied.value);
      }
      if decision.requiresApproval && gate.enforce {
        var verdict := CheckApproval(req, moment.nonce);
        match verdict {
          case Refuse(error) => return Failed(error);
          case Ask(question) => return InputRequired(question);
          case Forward =>
        }
      }
      var result := next.CallNext(req, moment);
      return Answered(result);
    }

    method CheckApproval(req: Request, nonce: string) returns (verdict: Verdict)
      modifies audit
      ensures verdict == RuleApproval(gate.policy, req, nonce).verdict
      ensures audit.records == old(audit.records) + RuleApproval(gate.policy, req, nonce).records
    {
      var answers := req.Answers();
      var state := req.State();
      if !Truthy(answers) {
        var question := AskForApproval(req.ToolName(), req.caller.principal, AskedArguments(req), nonce);
        return Ask(question);
      }
      var failure := Check(state, answers);
      if failure.Some? {
        AuditApproval(req.ToolName(), req.caller.principal, DENY, Reason(failure.value));
        return Refuse(McpError(AUTHORIZATION_DENIED, req.ToolName(), NotApproved(Reason(failure.value))));
      }
      AuditApproval(req.ToolName(), req.caller.principal, ALLOW, APPROVED);
      return Forward;
    }

    /** The question shows the prompt and the call, and its state is one the approval check recognises. */
    method AskForApproval(tool: string, principal: string, arguments: seq<Entry>, nonce: string) returns (question: Question)
      modifies audit
      ensures question == QuestionFor(gate.policy, tool, arguments, nonce)
      ensures IsPending(Str(question.requestState))
      ensures audit.records == old(audit.records) + [ApprovalRecord(gate.policy, tool, principal, PENDING, AWAITING)]
    {
      var rule := Find(gate.policy.tools, tool);
      var prompt := if rule.Some? then rule.value.approvalPrompt else "";
      if prompt == "" {
        prompt := "Approve running " + tool + "?";
      }
      var detail := ShownAll(Sorted(KeyNames(arguments)), arguments);
      if detail == "" {
        detail := "no arguments";
      }
      AuditApproval(tool, principal, PENDING, AWAITING);
      MintedStateIsPending(tool, nonce);
      return Question(APPROVAL_KEY, prompt + "\n\n" + tool + "(" + detail + ")", NewPendingState(tool, nonce));
    }

    method AuditApproval(tool: string, principal: string, outcome: string, reason: string)
      modifies audit
      ensures audit.records == old(audit.records) + [ApprovalRecord(gate.policy, tool, principal, outcome, reason)]
    {
      var rule := Find(gate.policy.tools, tool);
      var classification := if rule.Some? then Some(rule.value.classification) else None;
      audit.Record(principal, APPROVAL, Decision(outcome == ALLOW, reason, tool, classification, [], [], false, ""),
                   None, None, Some(outcome));
    }

    method GuardResourceRead(req: Request, next: Dispatcher, moment: Moment) returns (reply: Reply)
      requires req.operation == RESOURCES_READ
      modifies audit, next, next.connector
      ensures CarriedOut(RuleResourceRead(gate, req), req, next, moment, reply)
    {
      var decision := DecideResource(gate.policy, gate.glob, req.Uri(), req.caller.roles);
      audit.Record(req.caller.principal, RESOURCES_READ, decision, None, req.protocolVersion, None);
      var denied := RaiseIfDenied(decision);
      if denied.Some? {
        return Failed(denied.value);
      }
      var result := next.CallNext(req, moment);
      return Answered(result);
    }

    method FilterToolList(req: Request, next: Dispatcher, moment: Moment) returns (reply: Reply)
      requires req.operation == TOOLS_LIST
      modifies next, next.connector
      ensures !gate.enforce ==> reply == Answered(Catalogue(next.catalogue))
      ensures gate.enforce ==> reply == Answered(Catalogue(Filtered(gate.policy, req.caller.roles, next.catalogue)))
      ensures gate.enforce ==> Offers(gate.policy, req.caller.roles, next.catalogue, reply.result.listing)
      ensures next.handled == old(next.handled) + [req]
      ensures next.connector.State() == old(next.connector.State())
    {
      var result := next.CallNext(req, moment);
      if !gate.enforce {
        return Answered(result);
      }
      FilteredOffers(gate.policy, req.caller.roles, next.catalogue);
      var visible := VisibleTools(gate.policy, req.caller.roles);
      match result.listing {
        case Models(tools) =>
          var kept := Keep(tools, (t: ToolModel) => t.name in visible);
          if |kept| == |tools| {
            return Answered(result);
          }
          return Answered(Catalogue(Models(kept)));
        case Serialized(value) =>
          if HasToolList(value) {
            var kept := Keep(Tools(value), (t: Value) => NameOf(t) in visible);
            if |kept| == |Tools(value)| {
              return Answered(result);
            }
            return Answered(Catalogue(Serialized(Mapping(Put(value.entries, "tools", List(kept))))));
          }
          return Answered(result);
      }
    }

    /** `_raise_if_denied`: the error to raise, if any. */
    function RaiseIfDenied(decision: Decision): Option<McpError> {
      if decision.allowed || !gate.enforce then None else Some(DeniedError(decision))
    }
  }
}
