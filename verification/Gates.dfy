/** What the policy middleware rules on each request, as a function of the request
    (`PolicyEnforcementMiddleware` in governance/middleware.py, without its effects). */
module Gates {
  import opened Text
  import opened Wire
  import opened Policies
  import opened Audit
  import opened Approval

  /** The caller, as the verified access token describes it. */
  datatype Caller = Caller(principal: string, roles: seq<string>, binding: Binding)

  /** The OAuth principal a request state is bound to. */
  datatype Binding = Binding(client: string, issuer: string, subject: string)

  /** A request as it reaches the middleware: request state, if any, is plaintext by now. */
  datatype Request = Request(operation: string, params: Value, caller: Caller, protocolVersion: Option<string>)
  {
    function Params(): seq<Entry> {
      if params.Mapping? then params.entries else []
    }

    function ToolName(): string {
      Render(GetOr(Params(), "name", Str("")))
    }

    function Uri(): string {
      Render(GetOr(Params(), "uri", Str("")))
    }

    function Arguments(): Value {
      Get(Params(), "arguments")
    }

    function Answers(): Value {
      Or(Get(Params(), "inputResponses"), Get(Params(), "input_responses"))
    }

    function State(): Value {
      Or(Get(Params(), "requestState"), Get(Params(), "request_state"))
    }
  }

  const TOOLS_CALL := "tools/call"
  const TOOLS_LIST := "tools/list"
  const RESOURCES_READ := "resources/read"
  const APPROVAL := "approval"
  const AUTHORIZATION_DENIED := -32003

  datatype ErrorDetail =
    | Unauthorized(reason: string, requiredRoles: seq<string>, classification: Option<string>)
    | NotApproved(reason: string)

  datatype McpError = McpError(code: int, target: string, detail: ErrorDetail)

  /** The `InputRequiredResult` that puts the approval question to a human. */
  datatype Question = Question(key: string, message: string, requestState: string)

  datatype Verdict =
    | Refuse(error: McpError)
    | Ask(question: Question)
    | Forward

  /** The audit records one request leaves, in order, and what happens to it. */
  datatype Ruling = Ruling(records: seq<AuditRecord>, verdict: Verdict)

  /** What one middleware object is configured with. */
  datatype Gate = Gate(policy: Policy, glob: Matcher, enforce: bool)

  function EntriesOf(v: Value): Option<seq<Entry>> {
    if v.Mapping? then Some(v.entries) else None
  }

  function DeniedError(decision: Decision): McpError {
    McpError(AUTHORIZATION_DENIED, decision.target,
             Unauthorized(decision.reason, decision.requiredRoles, decision.classification))
  }

  /** The record `_audit_approval` writes. */
  function ApprovalRecord(policy: Policy, tool: string, principal: string, outcome: string, reason: string): AuditRecord {
    var rule := Find(policy.tools, tool);
    var classification := if rule.Some? then Some(rule.value.classification) else None;
    Event(principal, APPROVAL, Decision(outcome == ALLOW, reason, tool, classification, [], [], false, ""),
          None, None, Some(outcome))
  }

  const AWAITING := "awaiting human approval"
  const APPROVED := "approved by human"

  /** The prompt of the tool's rule, or the default one. */
  function Prompt(policy: Policy, tool: string): string {
    var rule := Find(policy.tools, tool);
    if rule.Some? && rule.value.approvalPrompt != "" then rule.value.approvalPrompt else "Approve running " + tool + "?"
  }

  /** One argument as the question shows it. */
  function Shown(name: string, arguments: seq<Entry>): string {
    name + "=" + Render(Get(arguments, name))
  }

  function ShownAll(names: seq<string>, arguments: seq<Entry>): string {
    if names == [] then ""
    else if |names| == 1 then Shown(names[0], arguments)
    else Shown(names[0], arguments) + ", " + ShownAll(names[1..], arguments)
  }

  /** The arguments in the order of their names. */
  function Detail(arguments: seq<Entry>): string {
    var shown := ShownAll(Sorted(KeyNames(arguments)), arguments);
    if shown == "" then "no arguments" else shown
  }

  /** `_ask_for_approval`. */
  function QuestionFor(policy: Policy, tool: string, arguments: seq<Entry>, nonce: string): Question {
    Question(APPROVAL_KEY, Prompt(policy, tool) + "\n\n" + tool + "(" + Detail(arguments) + ")", NewPendingState(tool, nonce))
  }

  /** The arguments a question is about. */
  function AskedArguments(req: Request): seq<Entry> {
    if req.Arguments().Mapping? then req.Arguments().entries else []
  }

  /** `_check_approval`: ask when there are no answers, otherwise decide on them. */
  function RuleApproval(policy: Policy, req: Request, nonce: string): Ruling {
    var tool := req.ToolName();
    var principal := req.caller.principal;
    if !Truthy(req.Answers()) then
      Ruling([ApprovalRecord(policy, tool, principal, PENDING, AWAITING)],
             Ask(QuestionFor(policy, tool, AskedArguments(req), nonce)))
    else
      match Check(req.State(), req.Answers())
      case Some(error) =>
        Ruling([ApprovalRecord(policy, tool, principal, DENY, Reason(error))],
               Refuse(McpError(AUTHORIZATION_DENIED, tool, NotApproved(Reason(error)))))
      case None =>
        Ruling([ApprovalRecord(policy, tool, principal, ALLOW, APPROVED)], Forward)
  }

  function ToolDecision(gate: Gate, req: Request): Decision {
    DecideTool(gate.policy, req.ToolName(), req.caller.roles)
  }

  function ToolRecord(gate: Gate, req: Request): AuditRecord {
    Event(req.caller.principal, TOOLS_CALL, ToolDecision(gate, req), EntriesOf(req.Arguments()), req.protocolVersion, None)
  }

  /** `_guard_tool_call`. */
  function RuleToolCall(gate: Gate, req: Request, nonce: string): Ruling {
    var decision := ToolDecision(gate, req);
    var record := ToolRecord(gate, req);
    if !decision.allowed && gate.enforce then Ruling([record], Refuse(DeniedError(decision)))
    else if decision.requiresApproval && gate.enforce then
      var approval := RuleApproval(gate.policy, req, nonce);
      Ruling([record] + approval.records, approval.verdict)
    else Ruling([record], Forward)
  }

  function ResourceDecision(gate: Gate, req: Request): Decision {
    DecideResource(gate.policy, gate.glob, req.Uri(), req.caller.roles)
  }

  function ResourceRecord(gate: Gate, req: Request): AuditRecord {
    Event(req.caller.principal, RESOURCES_READ, ResourceDecision(gate, req), None, req.protocolVersion, None)
  }

  /** `_guard_resource_read`. */
  function RuleResourceRead(gate: Gate, req: Request): Ruling {
    var decision := ResourceDecision(gate, req);
    Ruling([ResourceRecord(gate, req)],
           if !decision.allowed && gate.enforce then Refuse(DeniedError(decision)) else Forward)
  }

  /** `__call__`: everything but tool calls and resource reads is forwarded unrecorded. */
  function RuleOn(gate: Gate, req: Request, nonce: string): Ruling {
    if req.operation == TOOLS_CALL then RuleToolCall(gate, req, nonce)
    else if req.operation == RESOURCES_READ then RuleResourceRead(gate, req)
    else Ruling([], Forward)
  }

  // ---------- what a ruling means ----------

  /** The tool call is one whose rule wants a human's approval, under enforcement. */
  predicate Gated(gate: Gate, req: Request) {
    req.operation == TOOLS_CALL && gate.enforce && ToolDecision(gate, req).requiresApproval
  }

  /** Under enforcement a tool call runs exactly when the caller is authorized and, if the rule wants
      approval, the request carries a pending state and an explicit yes. */
  lemma ToolRunsIff(gate: Gate, req: Request, nonce: string)
    requires gate.enforce && req.operation == TOOLS_CALL
    ensures RuleOn(gate, req, nonce).verdict.Forward?
       <==> && ToolDecision(gate, req).allowed
            && (ToolDecision(gate, req).requiresApproval ==>
                  Truthy(req.Answers()) && IsPending(req.State()) && ExplicitConsent(req.Answers()))
  {
    ChecksOutIff(req.State(), req.Answers());
  }

  lemma ConsentIsTruthy(answers: Value)
    ensures ExplicitConsent(answers) ==> Truthy(answers)
  {
  }

  /** The middleware alone does not tie a state to the tool called: a call that carries the plaintext
      state of any tool's question runs on an explicit yes. */
  lemma AnyToolsStateForwards(gate: Gate, req: Request, other: string, suffix: string, nonce: string)
    requires Gated(gate, req) && ToolDecision(gate, req).allowed
    requires req.State() == Str(NewPendingState(other, suffix))
    ensures RuleOn(gate, req, nonce).verdict.Forward? <==> ExplicitConsent(req.Answers())
  {
    ConsentIsTruthy(req.Answers());
    AnyToolsStatePasses(other, suffix, req.Answers());
  }

  /** A question is put exactly to an authorized caller of a gated tool who sent no answers, and the
      state that goes with it is one the approval check recognises. */
  lemma AsksIff(gate: Gate, req: Request, nonce: string)
    ensures RuleOn(gate, req, nonce).verdict.Ask?
       <==> Gated(gate, req) && ToolDecision(gate, req).allowed && !Truthy(req.Answers())
    ensures RuleOn(gate, req, nonce).verdict.Ask? ==>
              IsPending(Str(RuleOn(gate, req, nonce).verdict.question.requestState))
  {
    MintedStateIsPending(req.ToolName(), nonce);
  }

  /** The middleware reads the fields of the wire request: a missing name or URI as empty, answers and state
      under either spelling, the first that holds something. */
  lemma ReadsTheWire(req: Request)
    ensures var wire := if req.params.Mapping? then req.params.entries else [];
      && req.ToolName() == (match Lookup(wire, "name") case Some(v) => Render(v) case None => "")
      && req.Uri() == (match Lookup(wire, "uri") case Some(v) => Render(v) case None => "")
      && req.Arguments() == (match Lookup(wire, "arguments") case Some(v) => v case None => Null)
      && (forall v :: Lookup(wire, "inputResponses") == Some(v) && Truthy(v) ==> req.Answers() == v)
      && (!Truthy(Get(wire, "inputResponses")) ==> req.Answers() == Get(wire, "input_responses"))
      && (forall v :: Lookup(wire, "requestState") == Some(v) && Truthy(v) ==> req.State() == v)
      && (!Truthy(Get(wire, "requestState")) ==> req.State() == Get(wire, "request_state"))
  {
  }

  /** Why an answered call of a gated tool is refused, as the record and the error say it: no state of this
      layer, no answer to the question, or an answer that is not an explicit yes. */
  lemma ApprovalReasons(gate: Gate, req: Request, nonce: string)
    requires Gated(gate, req) && ToolDecision(gate, req).allowed && Truthy(req.Answers())
    ensures var ruling, state, answers := RuleOn(gate, req, nonce), req.State(), req.Answers();
      var reason :=
        if !(state.Str? && "awaiting-approval:" <= state.s) then Some("no approval was requested for this call")
        else if !(answers.Mapping? && Lookup(answers.entries, "approval").Some?) then Some("the approval question was not answered")
        else if !ExplicitConsent(answers) then Some("a human declined the action")
        else None;
      && |ruling.records| == 2
      && match reason
         case Some(text) =>
           && ruling.verdict == Refuse(McpError(-32003, req.ToolName(), NotApproved(text)))
           && ruling.records[1].outcome == "deny" && ruling.records[1].reason == text
         case None =>
           && ruling.verdict == Forward
           && ruling.records[1].outcome == "allow" && ruling.records[1].reason == "approved by human"
  {
    ChecksOutIff(req.State(), req.Answers());
  }

  // ---------- the question ----------

  /** `part` occurs in `text`. */
  ghost predicate Shows(text: string, part: string) {
    exists before, after :: text == before + part + after
  }

  lemma ShowsWithin(before: string, text: string, after: string, part: string)
    requires Shows(text, part)
    ensures Shows(before + text + after, part)
  {
    var b, a :| text == b + part + a;
    assert before + text + after == (before + b) + part + (a + after);
  }

  lemma {:induction false} AllNamesShown(names: seq<string>, arguments: seq<Entry>, name: string)
    requires name in names
    ensures Shows(ShownAll(names, arguments), Shown(name, arguments))
  {
    var part := Shown(name, arguments);
    assert part == "" + part + "";
    if |names| == 1 {
      assert names[0] == name;
    } else if names[0] == name {
      ShowsWithin("", part, ", " + ShownAll(names[1..], arguments), part);
      assert "" + part + (", " + ShownAll(names[1..], arguments)) == ShownAll(names, arguments);
    } else {
      AllNamesShown(names[1..], arguments, name);
      ShowsWithin(Shown(names[0], arguments) + ", ", ShownAll(names[1..], arguments), "", part);
      assert Shown(names[0], arguments) + ", " + ShownAll(names[1..], arguments) + "" == ShownAll(names, arguments);
    }
  }

  lemma {:induction false} LookupNames(entries: seq<Entry>, name: string)
    requires Lookup(entries, name).Some?
    ensures name in KeyNames(entries)
  {
    if entries[0].key == Str(name) {
      assert Render(entries[0].key) == name;
    } else {
      LookupNames(entries[1..], name);
    }
  }

  lemma ArgumentIsShown(arguments: seq<Entry>, name: string)
    requires Lookup(arguments, name).Some?
    ensures Shows(Detail(arguments), Shown(name, arguments))
  {
    var names := Sorted(KeyNames(arguments));
    LookupNames(arguments, name);
    AllNamesShown(names, arguments, name);
    var b, a :| ShownAll(names, arguments) == b + Shown(name, arguments) + a;
  }

  lemma MessageShows(policy: Policy, tool: string, arguments: seq<Entry>, nonce: string, part: string)
    requires Shows(Detail(arguments), part)
    ensures Shows(QuestionFor(policy, tool, arguments, nonce).message, part)
  {
    var head := Prompt(policy, tool) + "\n\n" + tool + "(";
    ShowsWithin(head, Detail(arguments), ")", part);
    assert QuestionFor(policy, tool, arguments, nonce).message == head + Detail(arguments) + ")";
  }

  lemma MessageShowsTool(policy: Policy, tool: string, arguments: seq<Entry>, nonce: string)
    ensures Shows(QuestionFor(policy, tool, arguments, nonce).message, tool + "(")
  {
    var head := Prompt(policy, tool) + "\n\n";
    assert QuestionFor(policy, tool, arguments, nonce).message == head + (tool + "(") + (Detail(arguments) + ")");
  }

  /** The arguments hold a value under this name. */
  predicate NamesArgument(arguments: Value, name: string) {
    arguments.Mapping? && exists i :: 0 <= i < |arguments.entries| && Render(arguments.entries[i].key) == name
  }

  /** `names` lists the names of the arguments in ascending order. */
  ghost predicate ListsNames(names: seq<string>, arguments: Value) {
    Ascending(names) && forall name :: name in names <==> NamesArgument(arguments, name)
  }

  function Pair(name: string, arguments: Value): string {
    name + "=" + Render(Field(arguments, name))
  }

  /** Names with their values, separated by commas. */
  function Listed(names: seq<string>, arguments: Value): string {
    if names == [] then ""
    else if |names| == 1 then Pair(names[0], arguments)
    else Listed(names[..|names| - 1], arguments) + ", " + Pair(names[|names| - 1], arguments)
  }

  /** The prompt of the tool's rule when it has one, or the default. */
  ghost predicate PromptFor(policy: Policy, tool: string, prompt: string) {
    && (forall i :: 0 <= i < |policy.tools| && policy.tools[i].key == tool && policy.tools[i].rule.approvalPrompt != "" ==>
          prompt == policy.tools[i].rule.approvalPrompt)
    && ((forall i :: 0 <= i < |policy.tools| && policy.tools[i].key == tool ==> policy.tools[i].rule.approvalPrompt == "") ==>
          prompt == "Approve running " + tool + "?")
  }

  /** The message is the prompt, and under it the call: the tool with its arguments and their values in the
      order of their names. */
  ghost predicate PutsCall(policy: Policy, message: string, tool: string, arguments: Value) {
    exists prompt, names ::
      && PromptFor(policy, tool, prompt)
      && ListsNames(names, arguments)
      && message == prompt + "\n\n" + tool + "(" + (if names == [] then "no arguments" else Listed(names, arguments)) + ")"
  }

  lemma Regroup(a: string, b: string, c: string)
    ensures a + (", " + b) + ", " + c == a + (", " + (b + ", " + c))
  {
  }

  lemma {:induction false} ListedNext(names: seq<string>, arguments: Value)
    requires |names| > 1
    ensures Listed(names, arguments) == Pair(names[0], arguments) + (", " + Listed(names[1..], arguments))
  {
    var n := |names| - 1;
    var front, last := names[..n], names[n];
    assert names[1..][n - 1] == last;
    if n > 1 {
      ListedNext(front, arguments);
      assert front[1..] == names[1..][..n - 1];
      Regroup(Pair(names[0], arguments), Listed(front[1..], arguments), Pair(last, arguments));
    }
  }

  lemma {:induction false} ShownIsListed(names: seq<string>, arguments: seq<Entry>)
    ensures ShownAll(names, arguments) == Listed(names, Mapping(arguments))
  {
    if names != [] {
      ShownIsListed(names[1..], arguments);
      if |names| > 1 {
        ListedNext(names, Mapping(arguments));
      }
    }
  }

  lemma SortedListsNames(arguments: Value)
    ensures arguments.Mapping? ==> ListsNames(Sorted(KeyNames(arguments.entries)), arguments)
    ensures !arguments.Mapping? ==> ListsNames([], arguments) && KeyNames([]) == {}
  {
    if arguments.Mapping? {
      forall name ensures name in KeyNames(arguments.entries) <==> NamesArgument(arguments, name) {
        if name in KeyNames(arguments.entries) {
          var e :| e in arguments.entries && Render(e.key) == name;
        }
      }
    }
  }

  lemma PromptIsFor(policy: Policy, tool: string)
    ensures PromptFor(policy, tool, Prompt(policy, tool))
  {
    FindExactly(policy.tools, tool);
  }

  lemma DetailIsListed(arguments: seq<Entry>)
    ensures var names := Sorted(KeyNames(arguments));
      Detail(arguments) == if names == [] then "no arguments" else Listed(names, Mapping(arguments))
  {
    var names := Sorted(KeyNames(arguments));
    ShownIsListed(names, arguments);
    if names != [] {
      assert '=' in Shown(names[0], arguments);
      assert '=' in ShownAll(names, arguments);
    }
  }

  lemma QuestionPutsCall(policy: Policy, tool: string, arguments: Value, nonce: string)
    ensures var entries := if arguments.Mapping? then arguments.entries else [];
      PutsCall(policy, QuestionFor(policy, tool, entries, nonce).message, tool, arguments)
  {
    var entries := if arguments.Mapping? then arguments.entries else [];
    var names := Sorted(KeyNames(entries));
    SortedListsNames(arguments);
    PromptIsFor(policy, tool);
    DetailIsListed(entries);
    assert ListsNames(names, arguments);
  }

  /** A ruling that asks puts the request's own call under the prompt of its own rule. The answer is expected
      under the key `check` reads, and the state names the tool. */
  lemma {:induction false} AskPutsTheCall(gate: Gate, req: Request, nonce: string)
    requires RuleOn(gate, req, nonce).verdict.Ask?
    ensures var question := RuleOn(gate, req, nonce).verdict.question;
      && PutsCall(gate.policy, question.message, req.ToolName(), req.Arguments())
      && question.key == "approval"
      && question.requestState == "awaiting-approval:" + req.ToolName() + ":" + nonce
  {
    QuestionPutsCall(gate.policy, req.ToolName(), req.Arguments(), nonce);
  }

  /** Only the answer under the question's key is read. */
  lemma AnswersUnderTheKey(state: Value, answers: seq<Entry>, others: seq<Entry>)
    requires Lookup(answers, "approval") == Lookup(others, "approval")
    ensures Check(state, Mapping(answers)) == Check(state, Mapping(others))
  {
  }

  /** The message names the tool, if the request names one, and shows each argument with its value. */
  ghost predicate ShowsCall(message: string, name: Value, arguments: Value) {
    && (name.Str? ==> Shows(message, name.s + "("))
    && forall argument, value ::
         arguments.Mapping? && Lookup(arguments.entries, argument) == Some(value) ==> Shows(message, argument + "=" + Render(value))
  }

  /** The question a ruling puts to a human names the tool of the request and shows every argument of the
      call with its value. */
  lemma {:induction false} QuestionShowsTheCall(gate: Gate, req: Request, nonce: string)
    requires RuleOn(gate, req, nonce).verdict.Ask?
    ensures ShowsCall(RuleOn(gate, req, nonce).verdict.question.message, Get(req.Params(), "name"), req.Arguments())
  {
    var tool, arguments := req.ToolName(), AskedArguments(req);
    var message := RuleOn(gate, req, nonce).verdict.question.message;
    assert message == QuestionFor(gate.policy, tool, arguments, nonce).message;
    MessageShowsTool(gate.policy, tool, arguments, nonce);
    forall argument, value | req.Arguments().Mapping? && Lookup(req.Arguments().entries, argument) == Some(value)
      ensures Shows(message, argument + "=" + Render(value))
    {
      ArgumentIsShown(arguments, argument);
      MessageShows(gate.policy, tool, arguments, nonce, Shown(argument, arguments));
    }
  }
}
