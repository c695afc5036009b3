# Governed MCP server: verified model

A Dafny model of the governance layer of the server: the two-round approval protocol over stateless
replicas with a rotating key ring, and the parts it rests on. `dafny verify dfyconfig.toml` checks it.

## What is modelled

| file | models |
|---|---|
| `Text.dfy`, `Wire.dfy`, `Lists.dfy` | the Python string, mapping and truth-value operations the server uses, over one generic value type for YAML documents and JSON parameters; what it is to pick items from a list in order |
| `Base64.dfy`, `KeyRing.dfy` | base64 of section 4 of RFC 4648 and the parser of `MCP_REQUEST_STATE_KEYS` (`governance/request_state.py`) |
| `Policies.dfy`, `PolicyLoader.dfy`, `Documents.dfy`, `Specificity.dfy` | decisions, resource selection and the policy loader (`governance/policy.py`), and decisions read off the document itself |
| `Audit.dfy`, `Approval.dfy` | audit records and the meaning of consent (`governance/audit.py`, `governance/approval.py`) |
| `Gates.dfy`, `Discovery.dfy`, `Middleware.dfy` | the middleware: its ruling on each request as a function, the listing filter, and the class with its effects, proved against that function (`governance/middleware.py`) |
| `ServiceNow.dfy`, `Shipments.dfy`, `Server.dfy`, `Answers.dfy`, `Startup.dfy` | the mock incident store, assess and raise, the handlers behind the middleware, what each of them answers to a wire request, and the wiring of a server (`governance/servicenow.py`, `server.py`) |
| `AuditTrail.dfy`, `TrailFields.dfy`, `Consent.dfy`, `Serving.dfy` | whole runs of requests on one process: conservation, what each record says, shadow mode, fail closed, side effects; and a process that serves a run |
| `Boundary.dfy`, `Cluster.dfy` | sealing and unsealing as an abstract contract, and the replicated step system |
| `ApprovalSafety.dfy`, `Rotation.dfy`, `Handover.dfy` | safety over every run, rotation by the runbook, and the approval round trip through a rotating fleet |
| `ClusterAudit.dfy`, `Compromise.dfy` | the audit trail of a whole replicated run; what a disclosed key is worth and what a fresh one repairs |
| `Runbook.dfy`, `RotationRules.dfy`, `Witness.dfy` | the runbook as a procedure, why each of its rules is needed, and the concrete deployment that shows it |

Classes stand where the source updates state in place: `AuditLog`, `MockServiceNow`, `Dispatcher`
(`call_next`), `PolicyEnforcementMiddleware` and `Process` (the module-level store handle). Their
methods follow the source branch by branch and are proved against functions of the old state; the
lemmas about runs speak of those functions, and `Serving.ServeAll` ties the objects to them over a
whole run.

In `Rotation`, falling back from phase three means going back to `<new>,<old>`, which is safe at any
moment; the runbook's own rollback, `<old>,<new>`, is safe from phase two only.

## Hypotheses

- The request-state boundary is not part of the repository. `Boundary` takes it as a contract: a
  client can only send back a state it was sent (by number) or some text that never unseals; the first
  key of a ring seals, every key unseals; a state is bound to method, tool name, arguments, principal
  and audience; it is expired from its expiry instant on (`now >= expires`), 600 seconds after sealing.
- Whichever of `requestState` and `request_state` the middleware reads has been through the boundary:
  `Boundary.Inner` drops both fields as the client wrote them and adds only an unsealed state. What
  rests on this: `Cluster.StateFieldsNeedTheBoundary`, with an input in `Witness.UnaskedCallOccurs`.
- Keys are known to the servers alone, except in `Compromise`, where states may be made under any
  untrusted key.
- Handlers mint no request state of their own; none of the six registered tools does.
- `fnmatch.fnmatchcase` is a parameter. The claims about specificity need it to agree with
  `Specificity.Glob` on patterns without `[`.
- The caller's principal and roles, the clock, the random suffix of a state and the formatted creation
  time of an incident are inputs.

## Where the code and its documentation disagree

The model follows the code.

- `docs/runbooks/rotate-request-state-key.md:98-99` says every replica in any phase can unseal what
  `<old>,<new>` seals. Exactly the replicas in phase three cannot: `Rotation.RollbackFailsInPhaseThree`.
  `RotationRules.EveryMixOccurs` is the input, `RotationRules.EveryRuleIsNeeded` a run of a whole
  fleet that ends so.
- `policy.yaml:100` says the most specific resource pattern comes first. The code takes the longest,
  which can be a wildcard ahead of an exact pattern: `Specificity.ExactPatternCanLose`. For tables of
  literal patterns with or without a trailing `*`, as the shipped one is, the exact condition is in
  `Specificity.LongestIsMostSpecificIff`; for resources with an exact pattern, among any patterns with
  `*` and `?`, in `Specificity.ExactIsChosenIff` (`r://?` wins over a later `r://a` as well).
- `governance/approval.py:78-85` describes `check` as checking approval of this call. It never looks
  at its `tool` argument: `Approval.AnyToolsStatePasses`, `Gates.AnyToolsStateForwards`. The binding
  comes from the boundary alone. Nor does anything use an approval up:
  `ApprovalSafety.ApprovalIsReusable`, and `RotationRules.ReuseOccurs` for the input.

## Model

| member | source | states |
|---|---|---|
| ApprovalSafety.ApprovalSafety | governance/middleware.py:70-131 | in every run of the replicated system, each enforced execution of a tool that wants approval was by an authorized caller, carried an explicit accept with `approve: true`, and was preceded within the time to live by an ask for the same tool, arguments and principal, put to a caller holding a granting role, in a question that named that tool and showed those arguments with their values |
| ApprovalSafety.RetryRunsIff | governance/approval.py:78-96 | in every reachable system, exactly when a call with a state attached runs: authorized, explicit yes, state issued for this call under a held key and not expired; nothing that ran before matters |
| ApprovalSafety.ApprovalIsReusable | governance/middleware.py:117-131 | no approval is used up: a gated call that ran runs again when repeated |
| ApprovalSafety.AskMints | governance/middleware.py:133-163 | an ask records a pending approval and mints one state bound to the call that asked |
| ApprovalSafety.AskedPutsTheCall | governance/middleware.py:136-158 | the question a replica answers with is the prompt of its own rule over the client's own call |
| ApprovalSafety.GatedRunPresents | governance/approval.py:16-28 | a gated run presents an issued, live state bound to its own call |
| Handover.ApprovalTravels | governance/request_state.py:10-33 | from the start of a fleet, through any rotations by the runbook and any traffic, a question put by any replica and answered at any other runs the call exactly when the answer is an explicit yes within the time to live |
| Rotation.RotationIsInvisible | governance/request_state.py:27-33 | through any number of rotations by the runbook and under any routing, a fleet gives the same answers and leaves the same audit records as one server that never rotates |
| Rotation.EveryLiveStateUnseals | docs/runbooks/rotate-request-state-key.md:19-27 | in every reachable state of the rotation process every unexpired state is unsealable by every replica |
| Rotation.PerformKeepsSafe | docs/runbooks/rotate-request-state-key.md:46-79 | each operation the runbook allows keeps the rotation invariant |
| Rotation.PhasesHandOverIff | docs/runbooks/rotate-request-state-key.md:19-23 | exactly which phases hold the key another phase seals with |
| Rotation.PhasesThatDoNotMix | docs/runbooks/rotate-request-state-key.md:19-23 | between replicas in arbitrary phases, exactly when a retry in time is rejected: why each phase must be fully rolled out |
| Rotation.RollbackFailsInPhaseThree | docs/runbooks/rotate-request-state-key.md:98-100 | a state sealed after rolling back is rejected exactly by replicas still in phase three |
| Rotation.RetiringEarlyRejects | docs/runbooks/rotate-request-state-key.md:71-79 | without the wait of one time to live, an unexpired state is rejected |
| RotationRules.EveryRuleIsNeeded | docs/runbooks/rotate-request-state-key.md:19-27 | a set of the runbook's rules keeps every unexpired approval valid in all runs of all fleets exactly when it is all of them; without any one there is a run from a settled fleet in which an explicit yes in time is rejected |
| RotationRules.RollBackTooLate | docs/runbooks/rotate-request-state-key.md:98-100 | a run of a settled fleet that falls back to `<old>,<new>` out of phase three, with every other rule kept, and ends with an explicit yes in time rejected |
| RotationRules.WithoutWait | docs/runbooks/rotate-request-state-key.md:25-27 | the same for phase three without the wait of one time to live |
| RotationRules.EveryMixOccurs | docs/runbooks/rotate-request-state-key.md:19-23 | for every pair of phases, a concrete deployment in which the question is put and the answer at the other replica rejected exactly for the pairs that do not mix |
| RotationRules.RoundTripOccurs | governance/request_state.py:24-33 | the good case in a concrete deployment: asked at one replica in the middle of a rotation, the explicit yes runs at the other up to the time to live and not after |
| RotationRules.ReuseOccurs | governance/middleware.py:117-131 | in the same deployment one approval runs the gated call twice |
| Rotation.ServeMirrors | governance/middleware.py:56-66 | one request served by any replica and by the lone server has the same outcome |
| Runbook.ProcedureRotates | docs/runbooks/rotate-request-state-key.md:35-79 | the runbook's steps and ring strings, for any number of replicas and amid any requests, restarts and delays, keep to its rules and leave every replica on the new key alone |
| Runbook.RolloutCompletes | docs/runbooks/rotate-request-state-key.md:46-53 | deploying one replica after the other, amid any traffic, completes a phase |
| Compromise.FreshKeyInvalidatesAll | docs/runbooks/rotate-request-state-key.md:116-119 | a fresh key alone, deployed in any order amid any traffic and any states made under other keys: each replica it has reached rejects every state under another key, whenever issued and by whomever, and runs gated calls only on asks made since |
| Compromise.SafetyUnderTrustedKeys | governance/request_state.py:10-33 | whatever states are made under other keys, a replica all of whose keys are trusted runs a gated call only for an authorized caller, on an explicit yes and after an ask for it within the time to live |
| Compromise.MadeStateRunsIff | docs/runbooks/rotate-request-state-key.md:117-119 | why a disclosed key matters: a state made for a call stands in for an ask exactly on the replicas that hold its key |
| Compromise.ReviewFindsEveryRun | docs/runbooks/rotate-request-state-key.md:121-123 | under enforcing gates, whatever states were made, the exchanges with an approval record of outcome allow are exactly those that ran a gated tool |
| Cluster.HandoffAcceptedIff | governance/request_state.py:10-19 | a retry on another replica is accepted exactly when that replica holds the key the asker seals with and the state has not expired |
| Cluster.UnconfiguredReplicasAreAlone | governance/request_state.py:96-111 | without configured keys no other replica can unseal a process's states, nor can the process after a restart |
| Cluster.AskIssues | governance/middleware.py:141-163 | a question comes with exactly one new sealed state |
| Cluster.AskedIff | governance/middleware.py:77-115 | a call without a state is answered with the question exactly when the rule wants approval, the caller is authorized and there are no answers |
| Cluster.DeploymentsAndRestarts | docs/runbooks/rotate-request-state-key.md:46-53 | a deployment whose string loads installs its keys and gate on one replica, any other changes nothing, and a restart keeps the configuration |
| Cluster.StateFieldsNeedTheBoundary | governance/middleware.py:110-112 | a gated call with a pending state written into `request_state` never runs behind the boundary before anything was asked; if the field came through as written it would run exactly for an authorized caller with an explicit yes |
| Boundary.InnerReadsTheCall | governance/middleware.py:110-112 | the middleware reads the client's own name, arguments and answers, and as state only what was unsealed |
| KeyRing.LoadKeys | governance/request_state.py:66-93 | the loop, with its early return and early errors, computes the meaning of a ring string: the error of its first unusable entry, or its keys in order |
| KeyRing.LoadFailsExactlyAtFirstBadEntry | governance/request_state.py:73-88 | loading fails exactly when a non-blank entry is not base64 or too short, and reports the index of the first one, blank entries counted |
| KeyRing.LoadedKeysAreLong | governance/request_state.py:84-89 | a ring that loads only holds keys of at least 32 bytes |
| KeyRing.LoadsIffJoined | governance/request_state.py:66-93 | a string loads as given keys exactly when it is acceptable entries, joined with commas, that decode to them |
| KeyRing.RingRoundTrip | governance/request_state.py:61-93 | writing keys with any whitespace and blank entries between commas and loading them gives the same keys in order |
| KeyRing.PlainRing | governance/request_state.py:61-73 | joining encoded keys with commas loads as those keys |
| KeyRing.RunbookRings | docs/runbooks/rotate-request-state-key.md:46-79 | the runbook's strings load as the rings it means |
| KeyRing.BlankRingIsEmpty | governance/request_state.py:69-70 | the early return for a blank string agrees with the loop |
| KeyRing.Build | governance/request_state.py:96-114 | the ring of a process: the configured keys in order, or one key local to the process |
| Base64.RoundTrip | governance/request_state.py:61-63 | decoding undoes encoding on every byte string |
| Base64.DecodesIffWellFormed | governance/request_state.py:78 | strict decoding accepts exactly whole quanta of alphabet characters with padding at the end |
| Base64.QuantumKeepsNumber | governance/request_state.py:63 | four letters denote the same 24-bit number as their three bytes |
| Base64.TailsKeepNumbers | governance/request_state.py:63 | so do the letters of a last quantum of one or two bytes |
| Base64.AlphabetInOrder | governance/request_state.py:63 | the standard alphabet and its order |
| Text.LessIff | governance/policy.py:164 | the order `sorted` lists strings in |
| Text.CommonSpaces | governance/request_state.py:75 | what counts as whitespace around an entry, for ASCII |
| Wire.RenderScalars | governance/policy.py:124 | `str` of texts, numbers, truth values and null |
| Wire.FalsyIff | governance/middleware.py:110-114 | which values count as absent |
| Wire.LookupFirst | governance/middleware.py:72-73 | what a key is looked up as |
| Policies.ResourceRule | governance/policy.py:187-193 | the longest-first scan with early return computes the selected rule |
| Policies.SelectsEarliestLongest | governance/policy.py:187-193 | the selected rule is the first in the document among the longest matching patterns, for any matcher |
| Policies.SelectionIgnoresOrder | governance/policy.py:188-189 | document order does not matter unless two matching patterns have the same length |
| Specificity.LongestPrefixIsMostSpecific | governance/policy.py:188-192 | for literal prefixes with a trailing `*`, the chosen rule's matches lie within those of every other matching rule, whatever the document order |
| Specificity.LongestIsMostSpecificIff | governance/policy.py:187-193 | with exact patterns as well, the choice is most specific exactly when no wildcard is tried before the exact pattern |
| Specificity.ExactIsChosenIff | governance/policy.py:187-193 | among any `*` and `?` patterns, where a resource has an exact pattern the choice is most specific exactly when it is that one, that is when every other match is shorter, or as long and further down |
| Specificity.ExactPatternCanLose | policy.yaml:100-102 | a concrete policy whose wildcard wins over the exact pattern |
| Policies.ToolAllowedIff | governance/policy.py:163-173 | a tool call is allowed exactly when the tool has an entry naming one of the caller's roles |
| Policies.ResourceAllowedIff | governance/policy.py:175-185 | a read is allowed exactly when the selected rule names one of the caller's roles |
| Policies.DecisionReportsRule | governance/policy.py:163-208 | a tool decision carries that tool's own rule and a resource decision the selected rule: approval requirement, prompt, classification and the one ascending role list |
| Policies.ReasonsTell | governance/policy.py:163-208 | which reason goes with a grant, with a refusal by a rule and with the absence of one; the default denial reports nothing and asks for nothing |
| Policies.DecisionsDependOnRoleSet | governance/policy.py:163-185 | permuting or repeating roles gives the identical decision, recorded in the one ascending order |
| Policies.AccessIsUnionOfRoles | governance/policy.py:163-218 | access under two sets of roles is the union of the accesses, for tools, resources and listings |
| Policies.NarrowingToolsNeverWidens | governance/policy.py:163-173 | deleting or narrowing tool rules never lets a new call through |
| Policies.DeletingResourceRuleWidensIff | governance/policy.py:187-193 | deleting a resource rule widens access exactly when it was selected, refused the caller, and the next pattern in line grants |
| PolicyLoader.ParseRule | governance/policy.py:124-158 | one entry: accepted exactly when valid, with the rule it stands for; otherwise the first failing check is reported |
| PolicyLoader.ParseRules | governance/policy.py:110-159 | the loop accepts exactly valid sections, builds their table, and stops at the first invalid entry |
| PolicyLoader.FromMapping | governance/policy.py:83-100 | accepts exactly the valid documents; otherwise the first failing check decides the error |
| PolicyLoader.LoadedRuleIsTheLast | governance/policy.py:123-159 | a pattern's rule is that of the last entry that renders to it |
| PolicyLoader.LoadedPatterns | governance/policy.py:123-159 | the table has exactly the patterns the keys render to |
| PolicyLoader.LoadedInOrder | governance/policy.py:122-159 | in the order in which the document names them first |
| Documents.ToolFollowsDocument | governance/policy.py:123-173 | from document to decision: a tool is allowed exactly when the last entry rendering to its name lists a role of the caller's, asks for approval exactly when that entry says so, and is reported with that entry's prompt, classification and roles or their defaults |
| Documents.ResourceFollowsDocument | governance/policy.py:123-193 | the same for a resource and the last entry for the selected pattern |
| Documents.SomeEntryIsLast | governance/policy.py:123-151 | every named pattern has a last entry |
| Documents.UnlistedToolIsDenied | governance/policy.py:165-172 | a tool no entry renders to is denied by default |
| Documents.RuleSaysEntry | governance/policy.py:151-158 | every field of a rule, the description too, from the entry's own fields |
| Documents.AcceptedExactly | governance/policy.py:84-149 | exactly which documents are accepted, field by field |
| Documents.RuleErrorTells | governance/policy.py:126-149 | exactly which error an entry raises and what it names: the unknown classification, or in ascending order the undeclared roles |
| Documents.DeclaredIff | governance/policy.py:103-108 | the declared roles are the keys of the `roles` mapping |
| PolicyLoader.AcceptedPolicyIsSound | governance/policy.py:129-158 | every accepted rule is filed under its own pattern, has a known classification and names declared roles only |
| PolicyLoader.UndeclaredRolesGetNothing | governance/policy.py:141-149 | a caller without declared roles is denied every tool and resource and sees no tool |
| Audit.AuditLog.Record | governance/audit.py:52-89 | one record is appended: overridden or derived outcome, argument names only, denials at WARNING |
| TrailFields.RecordsTellTheRequest | governance/audit.py:69-89 | every record of a request by its fields: principal, target, protocol version, the caller's roles and those required in ascending order, classification, argument names, outcome, reason and level |
| TrailFields.RunRecordsTell | governance/audit.py:69-89 | every record of a run so describes one of its requests |
| TrailFields.ReplicatedRecordsTell | governance/audit.py:69-89 | in every run of the replicated system every record of an exchange describes the client's request of that exchange |
| TrailFields.ErrorsTellTheRecord | governance/middleware.py:122-128 | an error names code, target, reason, required roles and classification as its record does |
| Approval.ChecksOutIff | governance/approval.py:78-115 | approval is established exactly by a pending state and an explicit accept with `approve: true` |
| Approval.MintedStateIsPending | governance/approval.py:68-75 | a minted state is one the check recognises |
| Approval.AnyToolsStatePasses | governance/approval.py:78-96 | a state minted for any tool passes the check exactly with an explicit yes |
| Gates.ToolRunsIff | governance/middleware.py:70-131 | exactly when an enforced tool call reaches its handler |
| Gates.AsksIff | governance/middleware.py:114-115 | exactly when the approval question is put |
| Gates.AnyToolsStateForwards | governance/middleware.py:117-131 | the middleware forwards a gated call with the state of any tool's question exactly on an explicit yes |
| Gates.QuestionShowsTheCall | governance/middleware.py:107-158 | the question put for a request names the request's own tool and shows every one of its arguments with its value |
| Gates.AskPutsTheCall | governance/middleware.py:133-163 | the whole question: the rule's prompt or the default one, the call with its arguments in the order of their names or "no arguments", the key the answer is read under, and the state |
| Gates.ApprovalReasons | governance/approval.py:88-97 | which of the three reasons an answered call is refused for, in the record and in the error |
| Gates.ReadsTheWire | governance/middleware.py:71-111 | the fields read from a wire request, both spellings of answers and state, and what stands for a missing one |
| Gates.AnswersUnderTheKey | governance/approval.py:92-96 | no answer but the one under the question's key matters |
| Middleware.PolicyEnforcementMiddleware.Call | governance/middleware.py:56-66 | records, handler executions and store after one request follow the ruling, for every method; a forwarded request is answered with what its handler answers from the store as it was; a listing is the catalogue, cut down under enforcement to the tools the caller may call |
| Middleware.PolicyEnforcementMiddleware.GuardToolCall | governance/middleware.py:70-92 | the same for tool calls |
| Middleware.PolicyEnforcementMiddleware.CheckApproval | governance/middleware.py:94-131 | verdict and records of the approval step |
| Middleware.PolicyEnforcementMiddleware.AskForApproval | governance/middleware.py:133-163 | the question with the prompt, the tool and its arguments in order, a recognisable state, and the pending record |
| Middleware.PolicyEnforcementMiddleware.AuditApproval | governance/middleware.py:165-177 | one approval record with the rule's classification |
| Middleware.PolicyEnforcementMiddleware.GuardResourceRead | governance/middleware.py:179-192 | the same for resource reads, which never touch the store |
| Middleware.PolicyEnforcementMiddleware.FilterToolList | governance/middleware.py:194-218 | the handler runs first; its listing is passed on in shadow mode, and under enforcement holds in order exactly the tools the caller may call, with all else untouched |
| Discovery.DiscoveryAgreesWithInvocation | governance/middleware.py:199-218 | in both shapes the filtered listing is, in order, exactly the tools `decide_tool` allows; everything else is untouched |
| Discovery.FilteredOffers | governance/middleware.py:199-218 | the same place by place: each allowed tool stands where the allowed ones before it leave it |
| Discovery.FilteringIsIdempotent | governance/middleware.py:206-218 | filtering twice changes nothing more |
| Discovery.VisibleIffAllowed | governance/policy.py:210-218 | a name is visible exactly when the call would be allowed |
| AuditTrail.AuditConservation | governance/middleware.py:70-131 | over every enforced run: allowed tool calls are those that ran, were asked about or were refused approval; gated executions equal recorded approvals |
| AuditTrail.DenialsAreErrors | governance/audit.py:85-89 | over every enforced run deny records and AUTHORIZATION_DENIED errors match one to one in order, and WARNING keeps exactly the deny records |
| AuditTrail.EnforcedRecords | governance/middleware.py:77-131 | the records of one enforced request, by its verdict |
| ClusterAudit.ReplicatedConservation | governance/middleware.py:70-177 | over every run of the replicated system under enforcing gates that may differ and change: allowed tool calls ran, were asked about or were refused approval; gated executions equal recorded approvals; pending records equal issued states; rejected exchanges leave no record |
| ClusterAudit.ReplicatedDenials | governance/audit.py:85-89 | over every such run deny records and AUTHORIZATION_DENIED errors match one to one in order, and WARNING keeps exactly the deny records |
| AuditTrail.ArgumentValuesStayOut | governance/audit.py:44-49 | runs that differ only in argument values leave identical records and errors |
| AuditTrail.ShadowPredictsEnforcement | governance/middleware.py:228-230 | over every run, shadow mode leaves the same decision records, blocks nothing, and denies on record exactly what enforcement refuses for lack of authorization |
| AuditTrail.FailClosed | governance/policy.py:141-149 | with an accepted policy, a run of calls without declared roles executes no tool and reads no resource |
| AuditTrail.UndeclaredSeesNothing | governance/middleware.py:194-218 | and their tool listing is empty |
| Consent.NoEffectWithoutConsent | governance/middleware.py:85-92 | over every enforced run the store is its initial incidents plus one per successful raise, never more than the allow records, nor than the recorded approvals when the tool is gated |
| Consent.UnapprovedRunsLeaveStore | governance/middleware.py:85-92 | a run without an allowed call of the raising tool on record, or without an approval for it when it is gated, leaves the store unchanged |
| Consent.AdviceStandsThroughTraffic | server.py:222-235 | what an assessment advises stays right through any later traffic |
| Serving.ServeAll | governance/middleware.py:56-66 | serving a run through the middleware leaves exactly the records, executions and store that the theorems on runs speak of, and each reply is the error or question of its ruling or the handler's answer from the store the requests before it left |
| ServiceNow.MockServiceNow.constructor | governance/servicenow.py:214-235 | empty fields are seeded |
| ServiceNow.MockServiceNow.SearchIncidents | governance/servicenow.py:240-247 | the found incidents are those of the store on the item and active, all of them, in store order and each once, cut at the limit |
| ServiceNow.SearchFinds | governance/servicenow.py:240-247 | the same of the search on values; a negative limit cuts from the end |
| ServiceNow.SearchTakesOpen | governance/servicenow.py:240-247 | open means in neither closed state and on the item if one is given; what each limit leaves |
| ServiceNow.MockServiceNow.CreateIncident | governance/servicenow.py:249-264 | the new store and incident, or an error and the old store |
| ServiceNow.CreationAdds | governance/servicenow.py:249-264 | every field of a created incident, the width and value of its number and id, and what stays |
| ServiceNow.SeedsOfTheMock | governance/servicenow.py:214-235 | the default items and the incident a fresh store starts with |
| ServiceNow.IncidentIdentity | governance/servicenow.py:249-264 | over every run of creations on a default store, numbers and ids are pairwise distinct, failures consume none, and configuration items are known |
| ServiceNow.CreatedIsListedIff | governance/servicenow.py:240-247 | a fresh incident is listed exactly when fewer than `limit` earlier ones are |
| Text.PaddedIsInjective | governance/servicenow.py:255-256 | zero padding never makes two counters look alike, past the width as well |
| Text.PaddedMeans | governance/servicenow.py:255-256 | a padded numeral is at least as wide as asked, all digits, and denotes the counter |
| Shipments.Assess | server.py:204-245 | every field of the assessment, lateness rounded to a tenth |
| Shipments.FoundById | server.py:214-216 | a shipment is found by its id |
| Shipments.RaiseIncident | server.py:248-272 | the new store and incident, or which error |
| Shipments.RaiseFailsIff | server.py:256-270 | exactly when a raise fails and for which of its errors |
| Shipments.ListDelayed | server.py:131-143 | exactly the undelivered shipments past the threshold |
| Shipments.ListedInOrder | server.py:134-143 | the listing keeps the order and multiplicity of the book |
| Shipments.ListedExactly | server.py:133-143 | for every threshold, exactly the undelivered shipments that arrive more than so many hours from now, place by place |
| Shipments.ListedIffLate | server.py:131-143 | at one clock reading, listed at 24 hours exactly when the unrounded lateness is positive |
| Shipments.ShownLateIff | server.py:217-240 | the rounded lateness is positive exactly past three minutes |
| Shipments.LateByHours | server.py:217 | the lateness is the hours to the arrival beyond 24, or none |
| Shipments.RoundsToTenth | server.py:240 | shown to the nearest tenth, the even one of two as near |
| Shipments.AdviceFollowsStore | server.py:222-235 | which advice is given for which status, item and open incidents, and which incident is to be enriched |
| Shipments.EnrichmentIsStable | server.py:229-233 | once an incident is named to enrich, all later assessments for that item name it |
| Shipments.RaiseThenEnrich | server.py:222-235 | after a successful raise every later assessment on that item says to enrich |
| Shipments.AssessmentPredictsRaise | server.py:222-272 | what an assessment says decides whether every later raise with valid urgency succeeds |
| Server.Dispatcher.CallNext | server.py:355-361 | which tool or resource a request reaches, its whole answer from the store as it was, and what it does to the store |
| Server.RaisedIffOpened | server.py:248-272 | a raise is answered with an incident exactly when serving it opens one |
| Answers.StatusAnswer | server.py:116-128 | from the wire request: the shipment of the book under that id, or that it is unknown |
| Answers.DelayedAnswer | server.py:131-143 | the shipments past the threshold, 24 hours when none is given |
| Answers.SearchAnswer | server.py:183-189 | the open incidents on the item, or any when it is empty or absent, up to the limit, 10 when none is given |
| Answers.ItemAnswer | server.py:192-201 | the configuration item of that name, or none |
| Answers.AssessAnswer | server.py:204-245 | the assessment of the shipment of that id, field by field |
| Answers.RaiseAnswer | server.py:248-272 | the incident added for the shipment, with urgency 3 when none is given, or the first thing wrong and an unchanged store |
| Answers.BadRaiseAnswer | server.py:248 | arguments of the wrong type change nothing |
| Answers.ResourceAnswer | server.py:275-283 | a `shipment://` read is answered with that shipment or none |
| Answers.OtherRequests | governance/middleware.py:66 | nothing but a raise changes the store |
| Startup.Process.CreateServer | server.py:286-374 | a server comes up exactly with a loadable ring and a valid policy, on a fresh store, enforcing that policy; the store handle is rebound before the policy is loaded |

## Left out

- AES-GCM, key derivation and salted principal hashes: the abstract contract of `Boundary` stands for them.
- `governance/verifier.py`, `governance/devidp.py`: roles and principal are inputs.
- `LiveServiceNow`, HTTP, `client.py`, argument parsing, environment reads: the ring string and the parsed policy are inputs.
- Decode: some CPython releases tolerate surplus `=` after a whole quantum; section 4 of RFC 4648, which is modelled, does not.
- Render: Python's escapes and quote choice inside the `str` of a list or mapping are simplified, and floats are absent; no theorem depends on them.
- Specificity.Glob: bracket classes; the general selection lemmas hold for any matcher.
- Timestamps, JSON formatting, logger set-up, the text of the resource, and the schema that goes with the approval question.
- Shipments.RoundTenth: exact arithmetic; the source rounds a binary floating-point number.
- Answers as `ElicitResult` objects and list elements with a `name` attribute: wire values only.
- Server.Dispatcher.CallNext: tool arguments are typed strictly and resource URIs taken as they are; the SDK's coercions and percent-decoding are not part of this model.
- Dispatcher: one request at a time in a process; the mock store never suspends between reading and writing.
- Handler results and stores across replicas: each process has its own mock store, so `Cluster` speaks of answers and audit only.
- Whether a human was really asked: the code trusts the client for that.
