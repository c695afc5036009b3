/** What a pending approval state means and what counts as consent (governance/approval.py). */
module Approval {
  import opened Wire

  const APPROVAL_KEY := "approval"
  const PENDING_PREFIX := "awaiting-approval:"

  datatype ApprovalError = NotRequested | NotAnswered | Declined

  function Reason(error: ApprovalError): string {
    match error
    case NotRequested => "no approval was requested for this call"
    case NotAnswered => "the approval question was not answered"
    case Declined => "a human declined the action"
  }

  /** The plaintext state of a pending approval; `nonce` is the random suffix. */
  function NewPendingState(tool: string, nonce: string): string {
    PENDING_PREFIX + tool + ":" + nonce
  }

  /** `_field`: an attribute of a wire value; only mappings have any. */
  function Field(v: Value, name: string): Value {
    if v.Mapping? then Get(v.entries, name) else Null
  }

  predicate IsAffirmative(answer: Value) {
    if Field(answer, "action") != Str("accept") then false
    else
      var content := Or(Field(answer, "content"), Mapping([]));
      content.Mapping? && Get(content.entries, "approve") == Bool(true)
  }

  predicate IsPending(state: Value) {
    state.Str? && PENDING_PREFIX <= state.s
  }

  /** `check`; nothing means that a human approved. */
  function Check(state: Value, answers: Value): Option<ApprovalError> {
    if !IsPending(state) then Some(NotRequested)
    else if !answers.Mapping? || Lookup(answers.entries, APPROVAL_KEY).None? then Some(NotAnswered)
    else if !IsAffirmative(Get(answers.entries, APPROVAL_KEY)) then Some(Declined)
    else None
  }

  /** The answers hold an explicit accept that carries `approve: true`. */
  ghost predicate ExplicitConsent(answers: Value) {
    exists answer, content ::
      && answers.Mapping? && Lookup(answers.entries, APPROVAL_KEY) == Some(Mapping(answer))
      && Lookup(answer, "action") == Some(Str("accept"))
      && Lookup(answer, "content") == Some(Mapping(content))
      && Lookup(content, "approve") == Some(Bool(true))
  }

  /** A call proceeds exactly with a state of this layer and an explicit yes: a missing, malformed,
      declined or cancelled answer, or `approve` set to anything but true, is a no. */
  lemma ChecksOutIff(state: Value, answers: Value)
    ensures Check(state, answers).None? <==> IsPending(state) && ExplicitConsent(answers)
  {
    if Check(state, answers).None? {
      var answer := Get(answers.entries, APPROVAL_KEY);
      var content := Get(answer.entries, "content");
      assert Lookup(answers.entries, APPROVAL_KEY) == Some(Mapping(answer.entries));
      assert Lookup(answer.entries, "content") == Some(Mapping(content.entries));
      assert Lookup(content.entries, "approve") == Some(Bool(true));
    }
  }

  /** A state this layer mints is one this layer recognises. */
  lemma MintedStateIsPending(tool: string, nonce: string)
    ensures IsPending(Str(NewPendingState(tool, nonce)))
  {
    assert NewPendingState(tool, nonce) == PENDING_PREFIX + (tool + ":" + nonce);
  }

  /** `check` knows no tool: a state minted for any other tool passes with an explicit yes. */
  lemma AnyToolsStatePasses(other: string, nonce: string, answers: Value)
    ensures Check(Str(NewPendingState(other, nonce)), answers).None? <==> ExplicitConsent(answers)
  {
    ChecksOutIff(Str(NewPendingState(other, nonce)), answers);
    MintedStateIsPending(other, nonce);
  }
}
