/** A concrete deployment: a policy that gates the raising tool, a caller, and keys. It shows that the
    situations the theorems on approval and rotation speak of occur. */
module Witness {
  import opened Wire
  import opened Base64
  import opened KeyRing
  import opened Policies
  import opened Approval
  import opened Gates
  import opened Boundary
  import opened Cluster

  const TOOL := "raise_shipment_incident"
  const OPERATOR := "tlo.operator"
  const RULE := Rule(TOOL, {OPERATOR, "platform.admin"}, "confidential", "", true, "")
  const POLICY := Policy([Row(TOOL, RULE)], [], {OPERATOR, "platform.admin"})
  const GATE := Gate(POLICY, (uri: string, pattern: string) => uri == pattern, true)
  const CALLER := Caller("alice", [OPERATOR], Binding("client", "issuer", "alice"))
  const CALL := ClientRequest(
    TOOLS_CALL,
    Mapping([Entry(Str("name"), Str(TOOL)), Entry(Str("arguments"), Mapping([Entry(Str("shipment_id"), Str("SHP-1"))]))]),
    Nothing,
    CALLER,
    None)
  const YES := Mapping([Entry(Str(APPROVAL_KEY), Mapping([
    Entry(Str("action"), Str("accept")),
    Entry(Str("content"), Mapping([Entry(Str("approve"), Bool(true))]))]))])

  /** A key of 32 equal bytes. */
  function Uniform(b: Byte): Bytes {
    seq(MINIMUM_KEY_BYTES, _ => b)
  }

  const OLD := Uniform(0)
  const NEW := Uniform(1)

  lemma KeysDiffer()
    ensures OLD != NEW && |OLD| >= MINIMUM_KEY_BYTES && |NEW| >= MINIMUM_KEY_BYTES
  {
    assert OLD[0] != NEW[0];
  }

  lemma CallReads()
    ensures CALL.Plain().ToolName() == TOOL && !Truthy(CALL.Plain().Answers())
  {
    var entries := CALL.params.entries;
    assert Lookup(entries, "inputResponses") == None && Lookup(entries, "input_responses") == None by {
      assert entries[1..] == [entries[1]] && [entries[1]][1..] == [];
      assert Lookup([], "inputResponses") == None && Lookup([], "input_responses") == None;
      assert Lookup(entries[1..], "inputResponses") == None && Lookup(entries[1..], "input_responses") == None;
    }
  }

  /** The policy gates the call and lets the caller make it. */
  lemma CallIsGated()
    ensures Gated(GATE, CALL.Plain()) && ToolDecision(GATE, CALL.Plain()).allowed && !Truthy(CALL.Plain().Answers())
  {
    CallReads();
    ToolAllowedIff(POLICY, TOOL, CALLER.roles);
    assert OPERATOR in Roles(CALLER.roles) * RULE.allowRoles by {
      assert CALLER.roles[0] == OPERATOR;
    }
    assert POLICY.tools[0].key == TOOL && Granted(POLICY.tools[0].rule, CALLER.roles);
  }

  /** Any replica under this policy answers the call with the approval question. */
  lemma CallAsks(s: System, i: nat, nonce: string)
    requires i < |s.replicas| && s.replicas[i].gate == GATE
    ensures Last(Served(s, i, CALL, nonce)).response.Asked?
  {
    CallIsGated();
    AskedIff(s, i, CALL, nonce);
  }

  lemma YesIsConsent()
    ensures ExplicitConsent(YES)
  {
    var answer := YES.entries[0].value;
    var content := answer.entries[1].value;
    assert answer.entries[1..] == [answer.entries[1]];
    assert Lookup(answer.entries, "content") == Some(content);
    assert Lookup(content.entries, "approve") == Some(Bool(true));
    assert Lookup(YES.entries, APPROVAL_KEY) == Some(answer);
  }

  /** The call with the answer and a pending state in `request_state`, before anything was asked. */
  const UNASKED := CALL.(params := Mapping(Put(Put(CALL.params.entries, "request_state", Str(PENDING_PREFIX)), "inputResponses", YES)))

  lemma UnaskedLookup(name: string)
    ensures Lookup(UNASKED.params.entries, name)
         == if name == "inputResponses" then Some(YES)
            else if name == "request_state" then Some(Str(PENDING_PREFIX))
            else Lookup(CALL.params.entries, name)
  {
    var stated := Put(CALL.params.entries, "request_state", Str(PENDING_PREFIX));
    LookupPut(CALL.params.entries, "request_state", Str(PENDING_PREFIX), name);
    LookupPut(stated, "inputResponses", YES, name);
  }

  lemma UnaskedReads()
    ensures UNASKED.Plain().ToolName() == CALL.Plain().ToolName() && UNASKED.Plain().Answers() == YES
    ensures Lookup(UNASKED.Plain().Params(), "request_state") == Some(Str(PENDING_PREFIX))
  {
    UnaskedLookup("name");
    UnaskedLookup("inputResponses");
    UnaskedLookup("request_state");
    YesIsConsent();
    ConsentIsTruthy(YES);
  }

  lemma UnaskedIsGated()
    ensures Gated(GATE, UNASKED.Plain()) && ToolDecision(GATE, UNASKED.Plain()).allowed
    ensures ExplicitConsent(UNASKED.Plain().Answers())
  {
    CallIsGated();
    UnaskedReads();
    YesIsConsent();
  }

  /** Such a call runs only if the boundary leaves `request_state` as it was written. */
  lemma UnaskedCallOccurs(s: System, i: nat, nonce: string)
    requires Fresh(s) && i < |s.replicas| && s.replicas[i].gate == GATE
    ensures !Last(Served(s, i, UNASKED, nonce)).response.Ran?
    ensures ResponseTo(RuleOn(GATE, InnerAsWritten(UNASKED), nonce).verdict, |s.issued|).Ran?
  {
    UnaskedIsGated();
    UnaskedReads();
    StateFieldsNeedTheBoundary(s, i, UNASKED, PENDING_PREFIX, nonce);
  }
}
