/** Building a server (`create_server`): what has to hold before one serves anything. */
module Startup {
  import opened Wire
  import opened KeyRing
  import opened Policies
  import opened PolicyLoader
  import opened Audit
  import opened ServiceNow
  import opened Shipments
  import opened Gates
  import opened Discovery
  import opened Server
  import opened Middleware

  datatype StartupError =
    | BadKeys(keyError: KeyError)
    | BadPolicy(policyError: PolicyError)

  /** The parts of a server that the wiring decides; without a gate requests go straight to handlers. */
  datatype Wiring = Wiring(ring: Ring, dispatcher: Dispatcher, gate: Option<PolicyEnforcementMiddleware>)

  /** One operating-system process: `connector` is the module-level store handle. */
  class Process {
    const id: nat
    const audit: AuditLog
    var connector: MockServiceNow

    constructor (id: nat)
      ensures this.id == id && fresh(connector) && fresh(audit)
      ensures connector.State() == DEFAULT_STORE && audit.records == []
    {
      this.id := id;
      connector := new MockServiceNow([], map[]);
      audit := new AuditLog();
    }

    /** `create_server` with the mock backend. `document` is the parsed policy file, absent when
        authorization is off or no policy is given. The key ring is read first, then the store handle
        is rebound to a new store, then the policy is loaded; a server comes up only if the ring
        loads and the policy is valid, and then it seals with that ring and enforces that policy. */
    method CreateServer(rawKeys: string, document: Option<Value>, glob: Matcher, enforce: bool, book: Book, catalogue: Listing)
      returns (result: Result<Wiring, StartupError>)
      modifies this`connector
      ensures LoadedKeys(rawKeys).Failure?
              ==> result == Failure(BadKeys(LoadedKeys(rawKeys).error)) && connector == old(connector)
      ensures LoadedKeys(rawKeys).Success? ==> fresh(connector) && connector.State() == DEFAULT_STORE
      ensures result.Success? <==> LoadedKeys(rawKeys).Success? && (document.None? || ValidDocument(document.value))
      ensures result.Failure? && LoadedKeys(rawKeys).Success? ==>
                && document.Some? && result.error.BadPolicy? && DocumentFailure(document.value, result.error.policyError)
      ensures result.Success? ==>
                && result.value.ring == Build(LoadedKeys(rawKeys).value, id)
                && result.value.dispatcher.connector == connector
                && result.value.dispatcher.book == book && result.value.dispatcher.catalogue == catalogue
                && (result.value.gate.Some? <==> document.Some?)
      ensures result.Success? && document.Some? ==>
                var middleware := result.value.gate.value;
                && middleware.audit == audit
                && middleware.gate.enforce == enforce && middleware.gate.glob == glob
                && LoadedFrom(middleware.gate.policy, document.value)
                && SoundPolicy(middleware.gate.policy)
    {
      var keys := LoadKeys(rawKeys);
      if keys.Failure? {
        return Failure(BadKeys(keys.error));
      }
      var ring := Build(keys.value, id);
      connector := new MockServiceNow([], map[]);
      var dispatcher := new Dispatcher(book, connector, catalogue);
      if document.None? {
        return Success(Wiring(ring, dispatcher, None));
      }
      var policy := FromMapping(document.value);
      if policy.Failure? {
        return Failure(BadPolicy(policy.error));
      }
      AcceptedPolicyIsSound(policy.value, document.value);
      var middleware := new PolicyEnforcementMiddleware(Gate(policy.value, glob, enforce), audit);
      return Success(Wiring(ring, dispatcher, Some(middleware)));
    }
  }
}
