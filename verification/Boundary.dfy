/** The request-state boundary, as the server relies on it: an abstract contract for the SDK control
    that seals state on the way out and unseals and re-binds it on the way in (described in
    governance/approval.py and governance/request_state.py; its implementation is outside the
    repository). A client cannot make a sealed state, so it can only send back one it was sent, or
    some other text. */
module Boundary {
  import opened Wire
  import opened KeyRing
  import opened Gates

  /** `RequestStateSecurity`'s default time to live, in seconds. */
  const TTL := 600.0

  /** A sealed request state and everything it is bound to. */
  datatype Token = Token(
    key: Key,
    operation: string,
    name: Value,
    arguments: Value,
    principal: Binding,
    audience: Option<string>,
    expires: real,
    state: string)

  /** The state a client sends along: none, the one sealed as number `index`, or anything else. */
  datatype Presented =
    | Nothing
    | Replay(index: nat)
    | Forged(text: string)

  datatype ClientRequest = ClientRequest(
    operation: string,
    params: Value,
    presented: Presented,
    caller: Caller,
    protocolVersion: Option<string>)
  {
    /** The request without its state. */
    function Plain(): Request {
      Request(operation, params, caller, protocolVersion)
    }

    function Name(): Value {
      Get(Plain().Params(), "name")
    }

    function Arguments(): Value {
      Plain().Arguments()
    }
  }

  /** The second round of a call: the same request with answers and the state it was sent. */
  function RetryOf(req: ClientRequest, answers: Value, index: nat): ClientRequest {
    req.(params := Mapping(Put(req.Plain().Params(), "inputResponses", answers)), presented := Replay(index))
  }

  /** What the middleware sees: neither state field as the client wrote it, only an unsealed state. */
  function Inner(req: ClientRequest, state: Option<string>): Request {
    var entries := Without(Without(req.Plain().Params(), "requestState"), "request_state");
    req.Plain().(params := Mapping(if state.Some? then Put(entries, "requestState", Str(state.value)) else entries))
  }

  /** What the middleware would see if `request_state` reached it as the client wrote it. */
  function InnerAsWritten(req: ClientRequest): Request {
    req.Plain().(params := Mapping(Without(req.Plain().Params(), "requestState")))
  }

  /** The token was minted for this very call by this very principal. */
  predicate BoundTo(token: Token, req: ClientRequest, audience: Option<string>) {
    && token.operation == req.operation
    && token.name == req.Name()
    && token.arguments == req.Arguments()
    && token.principal == req.caller.binding
    && token.audience == audience
  }

  /** A state is expired from its expiry instant on. */
  predicate Live(token: Token, now: real) {
    now < token.expires
  }

  predicate Unseals(ring: Ring, token: Token) {
    token.key in ring
  }

  /** The request handed on to the middleware, or nothing when the state is rejected. */
  function Admit(ring: Ring, audience: Option<string>, issued: seq<Token>, now: real, req: ClientRequest): Option<Request> {
    match req.presented
    case Nothing => Some(Inner(req, None))
    case Forged(_) => None
    case Replay(k) =>
      if k < |issued| && Unseals(ring, issued[k]) && BoundTo(issued[k], req, audience) && Live(issued[k], now) then
        Some(Inner(req, Some(issued[k].state)))
      else None
  }

  /** Sealing: under the first key of the ring, bound to the call that asked. */
  function Seal(ring: Ring, audience: Option<string>, now: real, req: ClientRequest, state: string): Token {
    Token(ring[0], req.operation, req.Name(), req.Arguments(), req.caller.binding, audience, now + TTL, state)
  }

  /** A retry is bound to what the call it repeats is bound to. */
  lemma RetryIsSameCall(req: ClientRequest, answers: Value, index: nat)
    ensures var retry := RetryOf(req, answers, index);
      retry.Name() == req.Name() && retry.Arguments() == req.Arguments()
  {
    LookupPut(req.Plain().Params(), "inputResponses", answers, "name");
    LookupPut(req.Plain().Params(), "inputResponses", answers, "arguments");
  }

  /** Looking a field up in the inner request. */
  lemma InnerField(req: ClientRequest, state: Option<string>, field: string)
    ensures Lookup(Inner(req, state).Params(), field)
         == if field == "requestState" then (if state.Some? then Some(Str(state.value)) else None)
            else if field == "request_state" then None
            else Lookup(req.Plain().Params(), field)
  {
    if state.Some? {
      var entries := Without(Without(req.Plain().Params(), "requestState"), "request_state");
      LookupPut(entries, "requestState", Str(state.value), field);
    }
  }

  /** The middleware reads the client's own call, and as state exactly what the boundary unsealed. */
  lemma InnerReadsTheCall(req: ClientRequest, state: Option<string>)
    ensures var inner := Inner(req, state);
      && inner.ToolName() == req.Plain().ToolName() && Get(inner.Params(), "name") == req.Name()
      && inner.Uri() == req.Plain().Uri()
      && inner.Arguments() == req.Arguments()
      && inner.Answers() == req.Plain().Answers()
      && inner.State() == if state.Some? && state.value != "" then Str(state.value) else Null
  {
    InnerField(req, state, "name");
    InnerField(req, state, "uri");
    InnerField(req, state, "arguments");
    InnerField(req, state, "inputResponses");
    InnerField(req, state, "input_responses");
    InnerField(req, state, "requestState");
    InnerField(req, state, "request_state");
  }
}
