/** A process that serves one request after another: its effects are the functions of the run that the
    theorems on whole runs speak of. */
module Serving {
  import opened Audit
  import opened Gates
  import opened Discovery
  import opened ServiceNow
  import opened Shipments
  import opened Server
  import opened Middleware
  import opened AuditTrail
  import opened Consent

  /** The errors among the replies. */
  function Failures(replies: seq<Reply>): seq<McpError> {
    if replies == [] then []
    else (if replies[0].Failed? then [replies[0].error] else []) + Failures(replies[1..])
  }

  /** The listing is the catalogue, cut down under enforcement to the tools the caller may call. */
  ghost predicate TellsListing(gate: Gate, catalogue: Listing, req: Request, result: HandlerResult) {
    && result.Catalogue?
    && (!gate.enforce ==> result.listing == catalogue)
    && (gate.enforce ==> Offers(gate.policy, req.caller.roles, catalogue, result.listing))
  }

  /** The reply is the one the ruling on the request stands for; a forwarded request is answered by its
      handler from the store as it was. */
  ghost predicate Tells(gate: Gate, book: Book, catalogue: Listing, store: Store, inbound: Inbound, reply: Reply) {
    match RulingOf(gate, inbound).verdict
    case Refuse(error) => reply == Failed(error)
    case Ask(question) => reply == InputRequired(question)
    case Forward =>
      && reply.Answered?
      && if inbound.req.operation == TOOLS_LIST then TellsListing(gate, catalogue, inbound.req, reply.result)
         else Handles(book, catalogue, store, inbound.req, inbound.moment, reply.result)
  }

  /** What a process has to show for the requests it served. */
  datatype Effects = Effects(records: seq<AuditRecord>, handled: seq<Request>, store: Store)

  function AfterOne(gate: Gate, book: Book, e: Effects, inbound: Inbound): Effects {
    var ruling := RulingOf(gate, inbound);
    Effects(
      e.records + ruling.records,
      e.handled + if ruling.verdict.Forward? then [inbound.req] else [],
      AfterRequest(gate, book, e.store, inbound))
  }

  /** The effects of a run: its records and executed requests are added, the store is the one after it. */
  function AfterAll(gate: Gate, book: Book, e: Effects, run: seq<Inbound>): Effects {
    Effects(e.records + Records(gate, run), e.handled + Handled(gate, run), AfterRun(gate, book, e.store, run))
  }

  lemma AfterFirst(gate: Gate, book: Book, e: Effects, run: seq<Inbound>)
    requires run != []
    ensures AfterAll(gate, book, e, run) == AfterAll(gate, book, AfterOne(gate, book, e, run[0]), run[1..])
  {
    var ruling := RulingOf(gate, run[0]);
    AppendTwice(e.records, ruling.records, Records(gate, run[1..]));
    AppendTwice(e.handled, if ruling.verdict.Forward? then [run[0].req] else [], Handled(gate, run[1..]));
  }

  lemma AppendTwice<T>(a: seq<T>, b: seq<T>, c: seq<T>)
    ensures a + b + c == a + (b + c)
  {
  }

  /** Each reply tells of its request and of the store the requests before it left. */
  ghost predicate AllTell(gate: Gate, book: Book, catalogue: Listing, store: Store, run: seq<Inbound>, replies: seq<Reply>) {
    |replies| == |run|
    && forall i :: 0 <= i < |run| ==> Tells(gate, book, catalogue, AfterRun(gate, book, store, run[..i]), run[i], replies[i])
  }

  lemma AllTellFirst(gate: Gate, book: Book, catalogue: Listing, store: Store, run: seq<Inbound>, reply: Reply, rest: seq<Reply>)
    requires run != [] && Tells(gate, book, catalogue, store, run[0], reply)
    requires AllTell(gate, book, catalogue, AfterRequest(gate, book, store, run[0]), run[1..], rest)
    ensures AllTell(gate, book, catalogue, store, run, [reply] + rest)
  {
    var replies, next := [reply] + rest, AfterRequest(gate, book, store, run[0]);
    forall i | 0 <= i < |run| ensures Tells(gate, book, catalogue, AfterRun(gate, book, store, run[..i]), run[i], replies[i]) {
      if i > 0 {
        assert run[..i][1..] == run[1..][..i - 1];
        assert AfterRun(gate, book, store, run[..i]) == AfterRun(gate, book, next, run[1..][..i - 1]);
      }
    }
  }

  lemma {:induction false} RepliesTell(gate: Gate, book: Book, catalogue: Listing, store: Store, run: seq<Inbound>,
                                       replies: seq<Reply>)
    requires AllTell(gate, book, catalogue, store, run, replies)
    ensures Failures(replies) == Errors(gate, run)
    decreases run
  {
    if run != [] {
      AllTellRest(gate, book, catalogue, store, run, replies);
      RepliesTell(gate, book, catalogue, AfterRequest(gate, book, store, run[0]), run[1..], replies[1..]);
    }
  }

  lemma AllTellRest(gate: Gate, book: Book, catalogue: Listing, store: Store, run: seq<Inbound>, replies: seq<Reply>)
    requires run != [] && AllTell(gate, book, catalogue, store, run, replies)
    ensures Tells(gate, book, catalogue, store, run[0], replies[0])
    ensures AllTell(gate, book, catalogue, AfterRequest(gate, book, store, run[0]), run[1..], replies[1..])
  {
    var next := AfterRequest(gate, book, store, run[0]);
    assert run[..0] == [];
    forall i | 0 <= i < |run[1..]|
      ensures Tells(gate, book, catalogue, AfterRun(gate, book, next, run[1..][..i]), run[1..][i], replies[1..][i])
    {
      assert run[..i + 1][1..] == run[1..][..i];
      assert AfterRun(gate, book, store, run[..i + 1]) == AfterRun(gate, book, next, run[1..][..i]);
    }
  }

  ghost function Shown(middleware: PolicyEnforcementMiddleware, next: Dispatcher): Effects
    reads middleware.audit, next, next.connector
  {
    Effects(middleware.audit.records, next.handled, next.connector.State())
  }

  method ServeOne(middleware: PolicyEnforcementMiddleware, next: Dispatcher, inbound: Inbound) returns (reply: Reply)
    modifies middleware.audit, next, next.connector
    ensures Shown(middleware, next) == AfterOne(middleware.gate, next.book, old(Shown(middleware, next)), inbound)
    ensures Tells(middleware.gate, next.book, next.catalogue, old(next.connector.State()), inbound, reply)
  {
    reply := middleware.Call(inbound.req, next, inbound.moment);
  }

  /** Serving a run: the audit stream grows by the records of the run, handlers execute exactly the
      forwarded requests in order, the store becomes the store after the run, and each caller gets the
      error or question of its ruling, or the handler's answer from the store the requests before it left. */
  method ServeAll(middleware: PolicyEnforcementMiddleware, next: Dispatcher, run: seq<Inbound>) returns (replies: seq<Reply>)
    modifies middleware.audit, next, next.connector
    ensures Shown(middleware, next) == AfterAll(middleware.gate, next.book, old(Shown(middleware, next)), run)
    ensures AllTell(middleware.gate, next.book, next.catalogue, old(next.connector.State()), run, replies)
    ensures Failures(replies) == Errors(middleware.gate, run)
    decreases run
  {
    if run == [] {
      return [];
    }
    var reply := ServeOne(middleware, next, run[0]);
    var rest := ServeAll(middleware, next, run[1..]);
    AfterFirst(middleware.gate, next.book, old(Shown(middleware, next)), run);
    ghost var store := old(next.connector.State());
    AllTellFirst(middleware.gate, next.book, next.catalogue, store, run, reply, rest);
    RepliesTell(middleware.gate, next.book, next.catalogue, store, run, [reply] + rest);
    return [reply] + rest;
  }
}
