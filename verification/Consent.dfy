/** One server process: what a run of requests does to its incident store. */
module Consent {
  import opened Policies
  import opened Audit
  import opened ServiceNow
  import opened Shipments
  import opened Gates
  import opened Server
  import opened AuditTrail

  /** The store after one request: handlers only see forwarded requests. */
  function AfterRequest(gate: Gate, book: Book, store: Store, inbound: Inbound): Store {
    if RulingOf(gate, inbound).verdict.Forward? then StoreAfter(book, store, inbound.req, inbound.moment.stamp) else store
  }

  function AfterRun(gate: Gate, book: Book, store: Store, run: seq<Inbound>): Store
    decreases run
  {
    if run == [] then store
    else AfterRun(gate, book, AfterRequest(gate, book, store, run[0]), run[1..])
  }

  /** The raising tool ran and raised an incident. */
  predicate Opens(gate: Gate, book: Book, store: Store, inbound: Inbound) {
    RulingOf(gate, inbound).verdict.Forward? && OpensIncident(book, store, inbound.req)
  }

  /** How many incidents a run opens. */
  function Opened(gate: Gate, book: Book, store: Store, run: seq<Inbound>): nat
    decreases run
  {
    if run == [] then 0
    else
      (if Opens(gate, book, store, run[0]) then 1 else 0)
      + Opened(gate, book, AfterRequest(gate, book, store, run[0]), run[1..])
  }

  predicate RaisingIsGated(gate: Gate) {
    Find(gate.policy.tools, RAISE).Some? && Find(gate.policy.tools, RAISE).value.requiresApproval
  }

  lemma OneRequestOnStore(gate: Gate, book: Book, store: Store, inbound: Inbound)
    ensures var after := AfterRequest(gate, book, store, inbound);
      && store.incidents <= after.incidents
      && |after.incidents| == |store.incidents| + (if Opens(gate, book, store, inbound) then 1 else 0)
      && (!Opens(gate, book, store, inbound) ==> after == store)
  {
  }

  lemma CalledByName(req: Request, tool: string)
    requires Calls(req, tool)
    ensures req.ToolName() == tool
  {
  }

  /** A request that opens an incident leaves an allow record for the tool, and an approval record as
      well when the tool is gated. */
  lemma OpeningIsRecorded(gate: Gate, book: Book, store: Store, inbound: Inbound)
    requires gate.enforce && Opens(gate, book, store, inbound)
    ensures CountFor(RulingOf(gate, inbound).records, TOOLS_CALL, ALLOW, RAISE) == 1
    ensures RaisingIsGated(gate) ==> CountFor(RulingOf(gate, inbound).records, APPROVAL, ALLOW, RAISE) == 1
  {
    var records := RulingOf(gate, inbound).records;
    CalledByName(inbound.req, RAISE);
    EnforcedRecords(gate, inbound);
    CountForFew(records, TOOLS_CALL, ALLOW, RAISE);
    CountForFew(records, APPROVAL, ALLOW, RAISE);
  }

  /** No side effect without consent: over every enforced run the store holds its initial incidents
      followed by one for each successful raise, raises never outnumber the allow records for the
      tool, and when the tool is gated they never outnumber the recorded approvals for it. */
  lemma {:induction false} NoEffectWithoutConsent(gate: Gate, book: Book, store: Store, run: seq<Inbound>)
    requires gate.enforce
    ensures var after := AfterRun(gate, book, store, run);
      var raised := Opened(gate, book, store, run);
      && store.incidents <= after.incidents
      && |after.incidents| == |store.incidents| + raised
      && (raised == 0 ==> after == store)
      && raised <= CountFor(Records(gate, run), TOOLS_CALL, ALLOW, RAISE)
      && (RaisingIsGated(gate) ==> raised <= CountFor(Records(gate, run), APPROVAL, ALLOW, RAISE))
    decreases run
  {
    if run != [] {
      var next := AfterRequest(gate, book, store, run[0]);
      NoEffectWithoutConsent(gate, book, next, run[1..]);
      OneRequestOnStore(gate, book, store, run[0]);
      if Opens(gate, book, store, run[0]) {
        OpeningIsRecorded(gate, book, store, run[0]);
      }
      CountForAppend(RulingOf(gate, run[0]).records, Records(gate, run[1..]), TOOLS_CALL, ALLOW, RAISE);
      CountForAppend(RulingOf(gate, run[0]).records, Records(gate, run[1..]), APPROVAL, ALLOW, RAISE);
    }
  }

  /** A run that leaves no approval for the raising tool on record, when that tool is gated, or no
      allowed call of it at all, leaves the store as it was: denied, asked, declined and malformed
      rounds have no effect. */
  lemma UnapprovedRunsLeaveStore(gate: Gate, book: Book, store: Store, run: seq<Inbound>)
    requires gate.enforce
    requires || CountFor(Records(gate, run), TOOLS_CALL, ALLOW, RAISE) == 0
             || (RaisingIsGated(gate) && CountFor(Records(gate, run), APPROVAL, ALLOW, RAISE) == 0)
    ensures AfterRun(gate, book, store, run) == store
  {
    NoEffectWithoutConsent(gate, book, store, run);
  }

  /** Serving requests only ever adds to the store. */
  lemma {:induction false} RunsOnlyGrow(gate: Gate, book: Book, store: Store, run: seq<Inbound>)
    ensures Extends(AfterRun(gate, book, store, run), store)
    decreases run
  {
    if run != [] {
      RunsOnlyGrow(gate, book, AfterRequest(gate, book, store, run[0]), run[1..]);
    }
  }

  /** What an assessment of a delayed shipment says stands through any later traffic, under any
      policy: the incident to enrich stays the same for every delayed shipment on that configuration
      item, and whether an approved raise with a valid urgency will succeed is already decided. */
  lemma AdviceStandsThroughTraffic(gate: Gate, book: Book, store: Store, run: seq<Inbound>, id: string, urgency: string,
                                   other: Shipment)
    requires FindShipment(book, id).Some? && FindShipment(book, id).value.status == DELAYED && ValidUrgency(urgency)
    requires other.ci == FindShipment(book, id).value.ci && other.status == DELAYED
    ensures var advice := Recommend(store, FindShipment(book, id).value);
      var later := AfterRun(gate, book, store, run);
      && (advice.Enrich? ==> Recommend(later, other) == advice)
      && (advice.EscalateManually? <==> RaiseError(book, later, id, urgency).Some?)
      && (advice.RaiseNew? || advice.Enrich? <==> RaiseError(book, later, id, urgency).None?)
  {
    RunsOnlyGrow(gate, book, store, run);
    AdviceStands(book, store, AfterRun(gate, book, store, run), id, urgency, other);
  }
}
