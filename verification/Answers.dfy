/** What callers get from each tool and resource, and what a raise does to the store, read off the wire
    request, the book and the store. */
module Answers {
  import opened Lists
  import opened Wire
  import opened ServiceNow
  import opened Shipments
  import opened Gates
  import opened Discovery
  import opened Server

  /** The request calls `tool` with these arguments; none at all count as empty. */
  predicate CallOf(req: Request, tool: string, arguments: seq<Entry>) {
    && req.operation == "tools/call" && req.params.Mapping?
    && Lookup(req.params.entries, "name") == Some(Str(tool))
    && (Lookup(req.params.entries, "arguments") == Some(Mapping(arguments))
        || (Lookup(req.params.entries, "arguments") == None && arguments == []))
  }

  /** The argument is a text, or absent and has this default. */
  predicate TextArgument(arguments: seq<Entry>, name: string, default: Option<string>, text: string) {
    Lookup(arguments, name) == Some(Str(text)) || (Lookup(arguments, name) == None && default == Some(text))
  }

  predicate NumberArgument(arguments: seq<Entry>, name: string, default: int, n: int) {
    Lookup(arguments, name) == Some(Int(n)) || (Lookup(arguments, name) == None && n == default)
  }

  /** The argument is of another type, or absent without a default. */
  predicate BadText(arguments: seq<Entry>, name: string, optional: bool) {
    match Lookup(arguments, name)
    case None => !optional
    case Some(v) => !v.Str?
  }

  /** `s` is the shipment the book has under the id. */
  ghost predicate InBook(book: Book, id: string, s: Shipment) {
    exists i :: 0 <= i < |book| && book[i] == s && s.id == id && forall j :: 0 <= j < i ==> book[j].id != id
  }

  lemma FoundIffInBook(book: Book, id: string)
    ensures forall s :: InBook(book, id, s) <==> FindShipment(book, id) == Some(s)
    ensures FindShipment(book, id) == None <==> forall s :: !InBook(book, id, s)
  {
    FoundById(book, id);
    if FindShipment(book, id).Some? {
      var i: nat := FirstWithId(book, id);
      assert InBook(book, id, book[i]);
    }
  }

  lemma {:induction false} FirstWithId(book: Book, id: string) returns (i: nat)
    requires exists k :: 0 <= k < |book| && book[k].id == id
    ensures i < |book| && book[i].id == id && forall j :: 0 <= j < i ==> book[j].id != id
  {
    if book[0].id == id {
      i := 0;
    } else {
      var k :| 0 <= k < |book| && book[k].id == id;
      assert book[1..][k - 1] == book[k];
      var rest := FirstWithId(book[1..], id);
      i := rest + 1;
      forall j | 0 <= j < i ensures book[j].id != id {
        assert j > 0 ==> book[j] == book[1..][j - 1];
      }
    }
  }

  // ---------- the tools that read ----------

  lemma StatusAnswer(book: Book, catalogue: Listing, store: Store, req: Request, moment: Moment, result: HandlerResult,
                     arguments: seq<Entry>, id: string)
    requires Handles(book, catalogue, store, req, moment, result) && CallOf(req, "get_shipment_status", arguments)
    ensures Lookup(arguments, "shipment_id") == Some(Str(id)) ==>
              && (forall s :: InBook(book, id, s) ==> result == Status(Success(s)))
              && ((forall s :: !InBook(book, id, s)) ==> result == Status(Failure(UnknownShipment(id))))
    ensures BadText(arguments, "shipment_id", false) ==> result == InvalidArguments
  {
    FoundIffInBook(book, id);
  }

  lemma DelayedAnswer(book: Book, catalogue: Listing, store: Store, req: Request, moment: Moment, result: HandlerResult,
                      arguments: seq<Entry>, hours: int)
    requires Handles(book, catalogue, store, req, moment, result) && CallOf(req, "list_delayed_shipments", arguments)
    ensures NumberArgument(arguments, "threshold_hours", 24, hours) ==>
              result.Delayed? && Sifted(book, (s: Shipment) => ArrivesAfter(s, hours, moment.now), result.late)
  {
    ListedExactly(book, hours, moment.now);
  }

  /** An empty configuration item means any. */
  function AnyWhenEmpty(ci: string): Option<string> {
    if ci == "" then None else Some(ci)
  }

  lemma SearchAnswer(book: Book, catalogue: Listing, store: Store, req: Request, moment: Moment, result: HandlerResult,
                     arguments: seq<Entry>, ci: string, limit: int) returns (kept: seq<Incident>)
    requires Handles(book, catalogue, store, req, moment, result) && CallOf(req, "search_incidents", arguments)
    ensures TextArgument(arguments, "configuration_item", Some(""), ci) && NumberArgument(arguments, "limit", 10, limit) ==>
              && Sifted(store.incidents, (x: Incident) => OpenOn(x, AnyWhenEmpty(ci)), kept)
              && result.Found? && Limited(kept, limit, result.incidents)
  {
    kept := SearchTakesOpen(store, AnyWhenEmpty(ci), limit);
  }

  lemma ItemAnswer(book: Book, catalogue: Listing, store: Store, req: Request, moment: Moment, result: HandlerResult,
                   arguments: seq<Entry>, name: string)
    requires Handles(book, catalogue, store, req, moment, result) && CallOf(req, "get_configuration_item", arguments)
    ensures Lookup(arguments, "name") == Some(Str(name)) ==>
              result == Item(if name in store.items then Some(store.items[name]) else None)
    ensures BadText(arguments, "name", false) ==> result == InvalidArguments
  {
  }

  lemma AssessAnswer(book: Book, catalogue: Listing, store: Store, req: Request, moment: Moment, result: HandlerResult,
                     arguments: seq<Entry>, id: string)
    requires Handles(book, catalogue, store, req, moment, result) && CallOf(req, "assess_shipment_delay", arguments)
    requires Lookup(arguments, "shipment_id") == Some(Str(id))
    ensures (forall s :: !InBook(book, id, s)) ==> result == Assessing(Failure(UnknownShipment(id)))
    ensures forall s :: InBook(book, id, s) ==>
              && result.Assessing? && result.assessed.Success?
              && var a := result.assessed.value;
                 && a.shipmentId == id && a.configurationItem == s.ci
                 && (a.delayed <==> s.status == "delayed")
                 && (a.configurationItemFound <==> s.ci in store.items)
                 && a.recommendation == Recommend(store, s)
                 && a.hoursLate == RoundTenth(HoursLate(s, moment.now))
                 && a.openIncidents == Search(store, Some(s.ci), true, 10)
  {
    FoundIffInBook(book, id);
  }

  lemma ResourceAnswer(book: Book, catalogue: Listing, store: Store, req: Request, moment: Moment, result: HandlerResult,
                       id: string)
    requires Handles(book, catalogue, store, req, moment, result)
    requires req.operation == "resources/read" && req.params.Mapping?
    requires Lookup(req.params.entries, "uri") == Some(Str("shipment://" + id)) && id != "" && '/' !in id
    ensures forall s :: InBook(book, id, s) ==> result == Summary(id, Some(s))
    ensures (forall s :: !InBook(book, id, s)) ==> result == Summary(id, None)
  {
    FoundIffInBook(book, id);
    assert ("shipment://" + id)[|SHIPMENT_SCHEME|..] == id;
  }

  /** Nothing but a raise changes the store, and a request no tool, resource or listing is registered for is
      answered with nothing of this server's. */
  lemma OtherRequests(book: Book, catalogue: Listing, store: Store, req: Request, moment: Moment, result: HandlerResult)
    requires Handles(book, catalogue, store, req, moment, result)
    requires !(req.operation == "tools/call" && Get(req.Params(), "name") == Str("raise_shipment_incident"))
    ensures StoreAfter(book, store, req, moment.stamp) == store
    ensures req.operation !in {"tools/call", "tools/list", "resources/read"} ==> result == Other
  {
  }

  // ---------- the tool that raises ----------

  /** The new incident is about the shipment, with the urgency asked for. */
  predicate IncidentFor(store: Store, s: Shipment, urgency: string, stamp: string, x: Incident) {
    && x.shortDescription == "Shipment " + s.id + " delayed to " + s.destination
    && x.configurationItem == s.ci && x.urgency == urgency && x.state == "1" && x.openedAt == stamp
    && x.number == IncidentNumber(store.counter + 1) && x.sysId == SysId(store.counter + 1)
  }

  /** Why a raise fails, in the order of the checks; nothing when it succeeds. */
  ghost predicate RaiseRefused(book: Book, store: Store, id: string, urgency: string, error: ToolError) {
    if forall s :: !InBook(book, id, s) then error == UnknownShipment(id)
    else if urgency !in {"1", "2", "3"} then error == BadUrgency(urgency)
    else exists s :: InBook(book, id, s) && s.ci !in store.items && error == Backend(UnknownConfigurationItem(s.ci))
  }

  /** A raise for a known shipment on a known configuration item, with an urgency of 1, 2 or 3 or none at all,
      which counts as 3, adds one incident for it and answers with that incident; any other changes nothing
      and answers with what is wrong first. */
  lemma {:induction false} RaiseAnswer(book: Book, catalogue: Listing, store: Store, req: Request, moment: Moment,
                                       result: HandlerResult, arguments: seq<Entry>, id: string, urgency: string)
    requires Handles(book, catalogue, store, req, moment, result) && CallOf(req, "raise_shipment_incident", arguments)
    requires Lookup(arguments, "shipment_id") == Some(Str(id)) && TextArgument(arguments, "urgency", Some("3"), urgency)
    ensures var after := StoreAfter(book, store, req, moment.stamp);
      && result.Raising?
      && match result.raised
         case Success(x) =>
           && (exists s :: InBook(book, id, s) && s.ci in store.items && IncidentFor(store, s, urgency, moment.stamp, x))
           && urgency in {"1", "2", "3"}
           && after.incidents == store.incidents + [x] && after.items == store.items && after.counter == store.counter + 1
         case Failure(error) => after == store && RaiseRefused(book, store, id, urgency, error)
  {
    FoundIffInBook(book, id);
    RaiseFailsIff(book, store, id, urgency);
    var found := FindShipment(book, id);
    if found.Some? {
      assert InBook(book, id, found.value);
    }
  }

  /** A raise with arguments of the wrong type changes nothing. */
  lemma BadRaiseAnswer(book: Book, catalogue: Listing, store: Store, req: Request, moment: Moment, result: HandlerResult,
                       arguments: seq<Entry>)
    requires Handles(book, catalogue, store, req, moment, result) && CallOf(req, "raise_shipment_incident", arguments)
    requires BadText(arguments, "shipment_id", false) || BadText(arguments, "urgency", true)
    ensures result == InvalidArguments && StoreAfter(book, store, req, moment.stamp) == store
  {
  }
}
