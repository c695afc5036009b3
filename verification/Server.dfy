/** The handlers behind the middleware (server.py): the six registered tools and the shipment resource.
    Any other request is answered without an effect. */
module Server {
  import opened Wire
  import opened ServiceNow
  import opened Shipments
  import opened Gates
  import opened Discovery

  const RAISE := "raise_shipment_incident"
  const ASSESS := "assess_shipment_delay"
  const STATUS := "get_shipment_status"
  const DELAYED_LIST := "list_delayed_shipments"
  const SEARCH := "search_incidents"
  const ITEM := "get_configuration_item"
  const SHIPMENT_SCHEME := "shipment://"

  /** What the environment contributes while one request is served: the random suffix of a new
      approval state, the clock reading, and the formatted creation time. */
  datatype Moment = Moment(nonce: string, now: int, stamp: string)

  datatype HandlerResult =
    | Raising(raised: Result<Incident, ToolError>)
    | Assessing(assessed: Result<DelayAssessment, ToolError>)
    | Status(status: Result<Shipment, ToolError>)
    | Delayed(late: seq<Shipment>)
    | Found(incidents: seq<Incident>)
    | Item(item: Option<ConfigurationItem>)
    | Summary(id: string, shipment: Option<Shipment>)
    | InvalidArguments
    | Catalogue(listing: Listing)
    | Other

  predicate Calls(req: Request, tool: string) {
    req.operation == TOOLS_CALL && Get(req.Params(), "name") == Str(tool)
  }

  /** The arguments of a call; none at all count as an empty mapping. */
  function ArgumentEntries(req: Request): Option<seq<Entry>> {
    match req.Arguments()
    case Null => Some([])
    case Mapping(entries) => Some(entries)
    case _ => None
  }

  /** A string argument; nothing when it is missing without a default or of another type. */
  function StringArgument(req: Request, name: string, default: Option<string>): Option<string> {
    if ArgumentEntries(req).None? then None
    else
      match Lookup(ArgumentEntries(req).value, name)
      case None => default
      case Some(v) => if v.Str? then Some(v.s) else None
  }

  function IntArgument(req: Request, name: string, default: int): Option<int> {
    if ArgumentEntries(req).None? then None
    else
      match Lookup(ArgumentEntries(req).value, name)
      case None => Some(default)
      case Some(v) => if v.Int? then Some(v.n) else None
  }

  /** The shipment and urgency of a well-typed call of the raising tool. */
  function RaiseArguments(req: Request): Option<(string, string)> {
    var id := StringArgument(req, "shipment_id", None);
    var urgency := StringArgument(req, "urgency", Some("3"));
    if id.Some? && urgency.Some? then Some((id.value, urgency.value)) else None
  }

  /** The configuration item and limit of a well-typed search; an empty item means any. */
  function SearchArguments(req: Request): Option<(Option<string>, int)> {
    var ci := StringArgument(req, "configuration_item", Some(""));
    var limit := IntArgument(req, "limit", 10);
    if ci.Some? && limit.Some? then Some((if ci.value == "" then None else Some(ci.value), limit.value)) else None
  }

  /** The shipment a resource URI addresses. */
  function AddressedShipment(uri: string): Option<string> {
    if SHIPMENT_SCHEME < uri && '/' !in uri[|SHIPMENT_SCHEME|..] then Some(uri[|SHIPMENT_SCHEME|..]) else None
  }

  /** Serving the request would open an incident. */
  predicate OpensIncident(book: Book, store: Store, req: Request) {
    && Calls(req, RAISE)
    && RaiseArguments(req).Some?
    && RaiseError(book, store, RaiseArguments(req).value.0, RaiseArguments(req).value.1).None?
  }

  function StoreAfter(book: Book, store: Store, req: Request, stamp: string): Store {
    if Calls(req, RAISE) && RaiseArguments(req).Some? then
      var (id, urgency) := RaiseArguments(req).value;
      AfterRaise(book, store, id, urgency, stamp)
    else store
  }

  /** The request addresses a shipment resource. */
  predicate ReadsShipment(req: Request) {
    req.operation == RESOURCES_READ && AddressedShipment(req.Uri()).Some?
  }

  /** What the registered handler of a request answers, given the store as it was: each looks at the
      shipment, the incidents or the item its own arguments name, and refuses arguments of the wrong type.
      A request nothing is registered for is answered with nothing of this server's. */
  predicate Handles(book: Book, catalogue: Listing, store: Store, req: Request, moment: Moment, result: HandlerResult) {
    if req.operation == TOOLS_LIST then result == Catalogue(catalogue)
    else if Calls(req, RAISE) then
      match RaiseArguments(req)
      case None => result == InvalidArguments
      case Some((id, urgency)) => result.Raising? && Raises(book, store, id, urgency, moment.stamp, result.raised)
    else if Calls(req, STATUS) then
      match StringArgument(req, "shipment_id", None)
      case None => result == InvalidArguments
      case Some(id) => result == Status(match FindShipment(book, id)
                                        case Some(s) => Success(s)
                                        case None => Failure(UnknownShipment(id)))
    else if Calls(req, DELAYED_LIST) then
      match IntArgument(req, "threshold_hours", 24)
      case None => result == InvalidArguments
      case Some(hours) => result == Delayed(ListDelayed(book, hours, moment.now))
    else if Calls(req, SEARCH) then
      match SearchArguments(req)
      case None => result == InvalidArguments
      case Some((ci, limit)) => result == Found(Search(store, ci, true, limit))
    else if Calls(req, ITEM) then
      match StringArgument(req, "name", None)
      case None => result == InvalidArguments
      case Some(name) => result == Item(if name in store.items then Some(store.items[name]) else None)
    else if Calls(req, ASSESS) then
      match StringArgument(req, "shipment_id", None)
      case None => result == InvalidArguments
      case Some(id) => result.Assessing? && Assesses(book, store, id, moment.now, result.assessed)
    else if ReadsShipment(req) then
      var id := AddressedShipment(req.Uri()).value;
      result == Summary(id, FindShipment(book, id))
    else result == Other
  }

  /** Serving opens an incident exactly when the answer is one that was raised. */
  lemma RaisedIffOpened(book: Book, catalogue: Listing, store: Store, req: Request, moment: Moment, result: HandlerResult)
    requires Handles(book, catalogue, store, req, moment, result)
    ensures result.Raising? && result.raised.Success? <==> OpensIncident(book, store, req)
  {
  }

  /** `call_next`: the registered tools and resources. */
  class Dispatcher {
    const book: Book
    const connector: MockServiceNow
    const catalogue: Listing
    /** Every request a handler has executed. */
    ghost var handled: seq<Request>

    constructor (book: Book, connector: MockServiceNow, catalogue: Listing)
      ensures this.book == book && this.connector == connector && this.catalogue == catalogue
      ensures handled == []
    {
      this.book, this.connector, this.catalogue := book, connector, catalogue;
      handled := [];
    }

    method CallNext(req: Request, moment: Moment) returns (result: HandlerResult)
      modifies this, connector
      ensures handled == old(handled) + [req]
      ensures connector.State() == StoreAfter(book, old(connector.State()), req, moment.stamp)
      ensures Handles(book, catalogue, old(connector.State()), req, moment, result)
    {
      handled := handled + [req];
      if req.operation == TOOLS_LIST {
        return Catalogue(catalogue);
      }
      if Calls(req, RAISE) {
        var arguments := RaiseArguments(req);
        if arguments.None? {
          return InvalidArguments;
        }
        var raised := RaiseIncident(book, connector, arguments.value.0, arguments.value.1, moment.stamp);
        return Raising(raised);
      }
      result := Read(req, moment);
    }

    /** The handlers that only read. */
    method Read(req: Request, moment: Moment) returns (result: HandlerResult)
      requires req.operation != TOOLS_LIST && !Calls(req, RAISE)
      ensures Handles(book, catalogue, connector.State(), req, moment, result)
    {
      if Calls(req, STATUS) {
        var id := StringArgument(req, "shipment_id", None);
        if id.None? {
          return InvalidArguments;
        }
        var s := FindShipment(book, id.value);
        return Status(if s.Some? then Success(s.value) else Failure(UnknownShipment(id.value)));
      }
      if Calls(req, DELAYED_LIST) {
        var hours := IntArgument(req, "threshold_hours", 24);
        if hours.None? {
          return InvalidArguments;
        }
        return Delayed(ListDelayed(book, hours.value, moment.now));
      }
      if Calls(req, SEARCH) {
        var arguments := SearchArguments(req);
        if arguments.None? {
          return InvalidArguments;
        }
        var found := connector.SearchIncidents(arguments.value.0, true, arguments.value.1);
        return Found(found);
      }
      if Calls(req, ITEM) {
        var name := StringArgument(req, "name", None);
        if name.None? {
          return InvalidArguments;
        }
        var item := connector.FindConfigurationItem(name.value);
        return Item(item);
      }
      if Calls(req, ASSESS) {
        var id := StringArgument(req, "shipment_id", None);
        if id.None? {
          return InvalidArguments;
        }
        var assessed := Assess(book, connector, id.value, moment.now);
        return Assessing(assessed);
      }
      if req.operation == RESOURCES_READ && AddressedShipment(req.Uri()).Some? {
        var id := AddressedShipment(req.Uri()).value;
        return Summary(id, FindShipment(book, id));
      }
      return Other;
    }
  }
}
