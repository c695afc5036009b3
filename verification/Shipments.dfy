/** Assessing a delayed shipment and raising an incident for it (server.py). Instants and durations
    are whole microseconds. */
module Shipments {
  import opened Lists
  import opened Wire
  import opened ServiceNow

  datatype Shipment = Shipment(id: string, origin: string, destination: string, status: string, eta: int, ci: string)

  /** The shipment book, in the order of its dict; it never changes while the server runs. */
  type Book = seq<Shipment>

  const HOUR := 3_600_000_000
  const DELAYED := "delayed"
  const DELIVERED := "delivered"

  /** What a tool raises instead of answering. */
  datatype ToolError =
    | UnknownShipment(id: string)
    | BadUrgency(urgency: string)
    | Backend(error: ServiceNowError)

  datatype Recommendation =
    | NoAction
    | EscalateManually(ci: string)
    | Enrich(number: string, ci: string)
    | RaiseNew(ci: string)

  datatype DelayAssessment = DelayAssessment(
    shipmentId: string,
    delayed: bool,
    hoursLate: real,
    configurationItem: string,
    configurationItemFound: bool,
    openIncidents: seq<Incident>,
    recommendation: Recommendation)

  function FindShipment(book: Book, id: string): Option<Shipment> {
    if book == [] then None
    else if book[0].id == id then Some(book[0])
    else FindShipment(book[1..], id)
  }

  /** A shipment is found by its id, the first of the book when ids repeat. */
  lemma {:induction false} FoundById(book: Book, id: string)
    ensures FindShipment(book, id).None? <==> forall i :: 0 <= i < |book| ==> book[i].id != id
    ensures forall i :: 0 <= i < |book| && book[i].id == id && (forall j :: 0 <= j < i ==> book[j].id != id)
                        ==> FindShipment(book, id) == Some(book[i])
  {
    if book != [] {
      FoundById(book[1..], id);
      assert forall i :: 1 <= i < |book| ==> book[i] == book[1..][i - 1];
    }
  }

  predicate ValidUrgency(urgency: string) {
    urgency == "1" || urgency == "2" || urgency == "3"
  }

  // ---------- listing ----------

  predicate LateBy(s: Shipment, thresholdHours: int, now: int) {
    s.status != DELIVERED && s.eta > now + thresholdHours * HOUR
  }

  /** `list_delayed_shipments`. */
  function ListDelayed(book: Book, thresholdHours: int, now: int): (late: seq<Shipment>)
    ensures forall s :: s in late <==> s in book && LateBy(s, thresholdHours, now)
  {
    if book == [] then []
    else if LateBy(book[0], thresholdHours, now) then [book[0]] + ListDelayed(book[1..], thresholdHours, now)
    else ListDelayed(book[1..], thresholdHours, now)
  }

  /** The listing keeps the order and multiplicity of the book: it lists part by part, and a single
      shipment is listed once or not at all. */
  lemma {:induction false} ListedInOrder(a: Book, b: Book, thresholdHours: int, now: int)
    ensures ListDelayed(a + b, thresholdHours, now) == ListDelayed(a, thresholdHours, now) + ListDelayed(b, thresholdHours, now)
    ensures |a| == 1 ==> ListDelayed(a, thresholdHours, now) == if LateBy(a[0], thresholdHours, now) then a else []
  {
    if a == [] {
      assert a + b == b;
    } else {
      assert (a + b)[1..] == a[1..] + b;
      ListedInOrder(a[1..], b, thresholdHours, now);
    }
  }

  lemma {:induction false} ListedNext(book: Book, s: Shipment, thresholdHours: int, now: int)
    ensures ListDelayed(book + [s], thresholdHours, now)
         == ListDelayed(book, thresholdHours, now) + if LateBy(s, thresholdHours, now) then [s] else []
  {
    ListedInOrder(book, [s], thresholdHours, now);
    assert [s][1..] == [];
  }

  lemma {:induction false} ListingSifts(book: Book, thresholdHours: int, now: int)
    ensures Sifted(book, (s: Shipment) => LateBy(s, thresholdHours, now), ListDelayed(book, thresholdHours, now))
  {
    if book != [] {
      var front, last := book[..|book| - 1], book[|book| - 1];
      ListingSifts(front, thresholdHours, now);
      ListedNext(front, last, thresholdHours, now);
      SiftedNext(front, (s: Shipment) => LateBy(s, thresholdHours, now), ListDelayed(front, thresholdHours, now), last);
      assert book == front + [last];
    }
  }

  /** The shipment is not delivered and arrives more than so many hours after `now`, in microseconds. */
  predicate ArrivesAfter(s: Shipment, hours: int, now: int) {
    s.status != "delivered" && s.eta - now > hours * 3_600_000_000
  }

  /** The listing holds, in the order of the book, exactly the undelivered shipments that arrive later than
      the threshold, for every threshold. */
  lemma {:induction false} ListedExactly(book: Book, thresholdHours: int, now: int)
    ensures Sifted(book, (s: Shipment) => ArrivesAfter(s, thresholdHours, now), ListDelayed(book, thresholdHours, now))
  {
    ListingSifts(book, thresholdHours, now);
    SameSifted(book, (s: Shipment) => LateBy(s, thresholdHours, now), (s: Shipment) => ArrivesAfter(s, thresholdHours, now),
               ListDelayed(book, thresholdHours, now));
  }

  /** Hours past the 24 hours from now, never negative, before rounding. */
  function HoursLate(s: Shipment, now: int): real {
    var late := (s.eta - now) as real / HOUR as real - 24.0;
    if late > 0.0 then late else 0.0
  }

  /** At one clock reading, an undelivered shipment is listed as more than 24 hours away exactly when
      its unrounded lateness is positive. */
  lemma ListedIffLate(book: Book, s: Shipment, now: int)
    requires s in book && s.status != DELIVERED
    ensures s in ListDelayed(book, 24, now) <==> HoursLate(s, now) > 0.0
  {
    var wait := (s.eta - now) as real;
    assert wait / HOUR as real - 24.0 > 0.0 <==> wait > 24.0 * HOUR as real;
  }

  /** `round(x, 1)`: the nearest tenth, ties to the even one. */
  function RoundTenth(x: real): (r: real)
    ensures -0.05 <= r - x <= 0.05
  {
    var down := (x * 10.0).Floor;
    var rest := x * 10.0 - down as real;
    var tenths := if rest < 0.5 || (rest == 0.5 && down % 2 == 0) then down else down + 1;
    tenths as real / 10.0
  }

  /** An assessment shows a shipment as late only past three minutes, so one that is already listed
      can still be shown as on time. */
  lemma ShownLateIff(s: Shipment, now: int)
    ensures RoundTenth(HoursLate(s, now)) > 0.0 <==> HoursLate(s, now) > 0.05
    ensures RoundTenth(HoursLate(s, now)) >= 0.0
  {
    var x := HoursLate(s, now);
    var down := (x * 10.0).Floor;
    if x > 0.05 {
      assert down >= 1 || x * 10.0 - down as real > 0.5;
    } else {
      assert down == 0;
    }
  }

  /** A shipment is late by the hours its arrival is away beyond 24, and not at all up to there. */
  lemma LateByHours(s: Shipment, now: int)
    ensures s.eta - now <= 86_400_000_000 ==> HoursLate(s, now) == 0.0
    ensures s.eta - now > 86_400_000_000 ==> (HoursLate(s, now) + 24.0) * 3_600_000_000.0 == (s.eta - now) as real
  {
    var wait := (s.eta - now) as real;
    assert HOUR as real == 3_600_000_000.0;
    assert wait / 3_600_000_000.0 * 3_600_000_000.0 == wait;
  }

  /** The rounded number is a whole number of tenths, no further away than half a tenth, and the even one of
      two as near. */
  lemma RoundsToTenth(x: real) returns (tenths: int)
    ensures RoundTenth(x) * 10.0 == tenths as real
    ensures -0.5 <= tenths as real - x * 10.0 <= 0.5
    ensures tenths as real - x * 10.0 == 0.5 || x * 10.0 - tenths as real == 0.5 ==> tenths % 2 == 0
  {
    var down := (x * 10.0).Floor;
    var rest := x * 10.0 - down as real;
    tenths := if rest < 0.5 || (rest == 0.5 && down % 2 == 0) then down else down + 1;
  }

  // ---------- assessing ----------

  function Recommend(store: Store, s: Shipment): Recommendation {
    var open := Search(store, Some(s.ci), true, 10);
    if s.status != DELAYED then NoAction
    else if s.ci !in store.items then EscalateManually(s.ci)
    else if open != [] then Enrich(open[0].number, s.ci)
    else RaiseNew(s.ci)
  }

  /** `x` is the first open incident of the store on the configuration item. */
  ghost predicate FirstOpen(incidents: seq<Incident>, ci: string, x: Incident) {
    exists i ::
      && 0 <= i < |incidents| && incidents[i] == x && OpenOn(x, Some(ci))
      && forall j :: 0 <= j < i ==> !OpenOn(incidents[j], Some(ci))
  }

  /** What is recommended: nothing for a shipment that is not delayed; otherwise to escalate when its
      configuration item is unknown, to enrich the first open incident on it, or, without one, to raise one. */
  lemma {:induction false} AdviceFollowsStore(store: Store, s: Shipment)
    ensures var advice := Recommend(store, s);
      && (s.status != "delayed" ==> advice == NoAction)
      && (s.status == "delayed" && s.ci !in store.items ==> advice == EscalateManually(s.ci))
      && (s.status == "delayed" && s.ci in store.items ==>
            && (forall x :: FirstOpen(store.incidents, s.ci, x) ==> advice == Enrich(x.number, s.ci))
            && ((forall i :: 0 <= i < |store.incidents| ==> !OpenOn(store.incidents[i], Some(s.ci))) ==> advice == RaiseNew(s.ci)))
  {
    var incidents, ci := store.incidents, Some(s.ci);
    var kept := SearchTakesOpen(store, ci, 10);
    var open := Search(store, ci, true, 10);
    assert open != [] <==> kept != [];
    forall x | FirstOpen(incidents, s.ci, x) ensures open != [] && open[0] == x {
      var i :| 0 <= i < |incidents| && incidents[i] == x && OpenOn(x, ci) && forall j :: 0 <= j < i ==> !OpenOn(incidents[j], ci);
      FirstRank(incidents, (y: Incident) => OpenOn(y, ci), i);
    }
    if kept != [] {
      assert kept[0] in incidents && OpenOn(kept[0], ci);
    }
  }

  /** `result` assesses shipment `id` against the store. */
  predicate Assesses(book: Book, store: Store, id: string, now: int, result: Result<DelayAssessment, ToolError>) {
    match FindShipment(book, id)
    case None => result == Failure(UnknownShipment(id))
    case Some(s) =>
      && result.Success?
      && result.value.shipmentId == s.id
      && (result.value.delayed <==> s.status == DELAYED)
      && result.value.hoursLate == RoundTenth(HoursLate(s, now))
      && result.value.configurationItem == s.ci
      && (result.value.configurationItemFound <==> s.ci in store.items)
      && Finds(store.incidents, Some(s.ci), true, 10, result.value.openIncidents)
      && result.value.openIncidents == Search(store, Some(s.ci), true, 10)
      && result.value.recommendation == Recommend(store, s)
  }

  /** `assess_shipment_delay`. */
  method Assess(book: Book, connector: MockServiceNow, id: string, now: int)
    returns (result: Result<DelayAssessment, ToolError>)
    ensures Assesses(book, connector.State(), id, now, result)
  {
    var found := FindShipment(book, id);
    if found.None? {
      return Failure(UnknownShipment(id));
    }
    var s := found.value;
    var hoursLate := HoursLate(s, now);
    var delayed := s.status == DELAYED;
    var item := connector.FindConfigurationItem(s.ci);
    var open := connector.SearchIncidents(Some(s.ci), true, 10);
    var recommendation;
    if !delayed {
      recommendation := NoAction;
    } else if item.None? {
      recommendation := EscalateManually(s.ci);
    } else if open != [] {
      recommendation := Enrich(open[0].number, s.ci);
    } else {
      recommendation := RaiseNew(s.ci);
    }
    return Success(DelayAssessment(s.id, delayed, RoundTenth(hoursLate), s.ci, item.Some?, open, recommendation));
  }

  // ---------- raising ----------

  function ShortDescription(s: Shipment): string {
    "Shipment " + s.id + " delayed to " + s.destination
  }

  /** Why raising an incident for a shipment fails, if it does. */
  function RaiseError(book: Book, store: Store, id: string, urgency: string): Option<ToolError> {
    var found := FindShipment(book, id);
    if found.None? then Some(UnknownShipment(id))
    else if !ValidUrgency(urgency) then Some(BadUrgency(urgency))
    else if found.value.ci !in store.items then Some(Backend(UnknownConfigurationItem(found.value.ci)))
    else None
  }

  function AfterRaise(book: Book, store: Store, id: string, urgency: string, stamp: string): Store {
    if RaiseError(book, store, id, urgency).Some? then store
    else
      var s := FindShipment(book, id).value;
      AfterCreate(store, ShortDescription(s), s.ci, urgency, stamp)
  }

  /** Raising fails exactly without the shipment, without an urgency of 1, 2 or 3, or without the
      configuration item, and the first of these that is wrong is the error. */
  lemma RaiseFailsIff(book: Book, store: Store, id: string, urgency: string)
    ensures var error, found := RaiseError(book, store, id, urgency), FindShipment(book, id);
      error == (if found.None? then Some(UnknownShipment(id))
                else if urgency !in {"1", "2", "3"} then Some(BadUrgency(urgency))
                else if found.value.ci !in store.items then Some(Backend(UnknownConfigurationItem(found.value.ci)))
                else None)
  {
  }

  /** `result` tells what asking for an incident for shipment `id` made of the store: which error stood in
      the way, or the incident it now holds. */
  predicate Raises(book: Book, store: Store, id: string, urgency: string, stamp: string, result: Result<Incident, ToolError>) {
    match RaiseError(book, store, id, urgency)
    case Some(error) => result == Failure(error)
    case None =>
      var s := FindShipment(book, id).value;
      && result == Success(NextIncident(store, ShortDescription(s), s.ci, urgency, stamp))
      && AfterRaise(book, store, id, urgency, stamp).incidents == store.incidents + [result.value]
  }

  /** `raise_shipment_incident`. */
  method RaiseIncident(book: Book, connector: MockServiceNow, id: string, urgency: string, stamp: string)
    returns (result: Result<Incident, ToolError>)
    modifies connector
    ensures connector.State() == AfterRaise(book, old(connector.State()), id, urgency, stamp)
    ensures Raises(book, old(connector.State()), id, urgency, stamp, result)
  {
    var found := FindShipment(book, id);
    if found.None? {
      return Failure(UnknownShipment(id));
    }
    if !ValidUrgency(urgency) {
      return Failure(BadUrgency(urgency));
    }
    var s := found.value;
    var created := connector.CreateIncident(ShortDescription(s), s.ci, urgency, stamp);
    match created {
      case Failure(error) => return Failure(Backend(error));
      case Success(incident) => return Success(incident);
    }
  }

  // ---------- recommendations over runs ----------

  /** One thing that can happen to a store between two readings of it. */
  datatype StoreEvent =
    | Raised(id: string, urgency: string, stamp: string)
    | Created(creation: Creation)

  function AfterEvent(book: Book, store: Store, event: StoreEvent): Store {
    match event
    case Raised(id, urgency, stamp) => AfterRaise(book, store, id, urgency, stamp)
    case Created(c) => AfterCreate(store, c.shortDescription, c.ci, c.urgency, c.stamp)
  }

  function AfterEvents(book: Book, store: Store, events: seq<StoreEvent>): Store
    decreases events
  {
    if events == [] then store
    else AfterEvents(book, AfterEvent(book, store, events[0]), events[1..])
  }

  /** `later` keeps everything `earlier` holds. */
  predicate Extends(later: Store, earlier: Store) {
    && later.items == earlier.items
    && earlier.incidents <= later.incidents
    && earlier.counter <= later.counter
  }

  lemma {:induction false} StoresOnlyGrow(book: Book, store: Store, events: seq<StoreEvent>)
    ensures Extends(AfterEvents(book, store, events), store)
    decreases events
  {
    if events != [] {
      StoresOnlyGrow(book, AfterEvent(book, store, events[0]), events[1..]);
    }
  }

  lemma FirstOpenPersists(earlier: Store, later: Store, ci: string)
    requires Extends(later, earlier)
    requires Search(earlier, Some(ci), true, 10) != []
    ensures Search(later, Some(ci), true, 10) != []
    ensures Search(later, Some(ci), true, 10)[0] == Search(earlier, Some(ci), true, 10)[0]
  {
    var added := later.incidents[|earlier.incidents|..];
    assert later.incidents == earlier.incidents + added;
    KeptAppend(earlier.incidents, added, Some(ci), true);
  }

  /** What an assessment says still stands in any store that has only grown since: the same incident
      to enrich, and the same answer to whether a raise for the shipment with a valid urgency fails. */
  lemma AdviceStands(book: Book, earlier: Store, later: Store, id: string, urgency: string, other: Shipment)
    requires Extends(later, earlier)
    requires FindShipment(book, id).Some? && FindShipment(book, id).value.status == DELAYED && ValidUrgency(urgency)
    requires other.ci == FindShipment(book, id).value.ci && other.status == DELAYED
    ensures var advice := Recommend(earlier, FindShipment(book, id).value);
      && (advice.Enrich? ==> Recommend(later, other) == advice)
      && (advice.EscalateManually? <==> RaiseError(book, later, id, urgency).Some?)
      && (advice.RaiseNew? || advice.Enrich? <==> RaiseError(book, later, id, urgency).None?)
  {
    if Recommend(earlier, FindShipment(book, id).value).Enrich? {
      FirstOpenPersists(earlier, later, other.ci);
    }
  }

  /** Once an assessment names an incident to enrich, every later assessment of a delayed shipment on
      the same configuration item names the same incident. */
  lemma EnrichmentIsStable(book: Book, store: Store, events: seq<StoreEvent>, s: Shipment, other: Shipment)
    requires Recommend(store, s).Enrich?
    requires other.ci == s.ci && other.status == DELAYED
    ensures Recommend(AfterEvents(book, store, events), other) == Recommend(store, s)
  {
    StoresOnlyGrow(book, store, events);
    FirstOpenPersists(store, AfterEvents(book, store, events), s.ci);
  }

  lemma RaiseOpens(book: Book, store: Store, id: string, urgency: string, stamp: string)
    requires RaiseError(book, store, id, urgency).None?
    ensures Search(AfterRaise(book, store, id, urgency, stamp), Some(FindShipment(book, id).value.ci), true, 10) != []
  {
    var s := FindShipment(book, id).value;
    var incident := NextIncident(store, ShortDescription(s), s.ci, urgency, stamp);
    KeptAppend(store.incidents, [incident], Some(s.ci), true);
    assert Kept([incident], Some(s.ci), true) != [];
  }

  /** After a successful raise, every later assessment of a delayed shipment on that configuration
      item says to enrich. */
  lemma RaiseThenEnrich(book: Book, store: Store, id: string, urgency: string, stamp: string,
                        events: seq<StoreEvent>, other: Shipment)
    requires RaiseError(book, store, id, urgency).None?
    requires other.ci == FindShipment(book, id).value.ci && other.status == DELAYED
    ensures Recommend(AfterEvents(book, AfterRaise(book, store, id, urgency, stamp), events), other).Enrich?
  {
    var after := AfterRaise(book, store, id, urgency, stamp);
    RaiseOpens(book, store, id, urgency, stamp);
    StoresOnlyGrow(book, after, events);
    FirstOpenPersists(after, AfterEvents(book, after, events), other.ci);
  }

  /** An assessment predicts every later raise for the shipment: "raise" and "enrich" mean it will
      succeed with any valid urgency, "escalate manually" means it will fail, and these are the only
      cases for a delayed shipment. */
  lemma AssessmentPredictsRaise(book: Book, store: Store, events: seq<StoreEvent>, id: string, urgency: string)
    requires FindShipment(book, id).Some? && FindShipment(book, id).value.status == DELAYED
    requires ValidUrgency(urgency)
    ensures var advice := Recommend(store, FindShipment(book, id).value);
      && (advice.EscalateManually? <==> RaiseError(book, AfterEvents(book, store, events), id, urgency).Some?)
      && (advice.RaiseNew? || advice.Enrich? <==> RaiseError(book, AfterEvents(book, store, events), id, urgency).None?)
  {
    StoresOnlyGrow(book, store, events);
    AdviceStands(book, store, AfterEvents(book, store, events), id, urgency, FindShipment(book, id).value);
  }
}
