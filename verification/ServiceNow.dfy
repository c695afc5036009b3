/** The in-process incident store (`MockServiceNow` in governance/servicenow.py). */
module ServiceNow {
  import opened Lists
  import opened Text
  import opened Wire

  datatype Incident = Incident(
    number: string,
    sysId: string,
    shortDescription: string,
    state: string,
    urgency: string,
    configurationItem: string,
    openedAt: string)

  datatype ConfigurationItem = ConfigurationItem(name: string, sysId: string, ciClass: string, operationalStatus: string)

  /** The contents of one store. */
  datatype Store = Store(incidents: seq<Incident>, items: map<string, ConfigurationItem>, counter: nat)

  const SEEDED_ITEMS: map<string, ConfigurationItem> := map[
    "CI-WMS-01" := ConfigurationItem("CI-WMS-01", "a1b2c3d4", "cmdb_ci_appl", "1"),
    "CI-TMS-02" := ConfigurationItem("CI-TMS-02", "e5f6a7b8", "cmdb_ci_appl", "1")]

  const SEEDED_INCIDENT := Incident("INC0010001", "11111111", "WMS batch job latency above threshold", "2", "2",
                                    "CI-WMS-01", "2026-07-30 08:14:02")

  const DEFAULT_STORE := Store([SEEDED_INCIDENT], SEEDED_ITEMS, 0)

  function IncidentNumber(n: nat): string {
    "INC00200" + Padded(n, 2)
  }

  function SysId(n: nat): string {
    "mock" + Padded(n, 8)
  }

  predicate IsActive(incident: Incident) {
    incident.state != "6" && incident.state != "7"
  }

  /** The incident is one a search is for. */
  predicate Wanted(incident: Incident, ci: Option<string>, activeOnly: bool) {
    (ci.None? || incident.configurationItem == ci.value) && (!activeOnly || IsActive(incident))
  }

  /** The incidents a search keeps before it cuts the list. */
  function Kept(incidents: seq<Incident>, ci: Option<string>, activeOnly: bool): seq<Incident> {
    if incidents == [] then []
    else
      var head := incidents[0];
      var rest := Kept(incidents[1..], ci, activeOnly);
      if Wanted(head, ci, activeOnly) then [head] + rest else rest
  }

  /** `found[:limit]`; a negative limit drops from the end. */
  function Cut<T>(found: seq<T>, limit: int): seq<T> {
    if limit >= |found| then found
    else if limit >= 0 then found[..limit]
    else if -limit >= |found| then []
    else found[..|found| + limit]
  }

  /** How much of a list of length `n` a limit leaves. */
  function CutLength(n: nat, limit: int): (r: nat)
    ensures r <= n
  {
    if limit >= n then n else if limit >= 0 then limit else if -limit >= n then 0 else n + limit
  }

  /** How many of the first `n` incidents are wanted. */
  function WantedBefore(incidents: seq<Incident>, ci: Option<string>, activeOnly: bool, n: nat): nat
    requires n <= |incidents|
  {
    if n == 0 then 0
    else WantedBefore(incidents, ci, activeOnly, n - 1) + if Wanted(incidents[n - 1], ci, activeOnly) then 1 else 0
  }

  /** `found` holds the wanted incidents and no others, the one with `k` wanted incidents before it at
      place `k`, as many as the limit leaves. */
  predicate Finds(incidents: seq<Incident>, ci: Option<string>, activeOnly: bool, limit: int, found: seq<Incident>) {
    && |found| == CutLength(WantedBefore(incidents, ci, activeOnly, |incidents|), limit)
    && (forall x :: x in found ==> x in incidents && Wanted(x, ci, activeOnly))
    && (forall i :: 0 <= i < |incidents| && Wanted(incidents[i], ci, activeOnly) ==>
          var k := WantedBefore(incidents, ci, activeOnly, i);
          k < |found| ==> found[k] == incidents[i])
  }

  function Search(store: Store, ci: Option<string>, activeOnly: bool, limit: int): seq<Incident> {
    Cut(Kept(store.incidents, ci, activeOnly), limit)
  }

  /** The incident the next creation makes. */
  function NextIncident(store: Store, shortDescription: string, ci: string, urgency: string, stamp: string): Incident {
    Incident(IncidentNumber(store.counter + 1), SysId(store.counter + 1), shortDescription, "1", urgency, ci, stamp)
  }

  /** The store after asking for an incident: unchanged when the configuration item is unknown. */
  function AfterCreate(store: Store, shortDescription: string, ci: string, urgency: string, stamp: string): Store {
    if ci !in store.items then store
    else
      Store(store.incidents + [NextIncident(store, shortDescription, ci, urgency, stamp)], store.items, store.counter + 1)
  }

  datatype ServiceNowError = UnknownConfigurationItem(name: string)

  class MockServiceNow {
    var incidents: seq<Incident>
    var configurationItems: map<string, ConfigurationItem>
    var counter: nat

    ghost function State(): Store
      reads this
    {
      Store(incidents, configurationItems, counter)
    }

    /** Construction and `__post_init__`: an empty field is seeded. */
    constructor (incidents: seq<Incident>, configurationItems: map<string, ConfigurationItem>)
      ensures State() == Store(
                if incidents == [] then DEFAULT_STORE.incidents else incidents,
                if configurationItems == map[] then DEFAULT_STORE.items else configurationItems,
                0)
    {
      this.incidents := incidents;
      this.configurationItems := configurationItems;
      counter := 0;
      new;
      if this.configurationItems == map[] {
        this.configurationItems := SEEDED_ITEMS;
      }
      if this.incidents == [] {
        this.incidents := [SEEDED_INCIDENT];
      }
    }

    method FindConfigurationItem(name: string) returns (item: Option<ConfigurationItem>)
      ensures item == if name in configurationItems then Some(configurationItems[name]) else None
    {
      item := if name in configurationItems then Some(configurationItems[name]) else None;
    }

    method SearchIncidents(ci: Option<string>, activeOnly: bool, limit: int) returns (found: seq<Incident>)
      ensures found == Search(State(), ci, activeOnly, limit)
      ensures Finds(incidents, ci, activeOnly, limit, found)
      ensures limit >= 0 ==> |found| <= limit
    {
      found := Cut(Kept(incidents, ci, activeOnly), limit);
      SearchFinds(State(), ci, activeOnly, limit);
    }

    method CreateIncident(shortDescription: string, ci: string, urgency: string, stamp: string)
      returns (result: Result<Incident, ServiceNowError>)
      modifies this
      ensures State() == AfterCreate(old(State()), shortDescription, ci, urgency, stamp)
      ensures result == if ci in old(configurationItems)
                        then Success(NextIncident(old(State()), shortDescription, ci, urgency, stamp))
                        else Failure(UnknownConfigurationItem(ci))
    {
      if ci !in configurationItems {
        return Failure(UnknownConfigurationItem(ci));
      }
      counter := counter + 1;
      var incident := Incident(IncidentNumber(counter), SysId(counter), shortDescription, "1", urgency, ci, stamp);
      incidents := incidents + [incident];
      return Success(incident);
    }
  }

  // ---------- over many creations ----------

  /** What asking for one incident takes. */
  datatype Creation = Creation(shortDescription: string, ci: string, urgency: string, stamp: string)

  function AfterAll(store: Store, creations: seq<Creation>): Store {
    if creations == [] then store
    else
      var c := creations[|creations| - 1];
      AfterCreate(AfterAll(store, creations[..|creations| - 1]), c.shortDescription, c.ci, c.urgency, c.stamp)
  }

  /** The creations that name a known configuration item. */
  function Accepted(items: map<string, ConfigurationItem>, creations: seq<Creation>): nat {
    if creations == [] then 0
    else Accepted(items, creations[..|creations| - 1]) + if creations[|creations| - 1].ci in items then 1 else 0
  }

  /** Everything past the first `seeds` incidents was created here, in order, numbered from 1. */
  predicate Numbered(store: Store, seeds: nat) {
    && |store.incidents| == seeds + store.counter
    && forall i :: seeds <= i < |store.incidents| ==> Genuine(store, store.incidents[i], i - seeds + 1)
  }

  /** The incident is the `k`th one created in this store. */
  predicate Genuine(store: Store, incident: Incident, k: nat) {
    incident.number == IncidentNumber(k) && incident.sysId == SysId(k) && incident.configurationItem in store.items
  }

  lemma CreateKeepsNumbered(store: Store, c: Creation, seeds: nat)
    requires Numbered(store, seeds)
    ensures Numbered(AfterCreate(store, c.shortDescription, c.ci, c.urgency, c.stamp), seeds)
  {
    var after := AfterCreate(store, c.shortDescription, c.ci, c.urgency, c.stamp);
    forall i | seeds <= i < |after.incidents| ensures Genuine(after, after.incidents[i], i - seeds + 1) {
      if i < |store.incidents| {
        assert Genuine(store, store.incidents[i], i - seeds + 1);
      }
    }
  }

  lemma {:induction false} RunIsNumbered(store: Store, creations: seq<Creation>, seeds: nat)
    requires Numbered(store, seeds)
    ensures Numbered(AfterAll(store, creations), seeds)
    ensures AfterAll(store, creations).items == store.items
    ensures AfterAll(store, creations).counter == store.counter + Accepted(store.items, creations)
  {
    if creations != [] {
      var c := creations[|creations| - 1];
      RunIsNumbered(store, creations[..|creations| - 1], seeds);
      CreateKeepsNumbered(AfterAll(store, creations[..|creations| - 1]), c, seeds);
    }
  }

  lemma NumbersDiffer(j: nat, k: nat)
    requires j != k
    ensures IncidentNumber(j) != IncidentNumber(k) && SysId(j) != SysId(k)
    ensures IncidentNumber(k) != SEEDED_INCIDENT.number && SysId(k) != SEEDED_INCIDENT.sysId
  {
    if IncidentNumber(j) == IncidentNumber(k) {
      assert IncidentNumber(j)[8..] == Padded(j, 2) && IncidentNumber(k)[8..] == Padded(k, 2);
      PaddedIsInjective(j, k, 2);
    }
    if SysId(j) == SysId(k) {
      assert SysId(j)[4..] == Padded(j, 8) && SysId(k)[4..] == Padded(k, 8);
      PaddedIsInjective(j, k, 8);
    }
    assert IncidentNumber(k)[5] == '2' && SEEDED_INCIDENT.number[5] == '1';
    assert SysId(k)[0] == 'm' && SEEDED_INCIDENT.sysId[0] == '1';
  }

  /** The incident at index `i` of a default store after any run of creations. */
  lemma NthIncident(creations: seq<Creation>, i: nat)
    requires i < |AfterAll(DEFAULT_STORE, creations).incidents|
    ensures var incident := AfterAll(DEFAULT_STORE, creations).incidents[i];
      if i == 0 then incident == SEEDED_INCIDENT
      else incident.number == IncidentNumber(i) && incident.sysId == SysId(i) && incident.configurationItem in SEEDED_ITEMS
  {
    RunIsNumbered(DEFAULT_STORE, creations, 1);
    RunKeepsSeed(creations);
    var after := AfterAll(DEFAULT_STORE, creations);
    assert i > 0 ==> Genuine(after, after.incidents[i], i);
  }

  /** On a default store, after any run of successful and failing creations: numbers and ids are
      pairwise distinct, refused creations use up no number, and every created incident names a known
      configuration item. */
  lemma IncidentIdentity(creations: seq<Creation>, i: nat, j: nat)
    requires i < j < |AfterAll(DEFAULT_STORE, creations).incidents|
    ensures var incidents := AfterAll(DEFAULT_STORE, creations).incidents;
      && incidents[i].number != incidents[j].number
      && incidents[i].sysId != incidents[j].sysId
      && incidents[j].configurationItem in SEEDED_ITEMS
      && |incidents| == 1 + Accepted(SEEDED_ITEMS, creations)
      && incidents[j].number == IncidentNumber(j)
  {
    NthIncident(creations, i);
    NthIncident(creations, j);
    NumbersDiffer(i, j);
    RunIsNumbered(DEFAULT_STORE, creations, 1);
  }

  lemma {:induction false} RunKeepsSeed(creations: seq<Creation>)
    ensures AfterAll(DEFAULT_STORE, creations).incidents != []
    ensures AfterAll(DEFAULT_STORE, creations).incidents[0] == SEEDED_INCIDENT
  {
    if creations != [] {
      RunKeepsSeed(creations[..|creations| - 1]);
    }
  }

  // ---------- searching ----------

  lemma {:induction false} KeptAppend(a: seq<Incident>, b: seq<Incident>, ci: Option<string>, activeOnly: bool)
    ensures Kept(a + b, ci, activeOnly) == Kept(a, ci, activeOnly) + Kept(b, ci, activeOnly)
  {
    if a == [] {
      assert a + b == b;
    } else {
      assert (a + b)[1..] == a[1..] + b;
      KeptAppend(a[1..], b, ci, activeOnly);
    }
  }

  lemma {:induction false} KeptIsPart(incidents: seq<Incident>, ci: Option<string>, activeOnly: bool)
    ensures forall x :: x in Kept(incidents, ci, activeOnly) <==> x in incidents && Wanted(x, ci, activeOnly)
  {
    if incidents != [] {
      KeptIsPart(incidents[1..], ci, activeOnly);
      assert incidents == [incidents[0]] + incidents[1..];
    }
  }

  lemma KeptNext(front: seq<Incident>, last: Incident, ci: Option<string>, activeOnly: bool)
    ensures Kept(front + [last], ci, activeOnly)
         == Kept(front, ci, activeOnly) + if Wanted(last, ci, activeOnly) then [last] else []
  {
    KeptAppend(front, [last], ci, activeOnly);
    assert [last][1..] == [];
  }

  /** Each wanted incident is kept at the place its rank says. */
  lemma {:induction false} KeptByRank(incidents: seq<Incident>, ci: Option<string>, activeOnly: bool, n: nat, i: nat)
    requires i <= n <= |incidents|
    ensures var kept, rank := Kept(incidents[..n], ci, activeOnly), WantedBefore(incidents, ci, activeOnly, i);
      && |kept| == WantedBefore(incidents, ci, activeOnly, n)
      && rank <= |kept|
      && (i < n && Wanted(incidents[i], ci, activeOnly) ==> rank < |kept| && kept[rank] == incidents[i])
  {
    if n > 0 {
      KeptByRank(incidents, ci, activeOnly, n - 1, if i == n then n - 1 else i);
      KeptNext(incidents[..n - 1], incidents[n - 1], ci, activeOnly);
      assert incidents[..n] == incidents[..n - 1] + [incidents[n - 1]];
    }
  }

  lemma CutIsPrefix(found: seq<Incident>, limit: int)
    ensures Cut(found, limit) <= found && |Cut(found, limit)| == CutLength(|found|, limit)
  {
  }

  /** A search finds exactly the wanted incidents of the store, in store order and each once, cut at
      the limit from the front, or by a negative limit from the back. */
  lemma SearchFinds(store: Store, ci: Option<string>, activeOnly: bool, limit: int)
    ensures Finds(store.incidents, ci, activeOnly, limit, Search(store, ci, activeOnly, limit))
  {
    var incidents, kept := store.incidents, Kept(store.incidents, ci, activeOnly);
    CutIsPrefix(kept, limit);
    KeptIsPart(incidents, ci, activeOnly);
    assert incidents[..|incidents|] == incidents;
    KeptByRank(incidents, ci, activeOnly, |incidents|, 0);
    forall i | 0 <= i < |incidents| && Wanted(incidents[i], ci, activeOnly)
      ensures WantedBefore(incidents, ci, activeOnly, i) < |kept|
      ensures kept[WantedBefore(incidents, ci, activeOnly, i)] == incidents[i]
    {
      KeptByRank(incidents, ci, activeOnly, |incidents|, i);
    }
  }

  lemma {:induction false} KeptSifts(incidents: seq<Incident>, ci: Option<string>, activeOnly: bool)
    ensures Sifted(incidents, (x: Incident) => Wanted(x, ci, activeOnly), Kept(incidents, ci, activeOnly))
  {
    if incidents != [] {
      var front, last := incidents[..|incidents| - 1], incidents[|incidents| - 1];
      KeptSifts(front, ci, activeOnly);
      KeptNext(front, last, ci, activeOnly);
      SiftedNext(front, (x: Incident) => Wanted(x, ci, activeOnly), Kept(front, ci, activeOnly), last);
      assert incidents == front + [last];
    }
  }

  /** `found` is what a limit leaves of `kept`: the first `limit`, or all but the last when it is negative. */
  predicate Limited(kept: seq<Incident>, limit: int, found: seq<Incident>) {
    && found <= kept
    && |found| == if limit >= |kept| then |kept| else if limit >= 0 then limit else if |kept| + limit > 0 then |kept| + limit else 0
  }

  /** The incident is on the configuration item asked for, if any, and in none of the closed states. */
  predicate OpenOn(x: Incident, ci: Option<string>) {
    (ci == None || ci == Some(x.configurationItem)) && x.state != "6" && x.state != "7"
  }

  /** A search for open incidents takes them from the store in order, each as often as it is there, up to the
      limit. */
  lemma {:induction false} SearchTakesOpen(store: Store, ci: Option<string>, limit: int) returns (kept: seq<Incident>)
    ensures Sifted(store.incidents, (x: Incident) => OpenOn(x, ci), kept)
    ensures Limited(kept, limit, Search(store, ci, true, limit))
  {
    var incidents := store.incidents;
    kept := Kept(incidents, ci, true);
    KeptSifts(incidents, ci, true);
    SameSifted(incidents, (x: Incident) => Wanted(x, ci, true), (x: Incident) => OpenOn(x, ci), kept);
    CutIsPrefix(kept, limit);
  }

  /** A creation on a known configuration item adds one new incident at the end, in state 1, with the caller's
      fields and the next number of the store; on an unknown one it changes nothing. */
  lemma CreationAdds(store: Store, shortDescription: string, ci: string, urgency: string, stamp: string)
    ensures var after := AfterCreate(store, shortDescription, ci, urgency, stamp);
      if ci !in store.items then after == store
      else
        && after.items == store.items && after.counter == store.counter + 1
        && |after.incidents| == |store.incidents| + 1 && after.incidents[..|store.incidents|] == store.incidents
        && var x := after.incidents[|store.incidents|];
           && x.shortDescription == shortDescription && x.state == "1" && x.urgency == urgency
           && x.configurationItem == ci && x.openedAt == stamp
           && "INC00200" <= x.number && |x.number| >= 10 && Number(x.number[8..]) == store.counter + 1
           && "mock" <= x.sysId && |x.sysId| >= 12 && Number(x.sysId[4..]) == store.counter + 1
  {
    PaddedMeans(store.counter + 1, 2);
    PaddedMeans(store.counter + 1, 8);
    assert IncidentNumber(store.counter + 1)[8..] == Padded(store.counter + 1, 2);
    assert SysId(store.counter + 1)[4..] == Padded(store.counter + 1, 8);
  }

  /** A store starts out with the two configuration items and the one open incident of the mock backend. */
  lemma SeedsOfTheMock()
    ensures DEFAULT_STORE.items.Keys == {"CI-WMS-01", "CI-TMS-02"} && DEFAULT_STORE.counter == 0
    ensures forall name :: name in DEFAULT_STORE.items ==> DEFAULT_STORE.items[name].name == name
    ensures |DEFAULT_STORE.incidents| == 1 && DEFAULT_STORE.incidents[0].number == "INC0010001"
    ensures OpenOn(DEFAULT_STORE.incidents[0], Some("CI-WMS-01")) && !OpenOn(DEFAULT_STORE.incidents[0], Some("CI-TMS-02"))
  {
  }

  /** The next incident is not in the store yet. */
  lemma NextIsNew(creations: seq<Creation>, c: Creation)
    ensures var before := AfterAll(DEFAULT_STORE, creations);
      NextIncident(before, c.shortDescription, c.ci, c.urgency, c.stamp) !in before.incidents
  {
    var before := AfterAll(DEFAULT_STORE, creations);
    RunIsNumbered(DEFAULT_STORE, creations, 1);
    RunKeepsSeed(creations);
    forall k | 0 <= k < |before.incidents| ensures before.incidents[k].number != IncidentNumber(before.counter + 1) {
      NumbersDiffer(k, before.counter + 1);
      assert k > 0 ==> Genuine(before, before.incidents[k], k);
    }
  }

  /** A fresh incident is found by a search for its configuration item exactly when fewer than
      `limit` earlier ones are found before it. */
  lemma CreatedIsListedIff(creations: seq<Creation>, c: Creation, limit: int)
    requires c.ci in SEEDED_ITEMS
    ensures var before := AfterAll(DEFAULT_STORE, creations);
      NextIncident(before, c.shortDescription, c.ci, c.urgency, c.stamp)
      in Search(AfterCreate(before, c.shortDescription, c.ci, c.urgency, c.stamp), Some(c.ci), true, limit)
      <==> |Kept(before.incidents, Some(c.ci), true)| < limit
  {
    var before := AfterAll(DEFAULT_STORE, creations);
    var created := NextIncident(before, c.shortDescription, c.ci, c.urgency, c.stamp);
    RunIsNumbered(DEFAULT_STORE, creations, 1);
    NextIsNew(creations, c);
    KeptAppend(before.incidents, [created], Some(c.ci), true);
    KeptIsPart(before.incidents, Some(c.ci), true);
    var earlier := Kept(before.incidents, Some(c.ci), true);
    assert Kept([created], Some(c.ci), true) == [created] by {
      assert [created][1..] == [];
    }
    assert (earlier + [created])[|earlier|] == created;
  }
}
