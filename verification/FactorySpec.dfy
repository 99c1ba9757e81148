/**
 The tenant service factory (core/factory.py) as interleaved steps. `_get_or_create` is three of them:
 fetch the tenant's cache under the lock, fill it under the lock, and read it with no lock held. A
 cache dictionary lives as long as somebody holds it; clearing only forgets the outer reference.
 A sequence of events is a run: an event that is not enabled where it stands does nothing.
 */
module FactorySpec {
  datatype Tenant = Tenant(id: string)

  datatype Service = Service(name: string)

  /** What a creator returns: the tenant and service it was made for, and which creator run made it. */
  datatype Instance = Instance(tenant: Tenant, service: Service, serial: nat)

  /** One dictionary of services; its position in the list of dictionaries is its identity. */
  datatype TenantCache = TenantCache(owner: Tenant, services: map<Service, Instance>)

  datatype Call =
    | Started(tenant: Tenant, service: Service)
    | Fetched(tenant: Tenant, service: Service, cache: nat)
    | Filled(tenant: Tenant, service: Service, cache: nat)
    | Returned(tenant: Tenant, service: Service, cache: nat, instance: Instance)
    | CreatorRaised
    | KeyMissing

  type CallId = nat

  datatype State = State(instances: map<Tenant, nat>, caches: seq<TenantCache>, made: nat, calls: map<CallId, Call>)

  const INITIAL := State(map[], [], 0, map[])

  datatype Event =
    | Begin(id: CallId, tenant: Tenant, service: Service)
    | Fetch(id: CallId)
    | Fill(id: CallId, creatorRaises: bool)
    | Read(id: CallId)
    | ClearTenant(tenant: Tenant)
    | ClearAll

  /** `_get_tenant_cache`: one block under the lock. */
  function FetchStep(s: State, id: CallId): State {
    if id !in s.calls || !s.calls[id].Started? then s
    else
      var t, service := s.calls[id].tenant, s.calls[id].service;
      if t in s.instances then s.(calls := s.calls[id := Fetched(t, service, s.instances[t])])
      else
        State(s.instances[t := |s.caches|], s.caches + [TenantCache(t, map[])], s.made,
          s.calls[id := Fetched(t, service, |s.caches|)])
  }

  /** The creator runs exactly when the fetched dictionary lacks the service. */
  predicate RunsCreator(s: State, e: Event) {
    && e.Fill? && e.id in s.calls && s.calls[e.id].Fetched?
    && s.calls[e.id].cache < |s.caches|
    && s.calls[e.id].service !in s.caches[s.calls[e.id].cache].services
  }

  /** The check and creation: one block under the lock. A creator that raises stores nothing. */
  function FillStep(s: State, e: Event): State
    requires e.Fill?
  {
    if e.id !in s.calls || !s.calls[e.id].Fetched? || s.calls[e.id].cache >= |s.caches| then s
    else
      var Fetched(t, service, c) := s.calls[e.id];
      if service in s.caches[c].services then s.(calls := s.calls[e.id := Filled(t, service, c)])
      else if e.creatorRaises then s.(made := s.made + 1, calls := s.calls[e.id := CreatorRaised])
      else
        var cache := s.caches[c];
        s.(caches := s.caches[c := cache.(services := cache.services[service := Instance(t, service, s.made)])],
           made := s.made + 1,
           calls := s.calls[e.id := Filled(t, service, c)])
  }

  /** The final subscript, outside the lock: it would raise a key error if the service were missing. */
  function ReadStep(s: State, id: CallId): State {
    if id !in s.calls || !s.calls[id].Filled? then s
    else
      var Filled(t, service, c) := s.calls[id];
      if c < |s.caches| && service in s.caches[c].services then
        s.(calls := s.calls[id := Returned(t, service, c, s.caches[c].services[service])])
      else
        s.(calls := s.calls[id := KeyMissing])
  }

  function Apply(s: State, e: Event): State {
    match e
    case Begin(id, tenant, service) => if id in s.calls then s else s.(calls := s.calls[id := Started(tenant, service)])
    case Fetch(id) => FetchStep(s, id)
    case Fill(_, _) => FillStep(s, e)
    case Read(id) => ReadStep(s, id)
    case ClearTenant(tenant) => s.(instances := s.instances - {tenant})
    case ClearAll => s.(instances := map[])
  }

  ghost function After(events: seq<Event>): State {
    if events == [] then INITIAL else Apply(After(events[..|events| - 1]), events[|events| - 1])
  }

  // ---------------------------------------------------------------------------------------------
  // Isolation and presence
  // ---------------------------------------------------------------------------------------------

  ghost predicate Owned(s: State, c: nat, t: Tenant) { c < |s.caches| && s.caches[c].owner == t }

  ghost predicate Holds(s: State, c: nat, service: Service) { c < |s.caches| && service in s.caches[c].services }

  ghost predicate CallFits(s: State, call: Call) {
    match call
    case Fetched(t, _, c) => Owned(s, c, t)
    case Filled(t, service, c) => Owned(s, c, t) && Holds(s, c, service)
    case Returned(t, service, c, o) => Owned(s, c, t) && Holds(s, c, service) && s.caches[c].services[service] == o
    case KeyMissing => false
    case _ => true
  }

  ghost predicate CacheFits(cache: TenantCache) {
    forall service :: service in cache.services ==>
      cache.services[service].tenant == cache.owner && cache.services[service].service == service
  }

  ghost predicate Consistent(s: State) {
    && (forall t :: t in s.instances ==> Owned(s, s.instances[t], t))
    && (forall c :: 0 <= c < |s.caches| ==> CacheFits(s.caches[c]))
    && (forall id :: id in s.calls ==> CallFits(s, s.calls[id]))
  }

  lemma {:induction false} FetchIsConsistent(s: State, id: CallId)
    requires Consistent(s)
    ensures Consistent(FetchStep(s, id))
  {
  }

  lemma {:induction false} FillIsConsistent(s: State, e: Event)
    requires Consistent(s) && e.Fill?
    ensures Consistent(FillStep(s, e))
  {
    FillKeepsCaches(s, e);
    FillKeepsCalls(s, e);
    var s' := FillStep(s, e);
    forall t | t in s'.instances ensures Owned(s', s'.instances[t], t) {
      assert Owned(s, s.instances[t], t);
    }
  }

  lemma {:induction false} FillKeepsCaches(s: State, e: Event)
    requires Consistent(s) && e.Fill?
    ensures forall c :: 0 <= c < |FillStep(s, e).caches| ==> CacheFits(FillStep(s, e).caches[c])
  {
    var s' := FillStep(s, e);
    forall c | 0 <= c < |s'.caches| ensures CacheFits(s'.caches[c]) {
      assert CacheFits(s.caches[c]);
      assert e.id in s.calls ==> CallFits(s, s.calls[e.id]);
    }
  }

  lemma {:induction false} FillKeepsCalls(s: State, e: Event)
    requires Consistent(s) && e.Fill?
    ensures forall id :: id in FillStep(s, e).calls ==> CallFits(FillStep(s, e), FillStep(s, e).calls[id])
  {
    var s' := FillStep(s, e);
    forall id | id in s'.calls ensures CallFits(s', s'.calls[id]) {
      assert id in s.calls && CallFits(s, s.calls[id]);
    }
  }

  lemma {:induction false} ReadIsConsistent(s: State, id: CallId)
    requires Consistent(s)
    ensures Consistent(ReadStep(s, id))
  {
  }

  lemma {:induction false} ApplyIsConsistent(s: State, e: Event)
    requires Consistent(s)
    ensures Consistent(Apply(s, e))
  {
    match e
    case Fetch(id) => FetchIsConsistent(s, id);
    case Fill(_, _) => FillIsConsistent(s, e);
    case Read(id) => ReadIsConsistent(s, id);
    case _ =>
  }

  lemma {:induction false} RunIsConsistent(events: seq<Event>)
    ensures Consistent(After(events))
  {
    if events != [] {
      RunIsConsistent(events[..|events| - 1]);
      ApplyIsConsistent(After(events[..|events| - 1]), events[|events| - 1]);
    }
  }

  /**
   With clears at any point of any interleaving, no call meets a missing key, and a call returns an
   object made for its own tenant and its own service.
   */
  lemma {:induction false} CallsStayIsolated(events: seq<Event>, id: CallId)
    requires id in After(events).calls
    ensures var call := After(events).calls[id];
      && !call.KeyMissing?
      && (call.Returned? ==> call.instance.tenant == call.tenant && call.instance.service == call.service)
  {
    RunIsConsistent(events);
  }

  /** A service that is there is served; a missing one is created and stored, or its creator raises. */
  ghost predicate Filling(s: State, s': State, call: Call, after: Call, raises: bool)
    requires call.Fetched? && call.cache < |s.caches|
  {
    var there := call.service in s.caches[call.cache].services;
    var created := Instance(call.tenant, call.service, s.made);
    && s'.made == s.made + (if there then 0 else 1)
    && (there || !raises ==> after.Filled?) && (!there && raises ==> after.CreatorRaised?)
    && (there || raises ==> s'.caches == s.caches)
    && (!there && !raises ==> |s'.caches| == |s.caches|)
    && (!there && !raises ==> forall c :: 0 <= c < |s.caches| ==>
          s'.caches[c] ==
          if c == call.cache then TenantCache(s.caches[c].owner, s.caches[c].services[call.service := created])
          else s.caches[c])
  }

  /**
   What filling does with the dictionary that a call fetched: a service that is there is served, without a
   creator and whatever the creator would do; one that is missing runs the creator once, and its object is
   stored, or its exception ends the call and nothing is stored.
   */
  lemma {:induction false} FillingServesOrCreates(events: seq<Event>, id: CallId, raises: bool)
    requires id in After(events).calls && After(events).calls[id].Fetched?
    ensures var s, s' := After(events), After(events + [Fill(id, raises)]);
      var call := s.calls[id];
      && call.cache < |s.caches| && id in s'.calls
      && s'.instances == s.instances
      && Filling(s, s', call, s'.calls[id], raises)
  {
    assert (events + [Fill(id, raises)])[..|events|] == events;
    RunIsConsistent(events);
    assert CallFits(After(events), After(events).calls[id]);
  }

  // ---------------------------------------------------------------------------------------------
  // Uniqueness
  // ---------------------------------------------------------------------------------------------

  /** How many dictionaries a tenant has had. */
  ghost function CachesOf(caches: seq<TenantCache>, t: Tenant): nat {
    if caches == [] then 0 else CachesOf(caches[..|caches| - 1], t) + if caches[|caches| - 1].owner == t then 1 else 0
  }

  /** How many of them hold a service. */
  ghost function CachesHolding(caches: seq<TenantCache>, t: Tenant, service: Service): nat {
    if caches == [] then 0
    else
      var last := caches[|caches| - 1];
      CachesHolding(caches[..|caches| - 1], t, service) + if last.owner == t && service in last.services then 1 else 0
  }

  lemma {:induction false} HoldingIsBounded(caches: seq<TenantCache>, t: Tenant, service: Service)
    ensures CachesHolding(caches, t, service) <= CachesOf(caches, t)
  {
    if caches != [] {
      HoldingIsBounded(caches[..|caches| - 1], t, service);
    }
  }

  lemma {:induction false} UpdateCounts(
    caches: seq<TenantCache>, c: nat, cache: TenantCache, t: Tenant, service: Service)
    requires c < |caches| && cache.owner == caches[c].owner
    ensures CachesOf(caches[c := cache], t) == CachesOf(caches, t)
    ensures CachesHolding(caches[c := cache], t, service)
            == CachesHolding(caches, t, service)
               - (if cache.owner == t && service in caches[c].services then 1 else 0)
               + (if cache.owner == t && service in cache.services then 1 else 0)
  {
    var n := |caches| - 1;
    var updated := caches[c := cache];
    if c < n {
      UpdateCounts(caches[..n], c, cache, t, service);
      assert updated[..n] == caches[..n][c := cache];
    } else {
      assert updated[..n] == caches[..n];
    }
  }

  lemma {:induction false} AppendCounts(caches: seq<TenantCache>, cache: TenantCache, t: Tenant, service: Service)
    ensures CachesOf(caches + [cache], t) == CachesOf(caches, t) + if cache.owner == t then 1 else 0
    ensures CachesHolding(caches + [cache], t, service)
            == CachesHolding(caches, t, service) + if cache.owner == t && service in cache.services then 1 else 0
  {
    assert (caches + [cache])[..|caches|] == caches;
  }

  /** How often a creator ran to completion for a tenant's service. */
  ghost function Creations(events: seq<Event>, t: Tenant, service: Service): nat {
    if events == [] then 0
    else
      var earlier, e := events[..|events| - 1], events[|events| - 1];
      Creations(earlier, t, service) + if Creates(After(earlier), e, t, service) then 1 else 0
  }

  ghost predicate Creates(s: State, e: Event, t: Tenant, service: Service) {
    RunsCreator(s, e) && !e.creatorRaises && s.calls[e.id].tenant == t && s.calls[e.id].service == service
  }

  /** How often a tenant's dictionary was forgotten. */
  ghost function Clears(events: seq<Event>, t: Tenant): nat {
    if events == [] then 0
    else
      var earlier, e := events[..|events| - 1], events[|events| - 1];
      Clears(earlier, t) + if (e == ClearTenant(t) || e == ClearAll) && t in After(earlier).instances then 1 else 0
  }

  lemma {:induction false} FillCountsHolding(s: State, e: Event, t: Tenant, service: Service)
    requires e.Fill? && (e.id in s.calls ==> CallFits(s, s.calls[e.id]))
    ensures CachesHolding(FillStep(s, e).caches, t, service)
            == CachesHolding(s.caches, t, service) + if Creates(s, e, t, service) then 1 else 0
  {
    if RunsCreator(s, e) && !e.creatorRaises {
      var Fetched(u, v, c) := s.calls[e.id];
      var cache := s.caches[c];
      var filled := cache.(services := cache.services[v := Instance(u, v, s.made)]);
      UpdateCounts(s.caches, c, filled, t, service);
      assert FillStep(s, e).caches == s.caches[c := filled];
      assert service in filled.services <==> service in cache.services || service == v;
    } else {
      assert FillStep(s, e).caches == s.caches;
    }
  }

  lemma {:induction false} ApplyCountsHolding(s: State, e: Event, t: Tenant, service: Service)
    requires e.Fill? && e.id in s.calls ==> CallFits(s, s.calls[e.id])
    ensures CachesHolding(Apply(s, e).caches, t, service)
            == CachesHolding(s.caches, t, service) + if Creates(s, e, t, service) then 1 else 0
  {
    match e
    case Fetch(id) =>
      if id in s.calls && s.calls[id].Started? {
        AppendCounts(s.caches, TenantCache(s.calls[id].tenant, map[]), t, service);
      }
    case Fill(_, _) => FillCountsHolding(s, e, t, service);
    case _ =>
  }

  lemma {:induction false} ApplyCountsCaches(s: State, e: Event, t: Tenant, service: Service)
    ensures var s' := Apply(s, e);
      CachesOf(s'.caches, t) + (if t in s.instances then 1 else 0)
      == CachesOf(s.caches, t) + (if t in s'.instances then 1 else 0)
         + if (e == ClearTenant(t) || e == ClearAll) && t in s.instances then 1 else 0
  {
    match e
    case Fetch(id) =>
      if id in s.calls && s.calls[id].Started? {
        AppendCounts(s.caches, TenantCache(s.calls[id].tenant, map[]), t, service);
      }
    case Fill(id, raises) =>
      if RunsCreator(s, e) && !raises {
        var Fetched(u, v, c) := s.calls[id];
        var cache := s.caches[c];
        UpdateCounts(s.caches, c, cache.(services := cache.services[v := Instance(u, v, s.made)]), t, service);
      }
    case _ =>
  }

  /**
   In every run, the completed creator runs for a tenant's service are at most one for each dictionary
   the tenant has had, and the tenant has had one per clear that forgot one, plus its current one.
   */
  lemma {:induction false} CreationsAreBounded(events: seq<Event>, t: Tenant, service: Service)
    ensures Creations(events, t, service) == CachesHolding(After(events).caches, t, service)
    ensures CachesOf(After(events).caches, t) == Clears(events, t) + if t in After(events).instances then 1 else 0
    ensures Creations(events, t, service) <= Clears(events, t) + 1
  {
    if events != [] {
      var earlier := events[..|events| - 1];
      CreationsAreBounded(earlier, t, service);
      RunIsConsistent(earlier);
      ApplyCountsHolding(After(earlier), events[|events| - 1], t, service);
      ApplyCountsCaches(After(earlier), events[|events| - 1], t, service);
    }
    HoldingIsBounded(After(events).caches, t, service);
  }

  lemma {:induction false} OwnedIsCounted(caches: seq<TenantCache>, t: Tenant, c: nat)
    requires c < |caches| && caches[c].owner == t
    ensures CachesOf(caches, t) >= 1
  {
    if c < |caches| - 1 {
      OwnedIsCounted(caches[..|caches| - 1], t, c);
    }
  }

  lemma {:induction false} TwoOwnedAreCounted(caches: seq<TenantCache>, t: Tenant, c: nat, d: nat)
    requires c < d < |caches| && caches[c].owner == t && caches[d].owner == t
    ensures CachesOf(caches, t) >= 2
  {
    if d == |caches| - 1 {
      OwnedIsCounted(caches[..d], t, c);
    } else {
      TwoOwnedAreCounted(caches[..|caches| - 1], t, c, d);
    }
  }

  /**
   While a tenant is never cleared, its creator completes at most once per service and every call
   returns that one object.
   */
  lemma {:induction false} ServiceIsUniqueWithoutClears(events: seq<Event>, a: CallId, b: CallId)
    requires a in After(events).calls && b in After(events).calls
    requires After(events).calls[a].Returned? && After(events).calls[b].Returned?
    requires After(events).calls[a].tenant == After(events).calls[b].tenant
    requires After(events).calls[a].service == After(events).calls[b].service
    requires Clears(events, After(events).calls[a].tenant) == 0
    ensures After(events).calls[a].instance == After(events).calls[b].instance
    ensures Creations(events, After(events).calls[a].tenant, After(events).calls[a].service) == 1
  {
    var s := After(events);
    var Returned(t, service, c, _) := s.calls[a];
    var d := s.calls[b].cache;
    RunIsConsistent(events);
    CreationsAreBounded(events, t, service);
    if c != d {
      TwoOwnedAreCounted(s.caches, t, if c < d then c else d, if c < d then d else c);
    }
    HeldIsCounted(s.caches, t, service, c);
  }

  lemma {:induction false} HeldIsCounted(caches: seq<TenantCache>, t: Tenant, service: Service, c: nat)
    requires c < |caches| && caches[c].owner == t && service in caches[c].services
    ensures CachesHolding(caches, t, service) >= 1
  {
    if c < |caches| - 1 {
      HeldIsCounted(caches[..|caches| - 1], t, service, c);
    }
  }

  // ---------------------------------------------------------------------------------------------
  // When two calls share an object
  // ---------------------------------------------------------------------------------------------

  /** Every object held was made by a run of a creator that is over. */
  ghost predicate SerialsAreUsed(s: State) {
    forall c: nat, v :: Holds(s, c, v) ==> s.caches[c].services[v].serial < s.made
  }

  /** No creator run is held in two places. */
  ghost predicate SerialsDiffer(s: State) {
    forall c: nat, d: nat, v, w ::
      Holds(s, c, v) && Holds(s, d, w) && s.caches[c].services[v].serial == s.caches[d].services[w].serial ==>
        c == d && v == w
  }

  lemma {:induction false} FillKeepsSerials(s: State, e: Event)
    requires SerialsAreUsed(s) && SerialsDiffer(s) && e.Fill?
    ensures SerialsAreUsed(FillStep(s, e)) && SerialsDiffer(FillStep(s, e))
  {
    var s' := FillStep(s, e);
    if RunsCreator(s, e) && !e.creatorRaises {
      var at, made := s.calls[e.id].cache, s.calls[e.id].service;
      forall c: nat, v | Holds(s', c, v)
        ensures if c == at && v == made then s'.caches[c].services[v].serial == s.made
                else Holds(s, c, v) && s'.caches[c].services[v] == s.caches[c].services[v]
      {
      }
    } else {
      SerialsDependOnCaches(s, s');
    }
  }

  lemma {:induction false} SerialsDependOnCaches(s: State, s': State)
    requires SerialsAreUsed(s) && SerialsDiffer(s) && s'.caches == s.caches && s'.made >= s.made
    ensures SerialsAreUsed(s') && SerialsDiffer(s')
  {
    forall c: nat, v ensures Holds(s', c, v) == Holds(s, c, v) {
    }
  }

  lemma {:induction false} FetchKeepsSerials(s: State, id: CallId)
    requires SerialsAreUsed(s) && SerialsDiffer(s)
    ensures SerialsAreUsed(FetchStep(s, id)) && SerialsDiffer(FetchStep(s, id))
  {
    var s' := FetchStep(s, id);
    forall c: nat, v | Holds(s', c, v) ensures Holds(s, c, v) && s'.caches[c] == s.caches[c] {
    }
  }

  lemma {:induction false} RunKeepsSerials(events: seq<Event>)
    ensures SerialsAreUsed(After(events)) && SerialsDiffer(After(events))
  {
    if events != [] {
      var s, e := After(events[..|events| - 1]), events[|events| - 1];
      RunKeepsSerials(events[..|events| - 1]);
      match e
      case Fetch(id) => FetchKeepsSerials(s, id);
      case Fill(_, _) => FillKeepsSerials(s, e);
      case _ =>
        assert Apply(s, e).caches == s.caches && Apply(s, e).made == s.made;
        SerialsDependOnCaches(s, Apply(s, e));
    }
  }

  ghost predicate IsReturned(s: State, id: CallId) { id in s.calls && s.calls[id].Returned? }

  /**
   Two calls return the same object if and only if they fetched the same dictionary for the same
   service, whatever is cleared.
   */
  lemma {:induction false} SameInstanceIff(events: seq<Event>, a: CallId, b: CallId)
    requires IsReturned(After(events), a) && IsReturned(After(events), b)
    ensures var x, y := After(events).calls[a], After(events).calls[b];
      x.instance == y.instance <==> x.cache == y.cache && x.service == y.service
  {
    var s := After(events);
    RunIsConsistent(events);
    RunKeepsSerials(events);
    assert CallFits(s, s.calls[a]) && CallFits(s, s.calls[b]);
  }

  predicate Forgets(e: Event, t: Tenant) { e == ClearTenant(t) || e == ClearAll }

  ghost predicate HasCache(call: Call) { call.Fetched? || call.Filled? || call.Returned? }

  /** The call still has that dictionary, or has ended without a result. */
  ghost predicate Keeps(call: Call, later: Call) {
    || (HasCache(call) && HasCache(later) && later.tenant == call.tenant && later.service == call.service &&
      later.cache == call.cache)
    || later.CreatorRaised? || later.KeyMissing?
  }

  lemma {:induction false} StepKeepsCache(s: State, e: Event, id: CallId, call: Call)
    requires id in s.calls && Keeps(call, s.calls[id])
    ensures id in Apply(s, e).calls && Keeps(call, Apply(s, e).calls[id])
  {
  }

  /** The state that event `n` of a run meets. */
  ghost function At(events: seq<Event>, n: nat): State
    requires n <= |events|
  {
    After(events[..n])
  }

  lemma {:induction false} AtStep(events: seq<Event>, n: nat)
    requires n < |events|
    ensures At(events, n + 1) == Apply(At(events, n), events[n])
  {
    assert events[..n + 1][..n] == events[..n];
  }

  /** A call keeps the dictionary it fetched, unless it ends without a result. */
  lemma {:induction false} CacheStays(events: seq<Event>, n: nat, m: nat, id: CallId)
    requires n <= m <= |events| && id in At(events, n).calls && HasCache(At(events, n).calls[id])
    ensures id in At(events, m).calls && Keeps(At(events, n).calls[id], At(events, m).calls[id])
  {
    if n < m {
      CacheStays(events, n, m - 1, id);
      AtStep(events, m - 1);
      StepKeepsCache(At(events, m - 1), events[m - 1], id, At(events, n).calls[id]);
    }
  }

  ghost predicate Binds(s: State, t: Tenant, c: nat) { t in s.instances && s.instances[t] == c }

  /** Without a clear of the tenant its dictionary stays in place. */
  lemma {:induction false} BindingStays(events: seq<Event>, n: nat, m: nat, t: Tenant, c: nat)
    requires n <= m <= |events| && Binds(At(events, n), t, c)
    requires forall k :: n <= k < m ==> !Forgets(events[k], t)
    ensures Binds(At(events, m), t, c)
  {
    if n < m {
      BindingStays(events, n, m - 1, t, c);
      AtStep(events, m - 1);
    }
  }

  /** The tenant has none of the first `c` dictionaries. */
  ghost predicate IsRenewed(s: State, t: Tenant, c: nat) {
    c <= |s.caches| && (t in s.instances ==> s.instances[t] >= c)
  }

  lemma {:induction false} RenewalStays(events: seq<Event>, n: nat, m: nat, t: Tenant, c: nat)
    requires n <= m <= |events| && IsRenewed(At(events, n), t, c)
    ensures IsRenewed(At(events, m), t, c)
  {
    if n < m {
      RenewalStays(events, n, m - 1, t, c);
      AtStep(events, m - 1);
    }
  }

  lemma {:induction false} CachesGrow(events: seq<Event>, n: nat, m: nat)
    requires n <= m <= |events|
    ensures |At(events, n).caches| <= |At(events, m).caches|
  {
    if n < m {
      CachesGrow(events, n, m - 1);
      AtStep(events, m - 1);
    }
  }

  /** Event `i` is the fetch of a call. */
  ghost predicate FetchesAt(events: seq<Event>, i: nat, id: CallId) {
    i < |events| && events[i] == Fetch(id) && id in At(events, i).calls && At(events, i).calls[id].Started?
  }

  ghost function TenantAt(events: seq<Event>, i: nat, id: CallId): Tenant
    requires FetchesAt(events, i, id)
  {
    At(events, i).calls[id].tenant
  }

  /** The dictionary that the fetch at event `i` gets: the tenant's own, or else the next new one. */
  ghost function FetchedAt(events: seq<Event>, i: nat, id: CallId): nat
    requires FetchesAt(events, i, id)
  {
    var s, t := At(events, i), TenantAt(events, i, id);
    if t in s.instances then s.instances[t] else |s.caches|
  }

  lemma {:induction false} FetchBinds(events: seq<Event>, i: nat, id: CallId)
    requires FetchesAt(events, i, id)
    ensures Binds(At(events, i + 1), TenantAt(events, i, id), FetchedAt(events, i, id))
    ensures id in At(events, i + 1).calls
    ensures var call := At(events, i + 1).calls[id];
      call.Fetched? && call.tenant == TenantAt(events, i, id) && call.cache == FetchedAt(events, i, id)
  {
    AtStep(events, i);
  }

  lemma {:induction false} UnclearedFetchesShare(events: seq<Event>, i: nat, j: nat, a: CallId, b: CallId)
    requires i < j && FetchesAt(events, i, a) && FetchesAt(events, j, b) &&
      TenantAt(events, i, a) == TenantAt(events, j, b)
    requires forall k :: i < k < j ==> !Forgets(events[k], TenantAt(events, i, a))
    ensures FetchedAt(events, i, a) == FetchedAt(events, j, b)
  {
    FetchBinds(events, i, a);
    BindingStays(events, i + 1, j, TenantAt(events, i, a), FetchedAt(events, i, a));
  }

  lemma {:induction false} ClearedFetchesDiffer(events: seq<Event>, i: nat, k: nat, j: nat, a: CallId, b: CallId)
    requires i < k < j && FetchesAt(events, i, a) && FetchesAt(events, j, b) &&
      TenantAt(events, i, a) == TenantAt(events, j, b)
    requires Forgets(events[k], TenantAt(events, i, a))
    ensures FetchedAt(events, i, a) != FetchedAt(events, j, b)
  {
    var t, c := TenantAt(events, i, a), FetchedAt(events, i, a);
    FetchBinds(events, i, a);
    ClearRenews(events, i + 1, k, t, c);
    RenewalStays(events, k + 1, j, t, c + 1);
  }

  /** After a clear of its tenant, a dictionary is out of reach of every later fetch. */
  lemma {:induction false} ClearRenews(events: seq<Event>, n: nat, k: nat, t: Tenant, c: nat)
    requires n <= k < |events| && Forgets(events[k], t) && Binds(At(events, n), t, c)
    ensures IsRenewed(At(events, k + 1), t, c + 1)
  {
    RunIsConsistent(events[..n]);
    CachesGrow(events, n, k);
    AtStep(events, k);
  }

  /**
   Two calls for one tenant's service return the same object if and only if the tenant was not cleared
   between their two fetches, whatever was cleared before or after.
   */
  lemma {:induction false} SharedIffNotClearedBetween(events: seq<Event>, i: nat, j: nat, a: CallId, b: CallId)
    requires i < j && FetchesAt(events, i, a) && FetchesAt(events, j, b)
    requires IsReturned(After(events), a) && IsReturned(After(events), b)
    requires After(events).calls[a].tenant == After(events).calls[b].tenant
    requires After(events).calls[a].service == After(events).calls[b].service
    ensures After(events).calls[a].instance == After(events).calls[b].instance
            <==> forall k :: i < k < j ==> !Forgets(events[k], After(events).calls[a].tenant)
  {
    ReturnsWhatItFetched(events, i, a);
    ReturnsWhatItFetched(events, j, b);
    SameInstanceIff(events, a, b);
    var t := TenantAt(events, i, a);
    if forall k :: i < k < j ==> !Forgets(events[k], t) {
      UnclearedFetchesShare(events, i, j, a, b);
    } else {
      var k :| i < k < j && Forgets(events[k], t);
      ClearedFetchesDiffer(events, i, k, j, a, b);
    }
  }

  lemma {:induction false} ReturnsWhatItFetched(events: seq<Event>, i: nat, id: CallId)
    requires FetchesAt(events, i, id) && IsReturned(After(events), id)
    ensures var call := After(events).calls[id];
      call.tenant == TenantAt(events, i, id) && call.cache == FetchedAt(events, i, id)
  {
    FetchBinds(events, i, id);
    CacheStays(events, i + 1, |events|, id);
    assert events[..|events|] == events;
  }

  // ---------------------------------------------------------------------------------------------
  // The bound is reached
  // ---------------------------------------------------------------------------------------------

  /** One whole call, undisturbed. */
  ghost function Serve(id: CallId, t: Tenant, service: Service): seq<Event> {
    [Begin(id, t, service), Fetch(id), Fill(id, false), Read(id)]
  }

  ghost function Served(s: State, id: CallId, t: Tenant, service: Service): State {
    var o := Instance(t, service, s.made);
    State(s.instances[t := |s.caches|], s.caches + [TenantCache(t, map[service := o])], s.made + 1,
          s.calls[id := Returned(t, service, |s.caches|, o)])
  }

  lemma {:induction false} AfterAppend(events: seq<Event>, e: Event)
    ensures After(events + [e]) == Apply(After(events), e)
  {
    assert (events + [e])[..|events|] == events;
  }

  lemma {:induction false} AfterServe(events: seq<Event>, id: CallId, t: Tenant, service: Service)
    requires id !in After(events).calls && t !in After(events).instances
    ensures After(events + Serve(id, t, service)) == Served(After(events), id, t, service)
  {
    var s := After(events);
    var n := |s.caches|;
    var e1, e2, e3, e4 := events + [Begin(id, t, service)], events + [Begin(id, t, service)] + [Fetch(id)],
                          events + [Begin(id, t, service)] + [Fetch(id)] + [Fill(id, false)], events
                            + Serve(id, t, service);
    AfterAppend(events, Begin(id, t, service));
    AfterAppend(e1, Fetch(id));
    var s2 := State(s.instances[t := n], s.caches + [TenantCache(t, map[])], s.made,
      s.calls[id := Fetched(t, service, n)]);
    assert After(e2) == s2 by {
      assert s.calls[id := Started(t, service)][id := Fetched(t, service, n)] == s.calls[id := Fetched(t, service, n)];
    }
    AfterAppend(e2, Fill(id, false));
    ServeFills(s2, id, t, service, n);
    assert e4 == e3 + [Read(id)];
    AfterAppend(e3, Read(id));
    assert (s.caches + [TenantCache(t, map[])])[n := TenantCache(t, map[service := Instance(t, service, s.made)])]
           == s.caches + [TenantCache(t, map[service := Instance(t, service, s.made)])];
  }

  lemma {:induction false} ServeFills(s: State, id: CallId, t: Tenant, service: Service, n: nat)
    requires n < |s.caches| && s.caches[n] == TenantCache(t, map[]) && id in s.calls &&
      s.calls[id] == Fetched(t, service, n)
    ensures var cache := TenantCache(t, map[service := Instance(t, service, s.made)]);
      Apply(Apply(s, Fill(id, false)), Read(id))
      == State(s.instances, s.caches[n := cache], s.made + 1,
        s.calls[id := Returned(t, service, n, Instance(t, service, s.made))])
  {
  }

  /** `n` whole calls for one service, each followed by a clear of its tenant. */
  ghost function Rounds(n: nat, t: Tenant, service: Service): seq<Event> {
    if n == 0 then [] else Rounds(n - 1, t, service) + Serve(n - 1, t, service) + [ClearTenant(t)]
  }

  lemma {:induction false} AfterRound(events: seq<Event>, id: CallId, t: Tenant, service: Service)
    requires id !in After(events).calls && t !in After(events).instances
    ensures var s, s' := After(events), After(events + Serve(id, t, service) + [ClearTenant(t)]);
      && t !in s'.instances && s'.made == s.made + 1
      && s'.calls == s.calls[id := Returned(t, service, |s.caches|, Instance(t, service, s.made))]
  {
    AfterServe(events, id, t, service);
    AfterAppend(events + Serve(id, t, service), ClearTenant(t));
  }

  /** Calls 0 up to `n` have returned, each with the object of its own number. */
  ghost predicate AllReturned(calls: map<CallId, Call>, n: nat, t: Tenant, service: Service) {
    && (forall id: CallId :: id in calls <==> id < n)
    && (forall id :: id in calls ==> calls[id].Returned? && calls[id].instance == Instance(t, service, id))
  }

  lemma {:induction false} OneMoreReturned(calls: map<CallId, Call>, n: nat, t: Tenant, service: Service, cache: nat)
    requires AllReturned(calls, n, t, service)
    ensures AllReturned(calls[n := Returned(t, service, cache, Instance(t, service, n))], n + 1, t, service)
  {
  }

  /** `n` calls are over, the creator ran for each, and the tenant has no dictionary. */
  ghost predicate AllServed(s: State, n: nat, t: Tenant, service: Service) {
    t !in s.instances && s.made == n && AllReturned(s.calls, n, t, service)
  }

  lemma {:induction false} OneMoreRound(events: seq<Event>, n: nat, t: Tenant, service: Service)
    requires AllServed(After(events), n, t, service)
    ensures AllServed(After(events + Serve(n, t, service) + [ClearTenant(t)]), n + 1, t, service)
  {
    var s := After(events);
    AfterRound(events, n, t, service);
    OneMoreReturned(s.calls, n, t, service, |s.caches|);
  }

  /** Each clear can cost one more object: `n` calls with a clear after each return `n` different objects. */
  lemma {:induction false} ClearsForceNewInstances(n: nat, t: Tenant, service: Service)
    ensures AllServed(After(Rounds(n, t, service)), n, t, service)
  {
    if n > 0 {
      ClearsForceNewInstances(n - 1, t, service);
      OneMoreRound(Rounds(n - 1, t, service), n - 1, t, service);
    }
  }
}
