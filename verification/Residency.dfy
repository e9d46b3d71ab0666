/**
 * Byte-budgeted residency as a concurrent step system: one event per critical
 * section or atomic update of the manager, its reservations and its leases.
 */
module Residency {
  import opened Accesses
  import opened Recency
  import opened Totals

  const U64_MAX: nat := 0xFFFF_FFFF_FFFF_FFFF

  type Key = string

  /**
   * A cached unit. Flights, the reservations they make and the resources they
   * produce share one identity, since each flight yields at most one resource.
   */
  datatype Resource = Resource(key: Key, bytes: nat, idle: bool, idleSince: Option<nat>)

  datatype Entry = Loading(flight: nat) | Ready(resource: nat, used: nat)

  datatype Stage = Running | Built | Failed

  /** An elected loader that has not published yet. */
  datatype Load = Load(key: Key, stage: Stage)

  datatype Kind = Lease | Pin | Unpinned | Keepalive

  /** One strong reference outside the registry. */
  datatype Owner = Owner(resource: nat, kind: Kind)

  datatype Ledger = Ledger(
    limit: nat,
    used: nat,                       // the atomic byte counter
    charges: map<nat, nat>,          // every live reservation
    standalone: set<nat>)            // those made through a budget handle

  datatype Registry = Registry(
    alive: bool,                     // the manager has not been dropped
    timeout: Option<nat>,
    entries: map<Key, Entry>,
    clock: nat,
    evictions: nat)

  datatype Loaders = Loaders(
    loads: map<nat, Load>,
    flights: map<nat, bool>,         // published flights still referenced; true if they hold a resource
    waiters: map<nat, nat>)          // callers sharing a flight

  datatype Values = Values(
    resources: map<nat, Resource>,   // values whose destructor has not finished
    owners: map<nat, Owner>,
    pins: map<nat, nat>,             // what each resource's pin counter counts
    retiring: set<nat>)              // evicted resources not dropped yet

  datatype State = State(ledger: Ledger, registry: Registry, loaders: Loaders, values: Values)

  // ---------- observations ----------

  /** Some strong reference besides the registry's own. */
  predicate Held(s: State, r: nat) {
    || (exists t :: t in s.values.owners && s.values.owners[t].resource == r)
    || (r in s.loaders.flights && s.loaders.flights[r])
  }

  predicate Mapped(g: Registry, k: Key, r: nat) {
    k in g.entries && g.entries[k].Ready? && g.entries[k].resource == r
  }

  predicate Resident(s: State, r: nat) {
    r in s.values.resources && Mapped(s.registry, s.values.resources[r].key, r)
  }

  /** Sole reference, no pins and idle by the resource's own account. */
  predicate Evictable(s: State, r: nat) {
    && Resident(s, r) && !Held(s, r) && s.values.resources[r].idle
    && forall t :: t in s.values.pins ==> s.values.pins[t] != r
  }

  predicate EvictableKey(s: State, k: Key) {
    k in s.registry.entries && s.registry.entries[k].Ready? && Evictable(s, s.registry.entries[k].resource)
  }

  /**
   * What a victim scan guarantees when it removes an entry. References may drop
   * while it reads the entries one by one, so the rest of its rule, idle and least
   * recently used, holds of the moments at which it read.
   */
  predicate Unclaimed(s: State, k: Key) {
    && k in s.registry.entries && s.registry.entries[k].Ready? && !Held(s, s.registry.entries[k].resource)
    && forall t :: t in s.values.pins ==> s.values.pins[t] != s.registry.entries[k].resource
  }

  /** The evictable entries and their last use. */
  function Candidates(s: State): map<Key, nat> {
    map k | k in s.registry.entries && EvictableKey(s, k) :: s.registry.entries[k].used
  }

  ghost predicate LeastRecentlyUsed(s: State, k: Key) {
    Oldest(Candidates(s), k)
  }

  /** The last strong reference is gone and the destructor may run. */
  ghost predicate Unreferenced(s: State, r: nat) {
    r in s.values.resources && !Resident(s, r) && !Held(s, r) && r !in s.values.retiring && r !in s.loaders.loads
  }

  ghost predicate Fresh(s: State, id: nat) {
    && id !in s.ledger.charges && id !in s.ledger.standalone
    && id !in s.loaders.loads && id !in s.loaders.flights && id !in s.loaders.waiters
    && id !in s.values.resources && id !in s.values.owners && id !in s.values.pins && id !in s.values.retiring
  }

  predicate Fits(s: State, bytes: nat) {
    s.ledger.used + bytes <= s.ledger.limit
  }

  // ---------- reservations and destruction ----------

  datatype BudgetEvent =
    | Reserve(id: nat, bytes: nat)     // the atomic update of a budget reservation
    | Release(id: nat)                 // a reservation guard is dropped
    | DropVictim(resource: nat)        // the evicting thread drops its reference
    | Destroy(resource: nat)           // a destructor finished: release the charge

  function Less(x: nat, y: nat): nat {
    if y <= x then x - y else 0
  }

  /** Drop one reservation and give its bytes back. */
  function Freed(l: Ledger, id: nat): Ledger {
    if id in l.charges then l.(used := Less(l.used, l.charges[id]), charges := l.charges - {id}) else l
  }

  ghost predicate BudgetEnabled(s: State, e: BudgetEvent) {
    match e
    case Reserve(id, bytes) => Fresh(s, id) && Fits(s, bytes)
    case Release(id) => id in s.ledger.standalone
    case DropVictim(r) => r in s.values.retiring
    case Destroy(r) => Unreferenced(s, r)
  }

  ghost function BudgetStep(s: State, e: BudgetEvent): State {
    match e
    case Reserve(id, bytes) =>
      s.(ledger := s.ledger.(used := s.ledger.used + bytes, charges := s.ledger.charges[id := bytes],
                             standalone := s.ledger.standalone + {id}))
    case Release(id) => s.(ledger := Freed(s.ledger, id).(standalone := s.ledger.standalone - {id}))
    case DropVictim(r) => s.(values := s.values.(retiring := s.values.retiring - {r}))
    case Destroy(r) => s.(ledger := Freed(s.ledger, r), values := s.values.(resources := s.values.resources - {r}))
  }

  // ---------- critical sections of the registry ----------

  datatype RegistryEvent =
    | Hit(key: Key, typed: bool, lease: nat)     // a ready entry; a wrong type takes no lease
    | Join(key: Key, waiter: nat)
    | Elect(key: Key, peak: nat, flight: nat)
    | NoRoom(key: Key)                           // the peak did not fit and the scan found nothing
    | LoadEvict(key: Key, victim: Key)           // the peak did not fit and the scan found a victim
    | EvictIdle(victim: Key)                     // capacity eviction while reserving
    | Evict(victim: Key)                         // explicit eviction
    | Sweep(now: nat)
    | DropManager

  function Tick(g: Registry): Registry {
    g.(clock := if g.clock < U64_MAX then g.clock + 1 else g.clock)
  }

  function Activated(r: Resource): Resource {
    r.(idleSince := None)
  }

  /** A new lease marks the resource active. */
  function Leased(v: Values, r: nat, lease: nat): Values {
    if r in v.resources
    then v.(owners := v.owners[lease := Owner(r, Lease)], resources := v.resources[r := Activated(v.resources[r])])
    else v
  }

  /** Remove entries, moving the registry's references to the evicting thread. */
  function Removed(s: State, victims: set<Key>): State {
    s.(registry := s.registry.(entries := s.registry.entries - victims, evictions := s.registry.evictions + |victims|),
       values := s.values.(retiring := s.values.retiring +
         set k | k in victims && k in s.registry.entries && s.registry.entries[k].Ready? :: s.registry.entries[k].resource))
  }

  function Elapsed(now: nat, since: nat): nat {
    if now >= since then now - since else 0
  }

  /** The idle mark a resident resource carries after a sweep at `now`. */
  function Marked(s: State, r: nat, now: nat): Option<nat>
    requires r in s.values.resources
  {
    if !Evictable(s, r) then None
    else if s.values.resources[r].idleSince.Some? then s.values.resources[r].idleSince
    else Some(now)
  }

  predicate Expired(s: State, k: Key, now: nat) {
    && EvictableKey(s, k) && s.registry.timeout.Some?
    && var since := Marked(s, s.registry.entries[k].resource, now);
       since.Some? && Elapsed(now, since.value) >= s.registry.timeout.value
  }

  ghost function ExpiredKeys(s: State, now: nat): set<Key> {
    set k | k in s.registry.entries && Expired(s, k, now)
  }

  /** Record who is idle now. */
  ghost function Noted(s: State, now: nat): State {
    s.(values := s.values.(resources :=
         map r | r in s.values.resources ::
           if Resident(s, r) then s.values.resources[r].(idleSince := Marked(s, r, now)) else s.values.resources[r]))
  }

  ghost predicate RegistryEnabled(s: State, e: RegistryEvent) {
    && s.registry.alive
    && match e
       case Hit(k, _, lease) => k in s.registry.entries && s.registry.entries[k].Ready? && Fresh(s, lease)
       case Join(k, waiter) => k in s.registry.entries && s.registry.entries[k].Loading? && Fresh(s, waiter)
       case Elect(k, peak, flight) => k !in s.registry.entries && Fits(s, peak) && Fresh(s, flight)
       case NoRoom(k) => k !in s.registry.entries
       case LoadEvict(k, victim) => k !in s.registry.entries && Unclaimed(s, victim)
       case EvictIdle(victim) => Unclaimed(s, victim)
       case Evict(victim) => EvictableKey(s, victim)
       case Sweep(_) => true
       case DropManager => s.loaders.loads == map[] && s.loaders.waiters == map[]
  }

  ghost function RegistryStep(s: State, e: RegistryEvent): State
    requires RegistryEnabled(s, e)
  {
    match e
    case Hit(k, typed, lease) =>
      var r, g := s.registry.entries[k].resource, Tick(s.registry);
      s.(registry := g.(entries := g.entries[k := Ready(r, g.clock)]),
         values := if typed then Leased(s.values, r, lease) else s.values)
    case Join(k, waiter) =>
      s.(registry := Tick(s.registry),
         loaders := s.loaders.(waiters := s.loaders.waiters[waiter := s.registry.entries[k].flight]))
    case Elect(k, peak, flight) =>
      s.(registry := Tick(s.registry).(entries := s.registry.entries[k := Loading(flight)]),
         loaders := s.loaders.(loads := s.loaders.loads[flight := Load(k, Running)]),
         ledger := s.ledger.(used := s.ledger.used + peak, charges := s.ledger.charges[flight := peak]))
    case NoRoom(_) => s.(registry := Tick(s.registry))
    case LoadEvict(_, victim) => Removed(s.(registry := Tick(s.registry)), {victim})
    case EvictIdle(victim) => Removed(s, {victim})
    case Evict(victim) => Removed(s, {victim})
    case Sweep(now) => if s.registry.timeout.None? then s else Removed(Noted(s, now), ExpiredKeys(s, now))
    case DropManager => s.(registry := s.registry.(alive := false, entries := map[]))
  }

  // ---------- loaders ----------

  datatype LoaderEvent =
    | LoaderDone(flight: nat, bytes: nat, lease: nat)   // shrink the reservation to the resident size
    | LoaderFailed(flight: nat)
    | Publish(flight: nat)

  ghost predicate LoaderEnabled(s: State, e: LoaderEvent) {
    match e
    case LoaderDone(f, bytes, lease) =>
      && f in s.loaders.loads && s.loaders.loads[f].stage == Running
      && f in s.ledger.charges && bytes <= s.ledger.charges[f] && Fresh(s, lease)
    case LoaderFailed(f) => f in s.loaders.loads && s.loaders.loads[f].stage == Running
    case Publish(f) => f in s.loaders.loads && s.loaders.loads[f].stage != Running
  }

  ghost function LoaderStep(s: State, e: LoaderEvent): State
    requires LoaderEnabled(s, e)
  {
    match e
    case LoaderDone(f, bytes, lease) =>
      s.(ledger := s.ledger.(used := Less(s.ledger.used, s.ledger.charges[f] - bytes), charges := s.ledger.charges[f := bytes]),
         loaders := s.loaders.(loads := s.loaders.loads[f := s.loaders.loads[f].(stage := Built)]),
         values := s.values.(resources := s.values.resources[f := Resource(s.loaders.loads[f].key, bytes, true, None)],
                             owners := s.values.owners[lease := Owner(f, Lease)]))
    case LoaderFailed(f) =>
      s.(ledger := Freed(s.ledger, f),
         loaders := s.loaders.(loads := s.loaders.loads[f := s.loaders.loads[f].(stage := Failed)]))
    case Publish(f) =>
      var k, ok := s.loaders.loads[f].key, s.loaders.loads[f].stage == Built;
      s.(loaders := s.loaders.(loads := s.loaders.loads - {f}, flights := s.loaders.flights[f := ok]),
         registry := s.registry.(entries := if ok then s.registry.entries[k := Ready(f, s.registry.clock)]
                                            else s.registry.entries - {k}))
  }

  // ---------- strong references ----------

  datatype ReferenceEvent =
    | TakeOutcome(waiter: nat, typed: bool, lease: nat)
    | DropFlight(flight: nat)
    | MarkActive(owner: nat)
    | Retain(owner: nat, kind: Kind, token: nat)   // clone a lease, pin, or keep alive
    | Unpin(owner: nat)
    | DropOwner(owner: nat)
    | SetIdle(resource: nat, idle: bool)           // native work starts or drains

  ghost predicate ReferenceEnabled(s: State, e: ReferenceEvent) {
    match e
    case TakeOutcome(w, _, lease) => w in s.loaders.waiters && s.loaders.waiters[w] in s.loaders.flights && Fresh(s, lease)
    case DropFlight(f) => f in s.loaders.flights && forall w :: w in s.loaders.waiters ==> s.loaders.waiters[w] != f
    case MarkActive(t) => t in s.values.owners && s.values.owners[t].kind == Lease
    case Retain(t, kind, token) =>
      && t in s.values.owners && s.values.owners[t].resource !in s.loaders.loads && kind != Unpinned && Fresh(s, token)
      && (s.values.owners[t].kind == Lease || (s.values.owners[t].kind == Keepalive && kind == Keepalive))
    case Unpin(t) => t in s.values.owners && s.values.owners[t].kind == Pin
    case DropOwner(t) => t in s.values.owners && s.values.owners[t].kind != Pin && s.values.owners[t].resource !in s.loaders.loads
    case SetIdle(r, _) => r in s.values.resources
  }

  function Changed(v: Values, r: nat, f: Resource -> Resource): Values {
    if r in v.resources then v.(resources := v.resources[r := f(v.resources[r])]) else v
  }

  ghost function ReferenceStep(s: State, e: ReferenceEvent): State
    requires ReferenceEnabled(s, e)
  {
    match e
    case TakeOutcome(w, typed, lease) =>
      var f := s.loaders.waiters[w];
      s.(loaders := s.loaders.(waiters := s.loaders.waiters - {w}),
         values := if typed && s.loaders.flights[f] then Leased(s.values, f, lease) else s.values)
    case DropFlight(f) => s.(loaders := s.loaders.(flights := s.loaders.flights - {f}))
    case MarkActive(t) => s.(values := Changed(s.values, s.values.owners[t].resource, r => Activated(r)))
    case Retain(t, kind, token) =>
      var r := s.values.owners[t].resource;
      var v := s.values.(owners := s.values.owners[token := Owner(r, kind)]);
      s.(values := if kind == Pin then v.(pins := v.pins[token := r]) else v)
    case Unpin(t) =>
      s.(values := s.values.(owners := s.values.owners[t := s.values.owners[t].(kind := Unpinned)],
                             pins := s.values.pins - {t}))
    case DropOwner(t) => s.(values := s.values.(owners := s.values.owners - {t}))
    case SetIdle(r, idle) => s.(values := Changed(s.values, r, (x: Resource) => x.(idle := idle)))
  }

  // ---------- runs ----------

  datatype Event =
    | OnBudget(budget: BudgetEvent)
    | OnRegistry(registry: RegistryEvent)
    | OnLoader(loader: LoaderEvent)
    | OnReference(reference: ReferenceEvent)

  ghost predicate Enabled(s: State, e: Event) {
    match e
    case OnBudget(b) => BudgetEnabled(s, b)
    case OnRegistry(g) => RegistryEnabled(s, g)
    case OnLoader(l) => LoaderEnabled(s, l)
    case OnReference(r) => ReferenceEnabled(s, r)
  }

  ghost function Step(s: State, e: Event): State
    requires Enabled(s, e)
  {
    match e
    case OnBudget(b) => BudgetStep(s, b)
    case OnRegistry(g) => RegistryStep(s, g)
    case OnLoader(l) => LoaderStep(s, l)
    case OnReference(r) => ReferenceStep(s, r)
  }

  ghost function Initial(limit: nat, timeout: Option<nat>): State {
    State(Ledger(limit, 0, map[], {}), Registry(true, timeout, map[], 0, 0), Loaders(map[], map[], map[]), Values(map[], map[], map[], {}))
  }

  // ---------- what every step keeps ----------

  ghost function LoadingNow(f: Loaders): set<nat> {
    set l | l in f.loads && f.loads[l].stage == Running
  }

  /** The counter is the sum of the live reservations, within the limit. */
  ghost predicate Conserved(s: State) {
    s.ledger.used == Total(s.ledger.charges) && s.ledger.used <= s.ledger.limit
  }

  /** Reservations belong to budget guards, running loaders and live values, and a value holds its size. */
  ghost predicate Charged(s: State) {
    && s.ledger.charges.Keys == s.ledger.standalone + LoadingNow(s.loaders) + s.values.resources.Keys
    && s.ledger.standalone !! s.loaders.loads.Keys && s.ledger.standalone !! s.values.resources.Keys
    && (forall f :: f in s.loaders.loads ==> (f in s.values.resources <==> s.loaders.loads[f].stage == Built))
    && (forall r :: r in s.values.resources ==> s.ledger.charges[r] == s.values.resources[r].bytes)
  }

  /** Entries point at the loader or the live value of their key, and loaders own their key's entry. */
  ghost predicate Registered(s: State) {
    && (forall k :: k in s.registry.entries && s.registry.entries[k].Ready? ==>
          var r := s.registry.entries[k].resource;
          r in s.values.resources && s.values.resources[r].key == k && r !in s.loaders.loads && r !in s.values.retiring)
    && (forall k :: k in s.registry.entries && s.registry.entries[k].Loading? ==>
          s.registry.entries[k].flight in s.loaders.loads && s.loaders.loads[s.registry.entries[k].flight].key == k)
    && (forall f :: f in s.loaders.loads ==>
          && s.registry.alive && s.loaders.loads[f].key in s.registry.entries
          && s.registry.entries[s.loaders.loads[f].key] == Loading(f) && f !in s.loaders.flights && f !in s.values.retiring)
    && (forall f :: f in s.loaders.loads && f in s.values.resources ==> s.values.resources[f].key == s.loaders.loads[f].key)
    && (!s.registry.alive ==> s.registry.entries == map[])
  }

  /** A strong reference keeps its value alive. */
  ghost predicate KeepsAlive(s: State) {
    && (forall t :: t in s.values.owners ==> s.values.owners[t].resource in s.values.resources)
    && (forall f :: f in s.loaders.flights && s.loaders.flights[f] ==> f in s.values.resources)
    && s.values.retiring <= s.values.resources.Keys
  }

  /** Every waiter's flight is still loading or has an outcome to hand over. */
  ghost predicate WaitersServed(s: State) {
    forall w :: w in s.loaders.waiters ==> s.loaders.waiters[w] in s.loaders.loads || s.loaders.waiters[w] in s.loaders.flights
  }

  /** Pin counts are the live pins. */
  ghost predicate PinsCounted(s: State) {
    && (forall t :: t in s.values.owners && s.values.owners[t].kind == Pin ==> t in s.values.pins)
    && (forall t :: t in s.values.pins ==> t in s.values.owners && s.values.owners[t] == Owner(s.values.pins[t], Pin))
  }

  /** While the manager lives, a published resource that anyone holds stays mapped to its key. */
  ghost predicate HeldIsResident(s: State) {
    && (forall r :: s.registry.alive && Held(s, r) && r !in s.loaders.loads ==> Resident(s, r))
    && (forall r :: r in s.values.retiring ==> !Held(s, r))
  }

  /** A running idle countdown means nobody holds the resource. */
  ghost predicate CountdownIsUnheld(s: State) {
    forall r :: r in s.values.resources && s.values.resources[r].idleSince.Some? ==> !Held(s, r) && r !in s.loaders.loads
  }

  ghost predicate Inv(s: State) {
    && Conserved(s) && Charged(s) && Registered(s) && KeepsAlive(s)
    && WaitersServed(s) && PinsCounted(s) && HeldIsResident(s) && CountdownIsUnheld(s)
  }

  // ---------- proofs, group by group ----------

  lemma {:induction false} FreedConserves(s: State, id: nat)
    requires Conserved(s) && id in s.ledger.charges
    ensures Freed(s.ledger, id).used == Total(Freed(s.ledger, id).charges) <= s.ledger.limit
  {
    TotalRemove(s.ledger.charges, id);
  }

  lemma {:induction false} BudgetKeepsLedger(s: State, e: BudgetEvent)
    requires Conserved(s) && Charged(s) && BudgetEnabled(s, e)
    ensures Conserved(BudgetStep(s, e)) && Charged(BudgetStep(s, e))
  {
    match e {
      case Reserve(id, bytes) => TotalInsert(s.ledger.charges, id, bytes);
      case Release(id) => FreedConserves(s, id);
      case DropVictim(_) =>
      case Destroy(r) => FreedConserves(s, r);
    }
  }

  lemma {:induction false} BudgetKeepsValues(s: State, e: BudgetEvent)
    requires Registered(s) && KeepsAlive(s) && WaitersServed(s) && BudgetEnabled(s, e)
    ensures Registered(BudgetStep(s, e)) && KeepsAlive(BudgetStep(s, e)) && WaitersServed(BudgetStep(s, e))
  {
  }

  lemma {:induction false} BudgetKeepsHolders(s: State, e: BudgetEvent)
    requires PinsCounted(s) && HeldIsResident(s) && CountdownIsUnheld(s) && BudgetEnabled(s, e)
    ensures PinsCounted(BudgetStep(s, e)) && HeldIsResident(BudgetStep(s, e)) && CountdownIsUnheld(BudgetStep(s, e))
  {
  }

  lemma {:induction false} RegistryKeepsLedger(s: State, e: RegistryEvent)
    requires Conserved(s) && Charged(s) && RegistryEnabled(s, e)
    ensures Conserved(RegistryStep(s, e)) && Charged(RegistryStep(s, e))
  {
    if e.Elect? {
      TotalInsert(s.ledger.charges, e.flight, e.peak);
    }
  }

  ghost predicate Evicts(e: RegistryEvent) {
    e.LoadEvict? || e.EvictIdle? || e.Evict? || e.Sweep?
  }

  lemma {:induction false} RemovalKeepsEntries(s: State, victims: set<Key>)
    requires Registered(s) && forall k :: k in victims ==> k in s.registry.entries && s.registry.entries[k].Ready?
    ensures Registered(Removed(s, victims))
  {
  }

  lemma {:induction false} NotingKeepsEntries(s: State, now: nat)
    requires Registered(s)
    ensures Registered(Noted(s, now))
  {
  }

  lemma {:induction false} RegistryKeepsEntries(s: State, e: RegistryEvent)
    requires Registered(s) && RegistryEnabled(s, e)
    ensures Registered(RegistryStep(s, e))
  {
    match e {
      case LoadEvict(_, victim) => RemovalKeepsEntries(s, {victim});
      case EvictIdle(victim) => RemovalKeepsEntries(s, {victim});
      case Evict(victim) => RemovalKeepsEntries(s, {victim});
      case Sweep(now) =>
        NotingKeepsEntries(s, now);
        RemovalKeepsEntries(Noted(s, now), ExpiredKeys(s, now));
      case _ =>
    }
  }

  lemma {:induction false} RegistryKeepsValues(s: State, e: RegistryEvent)
    requires Registered(s) && KeepsAlive(s) && WaitersServed(s) && RegistryEnabled(s, e)
    ensures KeepsAlive(RegistryStep(s, e)) && WaitersServed(RegistryStep(s, e))
  {
  }

  lemma {:induction false} RegistryKeepsPins(s: State, e: RegistryEvent)
    requires PinsCounted(s) && RegistryEnabled(s, e)
    ensures PinsCounted(RegistryStep(s, e))
  {
  }

  lemma {:induction false} RegistryKeepsCountdown(s: State, e: RegistryEvent)
    requires Registered(s) && CountdownIsUnheld(s) && RegistryEnabled(s, e)
    ensures CountdownIsUnheld(RegistryStep(s, e))
  {
  }

  /** Eviction of any kind only takes entries nobody holds. */
  lemma {:induction false} RemovalKeepsHeld(s: State, victims: set<Key>)
    requires Registered(s) && HeldIsResident(s) && forall k :: k in victims ==> Unclaimed(s, k)
    ensures HeldIsResident(Removed(s, victims))
  {
    var u := Removed(s, victims);
    forall r ensures Held(u, r) <==> Held(s, r) {
    }
    forall r | u.registry.alive && Held(u, r) && r !in u.loaders.loads ensures Resident(u, r) {
      assert Resident(s, r);
    }
  }

  lemma {:induction false} NotingKeepsHeld(s: State, now: nat)
    requires Registered(s) && HeldIsResident(s)
    ensures var u := Noted(s, now);
            Registered(u) && HeldIsResident(u) && forall k :: EvictableKey(u, k) <==> EvictableKey(s, k)
  {
    var u := Noted(s, now);
    forall r ensures (Held(u, r) <==> Held(s, r)) && (Resident(u, r) <==> Resident(s, r)) {
    }
  }

  lemma {:induction false} EvictionKeepsHeld(s: State, e: RegistryEvent)
    requires Registered(s) && HeldIsResident(s) && RegistryEnabled(s, e) && Evicts(e)
    ensures HeldIsResident(RegistryStep(s, e))
  {
    match e {
      case LoadEvict(_, victim) => RemovalKeepsHeld(s, {victim});
      case EvictIdle(victim) => RemovalKeepsHeld(s, {victim});
      case Evict(victim) => RemovalKeepsHeld(s, {victim});
      case Sweep(now) =>
        NotingKeepsHeld(s, now);
        RemovalKeepsHeld(Noted(s, now), ExpiredKeys(s, now));
    }
  }

  lemma {:induction false} AdmissionKeepsHeld(s: State, e: RegistryEvent)
    requires Registered(s) && HeldIsResident(s) && RegistryEnabled(s, e) && !Evicts(e)
    ensures HeldIsResident(RegistryStep(s, e))
  {
    forall r | Held(RegistryStep(s, e), r) ensures Held(s, r) || (e.Hit? && r == s.registry.entries[e.key].resource) {
    }
  }

  lemma {:induction false} LoaderKeepsCharges(s: State, e: LoaderEvent)
    requires Charged(s) && LoaderEnabled(s, e)
    ensures Charged(LoaderStep(s, e))
  {
  }

  lemma {:induction false} LoaderConserves(s: State, e: LoaderEvent)
    requires Conserved(s) && Charged(s) && LoaderEnabled(s, e)
    ensures Conserved(LoaderStep(s, e))
  {
    match e {
      case LoaderDone(f, bytes, _) =>
        TotalUpdate(s.ledger.charges, f, bytes);
        TotalRemove(s.ledger.charges, f);
      case LoaderFailed(f) => FreedConserves(s, f);
      case Publish(_) =>
    }
  }

  lemma {:induction false} LoaderKeepsEntries(s: State, e: LoaderEvent)
    requires Charged(s) && Registered(s) && KeepsAlive(s) && LoaderEnabled(s, e)
    ensures Registered(LoaderStep(s, e)) && KeepsAlive(LoaderStep(s, e))
  {
  }

  lemma {:induction false} LoaderKeepsHolders(s: State, e: LoaderEvent)
    requires WaitersServed(s) && PinsCounted(s) && CountdownIsUnheld(s) && KeepsAlive(s) && Charged(s) && LoaderEnabled(s, e)
    ensures WaitersServed(LoaderStep(s, e)) && PinsCounted(LoaderStep(s, e)) && CountdownIsUnheld(LoaderStep(s, e))
  {
  }

  lemma {:induction false} LoaderKeepsHeld(s: State, e: LoaderEvent)
    requires Registered(s) && Charged(s) && KeepsAlive(s) && HeldIsResident(s) && LoaderEnabled(s, e)
    ensures HeldIsResident(LoaderStep(s, e))
  {
    HeldAfterLoader(s, e);
    if e.Publish? {
      PublishKeepsHeld(s, e.flight);
    }
  }

  lemma {:induction false} HeldAfterLoader(s: State, e: LoaderEvent)
    requires LoaderEnabled(s, e)
    ensures forall r :: Held(LoaderStep(s, e), r) ==> Held(s, r) || r == e.flight
  {
  }

  lemma {:induction false} PublishKeepsHeld(s: State, f: nat)
    requires Registered(s) && Charged(s) && KeepsAlive(s) && HeldIsResident(s) && LoaderEnabled(s, Publish(f))
    ensures HeldIsResident(LoaderStep(s, Publish(f)))
  {
    HeldAfterLoader(s, Publish(f));
  }

  lemma {:induction false} ReferenceKeepsLedger(s: State, e: ReferenceEvent)
    requires Conserved(s) && Charged(s) && ReferenceEnabled(s, e)
    ensures Conserved(ReferenceStep(s, e)) && Charged(ReferenceStep(s, e))
  {
  }

  lemma {:induction false} ReferenceKeepsEntries(s: State, e: ReferenceEvent)
    requires Registered(s) && ReferenceEnabled(s, e)
    ensures Registered(ReferenceStep(s, e))
  {
  }

  lemma {:induction false} ReferenceKeepsValues(s: State, e: ReferenceEvent)
    requires KeepsAlive(s) && WaitersServed(s) && ReferenceEnabled(s, e)
    ensures KeepsAlive(ReferenceStep(s, e)) && WaitersServed(ReferenceStep(s, e))
  {
  }

  lemma {:induction false} ReferenceKeepsPins(s: State, e: ReferenceEvent)
    requires PinsCounted(s) && ReferenceEnabled(s, e)
    ensures PinsCounted(ReferenceStep(s, e))
  {
  }

  lemma {:induction false} ReferenceKeepsHeld(s: State, e: ReferenceEvent)
    requires HeldIsResident(s) && CountdownIsUnheld(s) && ReferenceEnabled(s, e)
    ensures HeldIsResident(ReferenceStep(s, e)) && CountdownIsUnheld(ReferenceStep(s, e))
  {
    forall r | Held(ReferenceStep(s, e), r) ensures Held(s, r) {
    }
  }

  lemma {:induction false} StepKeepsInv(s: State, e: Event)
    requires Inv(s) && Enabled(s, e)
    ensures Inv(Step(s, e))
  {
    match e {
      case OnBudget(b) => BudgetKeepsLedger(s, b); BudgetKeepsValues(s, b); BudgetKeepsHolders(s, b);
      case OnRegistry(g) =>
        RegistryKeepsLedger(s, g); RegistryKeepsEntries(s, g); RegistryKeepsValues(s, g);
        RegistryKeepsPins(s, g); RegistryKeepsCountdown(s, g);
        if Evicts(g) { EvictionKeepsHeld(s, g); } else { AdmissionKeepsHeld(s, g); }
      case OnLoader(l) => LoaderConserves(s, l); LoaderKeepsCharges(s, l); LoaderKeepsEntries(s, l); LoaderKeepsHolders(s, l); LoaderKeepsHeld(s, l);
      case OnReference(r) =>
        ReferenceKeepsLedger(s, r); ReferenceKeepsEntries(s, r); ReferenceKeepsValues(s, r);
        ReferenceKeepsPins(s, r);
        ReferenceKeepsHeld(s, r);
    }
  }
}
