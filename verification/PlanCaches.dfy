/**
 * The plan cache as steps, one per critical section or change of references, in
 * any interleaving of callers: at most `capacity` plans, one loader for each key,
 * and only plans that nobody uses make way.
 */
module PlanCaches {
  import opened Accesses
  import opened Recency

  const U64_MAX: nat := 0xFFFF_FFFF_FFFF_FFFF

  /** Any key with equality. */
  type Key = string

  /** A flight and the value it prepares share one identity. */
  datatype Entry = Loading(flight: nat) | Ready(value: nat, used: nat)

  datatype Outcome = Prepared | Refused

  /** The locked state of the cache. */
  datatype Table = Table(capacity: nat, entries: map<Key, Entry>, clock: nat, hits: nat, misses: nat, evictions: nat)

  /** Flights and values referenced outside the lock. */
  datatype References = References(
    flights: map<nat, Option<Outcome>>,   // result cells some caller still references
    owners: map<nat, nat>,                // strong references to values outside the cache
    idle: set<nat>)                       // values whose own idle predicate holds

  /** What has happened so far. */
  datatype History = History(
    keys: map<nat, Key>,                  // the key each flight was elected for
    published: map<nat, Outcome>,         // the one outcome of each finished flight
    waiting: map<nat, nat>,               // callers sharing a flight
    received: map<nat, nat>,              // callers served, with the flight that served them
    outcomes: map<nat, Outcome>,          // what each served caller got
    calls: nat,
    busy: nat,
    failed: nat)

  datatype Cache = Cache(table: Table, refs: References, log: History)

  // ---------- eviction ----------

  predicate Unreferenced(r: References, v: nat) {
    (forall t :: t in r.owners ==> r.owners[t] != v) && !(v in r.flights && r.flights[v] == Some(Prepared))
  }

  predicate Evictable(t: Table, r: References, k: Key) {
    k in t.entries && t.entries[k].Ready? && Unreferenced(r, t.entries[k].value) && t.entries[k].value in r.idle
  }

  /** What a victim scan guarantees at the end, however references dropped while it read the entries. */
  predicate Unclaimed(t: Table, r: References, k: Key) {
    k in t.entries && t.entries[k].Ready? && Unreferenced(r, t.entries[k].value)
  }

  /** The evictable entries and their last use. */
  function Candidates(t: Table, r: References): map<Key, nat> {
    map k | k in t.entries && Evictable(t, r, k) :: t.entries[k].used
  }

  ghost predicate LeastRecentlyUsed(t: Table, r: References, k: Key) {
    Oldest(Candidates(t, r), k)
  }

  // ---------- steps ----------

  datatype Event =
    | Hit(key: Key, caller: nat)                  // a ready entry: take a reference
    | Join(key: Key, caller: nat)                 // share the flight in progress
    | Elect(key: Key, caller: nat, victim: Option<Key>)
    | Refuse(key: Key)                            // every entry is pinned or preparing
    | Publish(flight: nat, outcome: Outcome, owner: nat)
    | Receive(caller: nat)                        // a sharer takes the published outcome
    | DropFlight(flight: nat)
    | DropOwner(owner: nat)
    | Clone(owner: nat, token: nat)               // a holder copies its reference
    | SetIdle(value: nat, idle: bool)

  ghost predicate Unused(c: Cache, id: nat) {
    && id !in c.log.keys && id !in c.log.published && id !in c.log.waiting && id !in c.log.received
    && id !in c.refs.flights && id !in c.refs.owners
  }

  ghost predicate Enabled(c: Cache, e: Event) {
    match e
    case Hit(k, caller) => Unused(c, caller) && k in c.table.entries && c.table.entries[k].Ready?
    case Join(k, caller) => Unused(c, caller) && k in c.table.entries && c.table.entries[k].Loading?
    case Elect(k, caller, victim) =>
      && Unused(c, caller) && k !in c.table.entries
      && (victim.Some? <==> |c.table.entries| == c.table.capacity)
      && (victim.Some? ==> Unclaimed(c.table, c.refs, victim.value))
    case Refuse(k) => k !in c.table.entries && |c.table.entries| == c.table.capacity
    case Publish(f, _, owner) => f in c.refs.flights && c.refs.flights[f].None? && f in c.log.keys && Unused(c, owner)
    case Receive(caller) =>
      caller in c.log.waiting && c.log.waiting[caller] in c.refs.flights && c.refs.flights[c.log.waiting[caller]].Some?
    case DropFlight(f) => f in c.refs.flights && c.refs.flights[f].Some? && forall w :: w in c.log.waiting ==> c.log.waiting[w] != f
    case DropOwner(t) => t in c.refs.owners
    case Clone(t, token) => t in c.refs.owners && Unused(c, token)
    case SetIdle(_, _) => true
  }

  function Tick(t: Table): Table {
    t.(clock := if t.clock < U64_MAX then t.clock + 1 else t.clock)
  }

  function Called(h: History): History {
    h.(calls := h.calls + 1)
  }

  function Admitted(t: Table, k: Key, flight: nat, victim: Option<Key>): Table {
    var entries := if victim.Some? then t.entries - {victim.value} else t.entries;
    Tick(t).(entries := entries[k := Loading(flight)], misses := t.misses + 1,
             evictions := t.evictions + if victim.Some? then 1 else 0)
  }

  ghost function Publication(c: Cache, f: nat, outcome: Outcome, owner: nat): Cache
    requires f in c.log.keys
  {
    var k := c.log.keys[f];
    var entries := if outcome == Prepared then c.table.entries[k := Ready(f, c.table.clock)] else c.table.entries - {k};
    Cache(c.table.(entries := entries),
          c.refs.(flights := c.refs.flights[f := Some(outcome)],
                  owners := if outcome == Prepared then c.refs.owners[owner := f] else c.refs.owners),
          c.log.(published := c.log.published[f := outcome], failed := c.log.failed + if outcome == Prepared then 0 else 1))
  }

  ghost function Step(c: Cache, e: Event): Cache
    requires Enabled(c, e)
  {
    match e
    case Hit(k, caller) =>
      var v, t := c.table.entries[k].value, Tick(c.table);
      Cache(t.(hits := t.hits + 1, entries := t.entries[k := Ready(v, t.clock)]),
            c.refs.(owners := c.refs.owners[caller := v]), Called(c.log))
    case Join(k, caller) =>
      var t := Tick(c.table);
      c.(table := t.(hits := t.hits + 1), log := Called(c.log).(waiting := c.log.waiting[caller := t.entries[k].flight]))
    case Elect(k, caller, victim) =>
      Cache(Admitted(c.table, k, caller, victim), c.refs.(flights := c.refs.flights[caller := None]),
            Called(c.log).(keys := c.log.keys[caller := k]))
    case Refuse(_) => c.(table := Tick(c.table), log := Called(c.log).(busy := c.log.busy + 1))
    case Publish(f, outcome, owner) => Publication(c, f, outcome, owner)
    case Receive(caller) =>
      var f := c.log.waiting[caller];
      var o := c.refs.flights[f].value;
      c.(refs := if o == Prepared then c.refs.(owners := c.refs.owners[caller := f]) else c.refs,
         log := c.log.(waiting := c.log.waiting - {caller}, received := c.log.received[caller := f],
                       outcomes := c.log.outcomes[caller := o]))
    case DropFlight(f) => c.(refs := c.refs.(flights := c.refs.flights - {f}))
    case DropOwner(t) => c.(refs := c.refs.(owners := c.refs.owners - {t}))
    case Clone(t, token) => c.(refs := c.refs.(owners := c.refs.owners[token := c.refs.owners[t]]))
    case SetIdle(v, idle) => c.(refs := c.refs.(idle := if idle then c.refs.idle + {v} else c.refs.idle - {v}))
  }

  // ---------- what every step keeps ----------

  /** The counters account for every entry and every call. */
  ghost predicate Counted(c: Cache) {
    && |c.table.entries| <= c.table.capacity
    && c.table.misses == |c.table.entries| + c.table.evictions + c.log.failed
    && c.log.calls == c.table.hits + c.table.misses + c.log.busy
  }

  /** Every loading entry has one running loader, and every running loader owns its key's entry. */
  ghost predicate SingleFlight(c: Cache) {
    && c.refs.flights.Keys <= c.log.keys.Keys && c.log.published.Keys <= c.log.keys.Keys
    && (forall k :: k in c.table.entries && c.table.entries[k].Loading? ==>
          var f := c.table.entries[k].flight; f in c.refs.flights && c.refs.flights[f].None? && c.log.keys[f] == k)
    && (forall f :: f in c.refs.flights && c.refs.flights[f].None? ==>
          c.log.keys[f] in c.table.entries && c.table.entries[c.log.keys[f]] == Loading(f))
    && (forall k :: k in c.table.entries && c.table.entries[k].Ready? ==>
          var v := c.table.entries[k].value; v in c.log.keys && c.log.keys[v] == k)
  }

  /** A flight publishes once, and everyone it serves gets that outcome. */
  ghost predicate SharedOutcome(c: Cache) {
    && (forall f :: f in c.refs.flights ==> (c.refs.flights[f].Some? <==> f in c.log.published))
    && (forall f :: f in c.refs.flights && c.refs.flights[f].Some? ==> c.refs.flights[f].value == c.log.published[f])
    && (forall w :: w in c.log.waiting ==> c.log.waiting[w] in c.refs.flights)
    && c.log.outcomes.Keys == c.log.received.Keys
    && (forall w :: w in c.log.received ==> c.log.received[w] in c.log.published && c.log.outcomes[w] == c.log.published[c.log.received[w]])
  }

  ghost predicate InCache(c: Cache, v: nat) {
    v in c.log.keys && c.log.keys[v] in c.table.entries
    && c.table.entries[c.log.keys[v]].Ready? && c.table.entries[c.log.keys[v]].value == v
  }

  /** A value anyone references has not been evicted. */
  ghost predicate PinnedStays(c: Cache) {
    && (forall t :: t in c.refs.owners ==> InCache(c, c.refs.owners[t]))
    && (forall f :: f in c.refs.flights && c.refs.flights[f] == Some(Prepared) ==> InCache(c, f))
  }

  ghost predicate Inv(c: Cache) {
    Counted(c) && SingleFlight(c) && SharedOutcome(c) && PinnedStays(c)
  }

  lemma {:induction false} RemoveCounts<V>(m: map<Key, V>, k: Key)
    requires k in m
    ensures |m - {k}| == |m| - 1
  {
  }

  lemma {:induction false} InsertCounts<V>(m: map<Key, V>, k: Key, v: V)
    ensures |m[k := v]| == if k in m then |m| else |m| + 1
  {
  }

  lemma {:induction false} StepKeepsCounts(c: Cache, e: Event)
    requires Counted(c) && SingleFlight(c) && Enabled(c, e)
    ensures Counted(Step(c, e))
  {
    match e {
      case Hit(k, _) => InsertCounts(c.table.entries, k, Ready(c.table.entries[k].value, Tick(c.table).clock));
      case Elect(k, caller, victim) =>
        if victim.Some? {
          RemoveCounts(c.table.entries, victim.value);
          InsertCounts(c.table.entries - {victim.value}, k, Loading(caller));
        } else {
          InsertCounts(c.table.entries, k, Loading(caller));
        }
      case Publish(f, _, _) =>
        RemoveCounts(c.table.entries, c.log.keys[f]);
        InsertCounts(c.table.entries, c.log.keys[f], Ready(f, c.table.clock));
      case _ =>
    }
  }

  /** Steps that add or remove an entry. */
  ghost predicate ChangesEntries(e: Event) {
    e.Elect? || e.Publish?
  }

  lemma {:induction false} ElectKeepsFlights(c: Cache, e: Event)
    requires SingleFlight(c) && Enabled(c, e) && e.Elect?
    ensures SingleFlight(Step(c, e))
  {
  }

  lemma {:induction false} PublishKeepsFlights(c: Cache, e: Event)
    requires SingleFlight(c) && SharedOutcome(c) && Enabled(c, e) && e.Publish?
    ensures SingleFlight(Step(c, e))
  {
  }

  lemma {:induction false} OtherStepKeepsFlights(c: Cache, e: Event)
    requires SingleFlight(c) && Enabled(c, e) && !ChangesEntries(e)
    ensures SingleFlight(Step(c, e))
  {
  }

  lemma {:induction false} StepKeepsOutcomes(c: Cache, e: Event)
    requires SingleFlight(c) && SharedOutcome(c) && Enabled(c, e)
    ensures SharedOutcome(Step(c, e))
  {
  }

  /** The victim is nobody's, so what anyone references stays. */
  lemma {:induction false} ElectKeepsPinned(c: Cache, e: Event)
    requires SingleFlight(c) && PinnedStays(c) && Enabled(c, e) && e.Elect?
    ensures PinnedStays(Step(c, e))
  {
  }

  lemma {:induction false} PublishKeepsPinned(c: Cache, e: Event)
    requires SingleFlight(c) && PinnedStays(c) && Enabled(c, e) && e.Publish?
    ensures PinnedStays(Step(c, e))
  {
  }

  lemma {:induction false} OtherStepKeepsPinned(c: Cache, e: Event)
    requires SingleFlight(c) && PinnedStays(c) && Enabled(c, e) && !ChangesEntries(e)
    ensures PinnedStays(Step(c, e))
  {
  }

  lemma {:induction false} StepKeepsInv(c: Cache, e: Event)
    requires Inv(c) && Enabled(c, e)
    ensures Inv(Step(c, e))
  {
    StepKeepsCounts(c, e);
    StepKeepsOutcomes(c, e);
    if e.Elect? {
      ElectKeepsFlights(c, e);
      ElectKeepsPinned(c, e);
    } else if e.Publish? {
      PublishKeepsFlights(c, e);
      PublishKeepsPinned(c, e);
    } else {
      OtherStepKeepsFlights(c, e);
      OtherStepKeepsPinned(c, e);
    }
  }

  // ---------- runs ----------

  ghost function Empty(capacity: nat): Cache {
    Cache(Table(capacity, map[], 0, 0, 0, 0), References(map[], map[], {}), History(map[], map[], map[], map[], map[], 0, 0, 0))
  }

  ghost predicate IsRun(states: seq<Cache>, events: seq<Event>) {
    && |states| == |events| + 1 && states[0].table.capacity > 0 && states[0] == Empty(states[0].table.capacity)
    && forall i {:trigger events[i]} :: 0 <= i < |events| ==>
         Enabled(states[i], events[i]) && states[i + 1] == Step(states[i], events[i])
  }

  /**
   * In every interleaving: entries never exceed capacity, entries = misses -
   * evictions - failed preparations, hits + misses = calls not refused as busy,
   * each key has at most one loader, sharers of a flight get its one outcome,
   * and nothing referenced has been evicted.
   */
  lemma {:induction false} RunKeepsInv(states: seq<Cache>, events: seq<Event>, i: nat)
    requires IsRun(states, events) && i < |states|
    ensures Inv(states[i])
    ensures var c := states[i];
            && |c.table.entries| == c.table.misses - c.table.evictions - c.log.failed
            && c.table.hits + c.table.misses == c.log.calls - c.log.busy
  {
    for k := 0 to i
      invariant Inv(states[k])
    {
      assert states[k + 1] == Step(states[k], events[k]);
      StepKeepsInv(states[k], events[k]);
    }
  }

  lemma {:induction false} SharersAgree(states: seq<Cache>, events: seq<Event>, i: nat, w: nat, x: nat)
    requires IsRun(states, events) && i < |states|
    requires w in states[i].log.received && x in states[i].log.received && states[i].log.received[w] == states[i].log.received[x]
    ensures w in states[i].log.outcomes && x in states[i].log.outcomes && states[i].log.outcomes[w] == states[i].log.outcomes[x]
  {
    RunKeepsInv(states, events, i);
  }

  lemma {:induction false} OneLoaderPerKey(states: seq<Cache>, events: seq<Event>, i: nat, f: nat, g: nat)
    requires IsRun(states, events) && i < |states|
    requires var c := states[i];
             && f in c.refs.flights && g in c.refs.flights && c.refs.flights[f].None? && c.refs.flights[g].None?
             && f in c.log.keys && g in c.log.keys && c.log.keys[f] == c.log.keys[g]
    ensures f == g
  {
    RunKeepsInv(states, events, i);
  }

  /** An entry only ever leaves as a victim nobody references, or because its own loader failed. */
  lemma {:induction false} OnlyUnclaimedEntriesLeave(c: Cache, e: Event, k: Key)
    requires Inv(c) && Enabled(c, e) && k in c.table.entries && k !in Step(c, e).table.entries
    ensures || (e.Elect? && e.victim == Some(k) && Unclaimed(c.table, c.refs, k))
            || (e.Publish? && e.outcome == Refused && c.table.entries[k] == Loading(e.flight))
  {
  }

  // ---------- least recently used ----------

  ghost predicate UsedInThePast(t: Table) {
    forall k :: k in t.entries && t.entries[k].Ready? ==> t.entries[k].used <= t.clock
  }

  ghost predicate UsedSince(t: Table, key: Key, tick: nat) {
    tick <= t.clock && (key in t.entries && t.entries[key].Ready? ==> t.entries[key].used >= tick)
  }

  lemma {:induction false} StepKeepsRecency(c: Cache, e: Event, key: Key, tick: nat)
    requires Enabled(c, e)
    ensures UsedInThePast(c.table) ==> UsedInThePast(Step(c, e).table)
    ensures UsedSince(c.table, key, tick) ==> UsedSince(Step(c, e).table, key, tick)
  {
  }

  lemma {:induction false} RunKeepsRecency(states: seq<Cache>, events: seq<Event>, i: nat, k: nat, key: Key, tick: nat)
    requires IsRun(states, events) && i <= k < |states|
    ensures UsedInThePast(states[i].table) ==> UsedInThePast(states[k].table)
    ensures UsedSince(states[i].table, key, tick) ==> UsedSince(states[k].table, key, tick)
  {
    for j := i to k
      invariant UsedInThePast(states[i].table) ==> UsedInThePast(states[j].table)
      invariant UsedSince(states[i].table, key, tick) ==> UsedSince(states[j].table, key, tick)
    {
      assert states[j + 1] == Step(states[j], events[j]);
      StepKeepsRecency(states[j], events[j], key, tick);
    }
  }

  // ---------- victim scans ----------

  /** The event does not need the cache lock. */
  ghost predicate Unlocked(e: Event) {
    e.Receive? || e.DropFlight? || e.DropOwner? || e.Clone? || e.SetIdle?
  }

  lemma {:induction false} StepKeepsUnclaimed(c: Cache, e: Event, key: Key)
    requires Enabled(c, e) && Unlocked(e)
    ensures Step(c, e).table == c.table
    ensures Unclaimed(c.table, c.refs, key) ==> Unclaimed(Step(c, e).table, Step(c, e).refs, key)
  {
  }

  lemma {:induction false} LockedKeepsUnclaimed(states: seq<Cache>, events: seq<Event>, i: nat, k: nat, key: Key)
    requires IsRun(states, events) && i <= k < |states| && forall j :: i <= j < k ==> Unlocked(events[j])
    ensures states[k].table == states[i].table
    ensures Unclaimed(states[i].table, states[i].refs, key) ==> Unclaimed(states[k].table, states[k].refs, key)
  {
    for j := i to k
      invariant states[j].table == states[i].table
      invariant Unclaimed(states[i].table, states[i].refs, key) ==> Unclaimed(states[j].table, states[j].refs, key)
    {
      assert states[j + 1] == Step(states[j], events[j]);
      StepKeepsUnclaimed(states[j], events[j], key);
    }
  }

  /** A scan reads entry `o` in state `at[o]`, in any order, and keeps those it finds evictable with their last use. */
  ghost predicate Scanned(states: seq<Cache>, from: nat, to: nat, at: map<Key, nat>, found: map<Key, nat>)
    requires from <= to < |states|
  {
    && at.Keys == states[from].table.entries.Keys
    && (forall o :: o in at ==> from <= at[o] <= to && (o in found <==> Evictable(states[at[o]].table, states[at[o]].refs, o)))
    && (forall o :: o in found ==> o in at && states[from].table.entries[o].Ready? && found[o] == states[from].table.entries[o].used)
  }

  /** However references change while it reads, what a scan found can be removed safely at its end. */
  lemma {:induction false} ScanVictimIsUnclaimed(states: seq<Cache>, events: seq<Event>, from: nat, to: nat,
                                                 at: map<Key, nat>, found: map<Key, nat>, victim: Key)
    requires IsRun(states, events) && from <= to < |states| && forall j :: from <= j < to ==> Unlocked(events[j])
    requires Scanned(states, from, to, at, found) && Oldest(found, victim)
    ensures Unclaimed(states[to].table, states[to].refs, victim)
  {
    assert Evictable(states[at[victim]].table, states[at[victim]].refs, victim);
    LockedKeepsUnclaimed(states, events, at[victim], to, victim);
  }

  /** A plan that was hit is not the victim of a scan that found another plan unused since before the hit. */
  lemma {:induction false} RecentlyUsedOutlives(states: seq<Cache>, events: seq<Event>, i: nat, from: nat, to: nat,
                                                at: map<Key, nat>, found: map<Key, nat>, a: Key, b: Key)
    requires IsRun(states, events) && i < from <= to < |states| && Scanned(states, from, to, at, found)
    requires events[i].Hit? && events[i].key == a && states[i].table.clock < U64_MAX
    requires a != b && b in found && b in states[i].table.entries && b in states[from].table.entries
    requires states[from].table.entries[b] == states[i].table.entries[b]
    ensures !Oldest(found, a)
  {
    assert states[i + 1] == Step(states[i], events[i]);
    RunKeepsRecency(states, events, 0, i, a, 0);
    RunKeepsRecency(states, events, i + 1, from, a, states[i].table.clock + 1);
  }

  /** The waiting caller can take the outcome, and it is this one. */
  ghost predicate Delivers(c: Cache, w: nat, outcome: Outcome) {
    Enabled(c, Receive(w)) && w in Step(c, Receive(w)).log.outcomes && Step(c, Receive(w)).log.outcomes[w] == outcome
  }

  ghost predicate SameEntry(was: Table, now: Table, k: Key) {
    (k in now.entries <==> k in was.entries) && (k in was.entries ==> now.entries[k] == was.entries[k])
  }

  /** Publication serves every sharer, pins a prepared value and touches no other entry. */
  ghost predicate Served(was: Cache, now: Cache, f: nat, key: Key, outcome: Outcome) {
    && (key in now.table.entries <==> outcome == Prepared) && !Evictable(now.table, now.refs, key)
    && (forall k :: k != key ==> SameEntry(was.table, now.table, k))
    && (forall w :: w in now.log.waiting && now.log.waiting[w] == f ==> Delivers(now, w, outcome))
  }

  ghost predicate Publishes(was: Cache, now: Cache, f: nat, outcome: Outcome, owner: nat) {
    Enabled(was, Publish(f, outcome, owner)) && now == Step(was, Publish(f, outcome, owner))
  }

  lemma {:induction false} PublishServes(c: Cache, f: nat, outcome: Outcome, owner: nat)
    requires Inv(c) && Enabled(c, Publish(f, outcome, owner))
    ensures var d := Publication(c, f, outcome, owner);
            Publishes(c, d, f, outcome, owner) && Inv(d) && Served(c, d, f, c.log.keys[f], outcome)
  {
    StepKeepsInv(c, Publish(f, outcome, owner));
    PublicationServes(c, f, outcome, owner);
  }

  lemma {:induction false} PublicationServes(c: Cache, f: nat, outcome: Outcome, owner: nat)
    requires Enabled(c, Publish(f, outcome, owner))
    ensures Served(c, Step(c, Publish(f, outcome, owner)), f, c.log.keys[f], outcome)
  {
    var d := Step(c, Publish(f, outcome, owner));
    assert outcome == Prepared ==> owner in d.refs.owners && d.refs.owners[owner] == f;
  }

  // ---------- the code ----------

  datatype Decision = Shared(value: nat) | Joined(flight: nat) | Elected(flight: nat) | AllBusy

  class PlanCache {
    var table: Table
    var refs: References
    ghost var log: History

    ghost function State(): Cache
      reads this
    {
      Cache(table, refs, log)
    }

    constructor (capacity: nat)
      requires capacity > 0
      ensures State() == Empty(capacity) && Inv(State())
    {
      table := Table(capacity, map[], 0, 0, 0, 0);
      refs := References(map[], map[], {});
      log := History(map[], map[], map[], map[], map[], 0, 0, 0);
    }

    /** The first critical section of a request: always exactly one of the four steps. */
    method Request(key: Key, caller: nat) returns (d: Decision, ghost e: Event)
      requires Unused(State(), caller)
      modifies this
      ensures e.Hit? || e.Join? || e.Elect? || e.Refuse?
      ensures e.key == key && old(Enabled(State(), e)) && State() == old(Step(State(), e))
      ensures match d
              case Shared(v) => e == Hit(key, caller) && old(table).entries[key].Ready? && v == old(table).entries[key].value
              case Joined(f) => e == Join(key, caller) && old(table).entries[key] == Loading(f)
              case Elected(f) => e.Elect? && f == e.caller == caller
                                 && (e.victim.Some? ==> LeastRecentlyUsed(old(table), old(refs), e.victim.value))
              case AllBusy => e.Refuse? && forall o :: !Evictable(old(table), old(refs), o)
    {
      ghost var before := State();
      table := Tick(table);
      ghost var called := Called(log);
      if key in table.entries {
        table := table.(hits := table.hits + 1);
        match table.entries[key]
        case Ready(value, _) =>
          e := Hit(key, caller);
          table := table.(entries := table.entries[key := Ready(value, table.clock)]);
          refs := refs.(owners := refs.owners[caller := value]);
          log := called;
          d := Shared(value);
        case Loading(flight) =>
          e := Join(key, caller);
          log := called.(waiting := log.waiting[caller := flight]);
          d := Joined(flight);
      } else {
        var victim: Option<Key> := None;
        if |table.entries| == table.capacity {
          victim := FindOldest(Candidates(table, refs));
          assert Candidates(table, refs) == Candidates(before.table, refs);
          if victim.None? {
            assert forall k :: Evictable(before.table, refs, k) ==> k in Candidates(before.table, refs);
            e := Refuse(key);
            log := called.(busy := log.busy + 1);
            return AllBusy, e;
          }
          table := table.(entries := table.entries - {victim.value}, evictions := table.evictions + 1);
        }
        e := Elect(key, caller, victim);
        table := table.(entries := table.entries[key := Loading(caller)], misses := table.misses + 1);
        refs := refs.(flights := refs.flights[caller := None]);
        log := called.(keys := log.keys[caller := key]);
        d := Elected(caller);
      }
    }

    /** The elected caller publishes its outcome to the table and to every sharer at once. */
    method Finish(flight: nat, key: Key, outcome: Outcome, owner: nat)
      requires Inv(State()) && Enabled(State(), Publish(flight, outcome, owner)) && key == log.keys[flight]
      modifies this
      ensures Publishes(old(State()), State(), flight, outcome, owner) && Inv(State())
      ensures Served(old(State()), State(), flight, key, outcome)
    {
      PublishServes(State(), flight, outcome, owner);
      match outcome {
        case Prepared =>
          table := table.(entries := table.entries[key := Ready(flight, table.clock)]);
          refs := refs.(owners := refs.owners[owner := flight]);
        case Refused =>
          table := table.(entries := table.entries - {key});
      }
      refs := refs.(flights := refs.flights[flight := Some(outcome)]);
      log := log.(published := log.published[flight := outcome], failed := log.failed + if outcome == Prepared then 0 else 1);
    }
  }
}
