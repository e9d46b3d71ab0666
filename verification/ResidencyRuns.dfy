/** What the residency steps guarantee over whole runs, in every interleaving. */
module ResidencyRuns {
  import opened Accesses
  import opened Recency
  import opened Totals
  import opened Residency

  ghost predicate IsRun(states: seq<State>, events: seq<Event>) {
    && |states| == |events| + 1
    && (exists limit, timeout :: states[0] == Initial(limit, timeout) && (timeout.Some? ==> timeout.value > 0))
    && forall i {:trigger events[i]} :: 0 <= i < |events| ==> Enabled(states[i], events[i]) && states[i + 1] == Step(states[i], events[i])
  }

  lemma {:induction false} RunKeepsInv(states: seq<State>, events: seq<Event>, i: nat)
    requires IsRun(states, events) && i < |states|
    ensures Inv(states[i])
  {
    if i == 0 {
      var limit, timeout :| states[0] == Initial(limit, timeout) && (timeout.Some? ==> timeout.value > 0);
    } else {
      RunKeepsInv(states, events, i - 1);
      StepKeepsInv(states[i - 1], events[i - 1]);
    }
  }

  // ---------- the budget ----------

  ghost function Residents(s: State): set<nat> {
    set r | r in s.values.resources && Resident(s, r)
  }

  /**
   * In every interleaving the counter is the sum of the standalone, loading,
   * resident and retiring reservations, never exceeds the limit, and every value
   * whose destructor has not finished is charged its resident size.
   */
  lemma {:induction false} BudgetIsConserved(states: seq<State>, events: seq<Event>, i: nat)
    requires IsRun(states, events) && i < |states|
    ensures var s := states[i];
            && s.ledger.standalone <= s.ledger.charges.Keys && LoadingNow(s.loaders) <= s.ledger.charges.Keys
            && s.values.resources.Keys <= s.ledger.charges.Keys
            && s.ledger.used == Sum(s.ledger.standalone, s.ledger.charges) + Sum(LoadingNow(s.loaders), s.ledger.charges)
                                + Sum(Residents(s), s.ledger.charges)
                                + Sum(s.values.resources.Keys - Residents(s), s.ledger.charges)
            && s.ledger.used <= s.ledger.limit
            && forall r :: r in s.values.resources ==> s.ledger.charges[r] == s.values.resources[r].bytes
  {
    RunKeepsInv(states, events, i);
    var s := states[i];
    var live := s.values.resources.Keys;
    SumUnion(s.ledger.standalone, LoadingNow(s.loaders), s.ledger.charges);
    SumUnion(s.ledger.standalone + LoadingNow(s.loaders), live, s.ledger.charges);
    SumUnion(Residents(s), live - Residents(s), s.ledger.charges);
    assert Residents(s) + (live - Residents(s)) == live;
  }

  // ---------- eviction safety ----------

  ghost predicate Published(s: State, t: nat) {
    t in s.values.owners && s.values.owners[t].resource !in s.loaders.loads
  }

  /** While the manager lives, any lease, clone, pin or keepalive keeps its key mapped to its resource. */
  lemma {:induction false} HeldKeyStaysMapped(states: seq<State>, events: seq<Event>, i: nat, t: nat)
    requires IsRun(states, events) && i < |states| && states[i].registry.alive && Published(states[i], t)
    ensures var s := states[i];
            var r := s.values.owners[t].resource;
            r in s.values.resources && Mapped(s.registry, s.values.resources[r].key, r)
  {
    RunKeepsInv(states, events, i);
    var s := states[i];
    assert Held(s, s.values.owners[t].resource);
  }

  /** So two live references to one key share one resource. */
  lemma {:induction false} OneResourcePerKey(states: seq<State>, events: seq<Event>, i: nat, t: nat, u: nat)
    requires IsRun(states, events) && i < |states| && states[i].registry.alive && Published(states[i], t) && Published(states[i], u)
    requires var s := states[i];
             && s.values.owners[t].resource in s.values.resources && s.values.owners[u].resource in s.values.resources
             && s.values.resources[s.values.owners[t].resource].key == s.values.resources[s.values.owners[u].resource].key
    ensures states[i].values.owners[t].resource == states[i].values.owners[u].resource
  {
    HeldKeyStaysMapped(states, events, i, t);
    HeldKeyStaysMapped(states, events, i, u);
  }

  /** At most one loader runs per key, and none runs for a key with a live reference. */
  lemma {:induction false} OneLoaderPerKey(states: seq<State>, events: seq<Event>, i: nat, f: nat)
    requires IsRun(states, events) && i < |states| && f in states[i].loaders.loads
    ensures forall g :: g in states[i].loaders.loads && states[i].loaders.loads[g].key == states[i].loaders.loads[f].key ==> g == f
    ensures var s := states[i];
            forall t :: Published(s, t) && s.values.owners[t].resource in s.values.resources ==>
                          s.values.resources[s.values.owners[t].resource].key != s.loaders.loads[f].key
  {
    RunKeepsInv(states, events, i);
    var s := states[i];
    forall t | Published(s, t) && s.values.owners[t].resource in s.values.resources
      ensures s.values.resources[s.values.owners[t].resource].key != s.loaders.loads[f].key
    {
      HeldKeyStaysMapped(states, events, i, t);
    }
  }

  // ---------- idle timeouts ----------

  ghost predicate IsSweep(e: Event) {
    e.OnRegistry? && e.registry.Sweep?
  }

  ghost function IdleSince(s: State, r: nat): Option<nat> {
    if r in s.values.resources then s.values.resources[r].idleSince else None
  }

  /** Only a hit, an outcome, a mark or a sweep changes a countdown. */
  lemma {:induction false} RegistryCountdown(s: State, e: RegistryEvent, r: nat)
    requires Inv(s) && RegistryEnabled(s, e) && s.registry.timeout.Some?
    requires Resident(RegistryStep(s, e), r) && IdleSince(RegistryStep(s, e), r).Some?
    ensures Resident(s, r)
    ensures IdleSince(RegistryStep(s, e), r) == if e.Sweep? then Marked(s, r, e.now) else IdleSince(s, r)
  {
  }

  lemma {:induction false} LoaderCountdown(s: State, e: LoaderEvent, r: nat)
    requires Inv(s) && LoaderEnabled(s, e)
    requires Resident(LoaderStep(s, e), r) && IdleSince(LoaderStep(s, e), r).Some?
    ensures Resident(s, r) && IdleSince(LoaderStep(s, e), r) == IdleSince(s, r)
  {
  }

  lemma {:induction false} BudgetCountdown(s: State, e: BudgetEvent, r: nat)
    requires Inv(s) && BudgetEnabled(s, e)
    requires Resident(BudgetStep(s, e), r) && IdleSince(BudgetStep(s, e), r).Some?
    ensures Resident(s, r) && IdleSince(BudgetStep(s, e), r) == IdleSince(s, r)
  {
  }

  lemma {:induction false} ReferenceCountdown(s: State, e: ReferenceEvent, r: nat)
    requires Inv(s) && ReferenceEnabled(s, e)
    requires Resident(ReferenceStep(s, e), r) && IdleSince(ReferenceStep(s, e), r).Some?
    ensures Resident(s, r) && IdleSince(ReferenceStep(s, e), r) == IdleSince(s, r)
  {
  }

  /** A countdown that survives a step was either running before it or started by it. */
  lemma {:induction false} CountdownStep(s: State, e: Event, r: nat)
    requires Inv(s) && Enabled(s, e) && s.registry.timeout.Some?
    requires Resident(Step(s, e), r) && IdleSince(Step(s, e), r).Some?
    ensures Resident(s, r) && (IsSweep(e) ==> Evictable(s, r))
    ensures if IdleSince(s, r).Some? then IdleSince(Step(s, e), r) == IdleSince(s, r)
            else IsSweep(e) && IdleSince(Step(s, e), r) == Some(e.registry.now)
  {
    match e {
      case OnRegistry(g) => RegistryCountdown(s, g, r);
      case OnLoader(l) => LoaderCountdown(s, l, r);
      case OnBudget(b) => BudgetCountdown(s, b, r);
      case OnReference(x) => ReferenceCountdown(s, x, r);
    }
  }

  ghost predicate LeftAlone(s: State, r: nat) {
    Resident(s, r) && !Held(s, r)
  }

  /** From just after event `j` until state `k` nobody held the resource, and every sweep saw it evictable. */
  ghost predicate UntouchedSince(states: seq<State>, events: seq<Event>, j: nat, k: nat, r: nat)
    requires |states| == |events| + 1 && k <= |events|
  {
    && (forall i :: j < i <= k ==> LeftAlone(states[i], r))
    && (forall i :: j <= i < k && IsSweep(events[i]) ==> Evictable(states[i], r))
  }

  lemma {:induction false} TimeoutIsFixed(states: seq<State>, events: seq<Event>, i: nat)
    requires IsRun(states, events) && i < |states|
    ensures states[i].registry.timeout == states[0].registry.timeout
  {
    if i > 0 {
      TimeoutIsFixed(states, events, i - 1);
      StepKeepsTimeout(states[i - 1], events[i - 1]);
    }
  }

  lemma {:induction false} StepKeepsTimeout(s: State, e: Event)
    requires Enabled(s, e)
    ensures Step(s, e).registry.timeout == s.registry.timeout
  {
  }

  /** A running countdown began at a sweep since which the resource was left alone. */
  lemma {:induction false} CountdownHistory(states: seq<State>, events: seq<Event>, k: nat, r: nat) returns (j: nat)
    requires IsRun(states, events) && k < |states| && states[0].registry.timeout.Some?
    requires Resident(states[k], r) && IdleSince(states[k], r).Some?
    ensures j < k && IsSweep(events[j]) && events[j].registry.now == IdleSince(states[k], r).value
    ensures UntouchedSince(states, events, j, k, r)
  {
    assert k > 0;
    RunCountdown(states, events, k - 1, r);
    if IdleSince(states[k - 1], r).Some? {
      j := CountdownHistory(states, events, k - 1, r);
      UntouchedNext(states, events, j, k, r);
    } else {
      j := k - 1;
    }
  }

  lemma {:induction false} UntouchedNext(states: seq<State>, events: seq<Event>, j: nat, k: nat, r: nat)
    requires |states| == |events| + 1 && j < k <= |events| && UntouchedSince(states, events, j, k - 1, r)
    requires LeftAlone(states[k], r) && (IsSweep(events[k - 1]) ==> Evictable(states[k - 1], r))
    ensures UntouchedSince(states, events, j, k, r)
  {
  }

  lemma {:induction false} RunCountdown(states: seq<State>, events: seq<Event>, i: nat, r: nat)
    requires IsRun(states, events) && i < |events| && states[0].registry.timeout.Some?
    requires Resident(states[i + 1], r) && IdleSince(states[i + 1], r).Some?
    ensures Resident(states[i], r) && LeftAlone(states[i + 1], r) && (IsSweep(events[i]) ==> Evictable(states[i], r))
    ensures if IdleSince(states[i], r).Some? then IdleSince(states[i + 1], r) == IdleSince(states[i], r)
            else IsSweep(events[i]) && IdleSince(states[i + 1], r) == Some(events[i].registry.now)
  {
    RunKeepsInv(states, events, i);
    RunKeepsInv(states, events, i + 1);
    TimeoutIsFixed(states, events, i);
    CountdownStep(states[i], events[i], r);
  }

  /** A sweep removes an entry only on a countdown that was running before. */
  lemma {:induction false} SweepRemoval(s: State, now: nat, key: Key)
    requires RegistryEnabled(s, Sweep(now)) && (s.registry.timeout.Some? ==> s.registry.timeout.value > 0)
    requires key in s.registry.entries && key !in RegistryStep(s, Sweep(now)).registry.entries
    ensures s.registry.timeout.Some? && s.registry.entries[key].Ready?
    ensures var r := s.registry.entries[key].resource;
            Evictable(s, r) && IdleSince(s, r).Some? && Elapsed(now, IdleSince(s, r).value) >= s.registry.timeout.value
  {
    assert Expired(s, key, now);
  }

  /**
   * Timeout safety: a sweep removes a resource only if an earlier sweep, at least
   * the timeout before, saw it evictable, every sweep in between did too, and no
   * lease, clone, pin or keepalive existed at any moment in between.
   */
  lemma {:induction false} TimeoutIsSafe(states: seq<State>, events: seq<Event>, k: nat, key: Key) returns (j: nat)
    requires IsRun(states, events) && k < |events| && IsSweep(events[k])
    requires key in states[k].registry.entries && key !in states[k + 1].registry.entries
    ensures states[k].registry.timeout.Some? && states[k].registry.entries[key].Ready?
    ensures var r := states[k].registry.entries[key].resource;
            && j < k && IsSweep(events[j]) && Evictable(states[k], r) && UntouchedSince(states, events, j, k, r)
            && Elapsed(events[k].registry.now, events[j].registry.now) >= states[k].registry.timeout.value
  {
    RunKeepsInv(states, events, k);
    TimeoutIsFixed(states, events, k);
    assert states[k + 1] == Step(states[k], events[k]);
    SweepRemoval(states[k], events[k].registry.now, key);
    j := CountdownHistory(states, events, k, states[k].registry.entries[key].resource);
  }

  lemma {:induction false} EvictableRegistryCountdown(s: State, e: RegistryEvent, r: nat)
    requires Inv(s) && RegistryEnabled(s, e) && s.registry.timeout.Some? && Evictable(s, r) && !Held(RegistryStep(s, e), r)
    ensures IdleSince(RegistryStep(s, e), r) == if e.Sweep? then Marked(s, r, e.now) else IdleSince(s, r)
  {
    if e.Hit? && e.typed {
      assert e.lease in RegistryStep(s, e).values.owners;
    }
  }

  lemma {:induction false} EvictableReferenceCountdown(s: State, e: ReferenceEvent, r: nat)
    requires Inv(s) && ReferenceEnabled(s, e) && Resident(s, r) && !Held(s, r)
    ensures IdleSince(ReferenceStep(s, e), r) == IdleSince(s, r)
  {
  }

  lemma {:induction false} EvictableCountdown(s: State, e: Event, r: nat)
    requires Inv(s) && Enabled(s, e) && s.registry.timeout.Some? && Evictable(s, r) && Evictable(Step(s, e), r)
    ensures IdleSince(Step(s, e), r) == if IsSweep(e) then Marked(s, r, e.registry.now) else IdleSince(s, r)
  {
    match e {
      case OnBudget(_) =>
      case OnRegistry(g) => EvictableRegistryCountdown(s, g, r);
      case OnLoader(_) =>
      case OnReference(x) => EvictableReferenceCountdown(s, x, r);
    }
  }

  lemma {:induction false} RunEvictable(states: seq<State>, events: seq<Event>, i: nat, r: nat)
    requires IsRun(states, events) && i < |events| && states[0].registry.timeout.Some?
    requires Evictable(states[i], r) && Evictable(states[i + 1], r)
    ensures IdleSince(states[i + 1], r) == if IsSweep(events[i]) then Marked(states[i], r, events[i].registry.now) else IdleSince(states[i], r)
  {
    RunKeepsInv(states, events, i);
    TimeoutIsFixed(states, events, i);
    EvictableCountdown(states[i], events[i], r);
  }

  lemma {:induction false} CountdownPersists(states: seq<State>, events: seq<Event>, j: nat, k: nat, r: nat)
    requires IsRun(states, events) && j < k < |events| && IsSweep(events[j]) && states[0].registry.timeout.Some?
    requires forall i :: j <= i <= k ==> Evictable(states[i], r)
    ensures Evictable(states[j], r) && IdleSince(states[k], r) == Marked(states[j], r, events[j].registry.now)
  {
    RunEvictable(states, events, j, r);
    for i := j + 1 to k
      invariant IdleSince(states[i], r) == Marked(states[j], r, events[j].registry.now)
    {
      RunEvictable(states, events, i, r);
    }
  }

  /**
   * Conversely, a resource that stays evictable after a sweep first noted it is
   * removed by the first sweep at which the timeout has passed.
   */
  lemma {:induction false} TimeoutIsPrompt(states: seq<State>, events: seq<Event>, j: nat, k: nat, r: nat)
    requires IsRun(states, events) && j < k < |events| && IsSweep(events[j]) && IsSweep(events[k])
    requires states[0].registry.timeout.Some? && IdleSince(states[j], r).None?
    requires forall i :: j <= i <= k ==> Evictable(states[i], r)
    requires Elapsed(events[k].registry.now, events[j].registry.now) >= states[0].registry.timeout.value
    ensures Evictable(states[k], r) && states[k].values.resources[r].key !in states[k + 1].registry.entries
  {
    CountdownPersists(states, events, j, k, r);
    TimeoutIsFixed(states, events, k);
    assert EvictableKey(states[k], states[k].values.resources[r].key);
    assert Expired(states[k], states[k].values.resources[r].key, events[k].registry.now);
  }

  // ---------- least recently used ----------

  /** No entry was used after the clock's current tick. */
  ghost predicate UsedInThePast(g: Registry) {
    forall k :: k in g.entries && g.entries[k].Ready? ==> g.entries[k].used <= g.clock
  }

  /** If the key is ready, it was used no earlier than tick `c`. */
  ghost predicate UsedSince(g: Registry, key: Key, c: nat) {
    c <= g.clock && (key in g.entries && g.entries[key].Ready? ==> g.entries[key].used >= c)
  }

  lemma {:induction false} StepKeepsRecency(s: State, e: Event, key: Key, c: nat)
    requires Enabled(s, e)
    ensures UsedInThePast(s.registry) ==> UsedInThePast(Step(s, e).registry)
    ensures UsedSince(s.registry, key, c) ==> UsedSince(Step(s, e).registry, key, c)
  {
  }

  lemma {:induction false} RunKeepsRecency(states: seq<State>, events: seq<Event>, i: nat, k: nat, key: Key, c: nat)
    requires IsRun(states, events) && i <= k < |states| && UsedSince(states[i].registry, key, c)
    ensures UsedSince(states[k].registry, key, c)
  {
    for j := i to k
      invariant UsedSince(states[j].registry, key, c)
    {
      assert states[j + 1] == Step(states[j], events[j]);
      StepKeepsRecency(states[j], events[j], key, c);
    }
  }

  lemma {:induction false} RunUsesThePast(states: seq<State>, events: seq<Event>, i: nat)
    requires IsRun(states, events) && i < |states|
    ensures UsedInThePast(states[i].registry)
  {
    for j := 0 to i
      invariant UsedInThePast(states[j].registry)
    {
      assert states[j + 1] == Step(states[j], events[j]);
      StepKeepsRecency(states[j], events[j], "", 0);
    }
  }

  // ---------- victim scans ----------

  /** The registry lock is held from state `i` to state `k`: references and budgets may change, entries may not. */
  ghost predicate Locked(events: seq<Event>, i: nat, k: nat)
    requires i <= k <= |events|
  {
    forall j :: i <= j < k ==> !events[j].OnRegistry? && !(events[j].OnLoader? && events[j].loader.Publish?)
  }

  /** Nobody has a reference or a pin, and no loader owns it. */
  ghost predicate Loose(s: State, r: nat) {
    !Held(s, r) && r !in s.loaders.loads && forall t :: t in s.values.pins ==> s.values.pins[t] != r
  }

  /** New references only come from references. */
  lemma {:induction false} ReferenceKeepsLoose(s: State, e: ReferenceEvent, r: nat)
    requires ReferenceEnabled(s, e) && Loose(s, r)
    ensures Loose(ReferenceStep(s, e), r)
  {
    var u := ReferenceStep(s, e);
    if e.Retain? {
      assert Held(s, s.values.owners[e.owner].resource);
    } else if e.TakeOutcome? && s.loaders.flights[s.loaders.waiters[e.waiter]] {
      assert Held(s, s.loaders.waiters[e.waiter]);
    }
    forall t | t in u.values.owners ensures u.values.owners[t].resource != r {
      assert t in s.values.owners ==> s.values.owners[t].resource != r;
    }
  }

  lemma {:induction false} LoaderKeepsLoose(s: State, e: LoaderEvent, r: nat)
    requires LoaderEnabled(s, e) && !e.Publish? && Loose(s, r)
    ensures Loose(LoaderStep(s, e), r)
  {
    var u := LoaderStep(s, e);
    forall t | t in u.values.owners ensures u.values.owners[t].resource != r {
      assert t in s.values.owners ==> s.values.owners[t].resource != r;
    }
  }

  lemma {:induction false} BudgetKeepsLoose(s: State, e: BudgetEvent, r: nat)
    requires BudgetEnabled(s, e) && Loose(s, r)
    ensures Loose(BudgetStep(s, e), r)
  {
  }

  lemma {:induction false} StepKeepsUnclaimed(s: State, e: Event, key: Key)
    requires Registered(s) && Enabled(s, e) && !e.OnRegistry? && !(e.OnLoader? && e.loader.Publish?)
    ensures Step(s, e).registry == s.registry
    ensures Unclaimed(s, key) ==> Unclaimed(Step(s, e), key)
  {
    if Unclaimed(s, key) {
      var r := s.registry.entries[key].resource;
      match e
      case OnBudget(b) => BudgetKeepsLoose(s, b, r);
      case OnLoader(l) => LoaderKeepsLoose(s, l, r);
      case OnReference(x) => ReferenceKeepsLoose(s, x, r);
    }
  }

  lemma {:induction false} LockedKeepsUnclaimed(states: seq<State>, events: seq<Event>, i: nat, k: nat, key: Key)
    requires IsRun(states, events) && i <= k < |states| && Locked(events, i, k)
    ensures states[k].registry == states[i].registry
    ensures Unclaimed(states[i], key) ==> Unclaimed(states[k], key)
  {
    for j := i to k
      invariant states[j].registry == states[i].registry
      invariant Unclaimed(states[i], key) ==> Unclaimed(states[j], key)
    {
      RunKeepsInv(states, events, j);
      assert states[j + 1] == Step(states[j], events[j]);
      StepKeepsUnclaimed(states[j], events[j], key);
    }
  }

  /**
   * A scan between states `from` and `to` reads entry `o` in state `at[o]`, in any
   * order, and keeps those it finds evictable with their last use.
   */
  ghost predicate Scanned(states: seq<State>, from: nat, to: nat, at: map<Key, nat>, found: map<Key, nat>)
    requires from <= to < |states|
  {
    && at.Keys == states[from].registry.entries.Keys
    && (forall o :: o in at ==> from <= at[o] <= to && (o in found <==> EvictableKey(states[at[o]], o)))
    && (forall o :: o in found ==> o in at && states[from].registry.entries[o].Ready?
                                   && found[o] == states[from].registry.entries[o].used)
  }

  /** However references change while it reads, what a scan found can be removed safely at its end. */
  lemma {:induction false} ScanVictimIsUnclaimed(states: seq<State>, events: seq<Event>, from: nat, to: nat,
                                                 at: map<Key, nat>, found: map<Key, nat>, victim: Key)
    requires IsRun(states, events) && from <= to < |states| && Locked(events, from, to)
    requires Scanned(states, from, to, at, found) && Oldest(found, victim)
    ensures Unclaimed(states[to], victim)
  {
    assert EvictableKey(states[at[victim]], victim);
    LockedKeepsUnclaimed(states, events, at[victim], to, victim);
  }

  /**
   * Capacity eviction is least recently used in fact: an entry that was hit is not
   * the victim of a scan that found another entry unused since before the hit.
   * Only a saturated clock can break the tie the other way.
   */
  lemma {:induction false} RecentlyUsedOutlives(states: seq<State>, events: seq<Event>, i: nat, from: nat, to: nat,
                                                at: map<Key, nat>, found: map<Key, nat>, a: Key, b: Key)
    requires IsRun(states, events) && i < from <= to < |states| && Scanned(states, from, to, at, found)
    requires events[i].OnRegistry? && events[i].registry.Hit? && events[i].registry.key == a && states[i].registry.clock < U64_MAX
    requires a != b && b in found && b in states[i].registry.entries && b in states[from].registry.entries
    requires states[from].registry.entries[b] == states[i].registry.entries[b]
    ensures !Oldest(found, a)
  {
    assert states[i + 1] == Step(states[i], events[i]);
    RunUsesThePast(states, events, i);
    RunKeepsRecency(states, events, i + 1, from, a, states[i].registry.clock + 1);
  }
}
