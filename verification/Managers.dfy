/** The registry's critical sections as code, each refining one step of the residency protocol. */
module Managers {
  import opened Accesses
  import opened Recency
  import opened Residency

  // ---------- one sweep ----------

  /** What a sweep leaves behind once it has visited these keys. */
  ghost function Visited(s: State, now: nat, done: set<Key>): map<nat, Resource> {
    map r | r in s.values.resources ::
      if Resident(s, r) && s.values.resources[r].key in done
      then s.values.resources[r].(idleSince := Marked(s, r, now)) else s.values.resources[r]
  }

  lemma {:induction false} VisitReady(s: State, now: nat, done: set<Key>, k: Key)
    requires Registered(s) && k in s.registry.entries && s.registry.entries[k].Ready?
    ensures var r := s.registry.entries[k].resource;
            && r in s.values.resources
            && Visited(s, now, done + {k}) == Visited(s, now, done)[r := s.values.resources[r].(idleSince := Marked(s, r, now))]
  {
  }

  lemma {:induction false} VisitLoading(s: State, now: nat, done: set<Key>, k: Key)
    requires k in s.registry.entries && s.registry.entries[k].Loading?
    ensures Visited(s, now, done + {k}) == Visited(s, now, done)
  {
  }

  ghost function ExpiredAmong(s: State, now: nat, done: set<Key>): set<Key> {
    set k | k in done && Expired(s, k, now)
  }

  lemma {:induction false} VisitNone(s: State, now: nat)
    ensures Visited(s, now, {}) == s.values.resources && ExpiredAmong(s, now, {}) == {}
  {
  }

  lemma {:induction false} VisitAll(s: State, now: nat)
    ensures Visited(s, now, s.registry.entries.Keys) == Noted(s, now).values.resources
    ensures ExpiredAmong(s, now, s.registry.entries.Keys) == ExpiredKeys(s, now)
  {
  }

  lemma {:induction false} ExpiredWith(s: State, now: nat, done: set<Key>, k: Key)
    ensures ExpiredAmong(s, now, done + {k}) == ExpiredAmong(s, now, done) + if Expired(s, k, now) then {k} else {}
  {
  }

  /** Visit one entry: restart, start or read its idle countdown. */
  method Visit(s: State, timeout: nat, now: nat, ghost done: set<Key>, resources: map<nat, Resource>, expired: set<Key>, k: Key)
      returns (noted: map<nat, Resource>, gone: set<Key>)
    requires Registered(s) && s.registry.timeout == Some(timeout) && k in s.registry.entries
    requires resources == Visited(s, now, done) && expired == ExpiredAmong(s, now, done)
    ensures noted == Visited(s, now, done + {k}) && gone == ExpiredAmong(s, now, done + {k})
  {
    noted, gone := resources, expired;
    ExpiredWith(s, now, done, k);
    if s.registry.entries[k].Loading? {
      VisitLoading(s, now, done, k);
      return;
    }
    var r := s.registry.entries[k].resource;
    VisitReady(s, now, done, k);
    if !Evictable(s, r) {
      noted := resources[r := s.values.resources[r].(idleSince := None)];
    } else {
      var since := if s.values.resources[r].idleSince.Some? then s.values.resources[r].idleSince.value else now;
      noted := resources[r := s.values.resources[r].(idleSince := Some(since))];
      if Elapsed(now, since) >= timeout {
        gone := expired + {k};
      }
    }
  }

  /** Visit every entry: note who is idle, and list those idle for the whole timeout. */
  method CollectExpired(s: State, timeout: nat, now: nat) returns (resources: map<nat, Resource>, expired: set<Key>)
    requires Registered(s) && s.registry.timeout == Some(timeout)
    ensures resources == Noted(s, now).values.resources
    ensures expired == ExpiredKeys(s, now)
  {
    resources, expired := s.values.resources, {};
    var todo := s.registry.entries.Keys;
    VisitNone(s, now);
    ghost var done: set<Key> := {};
    while todo != {}
      invariant todo + done == s.registry.entries.Keys
      invariant resources == Visited(s, now, done) && expired == ExpiredAmong(s, now, done)
      decreases |todo|
    {
      var k :| k in todo;
      resources, expired := Visit(s, timeout, now, done, resources, expired, k);
      todo, done := todo - {k}, done + {k};
    }
    assert done == s.registry.entries.Keys;
    VisitAll(s, now);
  }

  /** What one pass of a load's critical section decided. */
  datatype Decision =
    | Leased(resource: nat)
    | WrongType
    | Joined(flight: nat)
    | Elected(flight: nat)
    | Retry
    | Refused

  class ResidencyManager {
    var state: State

    ghost predicate Valid()
      reads this
    {
      Inv(state) && state.registry.alive
    }

    constructor (limit: nat, timeout: Option<nat>)
      ensures Valid() && state == Initial(limit, timeout)
    {
      state := State(Ledger(limit, 0, map[], {}), Registry(true, timeout, map[], 0, 0),
                     Loaders(map[], map[], map[]), Values(map[], map[], map[], {}));
    }

    /** Remove an idle entry by name; entries in use are busy and absent ones are reported as such. */
    method Evict(key: Key) returns (r: Result<bool>)
      requires Valid()
      modifies this
      ensures Valid()
      ensures r == if key !in old(state).registry.entries then Ok(false)
                   else if EvictableKey(old(state), key) then Ok(true) else Err(Busy)
      ensures if r == Ok(true) then state == RegistryStep(old(state), RegistryEvent.Evict(key)) else state == old(state)
    {
      if key !in state.registry.entries {
        return Ok(false);
      }
      if !EvictableKey(state, key) {
        return Err(Busy);
      }
      StepKeepsInv(state, OnRegistry(RegistryEvent.Evict(key)));
      state := Removed(state, {key});
      return Ok(true);
    }

    /** Remove every entry that has stayed idle for the timeout. */
    method Sweep(now: nat)
      requires Valid()
      modifies this
      ensures Valid() && state == RegistryStep(old(state), RegistryEvent.Sweep(now))
    {
      StepKeepsInv(state, OnRegistry(RegistryEvent.Sweep(now)));
      if state.registry.timeout.Some? {
        var resources, expired := CollectExpired(state, state.registry.timeout.value, now);
        state := Removed(state.(values := state.values.(resources := resources)), expired);
      }
    }

    /** One pass of a load under the registry lock; `token` names what the pass creates. */
    method Admit(key: Key, peak: nat, typed: bool, token: nat) returns (d: Decision, ghost e: RegistryEvent)
      requires Valid() && Fresh(state, token)
      modifies this
      ensures Valid() && RegistryEnabled(old(state), e) && state == RegistryStep(old(state), e)
      ensures Decides(old(state), key, peak, typed, token, d, e)
    {
      ghost var was := state;
      if key in state.registry.entries && state.registry.entries[key].Ready? {
        e := Hit(key, typed, token);
        var r, g := state.registry.entries[key].resource, Tick(state.registry);
        StepKeepsInv(was, OnRegistry(e));
        state := state.(registry := g.(entries := g.entries[key := Ready(r, g.clock)]),
                        values := if typed then Residency.Leased(state.values, r, token) else state.values);
        d := if typed then Decision.Leased(r) else WrongType;
      } else if key in state.registry.entries {
        e := Join(key, token);
        StepKeepsInv(was, OnRegistry(e));
        var flight := state.registry.entries[key].flight;
        state := state.(registry := Tick(state.registry),
                        loaders := state.loaders.(waiters := state.loaders.waiters[token := flight]));
        d := Joined(flight);
      } else if Fits(state, peak) {
        e := Elect(key, peak, token);
        StepKeepsInv(was, OnRegistry(e));
        state := state.(registry := Tick(state.registry).(entries := state.registry.entries[key := Loading(token)]),
                        loaders := state.loaders.(loads := state.loaders.loads[token := Load(key, Running)]),
                        ledger := state.ledger.(used := state.ledger.used + peak,
                                                charges := state.ledger.charges[token := peak]));
        d := Elected(token);
      } else {
        d, e := MakeRoom(key);
      }
    }

    /** Evict one idle entry before trying again, or refuse when there is none. */
    method MakeRoom(key: Key) returns (d: Decision, ghost e: RegistryEvent)
      requires Valid() && key !in state.registry.entries
      modifies this
      ensures Valid() && RegistryEnabled(old(state), e) && state == RegistryStep(old(state), e)
      ensures if exists k :: EvictableKey(old(state), k)
              then e.LoadEvict? && e.key == key && LeastRecentlyUsed(old(state), e.victim) && d == Retry
              else e == NoRoom(key) && d == Refused
    {
      var victim := FindOldest(Candidates(state));
      if victim.None? {
        assert forall k :: EvictableKey(state, k) ==> k in Candidates(state);
        e, d := NoRoom(key), Refused;
        StepKeepsInv(state, OnRegistry(e));
        state := state.(registry := Tick(state.registry));
      } else {
        e, d := LoadEvict(key, victim.value), Retry;
        StepKeepsInv(state, OnRegistry(e));
        state := Removed(state.(registry := Tick(state.registry)), {victim.value});
      }
    }
  }

  /** A ready entry is shared, a loading one joined, and only a missing one is loaded, made room for or refused. */
  ghost predicate Decides(s: State, key: Key, peak: nat, typed: bool, token: nat, d: Decision, e: RegistryEvent) {
    if key in s.registry.entries then
      match s.registry.entries[key]
      case Ready(r, _) => e == Hit(key, typed, token) && d == (if typed then Decision.Leased(r) else WrongType)
      case Loading(f) => e == Join(key, token) && d == Joined(f)
    else if Fits(s, peak) then e == Elect(key, peak, token) && d == Elected(token)
    else if exists k :: EvictableKey(s, k) then
      e.LoadEvict? && e.key == key && LeastRecentlyUsed(s, e.victim) && d == Retry
    else e == NoRoom(key) && d == Refused
  }
}
