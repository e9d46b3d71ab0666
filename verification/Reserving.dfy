/**
 * The capacity loop of a reservation, run without interference: retry after
 * evicting the least recently used idle entry until the bytes fit.
 */
module Reserving {
  import opened Accesses
  import opened Recency
  import opened Totals
  import opened Residency

  /** A cached entry: `charge` is everything dropping it gives back to the budget. */
  datatype Slot = InFlight | Cached(charge: nat, used: nat, evictable: bool) {
    predicate Idle() {
      Cached? && evictable
    }
  }

  type Slots = map<Key, Slot>

  function IdleKeys(slots: Slots): set<Key> {
    set k | k in slots && slots[k].Idle()
  }

  function Charge(slots: Slots): map<Key, nat> {
    map k | k in slots :: if slots[k].Cached? then slots[k].charge else 0
  }

  /** Bytes held by entries that could be evicted. */
  ghost function Reclaimable(slots: Slots): nat {
    Sum(IdleKeys(slots), Charge(slots))
  }

  ghost function Taken(victims: seq<Key>): set<Key> {
    set v | v in victims
  }

  /** Bytes given back by evicting these keys. */
  ghost function Reclaimed(slots: Slots, victims: seq<Key>): nat
    requires forall v :: v in victims ==> v in slots
  {
    Sum(Taken(victims), Charge(slots))
  }

  /** The idle entries and their last use. */
  function LastUse(slots: Slots): map<Key, nat> {
    map k | k in slots && slots[k].Idle() :: slots[k].used
  }

  /** Distinct idle entries in order of last use, all of them older than the idle entries left behind. */
  ghost predicate LruPrefix(slots: Slots, victims: seq<Key>) {
    && (forall v :: v in victims ==> v in slots && slots[v].Idle())
    && (forall i, j :: 0 <= i < j < |victims| ==> victims[i] != victims[j])
    && (forall i, j :: 0 <= i < j < |victims| && victims[i] in victims && victims[j] in victims ==> slots[victims[i]].used <= slots[victims[j]].used)
    && (forall v, k :: v in victims && k in IdleKeys(slots) && k !in victims ==> slots[v].used <= slots[k].used)
  }

  lemma {:induction false} LruPrefixExtends(slots: Slots, victims: seq<Key>, next: Key)
    requires LruPrefix(slots, victims) && Oldest(LastUse(slots - Taken(victims)), next)
    ensures LruPrefix(slots, victims + [next])
  {
    var left := slots - Taken(victims);
    assert next in LastUse(left) && next !in victims;
    assert forall k :: k in IdleKeys(slots) && k !in victims ==> k in LastUse(left);
  }

  lemma {:induction false} TakenNext(slots: Slots, victims: seq<Key>, next: Key)
    requires (forall v :: v in victims ==> v in slots) && next in slots && next !in victims
    ensures Reclaimed(slots, victims + [next]) == Reclaimed(slots, victims) + Charge(slots)[next]
    ensures slots - Taken(victims + [next]) == slots - Taken(victims) - {next}
  {
    assert Taken(victims + [next]) == Taken(victims) + {next};
    SumAdd(Taken(victims), Charge(slots), next);
  }

  /** What victims give back and what the remaining idle entries hold make up the whole. */
  lemma {:induction false} ReclaimedSplits(slots: Slots, victims: seq<Key>)
    requires LruPrefix(slots, victims)
    ensures Reclaimable(slots) == Reclaimed(slots, victims) + Reclaimable(slots - Taken(victims))
  {
    var taken, idle, left := Taken(victims), IdleKeys(slots), slots - Taken(victims);
    SumUnion(taken, idle - taken, Charge(slots));
    assert taken + (idle - taken) == idle;
    assert idle - taken == IdleKeys(left);
    SumFrame(IdleKeys(left), Charge(slots), Charge(left));
  }

  /** Evicting only these would not have made room for `n` more bytes. */
  ghost predicate StillFull(slots: Slots, start: nat, limit: nat, n: nat, victims: seq<Key>) {
    (forall v :: v in victims ==> v in slots) && start - Reclaimed(slots, victims) + n > limit
  }

  /** The victims are an LRU prefix, and no shorter prefix of them makes room. */
  ghost predicate Needed(slots: Slots, start: nat, limit: nat, n: nat, victims: seq<Key>) {
    LruPrefix(slots, victims) && forall m :: 0 <= m < |victims| ==> StillFull(slots, start, limit, n, victims[..m])
  }

  lemma {:induction false} NeededExtends(slots: Slots, start: nat, limit: nat, n: nat, victims: seq<Key>, next: Key)
    requires Needed(slots, start, limit, n, victims) && StillFull(slots, start, limit, n, victims)
    requires Oldest(LastUse(slots - Taken(victims)), next)
    ensures Needed(slots, start, limit, n, victims + [next])
  {
    LruPrefixExtends(slots, victims, next);
    var more := victims + [next];
    forall m | 0 <= m < |more| ensures StillFull(slots, start, limit, n, more[..m]) {
      assert more[..m] == victims[..m];
      assert victims[..|victims|] == victims;
    }
  }

  class Budget {
    const limit: nat
    var bytes: nat
    var slots: Slots
    var evictions: nat

    /** The counter covers at least what the idle entries would give back. */
    ghost predicate Valid()
      reads this
    {
      Reclaimable(slots) <= bytes <= limit
    }

    constructor (limit: nat, bytes: nat, slots: Slots)
      requires Reclaimable(slots) <= bytes <= limit
      ensures Valid() && this.limit == limit && this.bytes == bytes && this.slots == slots && evictions == 0
    {
      this.limit, this.bytes, this.slots, this.evictions := limit, bytes, slots, 0;
    }

    /** Remove the least recently used idle entry; its charge stays until it is dropped. */
    method EvictIdle() returns (victim: Option<Key>, charge: nat)
      modifies `slots, `evictions
      ensures victim.None? ==> IdleKeys(old(slots)) == {} && slots == old(slots) && evictions == old(evictions) && charge == 0
      ensures victim.Some? ==> Oldest(LastUse(old(slots)), victim.value) && slots == old(slots) - {victim.value}
                               && evictions == old(evictions) + 1 && charge == Charge(old(slots))[victim.value]
    {
      victim := FindOldest(LastUse(slots));
      charge := 0;
      if victim.Some? {
        charge := slots[victim.value].charge;
        slots := slots - {victim.value};
        evictions := evictions + 1;
      }
    }

    /**
     * Reserve `n` bytes. The victims are the shortest least-recently-used prefix
     * of the idle entries that makes room; the reservation succeeds exactly when
     * the bytes not held by idle entries leave room, and is refused as busy only
     * when no idle entry remains.
     */
    method Reserve(n: nat) returns (r: Result<nat>, ghost victims: seq<Key>)
      requires Valid()
      modifies this
      ensures Valid()
      ensures n > limit ==> r == Err(Message) && victims == []
      ensures r.Ok? <==> n <= limit && old(bytes) - Reclaimable(old(slots)) + n <= limit
      ensures Evicting(old(slots), old(bytes), limit, n, slots, bytes - if r.Ok? then n else 0, victims)
      ensures evictions == old(evictions) + |victims|
      ensures r.Err? ==> if n > limit then r == Err(Message) else r == Err(Busy) && IdleKeys(slots) == {}
    {
      victims := [];
      ghost var was, start := slots, bytes;
      NothingEvicted(was, start, limit, n);
      if n > limit {
        return Err(Message), [];
      }
      while true
        invariant Evicting(was, start, limit, n, slots, bytes, victims)
        invariant evictions == old(evictions) + |victims|
        decreases |slots|
      {
        if bytes + n <= limit {
          RoomWasThere(was, start, limit, n, slots, bytes, victims);
          bytes := bytes + n;
          return Ok(n), victims;
        }
        ghost var before := slots;
        var victim, charge := EvictIdle();
        if victim.None? {
          NothingLeft(was, start, limit, n, slots, bytes, victims);
          return Err(Busy), victims;
        }
        EvictionStep(was, start, limit, n, before, bytes, victims, victim.value);
        victims := victims + [victim.value];
        bytes := bytes - charge;
      }
    }
  }

  /**
   * The victims are needed, and the entries and the counter are what is left
   * after evicting exactly them.
   */
  ghost predicate Evicting(was: Slots, start: nat, limit: nat, n: nat, slots: Slots, bytes: int, victims: seq<Key>) {
    Needed(was, start, limit, n, victims) && slots == was - Taken(victims) && bytes == start - Reclaimed(was, victims)
  }

  lemma {:induction false} NothingEvicted(was: Slots, start: nat, limit: nat, n: nat)
    ensures Evicting(was, start, limit, n, was, start, [])
  {
  }

  lemma {:induction false} RoomWasThere(was: Slots, start: nat, limit: nat, n: nat, slots: Slots, bytes: int, victims: seq<Key>)
    requires Evicting(was, start, limit, n, slots, bytes, victims) && Reclaimable(was) <= start && bytes + n <= limit
    ensures start - Reclaimable(was) + n <= limit && Reclaimable(slots) <= bytes
  {
    ReclaimedSplits(was, victims);
  }

  lemma {:induction false} NothingLeft(was: Slots, start: nat, limit: nat, n: nat, slots: Slots, bytes: int, victims: seq<Key>)
    requires Evicting(was, start, limit, n, slots, bytes, victims) && IdleKeys(slots) == {} && bytes + n > limit
    ensures start - Reclaimable(was) + n > limit && Reclaimable(slots) == 0
  {
    ReclaimedSplits(was, victims);
  }

  lemma {:induction false} EvictionStep(was: Slots, start: nat, limit: nat, n: nat, slots: Slots, bytes: int, victims: seq<Key>, next: Key)
    requires Evicting(was, start, limit, n, slots, bytes, victims) && bytes + n > limit
    requires Reclaimable(was) <= start && Oldest(LastUse(slots), next)
    ensures Charge(slots)[next] <= bytes && |slots - {next}| < |slots|
    ensures Evicting(was, start, limit, n, slots - {next}, bytes - Charge(slots)[next], victims + [next])
  {
    NeededExtends(was, start, limit, n, victims, next);
    TakenNext(was, victims, next);
    ReclaimedSplits(was, victims + [next]);
    assert slots.Keys == (slots - {next}).Keys + {next};
  }

  // ---------- the loop is a run of the residency protocol ----------

  /** The slots of a registry: what each entry's own reservation would give back. */
  ghost function SlotsOf(s: State): Slots {
    map k | k in s.registry.entries :: match s.registry.entries[k]
                                       case Loading(_) => InFlight
                                       case Ready(r, used) => Cached(ChargeOf(s, r), used, Evictable(s, r))
  }

  ghost function ChargeOf(s: State, r: nat): nat {
    if r in s.ledger.charges then s.ledger.charges[r] else 0
  }

  /** The oldest slot is the least recently used entry. */
  lemma {:induction false} SlotsHaveSameVictims(s: State)
    ensures LastUse(SlotsOf(s)) == Candidates(s)
  {
  }

  ghost predicate ReadyKeys(s: State, keys: set<Key>) {
    forall k :: k in keys ==> k in s.registry.entries && s.registry.entries[k].Ready?
  }

  ghost function ResourcesOf(s: State, keys: set<Key>): set<nat>
    requires ReadyKeys(s, keys)
  {
    set k | k in keys :: s.registry.entries[k].resource
  }

  /** Keys have resources of their own, so their charges add up to those of the resources. */
  lemma {:induction false} SlotChargesAreCharges(s: State, keys: set<Key>)
    requires Registered(s) && Charged(s) && ReadyKeys(s, keys)
    ensures keys <= Charge(SlotsOf(s)).Keys && ResourcesOf(s, keys) <= s.ledger.charges.Keys
    ensures Sum(keys, Charge(SlotsOf(s))) == Sum(ResourcesOf(s, keys), s.ledger.charges)
    decreases |keys|
  {
    if keys == {} {
      assert ResourcesOf(s, keys) == {};
    } else {
      var k :| k in keys;
      var rest, r := keys - {k}, s.registry.entries[k].resource;
      SlotChargesAreCharges(s, rest);
      assert r !in ResourcesOf(s, rest);
      assert ResourcesOf(s, keys) == ResourcesOf(s, rest) + {r};
      SumRemove(keys, Charge(SlotsOf(s)), k);
      SumAdd(ResourcesOf(s, rest), s.ledger.charges, r);
    }
  }

  /** So the byte counter always covers what idle entries would give back. */
  lemma {:induction false} ReclaimableIsCharged(s: State)
    requires Conserved(s) && Charged(s) && Registered(s)
    ensures Reclaimable(SlotsOf(s)) <= s.ledger.used <= s.ledger.limit
  {
    var idle := IdleKeys(SlotsOf(s));
    SlotChargesAreCharges(s, idle);
    var held := ResourcesOf(s, idle);
    SumUnion(held, s.ledger.charges.Keys - held, s.ledger.charges);
    assert held + (s.ledger.charges.Keys - held) == s.ledger.charges.Keys;
  }

  ghost predicate IsPath(states: seq<State>, events: seq<Event>) {
    && |states| == |events| + 1
    && forall i {:trigger events[i]} :: 0 <= i < |events| ==> Follows(states[i], events[i], states[i + 1])
  }

  ghost predicate Follows(s: State, e: Event, u: State) {
    Enabled(s, e) && u == Step(s, e)
  }

  ghost predicate Live(s: State) {
    Inv(s) && s.registry.alive
  }

  /** The state once an evicted entry's destructor has finished. */
  ghost function Evicted(s: State, k: Key): State
    requires EvictableKey(s, k)
  {
    var r := s.registry.entries[k].resource;
    State(Freed(s.ledger, r),
          s.registry.(entries := s.registry.entries - {k}, evictions := s.registry.evictions + 1),
          s.loaders, s.values.(resources := s.values.resources - {r}))
  }

  /** It frees exactly the victim's charge and leaves every other slot as it was. */
  lemma {:induction false} EvictedSlots(s: State, k: Key)
    requires Conserved(s) && Charged(s) && Registered(s) && EvictableKey(s, k)
    ensures SlotsOf(Evicted(s, k)) == SlotsOf(s) - {k} && k in SlotsOf(s) && SlotsOf(s)[k].Cached?
    ensures Evicted(s, k).ledger.used == s.ledger.used - SlotsOf(s)[k].charge
  {
    var r, u := s.registry.entries[k].resource, Evicted(s, k);
    TotalRemove(s.ledger.charges, r);
    forall o | o in u.registry.entries ensures SlotsOf(u)[o] == SlotsOf(s)[o] {
      if s.registry.entries[o].Ready? {
        var q := s.registry.entries[o].resource;
        assert q != r && (Held(u, q) <==> Held(s, q));
      }
    }
  }

  /** Evicting, dropping the victim and finishing its destructor are three steps of the protocol. */
  lemma {:induction false} EvictionIsThreeSteps(s: State, k: Key) returns (a: State, b: State, r: nat)
    requires Live(s) && EvictableKey(s, k) && LeastRecentlyUsed(s, k)
    ensures Follows(s, OnRegistry(EvictIdle(k)), a) && Follows(a, OnBudget(DropVictim(r)), b)
    ensures Follows(b, OnBudget(Destroy(r)), Evicted(s, k)) && Live(Evicted(s, k))
  {
    r := s.registry.entries[k].resource;
    a := Step(s, OnRegistry(EvictIdle(k)));
    StepKeepsInv(s, OnRegistry(EvictIdle(k)));
    assert r in a.values.retiring;
    b := Step(a, OnBudget(DropVictim(r)));
    StepKeepsInv(a, OnBudget(DropVictim(r)));
    DroppedVictim(s, k, b);
    StepKeepsInv(b, OnBudget(Destroy(r)));
  }

  lemma {:induction false} DroppedVictim(s: State, k: Key, b: State)
    requires Live(s) && EvictableKey(s, k)
    requires var r, a := s.registry.entries[k].resource, Removed(s, {k});
             b == a.(values := a.values.(retiring := a.values.retiring - {r}))
    ensures Unreferenced(b, s.registry.entries[k].resource)
    ensures BudgetStep(b, Destroy(s.registry.entries[k].resource)) == Evicted(s, k)
  {
    var r := s.registry.entries[k].resource;
    assert r in s.values.resources && s.values.resources[r].key == k && r !in s.values.retiring;
    assert b.values.retiring == s.values.retiring;
    assert !Held(b, r) by {
      assert !Held(s, r);
    }
  }

  lemma {:induction false} PathExtends(states: seq<State>, events: seq<Event>, e: Event, u: State)
      returns (more: seq<State>, longer: seq<Event>)
    requires IsPath(states, events) && Follows(states[|events|], e, u)
    ensures IsPath(more, longer) && more[0] == states[0] && more[|longer|] == u
  {
    more, longer := states + [u], events + [e];
    forall i | 0 <= i < |longer| ensures Follows(more[i], longer[i], more[i + 1]) {
      if i < |events| {
        assert longer[i] == events[i];
      }
    }
  }

  lemma {:induction false} NoneOlder(slots: Slots, victims: seq<Key>, m: nat, o: Key)
    requires LruPrefix(slots, victims) && m < |victims| && o in IdleKeys(slots) && o !in victims[..m]
    ensures victims[m] in slots && slots[victims[m]].used <= slots[o].used
  {
    assert victims[m] in victims && forall x :: 0 <= x < m ==> victims[..m][x] == victims[x];
    if o in victims {
      var j :| 0 <= j < |victims| && victims[j] == o;
      assert victims[j] in victims;
    }
  }

  lemma {:induction false} VictimIsNew(slots: Slots, victims: seq<Key>, m: nat)
    requires LruPrefix(slots, victims) && m < |victims|
    ensures victims[m] in slots && slots[victims[m]].Idle() && victims[m] !in victims[..m]
  {
    assert victims[m] in victims;
  }

  /** The next victim of an LRU prefix is the oldest of what the earlier ones leave. */
  lemma {:induction false} PrefixTakesOldest(slots: Slots, victims: seq<Key>, m: nat)
    requires LruPrefix(slots, victims) && m < |victims|
    ensures Oldest(LastUse(slots - Taken(victims[..m])), victims[m])
  {
    VictimIsNew(slots, victims, m);
    forall o | o in LastUse(slots - Taken(victims[..m])) ensures slots[victims[m]].used <= slots[o].used {
      NoneOlder(slots, victims, m, o);
    }
  }

  lemma {:induction false} PathEvicts(states: seq<State>, events: seq<Event>, k: Key) returns (more: seq<State>, longer: seq<Event>)
    requires IsPath(states, events) && Live(states[|events|])
    requires EvictableKey(states[|events|], k) && LeastRecentlyUsed(states[|events|], k)
    ensures IsPath(more, longer) && more[0] == states[0]
    ensures more[|longer|] == Evicted(states[|events|], k) && Live(more[|longer|])
  {
    var u := states[|events|];
    var a, b, r := EvictionIsThreeSteps(u, k);
    more, longer := PathExtends(states, events, OnRegistry(EvictIdle(k)), a);
    more, longer := PathExtends(more, longer, OnBudget(DropVictim(r)), b);
    more, longer := PathExtends(more, longer, OnBudget(Destroy(r)), Evicted(u, k));
  }

  /** The registry and the ledger of `u` are those of `s` after evicting the victims. */
  ghost predicate Mirrors(s: State, u: State, victims: seq<Key>) {
    && (forall v :: v in victims ==> v in SlotsOf(s)) && u.ledger.limit == s.ledger.limit
    && SlotsOf(u) == SlotsOf(s) - Taken(victims)
    && u.ledger.used == s.ledger.used - Reclaimed(SlotsOf(s), victims)
  }

  /** The loop's next victim is the registry's least recently used entry. */
  lemma {:induction false} MirrorsVictim(s: State, u: State, victims: seq<Key>, m: nat)
    requires LruPrefix(SlotsOf(s), victims) && m < |victims| && Mirrors(s, u, victims[..m])
    ensures EvictableKey(u, victims[m]) && LeastRecentlyUsed(u, victims[m])
  {
    PrefixTakesOldest(SlotsOf(s), victims, m);
    SlotsHaveSameVictims(u);
  }

  lemma {:induction false} MirrorsEvicted(s: State, u: State, victims: seq<Key>, k: Key)
    requires Conserved(u) && Charged(u) && Registered(u) && Mirrors(s, u, victims)
    requires EvictableKey(u, k) && k in SlotsOf(s) && k !in victims
    ensures Mirrors(s, Evicted(u, k), victims + [k])
  {
    EvictedSlots(u, k);
    TakenNext(SlotsOf(s), victims, k);
    assert SlotsOf(u)[k] == SlotsOf(s)[k];
  }

  lemma {:induction false} MirrorsNext(s: State, u: State, victims: seq<Key>, m: nat)
    requires m < |victims|
    requires Conserved(u) && Charged(u) && Registered(u) && EvictableKey(u, victims[m])
    requires LruPrefix(SlotsOf(s), victims) && Mirrors(s, u, victims[..m])
    ensures Mirrors(s, Evicted(u, victims[m]), victims[..m + 1])
  {
    assert victims[..m + 1] == victims[..m] + [victims[m]];
    VictimIsNew(SlotsOf(s), victims, m);
    MirrorsEvicted(s, u, victims[..m], victims[m]);
  }

  /**
   * What the reserving loop does to its slots and its counter, the protocol does
   * to the registry and the ledger: evicting the same victims in the same order
   * is a run of the protocol that ends with the same slots and the same bytes.
   */
  lemma {:induction false} EvictionsAreARun(s: State, victims: seq<Key>) returns (states: seq<State>, events: seq<Event>)
    requires Live(s) && LruPrefix(SlotsOf(s), victims)
    ensures IsPath(states, events) && states[0] == s && Live(states[|events|])
    ensures Mirrors(s, states[|events|], victims)
  {
    states, events := [s], [];
    assert SlotsOf(s) == SlotsOf(s) - Taken(victims[..0]);
    for m := 0 to |victims|
      invariant IsPath(states, events) && states[0] == s && Live(states[|events|])
      invariant Mirrors(s, states[|events|], victims[..m])
    {
      MirrorsVictim(s, states[|events|], victims, m);
      MirrorsNext(s, states[|events|], victims, m);
      states, events := PathEvicts(states, events, victims[m]);
    }
    assert victims[..|victims|] == victims;
  }
}
