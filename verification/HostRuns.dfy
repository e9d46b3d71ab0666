/** What holds in every run of host guards, stage handoffs and device uses. */
module HostRuns {
  import opened HostLeases
  import opened HostInvariants

  lemma {:induction false} InitialInv(s: State)
    requires Initial(s)
    ensures Inv(s)
  {
    forall a | a in s.hosts ensures s.hosts[a].readers == |Readers(s, a)| {
      assert Readers(s, a) == {};
    }
  }

  lemma {:induction false} RunKeepsInv(states: seq<State>, events: seq<Event>, i: nat)
    requires IsRun(states, events) && i < |states|
    ensures Inv(states[i])
  {
    InitialInv(states[0]);
    for k := 0 to i
      invariant Inv(states[k])
    {
      assert Enabled(states[k], events[k]);
      StepKeepsInv(states[k], events[k], states[k + 1]);
    }
  }

  /** In every run, whoever holds a granted guard, an open handoff or an executing use reads the latest published write. */
  lemma {:induction false} AccessSeesLatestWrite(states: seq<State>, events: seq<Event>, i: nat)
    requires IsRun(states, events) && i < |states|
    ensures var s := states[i];
            && (forall t :: t in s.guards && s.guards[t].stage == Granted ==> Fresh(s, s.guards[t].allocation, Host))
            && (forall h, a :: h in s.handoffs && s.handoffs[h].stage == Reserved && a in s.handoffs[h].shown ==> Fresh(s, a, Gpu))
            && (forall u :: u in s.uses && s.uses[u].stage == Granted ==> Fresh(s, s.uses[u].allocation, s.uses[u].engine))
  {
    RunKeepsInv(states, events, i);
  }

  /** In every run, a write guard or a handoff is the only access to its allocation. */
  lemma {:induction false} WriterOrHandoffIsAlone(states: seq<State>, events: seq<Event>, i: nat)
    requires IsRun(states, events) && i < |states|
    ensures var s := states[i];
            && (forall t, u :: t in s.guards && s.guards[t].write && u in s.guards && u != t ==> s.guards[u].allocation != s.guards[t].allocation)
            && (forall t, u :: t in s.guards && s.guards[t].write && u in s.uses ==> s.uses[u].allocation != s.guards[t].allocation)
            && (forall h, t :: h in s.handoffs && t in s.guards ==> s.guards[t].allocation !in s.handoffs[h].allocations)
            && (forall h, u :: h in s.handoffs && u in s.uses ==> s.uses[u].allocation !in s.handoffs[h].allocations)
            && (forall h, k :: h in s.handoffs && k in s.handoffs && h != k ==> s.handoffs[h].allocations !! s.handoffs[k].allocations)
  {
    RunKeepsInv(states, events, i);
    var s := states[i];
    forall t, u | t in s.guards && s.guards[t].write && u in s.uses ensures s.uses[u].allocation != s.guards[t].allocation {
    }
  }

  /** Rolling back right after acquiring undoes the acquire. */
  lemma {:induction false} RollbackUndoesAcquire(s: State, t: nat, a: nat, write: bool)
    requires LeasesFlagged(s) && GuardEnabled(s, Acquire(t, a, write))
    ensures GuardEnabled(GuardStep(s, Acquire(t, a, write)), MaintainFails(t))
    ensures GuardStep(GuardStep(s, Acquire(t, a, write)), MaintainFails(t)) == s
  {
    var u := GuardStep(s, Acquire(t, a, write));
    assert u.guards - {t} == s.guards;
    assert Returned(Leased(s.hosts[a], write), write) == s.hosts[a];
    assert u.hosts[a := s.hosts[a]] == s.hosts;
  }

  /**
   * The guard's lease is gone: its allocation has no writer and no handoff, its
   * readers are the other read guards, and nothing else changed.
   */
  ghost predicate NoTrace(s: State, u: State, t: nat)
    requires t in s.guards
  {
    var a := s.guards[t].allocation;
    && a in s.hosts && u == s.(guards := s.guards - {t}, hosts := u.hosts) && u.hosts.Keys == s.hosts.Keys
    && (forall b :: b in s.hosts && b != a ==> u.hosts[b] == s.hosts[b])
    && u.hosts[a] == HostState(s.hosts[a].mapped, |Readers(s, a) - {t}|, false, false, s.hosts[a].poison)
    && (s.guards[t].write ==> u.hosts[a].readers == 0)
  }

  /**
   * Failed maintenance leaves no trace of its lease, whatever other threads did
   * since it was reserved.
   */
  lemma {:induction false} FailedMaintenanceRestores(states: seq<State>, events: seq<Event>, k: nat, t: nat)
    requires IsRun(states, events) && k < |events| && events[k] == OnGuard(MaintainFails(t))
    ensures t in states[k].guards && NoTrace(states[k], states[k + 1], t)
  {
    RunKeepsInv(states, events, k);
    assert Follows(states[k], events[k], states[k + 1]);
    ReturnedLease(states[k], t);
  }

  lemma {:induction false} ReturnedLease(s: State, t: nat)
    requires LeasesFlagged(s) && FlagsBacked(s) && ReadersCounted(s) && WriterExcludes(s) && HandoffExcludes(s) && t in s.guards
    ensures NoTrace(s, Unleased(s, t), t)
  {
    var a, u := s.guards[t].allocation, Unleased(s, t);
    UnleasedKeepsBacked(s, t);
    ReturnCounts(s, t);
    NobodyElseLeases(s, t);
    assert Readers(u, a) == Readers(s, a) - {t};
  }

  lemma {:induction false} NobodyElseLeases(s: State, t: nat)
    requires WriterExcludes(s) && HandoffExcludes(s) && t in s.guards && s.guards[t].allocation in s.hosts
    ensures var a, u := s.guards[t].allocation, Unleased(s, t);
            !HasWriter(u, a) && !HasHandoff(u, a) && (s.guards[t].write ==> Readers(u, a) == {})
  {
  }

  // ---------- poison ----------

  ghost predicate Poisoned(s: State, a: nat) {
    a in s.hosts && s.hosts[a].poison
  }

  /** Poison comes when no write guard and no handoff holds the allocation, and none can come later. */
  ghost predicate PoisonUnheld(s: State) {
    && (forall t :: t in s.guards && Poisoned(s, s.guards[t].allocation) ==> !s.guards[t].write)
    && (forall h, a :: h in s.handoffs && a in s.handoffs[h].allocations ==> !Poisoned(s, a))
  }

  lemma {:induction false} GuardKeepsUnheld(s: State, e: GuardEvent)
    requires PoisonUnheld(s) && GuardEnabled(s, e)
    ensures PoisonUnheld(GuardStep(s, e))
  {
    var u := GuardStep(s, e);
    assert forall a :: Poisoned(u, a) <==> Poisoned(s, a);
    forall t | t in u.guards && Poisoned(u, u.guards[t].allocation) ensures !u.guards[t].write {
      assert t in s.guards && s.guards[t].allocation == u.guards[t].allocation && s.guards[t].write == u.guards[t].write;
    }
  }

  lemma {:induction false} HandoffKeepsUnheld(s: State, e: HandoffEvent)
    requires PoisonUnheld(s) && HandoffExcludes(s) && HandoffEnabled(s, e)
    ensures PoisonUnheld(HandoffStep(s, e))
  {
    var u := HandoffStep(s, e);
    forall a | Poisoned(u, a) ensures Poisoned(s, a) || (e.Uncertain? && a in s.handoffs[e.token].allocations) {
    }
    forall h, a | h in u.handoffs && a in u.handoffs[h].allocations ensures !Poisoned(u, a) {
      if e.ReserveAll? && h == e.token {
        assert !HostConflict(s.hosts[a], true);
      } else {
        assert h in s.handoffs && u.handoffs[h].allocations == s.handoffs[h].allocations;
      }
    }
  }

  lemma {:induction false} DeviceKeepsUnheld(s: State, e: DeviceEvent)
    requires PoisonUnheld(s) && WriterExcludes(s) && HandoffExcludes(s) && DeviceEnabled(s, e)
    ensures PoisonUnheld(DeviceStep(s, e))
  {
    var u := DeviceStep(s, e);
    forall a | Poisoned(u, a) ensures Poisoned(s, a) || (e.Fail? && a == s.uses[e.id].allocation) {
    }
    forall h, a | h in u.handoffs && a in u.handoffs[h].allocations ensures !Poisoned(u, a) {
      assert h in s.handoffs;
    }
  }

  lemma {:induction false} RunKeepsUnheld(states: seq<State>, events: seq<Event>, i: nat)
    requires IsRun(states, events) && i < |states|
    ensures PoisonUnheld(states[i])
  {
    for k := 0 to i
      invariant PoisonUnheld(states[k])
    {
      RunKeepsInv(states, events, k);
      assert Follows(states[k], events[k], states[k + 1]);
      match events[k] {
        case OnGuard(g) => GuardKeepsUnheld(states[k], g);
        case OnHandoff(h) => HandoffKeepsUnheld(states[k], h);
        case OnDevice(d) => DeviceKeepsUnheld(states[k], d);
      }
    }
  }

  /** A guard held now was held then, on the same allocation, and was no further along. */
  ghost predicate HeldSince(s: State, u: State, a: nat) {
    forall t :: t in u.guards && u.guards[t].allocation == a ==>
                  && t in s.guards && s.guards[t].allocation == a && s.guards[t].write == u.guards[t].write
                  && (u.guards[t].stage == Reserved ==> s.guards[t].stage == Reserved)
  }

  lemma {:induction false} PoisonedStep(s: State, e: Event, a: nat)
    requires Enabled(s, e) && Poisoned(s, a)
    ensures Poisoned(Step(s, e), a) && HeldSince(s, Step(s, e), a)
  {
    match e {
      case OnGuard(g) => PoisonedGuardStep(s, g, a);
      case OnHandoff(h) => PoisonedHandoffStep(s, h, a);
      case OnDevice(d) => PoisonedDeviceStep(s, d, a);
    }
  }

  lemma {:induction false} PoisonedHandoffStep(s: State, e: HandoffEvent, a: nat)
    requires HandoffEnabled(s, e) && Poisoned(s, a)
    ensures Poisoned(HandoffStep(s, e), a) && HeldSince(s, HandoffStep(s, e), a)
  {
  }

  lemma {:induction false} PoisonedDeviceStep(s: State, e: DeviceEvent, a: nat)
    requires DeviceEnabled(s, e) && Poisoned(s, a)
    ensures Poisoned(DeviceStep(s, e), a) && HeldSince(s, DeviceStep(s, e), a)
  {
  }

  lemma {:induction false} PoisonedGuardStep(s: State, e: GuardEvent, a: nat)
    requires GuardEnabled(s, e) && Poisoned(s, a)
    ensures Poisoned(GuardStep(s, e), a) && HeldSince(s, GuardStep(s, e), a)
  {
  }

  /** Poison is permanent, and every guard on a poisoned allocation was already there when the poison came. */
  lemma {:induction false} PoisonIsPermanent(states: seq<State>, events: seq<Event>, i: nat, k: nat, a: nat)
    requires IsRun(states, events) && i <= k < |states| && Poisoned(states[i], a)
    ensures Poisoned(states[k], a) && HeldSince(states[i], states[k], a)
  {
    for j := i to k
      invariant Poisoned(states[j], a) && HeldSince(states[i], states[j], a)
    {
      assert Follows(states[j], events[j], states[j + 1]);
      PoisonedStep(states[j], events[j], a);
    }
  }

  /** The event lets someone touch the allocation: a guard, a handoff or a device use. */
  ghost predicate Grants(s: State, e: Event, a: nat) {
    match e
    case OnGuard(Maintain(t)) => t in s.guards && s.guards[t].allocation == a
    case OnHandoff(Show(_, b)) => b == a
    case OnDevice(Prepare(id)) => id in s.uses && s.uses[id].allocation == a
    case _ => false
  }

  /** A read guard whose maintenance has not finished. */
  ghost predicate PendingRead(s: State, a: nat, t: nat) {
    t in s.guards && s.guards[t].allocation == a && !s.guards[t].write && s.guards[t].stage == Reserved
  }

  lemma {:induction false} PoisonedGrant(s: State, e: Event, a: nat)
    requires PoisonUnheld(s) && Enabled(s, e) && Poisoned(s, a) && Grants(s, e, a)
    ensures e.OnGuard? && e.guard.Maintain? && PendingRead(s, a, e.guard.token)
  {
  }

  /**
   * After poison the allocation is granted only to a read guard that was waiting
   * for its maintenance when the poison came: never to a writer, a handoff, a device
   * use or a later reader.
   */
  lemma {:induction false} OnlyPendingReadsAreGranted(states: seq<State>, events: seq<Event>, i: nat, k: nat, a: nat)
    requires IsRun(states, events) && i <= k < |events| && Poisoned(states[i], a) && Grants(states[k], events[k], a)
    ensures events[k].OnGuard? && events[k].guard.Maintain? && PendingRead(states[i], a, events[k].guard.token)
  {
    PoisonIsPermanent(states, events, i, k, a);
    RunKeepsUnheld(states, events, k);
    assert Enabled(states[k], events[k]);
    PoisonedGrant(states[k], events[k], a);
  }

  /** A poisoned allocation can be granted exactly while such a read is waiting. */
  lemma {:induction false} GrantableIffReadPending(states: seq<State>, events: seq<Event>, i: nat, a: nat)
    requires IsRun(states, events) && i < |states| && Poisoned(states[i], a)
    ensures (exists e :: Enabled(states[i], e) && Grants(states[i], e, a)) <==> exists t :: PendingRead(states[i], a, t)
  {
    var s := states[i];
    RunKeepsUnheld(states, events, i);
    RunKeepsInv(states, events, i);
    if e :| Enabled(s, e) && Grants(s, e, a) {
      PoisonedGrant(s, e, a);
    }
    if t :| PendingRead(s, a, t) {
      assert Enabled(s, OnGuard(Maintain(t))) && Grants(s, OnGuard(Maintain(t)), a);
    }
  }

  /** The states of one such run on allocation 0: device use 1 reads, guard 2 reads, the device fails. */
  function Witness(k: nat): State {
    var host := if k < 3 then NEW_HOST else NEW_HOST.(readers := 1, poison := k > 3);
    var uses := if k == 0 || k > 3 then map[] else map[1 := DeviceUse(0, false, Gpu, k > 1, Reserved)];
    var guards := if k < 3 then map[] else map[2 := Guard(0, false, if k < 5 then Reserved else Granted)];
    State(map[0 := host], map[0 := NEW_VIEW], guards, map[], uses)
  }

  function WitnessEvents(): seq<Event> {
    [OnDevice(Submit(1, 0, false, Gpu)), OnDevice(Start(1)), OnGuard(Acquire(2, 0, false)), OnDevice(Fail(1)), OnGuard(Maintain(2))]
  }

  lemma {:induction false} WitnessStarts(k: nat)
    requires k < 3
    ensures Follows(Witness(k), WitnessEvents()[k], Witness(k + 1))
  {
  }

  lemma {:induction false} WitnessSteps(k: nat)
    requires k < 5
    ensures Follows(Witness(k), WitnessEvents()[k], Witness(k + 1))
  {
    if k < 3 {
      WitnessStarts(k);
    } else if k == 3 {
      assert Witness(3).uses - {1} == map[];
    }
  }

  /** It happens: a read is reserved beside a device read, the device fails, and the read is granted. */
  lemma {:induction false} PoisonedReadIsGranted()
    ensures IsRun(seq(6, k requires 0 <= k < 6 => Witness(k)), WitnessEvents())
    ensures Poisoned(Witness(4), 0) && Grants(Witness(4), WitnessEvents()[4], 0) && Poisoned(Witness(5), 0)
    ensures 2 in Witness(5).guards && Witness(5).guards[2] == Guard(0, false, Granted)
  {
    var states, events := seq(6, k requires 0 <= k < 6 => Witness(k)), WitnessEvents();
    forall i | 0 <= i < |events| ensures Follows(states[i], events[i], states[i + 1]) {
      WitnessSteps(i);
    }
  }
}
