/** Every step of guards, handoffs and device uses keeps the lease and freshness invariants. */
module HostInvariants {
  import opened HostLeases

  // ---------- consequences of a passed check ----------

  /** Without a write conflict nobody holds the allocation. */
  lemma {:induction false} NobodyHolds(s: State, a: nat)
    requires LeasesFlagged(s) && ReadersCounted(s) && a in s.hosts && !HostConflict(s.hosts[a], true)
    ensures forall t :: t in s.guards ==> s.guards[t].allocation != a
    ensures forall h :: h in s.handoffs ==> a !in s.handoffs[h].allocations
  {
    assert Readers(s, a) == {};
    forall t | t in s.guards ensures s.guards[t].allocation != a {
      assert t !in Readers(s, a);
    }
  }

  /** Without a read conflict nobody writes the allocation. */
  lemma {:induction false} NobodyWrites(s: State, a: nat)
    requires LeasesFlagged(s) && a in s.hosts && !HostConflict(s.hosts[a], false)
    ensures forall t :: t in s.guards && s.guards[t].allocation == a ==> !s.guards[t].write
    ensures forall h :: h in s.handoffs ==> a !in s.handoffs[h].allocations
  {
  }

  /** While a guard writes, nobody else touches the allocation. */
  lemma {:induction false} WriterIsAlone(s: State, t: nat)
    requires WriterExcludes(s) && HandoffExcludes(s) && t in s.guards && s.guards[t].write
    ensures forall u :: u in s.guards && s.guards[u].allocation == s.guards[t].allocation ==> u == t
    ensures forall u :: u in s.uses ==> s.uses[u].allocation != s.guards[t].allocation
    ensures forall h :: h in s.handoffs ==> s.guards[t].allocation !in s.handoffs[h].allocations
  {
    forall u | u in s.uses ensures s.uses[u].allocation != s.guards[t].allocation {
    }
  }

  // ---------- host guards keep the invariant ----------

  lemma {:induction false} GuardKeepsFlags(s: State, e: GuardEvent)
    requires LeasesFlagged(s) && WriterExcludes(s) && GuardEnabled(s, e)
    ensures LeasesFlagged(GuardStep(s, e))
  {
    match e {
      case Acquire(t, a, write) => AcquireKeepsFlags(s, t, a, write);
      case Maintain(_) =>
      case PublishWrite(_) =>
      case _ => UnleasedKeepsFlags(s, e.token);
    }
  }

  lemma {:induction false} AcquireKeepsFlags(s: State, t: nat, a: nat, write: bool)
    requires LeasesFlagged(s) && GuardEnabled(s, Acquire(t, a, write))
    ensures LeasesFlagged(GuardStep(s, Acquire(t, a, write)))
  {
  }

  lemma {:induction false} UnleasedKeepsFlags(s: State, t: nat)
    requires LeasesFlagged(s) && WriterExcludes(s) && t in s.guards
    ensures LeasesFlagged(Unleased(s, t))
  {
  }

  /** Readers of an allocation whose guards did not change. */
  lemma {:induction false} SameReaders(s: State, u: State, a: nat)
    requires forall t :: t in u.guards && u.guards[t].allocation == a && !u.guards[t].write <==>
                         t in s.guards && s.guards[t].allocation == a && !s.guards[t].write
    ensures Readers(u, a) == Readers(s, a)
  {
  }

  lemma {:induction false} AcquireCounts(s: State, t: nat, a: nat, write: bool)
    requires ReadersCounted(s) && GuardEnabled(s, Acquire(t, a, write))
    ensures ReadersCounted(GuardStep(s, Acquire(t, a, write)))
  {
    var u := GuardStep(s, Acquire(t, a, write));
    ReadersAfterAcquire(s, t, a, write);
    forall b | b in u.hosts ensures u.hosts[b].readers == |Readers(u, b)| {
    }
  }

  lemma {:induction false} ReadersAfterAcquire(s: State, t: nat, a: nat, write: bool)
    requires GuardEnabled(s, Acquire(t, a, write))
    ensures var u := GuardStep(s, Acquire(t, a, write));
            && t !in Readers(s, a)
            && forall b :: Readers(u, b) == if b == a && !write then Readers(s, b) + {t} else Readers(s, b)
  {
  }

  lemma {:induction false} ReturnCounts(s: State, t: nat)
    requires ReadersCounted(s) && t in s.guards && s.guards[t].allocation in s.hosts
    ensures ReadersCounted(Unleased(s, t))
  {
    var u := Unleased(s, t);
    forall b | b in u.hosts ensures u.hosts[b].readers == |Readers(u, b)| {
      if b == s.guards[t].allocation && !s.guards[t].write {
        assert t in Readers(s, b) && Readers(u, b) == Readers(s, b) - {t};
      } else {
        SameReaders(s, u, b);
      }
    }
  }

  lemma {:induction false} GuardKeepsReaders(s: State, e: GuardEvent)
    requires ReadersCounted(s) && GuardEnabled(s, e)
    ensures ReadersCounted(GuardStep(s, e))
  {
    match e {
      case Acquire(t, a, write) => AcquireCounts(s, t, a, write);
      case MaintainFails(t) => ReturnCounts(s, t);
      case DropRead(t) => ReturnCounts(s, t);
      case ReleaseWrite(t) => ReturnCounts(s, t);
      case _ =>
        forall b | b in s.hosts ensures s.hosts[b].readers == |Readers(GuardStep(s, e), b)| {
          SameReaders(s, GuardStep(s, e), b);
        }
    }
  }

  lemma {:induction false} AcquireKeepsWriter(s: State, t: nat, a: nat, write: bool)
    requires LeasesFlagged(s) && ReadersCounted(s) && WriterExcludes(s) && GuardEnabled(s, Acquire(t, a, write))
    ensures WriterExcludes(GuardStep(s, Acquire(t, a, write)))
  {
    NoDeviceWriter(s, a, write);
    if write {
      NobodyHolds(s, a);
      NewWriterExcludes(s, t, a);
    } else {
      NobodyWrites(s, a);
      NewReaderIsExcluded(s, t, a);
    }
  }

  lemma {:induction false} NewWriterExcludes(s: State, t: nat, a: nat)
    requires WriterExcludes(s) && GuardEnabled(s, Acquire(t, a, true))
    requires forall g :: g in s.guards ==> s.guards[g].allocation != a
    requires forall u :: u in s.uses ==> s.uses[u].allocation != a
    ensures WriterExcludes(GuardStep(s, Acquire(t, a, true)))
  {
  }

  lemma {:induction false} NewReaderIsExcluded(s: State, t: nat, a: nat)
    requires WriterExcludes(s) && GuardEnabled(s, Acquire(t, a, false))
    requires forall g :: g in s.guards && s.guards[g].allocation == a ==> !s.guards[g].write
    requires forall u :: u in s.uses && s.uses[u].allocation == a ==> !s.uses[u].write
    ensures WriterExcludes(GuardStep(s, Acquire(t, a, false)))
  {
  }

  lemma {:induction false} NoDeviceWriter(s: State, a: nat, write: bool)
    requires !DeviceConflict(s, a, write)
    ensures forall u :: u in s.uses && s.uses[u].allocation == a ==> !write && !s.uses[u].write
  {
  }

  lemma {:induction false} AcquireKeepsHandoff(s: State, t: nat, a: nat, write: bool)
    requires LeasesFlagged(s) && HandoffExcludes(s) && GuardEnabled(s, Acquire(t, a, write))
    ensures HandoffExcludes(GuardStep(s, Acquire(t, a, write)))
  {
    NobodyWrites(s, a);
  }

  lemma {:induction false} GuardKeepsExclusion(s: State, e: GuardEvent)
    requires WriterExcludes(s) && HandoffExcludes(s) && GuardEnabled(s, e) && !e.Acquire?
    ensures WriterExcludes(GuardStep(s, e)) && HandoffExcludes(GuardStep(s, e))
  {
  }

  lemma {:induction false} GuardKeepsVisible(s: State, e: GuardEvent)
    requires EnginesAgree(s) && VisibleIsFresh(s) && GuardEnabled(s, e)
    ensures EnginesAgree(GuardStep(s, e)) && VisibleIsFresh(GuardStep(s, e))
  {
  }

  /** Maintenance never makes an engine read an older version. */
  lemma {:induction false} MaintenanceKeepsFresh(s: State, a: nat, e: Engine, b: nat, f: Engine)
    requires a in s.views && Fresh(s, b, f)
    ensures Fresh(s.(views := s.views[a := MadeVisible(s.views[a], e)]), b, f)
  {
  }

  lemma {:induction false} MaintenanceMakesFresh(s: State, a: nat, e: Engine)
    requires a in s.views && VisibleIsFresh(s)
    ensures Fresh(s.(views := s.views[a := MadeVisible(s.views[a], e)]), a, e)
  {
  }

  lemma {:induction false} MaintainKeepsGranted(s: State, t: nat)
    requires VisibleIsFresh(s) && GrantedIsFresh(s) && GuardEnabled(s, Maintain(t))
    ensures GrantedIsFresh(GuardStep(s, Maintain(t)))
  {
    var a, u := s.guards[t].allocation, GuardStep(s, Maintain(t));
    MaintenanceMakesFresh(s, a, Host);
    forall b, f | Fresh(s, b, f) ensures Fresh(u, b, f) {
      MaintenanceKeepsFresh(s, a, Host, b, f);
    }
  }

  lemma {:induction false} PublishWriteKeepsGranted(s: State, t: nat)
    requires WriterExcludes(s) && HandoffExcludes(s) && GrantedIsFresh(s) && GuardEnabled(s, PublishWrite(t))
    ensures GrantedIsFresh(GuardStep(s, PublishWrite(t)))
  {
    WriterIsAlone(s, t);
    forall b, f | b != s.guards[t].allocation && Fresh(s, b, f) ensures Fresh(GuardStep(s, PublishWrite(t)), b, f) {
    }
  }

  lemma {:induction false} GuardKeepsGranted(s: State, e: GuardEvent)
    requires WriterExcludes(s) && HandoffExcludes(s) && VisibleIsFresh(s) && GrantedIsFresh(s) && GuardEnabled(s, e)
    ensures GrantedIsFresh(GuardStep(s, e))
  {
    match e {
      case Maintain(t) => MaintainKeepsGranted(s, t);
      case PublishWrite(t) => PublishWriteKeepsGranted(s, t);
      case _ =>
        forall b, f | Fresh(s, b, f) ensures Fresh(GuardStep(s, e), b, f) {
        }
    }
  }

  // ---------- handoffs keep the invariant ----------

  lemma {:induction false} HandoffKeepsFlags(s: State, e: HandoffEvent)
    requires LeasesFlagged(s) && HandoffExcludes(s) && HandoffEnabled(s, e)
    ensures LeasesFlagged(HandoffStep(s, e))
  {
    match e {
      case ReserveAll(t, all, writes) => ReserveAllKeepsFlags(s, t, all, writes);
      case Show(t, a) => ShowKeepsFlags(s, t, a);
      case Complete(t) => CompleteKeepsFlags(s, t);
      case ShowFails(t) => ReleaseAllKeepsFlags(s, t, false);
      case Finish(t) => ReleaseAllKeepsFlags(s, t, false);
      case Uncertain(t) => ReleaseAllKeepsFlags(s, t, true);
    }
  }

  lemma {:induction false} ShowKeepsFlags(s: State, t: nat, a: nat)
    requires LeasesFlagged(s) && HandoffEnabled(s, Show(t, a))
    ensures LeasesFlagged(HandoffStep(s, Show(t, a)))
  {
  }

  lemma {:induction false} CompleteKeepsFlags(s: State, t: nat)
    requires LeasesFlagged(s) && HandoffEnabled(s, HandoffEvent.Complete(t))
    ensures LeasesFlagged(HandoffStep(s, HandoffEvent.Complete(t)))
  {
  }

  lemma {:induction false} ReserveAllKeepsFlags(s: State, t: nat, all: set<nat>, writes: set<nat>)
    requires LeasesFlagged(s) && HandoffEnabled(s, ReserveAll(t, all, writes))
    ensures LeasesFlagged(HandoffStep(s, ReserveAll(t, all, writes)))
  {
  }

  lemma {:induction false} ReleaseAllKeepsFlags(s: State, t: nat, poison: bool)
    requires LeasesFlagged(s) && HandoffExcludes(s) && t in s.handoffs
    ensures LeasesFlagged(s.(hosts := Marked(s, s.handoffs[t].allocations, false, poison), handoffs := s.handoffs - {t}))
  {
  }

  lemma {:induction false} HandoffKeepsReaders(s: State, e: HandoffEvent)
    requires ReadersCounted(s) && HandoffEnabled(s, e)
    ensures ReadersCounted(HandoffStep(s, e))
  {
    var u := HandoffStep(s, e);
    forall b | b in u.hosts ensures u.hosts[b].readers == |Readers(u, b)| {
      SameReaders(s, u, b);
    }
  }

  /** Reserving is all or nothing: every allocation passed both checks. */
  lemma {:induction false} ReserveAllExcludes(s: State, t: nat, all: set<nat>, writes: set<nat>)
    requires LeasesFlagged(s) && ReadersCounted(s) && HandoffExcludes(s) && HandoffEnabled(s, ReserveAll(t, all, writes))
    ensures HandoffExcludes(HandoffStep(s, ReserveAll(t, all, writes)))
  {
    forall a | a in all
      ensures forall g :: g in s.guards ==> s.guards[g].allocation != a
      ensures forall h :: h in s.handoffs ==> a !in s.handoffs[h].allocations
      ensures forall u :: u in s.uses ==> s.uses[u].allocation != a
    {
      NobodyHolds(s, a);
    }
  }

  lemma {:induction false} HandoffKeepsExclusion(s: State, e: HandoffEvent)
    requires WriterExcludes(s) && HandoffExcludes(s) && HandoffEnabled(s, e)
    ensures WriterExcludes(HandoffStep(s, e)) && (!e.ReserveAll? ==> HandoffExcludes(HandoffStep(s, e)))
  {
  }

  lemma {:induction false} HandoffKeepsVisible(s: State, e: HandoffEvent)
    requires EnginesAgree(s) && VisibleIsFresh(s) && HandoffEnabled(s, e)
    ensures EnginesAgree(HandoffStep(s, e)) && VisibleIsFresh(HandoffStep(s, e))
  {
  }

  lemma {:induction false} HandoffKeepsGranted(s: State, e: HandoffEvent)
    requires HandoffExcludes(s) && VisibleIsFresh(s) && GrantedIsFresh(s) && HandoffEnabled(s, e)
    ensures GrantedIsFresh(HandoffStep(s, e))
  {
    var u := HandoffStep(s, e);
    match e {
      case Show(t, a) =>
        MaintenanceMakesFresh(s, a, Gpu);
        forall b, f | Fresh(s, b, f) ensures Fresh(u, b, f) {
          MaintenanceKeepsFresh(s, a, Gpu, b, f);
        }
      case Complete(t) =>
        forall b, f | b !in s.handoffs[t].writes && Fresh(s, b, f) ensures Fresh(u, b, f) {
        }
      case _ =>
        forall b, f | Fresh(s, b, f) ensures Fresh(u, b, f) {
        }
    }
  }

  // ---------- device uses keep the invariant ----------

  lemma {:induction false} DeviceKeepsFlags(s: State, e: DeviceEvent)
    requires LeasesFlagged(s) && DeviceEnabled(s, e)
    ensures LeasesFlagged(DeviceStep(s, e))
  {
  }

  lemma {:induction false} DeviceKeepsReaders(s: State, e: DeviceEvent)
    requires ReadersCounted(s) && DeviceEnabled(s, e)
    ensures ReadersCounted(DeviceStep(s, e))
  {
    var u := DeviceStep(s, e);
    forall b | b in u.hosts ensures u.hosts[b].readers == |Readers(u, b)| {
      SameReaders(s, u, b);
    }
  }

  lemma {:induction false} SubmitKeepsHandoffs(s: State, id: nat, a: nat, write: bool, engine: Engine)
    requires LeasesFlagged(s) && HandoffExcludes(s) && DeviceEnabled(s, DeviceEvent.Submit(id, a, write, engine))
    ensures HandoffExcludes(DeviceStep(s, DeviceEvent.Submit(id, a, write, engine)))
  {
  }

  lemma {:induction false} SubmitKeepsExclusion(s: State, id: nat, a: nat, write: bool, engine: Engine)
    requires LeasesFlagged(s) && ReadersCounted(s) && WriterExcludes(s)
    requires DeviceEnabled(s, DeviceEvent.Submit(id, a, write, engine))
    ensures WriterExcludes(DeviceStep(s, DeviceEvent.Submit(id, a, write, engine)))
  {
    if write {
      NobodyHolds(s, a);
    } else {
      NobodyWrites(s, a);
    }
  }

  lemma {:induction false} DeviceKeepsExclusion(s: State, e: DeviceEvent)
    requires WriterExcludes(s) && HandoffExcludes(s) && DeviceEnabled(s, e) && !e.Submit?
    ensures WriterExcludes(DeviceStep(s, e)) && HandoffExcludes(DeviceStep(s, e))
  {
  }

  lemma {:induction false} DeviceKeepsEngines(s: State, e: DeviceEvent)
    requires EnginesAgree(s) && DeviceEnabled(s, e)
    ensures EnginesAgree(DeviceStep(s, e))
  {
  }

  lemma {:induction false} DeviceKeepsVisible(s: State, e: DeviceEvent)
    requires VisibleIsFresh(s) && DeviceEnabled(s, e)
    ensures VisibleIsFresh(DeviceStep(s, e))
  {
  }

  /** While a device use writes, only uses of the same engine share the allocation. */
  lemma {:induction false} DeviceWriterIsAlone(s: State, id: nat)
    requires WriterExcludes(s) && HandoffExcludes(s) && EnginesAgree(s)
    requires id in s.uses && s.uses[id].write && s.uses[id].stage == Granted
    ensures forall t :: t in s.guards ==> s.guards[t].allocation != s.uses[id].allocation
    ensures forall h :: h in s.handoffs ==> s.uses[id].allocation !in s.handoffs[h].allocations
    ensures forall u :: u in s.uses && s.uses[u].allocation == s.uses[id].allocation && s.uses[u].stage == Granted ==>
                          s.uses[u].engine == s.uses[id].engine
  {
    forall t | t in s.guards ensures s.guards[t].allocation != s.uses[id].allocation {
    }
  }

  lemma {:induction false} PrepareKeepsGranted(s: State, id: nat)
    requires EnginesAgree(s) && VisibleIsFresh(s) && GrantedIsFresh(s) && DeviceEnabled(s, Prepare(id))
    ensures GrantedIsFresh(DeviceStep(s, Prepare(id)))
  {
    var u := DeviceStep(s, Prepare(id));
    var a, f := s.uses[id].allocation, s.uses[id].engine;
    MaintenanceMakesFresh(s, a, f);
    forall b, g | Fresh(s, b, g) ensures Fresh(u, b, g) {
      MaintenanceKeepsFresh(s, a, f, b, g);
    }
  }

  lemma {:induction false} PublishUseKeepsGranted(s: State, id: nat)
    requires WriterExcludes(s) && HandoffExcludes(s) && EnginesAgree(s) && GrantedIsFresh(s) && DeviceEnabled(s, PublishUse(id))
    ensures GrantedIsFresh(DeviceStep(s, PublishUse(id)))
  {
    var u := DeviceStep(s, PublishUse(id));
    DeviceWriterIsAlone(s, id);
    assert Fresh(u, s.uses[id].allocation, s.uses[id].engine);
    forall b, g | b != s.uses[id].allocation && Fresh(s, b, g) ensures Fresh(u, b, g) {
    }
  }

  lemma {:induction false} DeviceKeepsGranted(s: State, e: DeviceEvent)
    requires WriterExcludes(s) && HandoffExcludes(s) && EnginesAgree(s) && VisibleIsFresh(s) && GrantedIsFresh(s) && DeviceEnabled(s, e)
    ensures GrantedIsFresh(DeviceStep(s, e))
  {
    match e {
      case Prepare(id) => PrepareKeepsGranted(s, id);
      case PublishUse(id) => PublishUseKeepsGranted(s, id);
      case _ =>
        forall b, g | Fresh(s, b, g) ensures Fresh(DeviceStep(s, e), b, g) {
        }
    }
  }

  // ---------- no lease is leaked ----------

  /** A writer that was there and was not released still backs its flag. */
  lemma {:induction false} WriterStays(s: State, u: State, a: nat)
    requires HasWriter(s, a)
    requires forall t :: t in s.guards && s.guards[t].allocation == a && s.guards[t].write ==>
                           t in u.guards && u.guards[t].allocation == a && u.guards[t].write
    ensures HasWriter(u, a)
  {
  }

  lemma {:induction false} HandoffStays(s: State, u: State, a: nat)
    requires HasHandoff(s, a)
    requires forall h :: h in s.handoffs && a in s.handoffs[h].allocations ==> h in u.handoffs && a in u.handoffs[h].allocations
    ensures HasHandoff(u, a)
  {
  }

  lemma {:induction false} AcquireKeepsBacked(s: State, t: nat, a: nat, write: bool)
    requires FlagsBacked(s) && GuardEnabled(s, Acquire(t, a, write))
    ensures FlagsBacked(GuardStep(s, Acquire(t, a, write)))
  {
    var u := GuardStep(s, Acquire(t, a, write));
    assert t in u.guards && u.guards[t] == Guard(a, write, Reserved);
    forall b | b in u.hosts ensures (u.hosts[b].writer ==> HasWriter(u, b)) && (u.hosts[b].external ==> HasHandoff(u, b)) {
      if u.hosts[b].writer && !(b == a && write) {
        WriterStays(s, u, b);
      }
      if u.hosts[b].external {
        HandoffStays(s, u, b);
      }
    }
  }

  lemma {:induction false} UnleasedKeepsBacked(s: State, t: nat)
    requires FlagsBacked(s) && t in s.guards && s.guards[t].allocation in s.hosts
    ensures FlagsBacked(Unleased(s, t))
  {
    var u, a := Unleased(s, t), s.guards[t].allocation;
    forall b | b in u.hosts ensures (u.hosts[b].writer ==> HasWriter(u, b)) && (u.hosts[b].external ==> HasHandoff(u, b)) {
      if u.hosts[b].writer {
        WriterStays(s, u, b);
      }
      if u.hosts[b].external {
        HandoffStays(s, u, b);
      }
    }
  }

  /** Steps that change neither flags nor holders. */
  lemma {:induction false} SameHoldersBacked(s: State, u: State)
    requires FlagsBacked(s) && u.hosts.Keys == s.hosts.Keys
    requires forall a :: a in s.hosts ==> u.hosts[a].writer == s.hosts[a].writer && u.hosts[a].external == s.hosts[a].external
    requires forall t :: t in s.guards ==> t in u.guards && u.guards[t].allocation == s.guards[t].allocation && u.guards[t].write == s.guards[t].write
    requires forall h :: h in s.handoffs ==> h in u.handoffs && u.handoffs[h].allocations == s.handoffs[h].allocations
    ensures FlagsBacked(u)
  {
    forall a | a in u.hosts ensures (u.hosts[a].writer ==> HasWriter(u, a)) && (u.hosts[a].external ==> HasHandoff(u, a)) {
      if u.hosts[a].writer {
        WriterStays(s, u, a);
      }
      if u.hosts[a].external {
        HandoffStays(s, u, a);
      }
    }
  }

  lemma {:induction false} GuardKeepsBacked(s: State, e: GuardEvent)
    requires FlagsBacked(s) && GuardEnabled(s, e)
    ensures FlagsBacked(GuardStep(s, e))
  {
    match e {
      case Acquire(t, a, write) => AcquireKeepsBacked(s, t, a, write);
      case Maintain(_) => SameHoldersBacked(s, GuardStep(s, e));
      case PublishWrite(_) => SameHoldersBacked(s, GuardStep(s, e));
      case MaintainFails(t) => UnleasedKeepsBacked(s, t);
      case DropRead(t) => UnleasedKeepsBacked(s, t);
      case ReleaseWrite(t) => UnleasedKeepsBacked(s, t);
    }
  }

  lemma {:induction false} ReserveAllKeepsBacked(s: State, t: nat, all: set<nat>, writes: set<nat>)
    requires FlagsBacked(s) && HandoffEnabled(s, ReserveAll(t, all, writes))
    ensures FlagsBacked(HandoffStep(s, ReserveAll(t, all, writes)))
  {
    var u := HandoffStep(s, ReserveAll(t, all, writes));
    assert t in u.handoffs && u.handoffs[t].allocations == all;
    forall b | b in u.hosts ensures (u.hosts[b].writer ==> HasWriter(u, b)) && (u.hosts[b].external ==> HasHandoff(u, b)) {
      if u.hosts[b].writer {
        WriterStays(s, u, b);
      }
      if u.hosts[b].external && b !in all {
        HandoffStays(s, u, b);
      }
    }
  }

  lemma {:induction false} ReleaseAllKeepsBacked(s: State, t: nat, poison: bool)
    requires FlagsBacked(s) && t in s.handoffs
    ensures FlagsBacked(s.(hosts := Marked(s, s.handoffs[t].allocations, false, poison), handoffs := s.handoffs - {t}))
  {
    var u := s.(hosts := Marked(s, s.handoffs[t].allocations, false, poison), handoffs := s.handoffs - {t});
    forall b | b in u.hosts ensures (u.hosts[b].writer ==> HasWriter(u, b)) && (u.hosts[b].external ==> HasHandoff(u, b)) {
      if u.hosts[b].writer {
        WriterStays(s, u, b);
      }
      if u.hosts[b].external {
        HandoffStays(s, u, b);
      }
    }
  }

  lemma {:induction false} HandoffKeepsBacked(s: State, e: HandoffEvent)
    requires FlagsBacked(s) && HandoffEnabled(s, e)
    ensures FlagsBacked(HandoffStep(s, e))
  {
    match e {
      case ReserveAll(t, all, writes) => ReserveAllKeepsBacked(s, t, all, writes);
      case Show(_, _) => SameHoldersBacked(s, HandoffStep(s, e));
      case Complete(_) => SameHoldersBacked(s, HandoffStep(s, e));
      case ShowFails(t) => ReleaseAllKeepsBacked(s, t, false);
      case Finish(t) => ReleaseAllKeepsBacked(s, t, false);
      case Uncertain(t) => ReleaseAllKeepsBacked(s, t, true);
    }
  }

  lemma {:induction false} DeviceKeepsBacked(s: State, e: DeviceEvent)
    requires FlagsBacked(s) && DeviceEnabled(s, e)
    ensures FlagsBacked(DeviceStep(s, e))
  {
    SameHoldersBacked(s, DeviceStep(s, e));
  }

  // ---------- every step, every run ----------

  lemma {:induction false} GuardKeepsInv(s: State, e: GuardEvent)
    requires Inv(s) && GuardEnabled(s, e)
    ensures Inv(GuardStep(s, e))
  {
    GuardKeepsFlags(s, e);
    GuardKeepsBacked(s, e);
    GuardKeepsReaders(s, e);
    match e {
      case Acquire(t, a, write) =>
        AcquireKeepsWriter(s, t, a, write);
        AcquireKeepsHandoff(s, t, a, write);
      case _ => GuardKeepsExclusion(s, e);
    }
    GuardKeepsVisible(s, e);
    GuardKeepsGranted(s, e);
  }

  lemma {:induction false} HandoffKeepsInv(s: State, e: HandoffEvent)
    requires Inv(s) && HandoffEnabled(s, e)
    ensures Inv(HandoffStep(s, e))
  {
    HandoffKeepsFlags(s, e);
    HandoffKeepsBacked(s, e);
    HandoffKeepsReaders(s, e);
    HandoffKeepsExclusion(s, e);
    if e.ReserveAll? { ReserveAllExcludes(s, e.token, e.allocations, e.writes); }
    HandoffKeepsVisible(s, e);
    HandoffKeepsGranted(s, e);
  }

  lemma {:induction false} DeviceKeepsInv(s: State, e: DeviceEvent)
    requires Inv(s) && DeviceEnabled(s, e)
    ensures Inv(DeviceStep(s, e))
  {
    DeviceKeepsFlags(s, e);
    DeviceKeepsBacked(s, e);
    DeviceKeepsReaders(s, e);
    match e {
      case Submit(id, a, write, engine) =>
        SubmitKeepsExclusion(s, id, a, write, engine);
        SubmitKeepsHandoffs(s, id, a, write, engine);
      case _ => DeviceKeepsExclusion(s, e);
    }
    DeviceKeepsEngines(s, e);
    DeviceKeepsVisible(s, e);
    DeviceKeepsGranted(s, e);
  }

  lemma {:induction false} StepKeepsInv(s: State, e: Event, u: State)
    requires Inv(s) && Enabled(s, e) && u == Step(s, e)
    ensures Inv(u)
  {
    match e {
      case OnGuard(g) => GuardKeepsInv(s, g);
      case OnHandoff(h) => HandoffKeepsInv(s, h);
      case OnDevice(d) => DeviceKeepsInv(s, d);
    }
  }
}
