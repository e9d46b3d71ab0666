/**
 * Host guards, stage handoffs and cache visibility of tracked allocations, as
 * steps: one per critical section of the scheduler, host or visibility lock.
 * Published writes carry version numbers so that freshness can be stated.
 */
module HostLeases {
  import opened Accesses

  datatype Engine = Host | Gpu | Npu

  /** Lease state of one allocation. */
  datatype HostState = HostState(mapped: bool, readers: nat, writer: bool, external: bool, poison: bool)

  /** Who wrote last, which engines need no maintenance, and what each engine would read. */
  datatype Visibility = Visibility(writer: Engine, visible: set<Engine>, version: nat, sees: map<Engine, nat>)

  datatype Stage = Reserved | Granted | Published

  datatype Guard = Guard(allocation: nat, write: bool, stage: Stage)

  /** A handoff reserves whole allocations; `shown` have been made visible to the GPU. */
  datatype Handoff = Handoff(allocations: set<nat>, writes: set<nat>, shown: set<nat>, stage: Stage)

  /** A device use known to the scheduler; it executes once started and made visible. */
  datatype DeviceUse = DeviceUse(allocation: nat, write: bool, engine: Engine, running: bool, stage: Stage)

  datatype State = State(
    hosts: map<nat, HostState>,
    views: map<nat, Visibility>,
    guards: map<nat, Guard>,
    handoffs: map<nat, Handoff>,
    uses: map<nat, DeviceUse>)

  // ---------- visibility ----------

  /** Cache maintenance brings the engine up to date; an engine already visible needs none. */
  function MadeVisible(v: Visibility, e: Engine): Visibility {
    if e in v.visible then v else v.(visible := v.visible + {e}, sees := v.sees[e := v.version])
  }

  /** A published write is visible only to the engine that made it. */
  function Wrote(v: Visibility, e: Engine): Visibility {
    Visibility(e, {e}, v.version + 1, v.sees[e := v.version + 1])
  }

  /** The engine would read the latest published write. */
  ghost predicate Fresh(s: State, a: nat, e: Engine) {
    a in s.views && e in s.views[a].sees && s.views[a].sees[e] == s.views[a].version
  }

  // ---------- conflicts ----------

  /** A live mapping, handoff or poison that refuses the access. */
  predicate HostConflict(h: HostState, write: bool) {
    h.poison || h.external || h.writer || (write && h.readers != 0)
  }

  /** Some device use known to the scheduler conflicts with the access to the whole allocation. */
  ghost predicate DeviceConflict(s: State, a: nat, write: bool) {
    exists u :: u in s.uses && s.uses[u].allocation == a && (write || s.uses[u].write)
  }

  function Refusal(h: HostState): Error {
    if !h.mapped then Unsupported else if h.poison then DeviceLost else Busy
  }

  // ---------- host guards ----------

  datatype GuardEvent =
    | Acquire(token: nat, allocation: nat, write: bool)   // reserve the lease under the scheduler lock
    | Maintain(token: nat)                                // maintenance succeeds: the guard is granted
    | MaintainFails(token: nat)                           // roll the lease back
    | DropRead(token: nat)
    | PublishWrite(token: nat)                            // dirty state first
    | ReleaseWrite(token: nat)

  ghost predicate Unused(s: State, id: nat) {
    id !in s.guards && id !in s.handoffs && id !in s.uses
  }

  ghost predicate HasGuard(s: State, t: nat, stage: Stage) {
    t in s.guards && s.guards[t].stage == stage && s.guards[t].allocation in s.hosts && s.guards[t].allocation in s.views
  }

  ghost predicate GuardEnabled(s: State, e: GuardEvent) {
    match e
    case Acquire(t, a, write) =>
      Unused(s, t) && a in s.hosts && s.hosts[a].mapped && !HostConflict(s.hosts[a], write) && !DeviceConflict(s, a, write)
    case Maintain(t) => HasGuard(s, t, Reserved)
    case MaintainFails(t) => HasGuard(s, t, Reserved)
    case DropRead(t) => HasGuard(s, t, Granted) && !s.guards[t].write
    case PublishWrite(t) => HasGuard(s, t, Granted) && s.guards[t].write
    case ReleaseWrite(t) => HasGuard(s, t, Published)
  }

  function Leased(h: HostState, write: bool): HostState {
    if write then h.(writer := true) else h.(readers := h.readers + 1)
  }

  function Returned(h: HostState, write: bool): HostState {
    if write then h.(writer := false) else h.(readers := if h.readers > 0 then h.readers - 1 else 0)
  }

  ghost function GuardStep(s: State, e: GuardEvent): State
    requires GuardEnabled(s, e)
  {
    match e
    case Acquire(t, a, write) =>
      s.(hosts := s.hosts[a := Leased(s.hosts[a], write)], guards := s.guards[t := Guard(a, write, Reserved)])
    case Maintain(t) =>
      var a := s.guards[t].allocation;
      s.(views := s.views[a := MadeVisible(s.views[a], Host)], guards := s.guards[t := s.guards[t].(stage := Granted)])
    case PublishWrite(t) =>
      var a := s.guards[t].allocation;
      s.(views := s.views[a := Wrote(s.views[a], Host)], guards := s.guards[t := s.guards[t].(stage := Published)])
    case MaintainFails(t) => Unleased(s, t)
    case DropRead(t) => Unleased(s, t)
    case ReleaseWrite(t) => Unleased(s, t)
  }

  ghost function Unleased(s: State, t: nat): State
    requires t in s.guards && s.guards[t].allocation in s.hosts
  {
    var a := s.guards[t].allocation;
    s.(hosts := s.hosts[a := Returned(s.hosts[a], s.guards[t].write)], guards := s.guards - {t})
  }

  // ---------- stage handoffs ----------

  datatype HandoffEvent =
    | ReserveAll(token: nat, allocations: set<nat>, writes: set<nat>)
    | Show(token: nat, allocation: nat)      // make one allocation visible to the GPU
    | ShowFails(token: nat)                  // give every reservation back
    | Complete(token: nat)                   // the stream drained: publish every declared write
    | Finish(token: nat)                     // release the reservations
    | Uncertain(token: nat)                  // completion unknown: poison, then release

  ghost predicate HandoffEnabled(s: State, e: HandoffEvent) {
    match e
    case ReserveAll(t, all, writes) =>
      && Unused(s, t) && all <= s.hosts.Keys && writes <= all
      && forall a :: a in all ==> !HostConflict(s.hosts[a], true) && !DeviceConflict(s, a, true)
    case Show(t, a) => t in s.handoffs && s.handoffs[t].stage == Reserved && a in s.handoffs[t].allocations && a in s.views
    case ShowFails(t) => t in s.handoffs && s.handoffs[t].stage == Reserved
    case Complete(t) => t in s.handoffs && s.handoffs[t].stage == Reserved && s.handoffs[t].shown == s.handoffs[t].allocations
    case Finish(t) => t in s.handoffs && s.handoffs[t].stage == Published
    case Uncertain(t) => t in s.handoffs && s.handoffs[t].stage == Reserved && s.handoffs[t].shown == s.handoffs[t].allocations
  }

  ghost function Marked(s: State, all: set<nat>, external: bool, poison: bool): map<nat, HostState> {
    map a | a in s.hosts :: if a in all then s.hosts[a].(external := external, poison := s.hosts[a].poison || poison) else s.hosts[a]
  }

  ghost function HandoffStep(s: State, e: HandoffEvent): State
    requires HandoffEnabled(s, e)
  {
    match e
    case ReserveAll(t, all, writes) =>
      s.(hosts := Marked(s, all, true, false), handoffs := s.handoffs[t := Handoff(all, writes, {}, Reserved)])
    case Show(t, a) =>
      s.(views := s.views[a := MadeVisible(s.views[a], Gpu)],
         handoffs := s.handoffs[t := s.handoffs[t].(shown := s.handoffs[t].shown + {a})])
    case ShowFails(t) => s.(hosts := Marked(s, s.handoffs[t].allocations, false, false), handoffs := s.handoffs - {t})
    case Complete(t) =>
      s.(views := map a | a in s.views :: if a in s.handoffs[t].writes then Wrote(s.views[a], Gpu) else s.views[a],
         handoffs := s.handoffs[t := s.handoffs[t].(stage := Published)])
    case Finish(t) => s.(hosts := Marked(s, s.handoffs[t].allocations, false, false), handoffs := s.handoffs - {t})
    case Uncertain(t) => s.(hosts := Marked(s, s.handoffs[t].allocations, false, true), handoffs := s.handoffs - {t})
  }

  // ---------- device uses ----------

  datatype DeviceEvent =
    | Submit(id: nat, allocation: nat, write: bool, engine: Engine)
    | Start(id: nat)                         // the scheduler lets the use run
    | Prepare(id: nat)                       // make the allocation visible to its engine
    | PublishUse(id: nat)                    // a finished write becomes the latest
    | Retire(id: nat)
    | Fail(id: nat)                          // a failed region poisons its allocations

  ghost predicate Overlap(x: DeviceUse, y: DeviceUse) {
    x.allocation == y.allocation && (x.write || y.write)
  }

  /** What the scheduler keeps to (Regions.WritersShareAnEngine): a running use only overlaps, with a writer, uses of its own engine. */
  ghost predicate MayRun(s: State, id: nat) {
    id in s.uses && forall u :: u in s.uses && u != id && s.uses[u].running && Overlap(s.uses[u], s.uses[id]) ==>
                                  s.uses[u].engine == s.uses[id].engine
  }

  ghost predicate DeviceEnabled(s: State, e: DeviceEvent) {
    match e
    case Submit(id, a, write, engine) => Unused(s, id) && a in s.hosts && engine != Host && !HostConflict(s.hosts[a], write)
    case Start(id) => id in s.uses && !s.uses[id].running && MayRun(s, id)
    case Prepare(id) =>
      && id in s.uses && s.uses[id].running && s.uses[id].stage == Reserved
      && s.uses[id].allocation in s.hosts && !s.hosts[s.uses[id].allocation].poison && s.uses[id].allocation in s.views
    case PublishUse(id) => id in s.uses && s.uses[id].stage == Granted && s.uses[id].write && s.uses[id].allocation in s.views
    case Retire(id) => id in s.uses && (s.uses[id].stage == Granted ==> !s.uses[id].write)
    case Fail(id) => id in s.uses && s.uses[id].running && s.uses[id].allocation in s.hosts
  }

  ghost function DeviceStep(s: State, e: DeviceEvent): State
    requires DeviceEnabled(s, e)
  {
    match e
    case Submit(id, a, write, engine) => s.(uses := s.uses[id := DeviceUse(a, write, engine, false, Reserved)])
    case Start(id) => s.(uses := s.uses[id := s.uses[id].(running := true)])
    case Prepare(id) =>
      var u := s.uses[id];
      s.(views := s.views[u.allocation := MadeVisible(s.views[u.allocation], u.engine)], uses := s.uses[id := u.(stage := Granted)])
    case PublishUse(id) =>
      var u := s.uses[id];
      s.(views := s.views[u.allocation := Wrote(s.views[u.allocation], u.engine)], uses := s.uses[id := u.(stage := Published)])
    case Retire(id) => s.(uses := s.uses - {id})
    case Fail(id) =>
      var a := s.uses[id].allocation;
      s.(hosts := s.hosts[a := s.hosts[a].(poison := true)], uses := s.uses - {id})
  }

  // ---------- runs ----------

  datatype Event = OnGuard(guard: GuardEvent) | OnHandoff(handoff: HandoffEvent) | OnDevice(device: DeviceEvent)

  ghost predicate Enabled(s: State, e: Event) {
    match e
    case OnGuard(g) => GuardEnabled(s, g)
    case OnHandoff(h) => HandoffEnabled(s, h)
    case OnDevice(d) => DeviceEnabled(s, d)
  }

  ghost function Step(s: State, e: Event): State
    requires Enabled(s, e)
  {
    match e
    case OnGuard(g) => GuardStep(s, g)
    case OnHandoff(h) => HandoffStep(s, h)
    case OnDevice(d) => DeviceStep(s, d)
  }

  // ---------- what every step keeps ----------

  ghost function Readers(s: State, a: nat): set<nat> {
    set t | t in s.guards && s.guards[t].allocation == a && !s.guards[t].write
  }

  /** Guards and handoffs set the lease flags of tracked allocations. */
  ghost predicate LeasesFlagged(s: State) {
    && s.hosts.Keys == s.views.Keys
    && (forall t :: t in s.guards ==> s.guards[t].allocation in s.hosts)
    && (forall t :: t in s.guards && s.guards[t].write ==> s.hosts[s.guards[t].allocation].writer)
    && (forall h, a :: h in s.handoffs && a in s.handoffs[h].allocations ==> a in s.hosts && s.hosts[a].external)
  }

  ghost predicate HasWriter(s: State, a: nat) {
    exists t :: t in s.guards && s.guards[t].write && s.guards[t].allocation == a
  }

  ghost predicate HasHandoff(s: State, a: nat) {
    exists h :: h in s.handoffs && a in s.handoffs[h].allocations
  }

  /** A set lease flag belongs to a live guard or handoff: no lease is ever leaked. */
  ghost predicate FlagsBacked(s: State) {
    forall a :: a in s.hosts ==> (s.hosts[a].writer ==> HasWriter(s, a)) && (s.hosts[a].external ==> HasHandoff(s, a))
  }

  /** The reader count is the number of live read guards. */
  ghost predicate ReadersCounted(s: State) {
    forall a :: a in s.hosts ==> s.hosts[a].readers == |Readers(s, a)|
  }

  /** A writer excludes every other access. */
  ghost predicate WriterExcludes(s: State) {
    && (forall t, u :: t in s.guards && u in s.guards && s.guards[t].write && s.guards[t].allocation == s.guards[u].allocation ==> t == u)
    && (forall t, u :: t in s.guards && u in s.uses && s.guards[t].allocation == s.uses[u].allocation ==> !s.guards[t].write && !s.uses[u].write)
  }

  /** A handoff excludes every other access. */
  ghost predicate HandoffExcludes(s: State) {
    && (forall h, t :: h in s.handoffs && t in s.guards ==> s.guards[t].allocation !in s.handoffs[h].allocations)
    && (forall h, u :: h in s.handoffs && u in s.uses ==> s.uses[u].allocation !in s.handoffs[h].allocations)
    && (forall h, k :: h in s.handoffs && k in s.handoffs && h != k ==> s.handoffs[h].allocations !! s.handoffs[k].allocations)
  }

  /** Running device uses that share an allocation with a writer share an engine. */
  ghost predicate EnginesAgree(s: State) {
    && (forall u, w :: u in s.uses && w in s.uses && u != w && s.uses[u].running && s.uses[w].running && Overlap(s.uses[u], s.uses[w]) ==>
          s.uses[u].engine == s.uses[w].engine)
    && (forall u :: u in s.uses ==> s.uses[u].allocation in s.hosts && (s.uses[u].stage != Reserved ==> s.uses[u].running))
  }

  /** An engine marked visible reads the latest version. */
  ghost predicate VisibleIsFresh(s: State) {
    forall a, e :: a in s.views && e in s.views[a].visible ==> Fresh(s, a, e)
  }

  /** Every granted access reads the latest published write. */
  ghost predicate GrantedIsFresh(s: State) {
    && (forall t :: t in s.guards && s.guards[t].stage == Granted ==> Fresh(s, s.guards[t].allocation, Host))
    && (forall h, a :: h in s.handoffs && s.handoffs[h].stage == Reserved && a in s.handoffs[h].shown ==> Fresh(s, a, Gpu))
    && (forall h :: h in s.handoffs ==> s.handoffs[h].shown <= s.handoffs[h].allocations && s.handoffs[h].writes <= s.handoffs[h].allocations)
    && (forall u :: u in s.uses && s.uses[u].stage == Granted ==> Fresh(s, s.uses[u].allocation, s.uses[u].engine))
  }

  ghost predicate Inv(s: State) {
    && LeasesFlagged(s) && FlagsBacked(s) && ReadersCounted(s) && WriterExcludes(s) && HandoffExcludes(s)
    && EnginesAgree(s) && VisibleIsFresh(s) && GrantedIsFresh(s)
  }

  const NEW_HOST := HostState(true, 0, false, false, false)
  const NEW_VIEW := Visibility(Host, {Host}, 0, map[Host := 0])

  /** Allocations start unleased, written by the host or, for GPU-local storage, by the GPU. */
  ghost predicate Initial(s: State) {
    && s.hosts.Keys == s.views.Keys && s.guards == map[] && s.handoffs == map[] && s.uses == map[]
    && forall a :: a in s.hosts ==> s.hosts[a].(mapped := true) == NEW_HOST && s.views[a] in {NEW_VIEW, Wrote(NEW_VIEW, Gpu)}
  }

  ghost predicate IsRun(states: seq<State>, events: seq<Event>) {
    && |states| == |events| + 1 && Initial(states[0])
    && forall i {:trigger events[i]} :: 0 <= i < |events| ==> Follows(states[i], events[i], states[i + 1])
  }

  ghost predicate Follows(s: State, e: Event, u: State) {
    Enabled(s, e) && u == Step(s, e)
  }
}
