/**
 * The submission scheduler as a step system: hazard counters, one running
 * region per lane, native stages in FIFO order, and bounded admission.
 */
module Schedulers {
  import opened Accesses
  import opened Summaries

  const LANES: nat := 5
  const COMPUTE: nat := 1

  datatype Node = Pending | Running | Done

  /** A prepared region: the lane it occupies, the bytes it uses and the regions it follows. */
  datatype Region = Region(lane: nat, uses: seq<ViewUse>, dependencies: seq<nat>)

  /** A completion to wait for: a submission of this runtime, or one that had already ended. */
  datatype Producer = Of(sequence: nat) | Ended(ok: bool)

  datatype Job = Job(
    sequence: nat,
    uses: seq<ViewUse>,
    regions: seq<Region>,
    producers: seq<Producer>, // what must succeed first
    blockers: nat,            // earlier pending submissions with conflicting uses
    nodes: seq<Node>,
    cancelled: bool,
    failed: bool,
    started: bool)            // history: some region has run

  /** Who set a lane's running flag. */
  datatype Owner = Free | Native(ticket: nat) | Work(sequence: nat, node: nat)

  datatype Lanes = Lanes(
    owners: seq<Owner>,                // a lane is running when it is not free
    lastStarted: seq<Option<nat>>,
    next: nat,
    native: seq<nat>)                  // tickets of waiting native stages

  datatype State = State(
    pending: seq<Job>,
    finishing: map<nat, bool>,   // removed, not yet published; true if the run succeeded
    outcomes: map<nat, bool>,    // published completions
    lanes: Lanes,
    sequence: nat,
    capacity: nat)

  // ---------- hazards between submissions ----------

  ghost predicate Clashes(a: seq<ViewUse>, b: seq<ViewUse>) {
    exists x, y :: 0 <= x < |a| && 0 <= y < |b| && Clash(a[x], b[y])
  }

  /** How many of the first `n` submissions clash with these uses. */
  ghost function Earlier(pending: seq<Job>, uses: seq<ViewUse>, n: nat): nat
    requires n <= |pending|
  {
    if n == 0 then 0
    else Earlier(pending, uses, n - 1) + if Clashes(pending[n - 1].uses, uses) then 1 else 0
  }

  ghost predicate CountsEarlier(pending: seq<Job>) {
    forall i {:trigger pending[i].blockers} :: 0 <= i < |pending| ==> pending[i].blockers == Earlier(pending, pending[i].uses, i)
  }

  lemma {:induction false} EarlierPrefix(p: seq<Job>, q: seq<Job>, uses: seq<ViewUse>, n: nat)
    requires n <= |p| && n <= |q| && forall i :: 0 <= i < n ==> p[i].uses == q[i].uses
    ensures Earlier(p, uses, n) == Earlier(q, uses, n)
  {
    if n > 0 {
      EarlierPrefix(p, q, uses, n - 1);
    }
  }

  lemma {:induction false} EarlierCounts(pending: seq<Job>, uses: seq<ViewUse>, i: nat, n: nat)
    requires i < n <= |pending| && Clashes(pending[i].uses, uses)
    ensures Earlier(pending, uses, n) > 0
  {
    if i < n - 1 {
      EarlierCounts(pending, uses, i, n - 1);
    }
  }

  /** `q` lists the submissions of `p` without number `i`. */
  ghost predicate SameUses(p: seq<Job>, q: seq<Job>, i: nat) {
    && i < |p| && |q| == |p| - 1
    && (forall k {:trigger q[k]} :: 0 <= k < i ==> q[k].uses == p[k].uses)
    && forall k {:trigger q[k]} :: i <= k < |q| ==> q[k].uses == p[k + 1].uses
  }

  /** Taking out one earlier submission lowers the count by whether it clashed. */
  lemma {:induction false} EarlierWithout(p: seq<Job>, q: seq<Job>, uses: seq<ViewUse>, i: nat, n: nat)
    requires i < n <= |p| && SameUses(p, q, i)
    ensures Earlier(p, uses, n) == Earlier(q, uses, n - 1) + if Clashes(p[i].uses, uses) then 1 else 0
  {
    if i == n - 1 {
      EarlierPrefix(p, q, uses, i);
    } else {
      EarlierWithout(p, q, uses, i, n - 1);
      assert p[n - 1].uses == q[n - 2].uses;
    }
  }

  function Less(x: nat): nat {
    if x > 0 then x - 1 else 0
  }

  ghost function Unblocked(job: Job, later: Job): Job {
    if Clashes(job.uses, later.uses) then later.(blockers := Less(later.blockers)) else later
  }

  ghost function Released(job: Job, later: seq<Job>): (r: seq<Job>)
    ensures |r| == |later| && forall k :: 0 <= k < |r| ==> r[k] == Unblocked(job, later[k])
  {
    if later == [] then [] else [Unblocked(job, later[0])] + Released(job, later[1..])
  }

  /** Take out submission `i` and stop counting it. */
  ghost function Without(pending: seq<Job>, i: nat): (r: seq<Job>)
    requires i < |pending|
    ensures |r| == |pending| - 1
  {
    pending[..i] + Released(pending[i], pending[i + 1..])
  }

  lemma {:induction false} WithoutAt(pending: seq<Job>, i: nat, k: nat)
    requires i < |pending| && k < |pending| - 1
    ensures Without(pending, i)[k] == if k < i then pending[k] else Unblocked(pending[i], pending[k + 1])
  {
    if k >= i {
      assert pending[i + 1..][k - i] == pending[k + 1];
    }
  }

  lemma {:induction false} WithoutSameUses(pending: seq<Job>, i: nat)
    requires i < |pending|
    ensures SameUses(pending, Without(pending, i), i)
  {
    forall k | 0 <= k < |pending| - 1 ensures Without(pending, i)[k].uses == pending[if k < i then k else k + 1].uses {
      WithoutAt(pending, i, k);
    }
  }

  lemma {:induction false} WithoutCount(p: seq<Job>, q: seq<Job>, i: nat, k: nat)
    requires SameUses(p, q, i) && i <= k < |q| && q[k] == Unblocked(p[i], p[k + 1])
    requires p[k + 1].blockers == Earlier(p, p[k + 1].uses, k + 1)
    ensures q[k].blockers == Earlier(q, q[k].uses, k)
  {
    EarlierWithout(p, q, p[k + 1].uses, i, k + 1);
  }

  /** Also when a blocked submission leaves out of order, every counter stays exact. */
  lemma {:induction false} WithoutCounts(pending: seq<Job>, i: nat)
    requires CountsEarlier(pending) && i < |pending|
    ensures CountsEarlier(Without(pending, i))
  {
    var q := Without(pending, i);
    WithoutSameUses(pending, i);
    forall k | 0 <= k < |q| ensures q[k].blockers == Earlier(q, q[k].uses, k) {
      WithoutAt(pending, i, k);
      if k < i {
        EarlierPrefix(pending, q, q[k].uses, k);
      } else {
        WithoutCount(pending, q, i, k);
      }
    }
  }

  lemma {:induction false} AppendCounts(pending: seq<Job>, job: Job)
    requires CountsEarlier(pending) && job.blockers == Earlier(pending, job.uses, |pending|)
    ensures CountsEarlier(pending + [job])
  {
    var q := pending + [job];
    forall k | 0 <= k < |q| ensures q[k].blockers == Earlier(q, q[k].uses, k) {
      EarlierPrefix(pending, q, q[k].uses, k);
    }
  }

  lemma {:induction false} UpdateCounts(pending: seq<Job>, i: nat, job: Job)
    requires CountsEarlier(pending) && i < |pending| && job.uses == pending[i].uses && job.blockers == pending[i].blockers
    ensures CountsEarlier(pending[i := job])
  {
    var q := pending[i := job];
    forall k | 0 <= k < |q| ensures q[k].blockers == Earlier(q, q[k].uses, k) {
      EarlierPrefix(pending, q, q[k].uses, k);
    }
  }

  // ---------- what may happen next ----------

  function Outcome(outcomes: map<nat, bool>, p: Producer): Option<bool> {
    match p
    case Of(q) => if q in outcomes then Some(outcomes[q]) else None
    case Ended(ok) => Some(ok)
  }

  predicate Produced(outcomes: map<nat, bool>, producers: seq<Producer>) {
    forall p :: p in producers ==> Outcome(outcomes, p).Some? && Outcome(outcomes, p).value
  }

  predicate ProducerFailed(outcomes: map<nat, bool>, producers: seq<Producer>) {
    exists p :: p in producers && Outcome(outcomes, p).Some? && !Outcome(outcomes, p).value
  }

  predicate AwaitsProducer(outcomes: map<nat, bool>, producers: seq<Producer>) {
    exists p :: p in producers && Outcome(outcomes, p).None?
  }

  function Skipped(nodes: seq<Node>): (r: seq<Node>)
    ensures |r| == |nodes| && forall n :: 0 <= n < |r| ==> r[n] == if nodes[n] == Pending then Done else nodes[n]
  {
    if nodes == [] then [] else [if nodes[0] == Pending then Done else nodes[0]] + Skipped(nodes[1..])
  }

  /** Cancellation and failure skip the regions that have not started. */
  function Settled(job: Job, outcomes: map<nat, bool>): Job {
    var failed := job.failed || ProducerFailed(outcomes, job.producers);
    job.(failed := failed, nodes := if job.cancelled || failed then Skipped(job.nodes) else job.nodes)
  }

  predicate AllDone(job: Job) {
    forall n :: 0 <= n < |job.nodes| ==> job.nodes[n] == Done
  }

  /** An earlier native stage waits for the compute lane. */
  predicate NativePrecedes(lanes: Lanes, sequence: nat, lane: nat) {
    lane == COMPUTE && lanes.native != [] && sequence > lanes.native[0]
  }

  predicate Startable(job: Job, outcomes: map<nat, bool>, lanes: Lanes, n: nat) {
    && n < |job.nodes| == |job.regions| && job.blockers == 0 && !job.failed && Produced(outcomes, job.producers)
    && job.nodes[n] == Pending
    && job.regions[n].lane < |lanes.owners| && lanes.owners[job.regions[n].lane].Free?
    && !NativePrecedes(lanes, job.sequence, job.regions[n].lane)
    && forall d :: d in job.regions[n].dependencies ==> d < |job.nodes| && job.nodes[d] == Done
  }

  ghost predicate Prepared(uses: seq<ViewUse>, regions: seq<Region>) {
    && Canonical(uses)
    && forall n :: 0 <= n < |regions| ==>
         regions[n].lane < LANES && forall d :: d in regions[n].dependencies ==> d < n
  }

  ghost predicate IsPending(s: State, p: nat) {
    exists j :: j in s.pending && j.sequence == p
  }

  /** A submission whose completion exists: pending, finishing or published. */
  ghost predicate Known(s: State, p: nat) {
    p in s.outcomes || p in s.finishing || IsPending(s, p)
  }

  ghost predicate AllKnown(s: State, producers: seq<Producer>) {
    forall p :: p in producers && p.Of? ==> Known(s, p.sequence)
  }

  function Occupied(s: State): nat {
    |s.pending| + |s.finishing| + |s.lanes.native| +
    if COMPUTE < |s.lanes.owners| && s.lanes.owners[COMPUTE].Native? then 1 else 0
  }

  // ---------- steps of one submission ----------

  datatype JobEvent =
    | Cancel
    | Settle
    | Start(node: nat)
    | Complete(node: nat, failed: bool)

  ghost predicate JobEnabled(s: State, i: nat, e: JobEvent) {
    && i < |s.pending| && |s.lanes.owners| == |s.lanes.lastStarted| == LANES
    && var job := s.pending[i];
       match e
       case Cancel => true
       case Settle => true
       case Start(n) => Startable(job, s.outcomes, s.lanes, n)
       case Complete(n, _) => n < |job.nodes| == |job.regions| && job.nodes[n] == Running && job.regions[n].lane < LANES
  }

  function JobAfter(job: Job, outcomes: map<nat, bool>, e: JobEvent): Job {
    match e
    case Cancel => job.(cancelled := true)
    case Settle => Settled(job, outcomes)
    case Start(n) => if n < |job.nodes| then job.(nodes := job.nodes[n := Running], started := true) else job
    case Complete(n, failed) =>
      if n < |job.nodes| then job.(nodes := job.nodes[n := Done], failed := job.failed || failed) else job
  }

  function LanesAfter(lanes: Lanes, job: Job, e: JobEvent): Lanes {
    match e
    case Start(n) =>
      if n < |job.regions| && job.regions[n].lane < |lanes.owners| == |lanes.lastStarted| then
        var lane := job.regions[n].lane;
        lanes.(owners := lanes.owners[lane := Work(job.sequence, n)],
               lastStarted := lanes.lastStarted[lane := Some(job.sequence)],
               next := (lane + 1) % LANES)
      else lanes
    case Complete(n, _) =>
      if n < |job.regions| && job.regions[n].lane < |lanes.owners|
      then lanes.(owners := lanes.owners[job.regions[n].lane := Free]) else lanes
    case _ => lanes
  }

  function JobStep(s: State, i: nat, e: JobEvent): State
    requires i < |s.pending|
  {
    s.(pending := s.pending[i := JobAfter(s.pending[i], s.outcomes, e)], lanes := LanesAfter(s.lanes, s.pending[i], e))
  }

  // ---------- submission and removal ----------

  datatype QueueEvent =
    | Submit(uses: seq<ViewUse>, regions: seq<Region>, producers: seq<Producer>)
    | Finish(job: nat)
    | Publish(sequence: nat, cancelled: bool)

  ghost predicate QueueEnabled(s: State, e: QueueEvent) {
    match e
    case Submit(uses, regions, producers) =>
      Occupied(s) < s.capacity && Prepared(uses, regions) && AllKnown(s, producers)
    case Finish(i) => i < |s.pending| && AllDone(s.pending[i])
    case Publish(f, _) => f in s.finishing
  }

  ghost function Submitted(s: State, uses: seq<ViewUse>, regions: seq<Region>, producers: seq<Producer>): Job {
    Job(s.sequence, uses, regions, producers, Earlier(s.pending, uses, |s.pending|), Waiting(|regions|), false, false, false)
  }

  function Waiting(n: nat): (nodes: seq<Node>)
    ensures |nodes| == n && forall k :: 0 <= k < n ==> nodes[k] == Pending
  {
    if n == 0 then [] else Waiting(n - 1) + [Pending]
  }

  ghost function QueueStep(s: State, e: QueueEvent): State
    requires QueueEnabled(s, e)
  {
    match e
    case Submit(uses, regions, producers) =>
      s.(pending := s.pending + [Submitted(s, uses, regions, producers)], sequence := s.sequence + 1)
    case Finish(i) =>
      s.(pending := Without(s.pending, i),
         finishing := s.finishing[s.pending[i].sequence := !s.pending[i].failed && !s.pending[i].cancelled])
    case Publish(f, cancelled) =>
      s.(finishing := s.finishing - {f}, outcomes := s.outcomes[f := s.finishing[f] && !cancelled])
  }

  // ---------- native stages ----------

  datatype NativeEvent = Wait | Enter | Leave | Yield

  /** The oldest waiting native stage may take the compute lane. */
  ghost predicate NativeReady(s: State)
    requires |s.lanes.owners| == LANES
  {
    && s.lanes.native != [] && s.lanes.owners[COMPUTE].Free?
    && (forall j :: j in s.pending ==> j.sequence >= s.lanes.native[0])
    && forall f :: f in s.finishing ==> f >= s.lanes.native[0]
  }

  ghost predicate NativeEnabled(s: State, e: NativeEvent) {
    && |s.lanes.owners| == LANES
    && match e
       case Wait => Occupied(s) < s.capacity
       case Enter => NativeReady(s)
       case Leave => s.lanes.owners[COMPUTE].Native?
       case Yield => s.lanes.owners[COMPUTE].Native?
  }

  ghost function NativeStep(s: State, e: NativeEvent): State
    requires NativeEnabled(s, e)
  {
    match e
    case Wait => s.(lanes := s.lanes.(native := s.lanes.native + [s.sequence]), sequence := s.sequence + 1)
    case Enter =>
      s.(lanes := s.lanes.(native := s.lanes.native[1..], owners := s.lanes.owners[COMPUTE := Native(s.lanes.native[0])]))
    case Leave => s.(lanes := s.lanes.(owners := s.lanes.owners[COMPUTE := Free]))
    case Yield =>
      s.(lanes := s.lanes.(native := s.lanes.native + [s.sequence], owners := s.lanes.owners[COMPUTE := Free]),
         sequence := s.sequence + 1)
  }

  // ---------- runs ----------

  datatype Event = OnJob(index: nat, job: JobEvent) | OnQueue(queue: QueueEvent) | OnNative(native: NativeEvent)

  ghost predicate Enabled(s: State, e: Event) {
    match e
    case OnJob(i, j) => JobEnabled(s, i, j)
    case OnQueue(q) => QueueEnabled(s, q)
    case OnNative(n) => NativeEnabled(s, n)
  }

  ghost function Step(s: State, e: Event): State
    requires Enabled(s, e)
  {
    match e
    case OnJob(i, j) => JobStep(s, i, j)
    case OnQueue(q) => QueueStep(s, q)
    case OnNative(n) => NativeStep(s, n)
  }

  ghost predicate Initial(s: State) {
    && s.pending == [] && s.finishing == map[] && s.outcomes == map[] && s.lanes.native == []
    && |s.lanes.owners| == |s.lanes.lastStarted| == LANES && forall l :: 0 <= l < LANES ==> s.lanes.owners[l] == Free
  }

  ghost predicate IsRun(states: seq<State>, events: seq<Event>) {
    && |states| == |events| + 1 && Initial(states[0])
    && forall i {:trigger events[i]} :: 0 <= i < |events| ==>
         Enabled(states[i], events[i]) && states[i + 1] == Step(states[i], events[i])
  }

  // ---------- invariants ----------

  ghost predicate Ordered(pending: seq<Job>) {
    forall i, j :: 0 <= i < j < |pending| ==> pending[i].sequence < pending[j].sequence
  }

  /** Submission numbers grow along the queue and are never reused. */
  ghost predicate Sequenced(s: State) {
    && Ordered(s.pending)
    && (forall j :: j in s.pending ==> j.sequence < s.sequence && j.sequence !in s.finishing && j.sequence !in s.outcomes)
    && (forall f :: f in s.finishing ==> f < s.sequence && f !in s.outcomes)
    && (forall f :: f in s.outcomes ==> f < s.sequence)
  }

  ghost predicate Shaped(job: Job) {
    |job.nodes| == |job.regions| && Prepared(job.uses, job.regions)
  }

  ghost predicate AllShaped(s: State) {
    forall j :: j in s.pending ==> Shaped(j)
  }

  /** Work begins only unblocked and after every producer succeeded; a running region's predecessors are done. */
  ghost predicate Safe(job: Job, outcomes: map<nat, bool>) {
    && (job.started ==> job.blockers == 0 && Produced(outcomes, job.producers))
    && forall n :: 0 <= n < |job.nodes| && job.nodes[n] == Running ==>
         && job.started && n < |job.regions|
         && forall d :: d in job.regions[n].dependencies ==> d < |job.nodes| && job.nodes[d] == Done
  }

  ghost predicate AllSafe(s: State) {
    forall j :: j in s.pending ==> Safe(j, s.outcomes)
  }

  /** A region runs exactly when its lane is held for it. */
  ghost predicate Holding(job: Job, owners: seq<Owner>) {
    forall n :: 0 <= n < |job.nodes| && n < |job.regions| && job.regions[n].lane < |owners| ==>
                  (job.nodes[n] == Running <==> owners[job.regions[n].lane] == Work(job.sequence, n))
  }

  ghost predicate HeldBy(job: Job, lane: nat, w: Owner) {
    w.Work? && job.sequence == w.sequence && w.node < |job.nodes| && w.node < |job.regions| && job.regions[w.node].lane == lane
  }

  /** A held lane belongs to a pending region on that lane, or to a native stage on the compute lane. */
  ghost predicate LanesHeld(s: State) {
    && |s.lanes.owners| == |s.lanes.lastStarted| == LANES
    && (forall j :: j in s.pending ==> Holding(j, s.lanes.owners))
    && (forall l :: 0 <= l < LANES && s.lanes.owners[l].Work? ==> exists j :: j in s.pending && HeldBy(j, l, s.lanes.owners[l]))
    && (forall l :: 0 <= l < LANES && s.lanes.owners[l].Native? ==> l == COMPUTE)
  }

  /** Producers come earlier and are never forgotten. */
  ghost predicate JobKnown(s: State, job: Job) {
    forall p :: p in job.producers && p.Of? ==> p.sequence < job.sequence && Known(s, p.sequence)
  }

  ghost predicate ProducersKnown(s: State) {
    forall j :: j in s.pending ==> JobKnown(s, j)
  }

  ghost predicate Increasing(tickets: seq<nat>, limit: nat) {
    && (forall a, b :: 0 <= a < b < |tickets| ==> tickets[a] < tickets[b])
    && forall a :: 0 <= a < |tickets| ==> tickets[a] < limit
  }

  /** Native stages queue in ticket order, and the active one is older than everything pending. */
  ghost predicate NativeQueued(s: State) {
    && |s.lanes.owners| == LANES && Increasing(s.lanes.native, s.sequence)
    && (s.lanes.owners[COMPUTE].Native? ==>
          && s.lanes.owners[COMPUTE].ticket < s.sequence
          && (forall j :: j in s.pending ==> j.sequence >= s.lanes.owners[COMPUTE].ticket)
          && forall a :: 0 <= a < |s.lanes.native| ==> s.lanes.native[a] >= s.lanes.owners[COMPUTE].ticket)
  }

  ghost predicate Inv(s: State) {
    && Occupied(s) <= s.capacity && Sequenced(s) && AllShaped(s) && CountsEarlier(s.pending)
    && AllSafe(s) && LanesHeld(s) && ProducersKnown(s) && NativeQueued(s)
  }

  // ---------- steps of one submission keep the invariant ----------

  lemma {:induction false} JobKeepsSequence(s: State, i: nat, e: JobEvent)
    requires JobEnabled(s, i, e) && Sequenced(s) && AllShaped(s) && CountsEarlier(s.pending)
    ensures Sequenced(JobStep(s, i, e)) && AllShaped(JobStep(s, i, e)) && CountsEarlier(JobStep(s, i, e).pending)
  {
    UpdateCounts(s.pending, i, JobStep(s, i, e).pending[i]);
    assert s.pending[i] in s.pending;
    forall j | j in JobStep(s, i, e).pending ensures j == JobStep(s, i, e).pending[i] || j in s.pending {
    }
  }

  lemma {:induction false} JobKeepsSafe(s: State, i: nat, e: JobEvent)
    requires JobEnabled(s, i, e) && AllShaped(s) && AllSafe(s)
    ensures AllSafe(JobStep(s, i, e))
  {
    assert s.pending[i] in s.pending;
  }

  lemma {:induction false} JobKeepsProducers(s: State, i: nat, e: JobEvent)
    requires JobEnabled(s, i, e) && ProducersKnown(s)
    ensures ProducersKnown(JobStep(s, i, e))
  {
    var u := JobStep(s, i, e);
    forall j | j in u.pending ensures JobKnown(u, j) {
      var k :| 0 <= k < |u.pending| && u.pending[k] == j;
      assert s.pending[k] in s.pending && JobKnown(s, s.pending[k]);
      forall p | p in j.producers && p.Of? ensures Known(u, p.sequence) {
        JobKeepsKnown(s, i, e, p.sequence);
      }
    }
  }

  lemma {:induction false} JobKeepsKnown(s: State, i: nat, e: JobEvent, p: nat)
    requires JobEnabled(s, i, e) && Known(s, p)
    ensures Known(JobStep(s, i, e), p)
  {
    var u := JobStep(s, i, e);
    if IsPending(s, p) {
      var m :| 0 <= m < |s.pending| && s.pending[m].sequence == p;
      assert u.pending[m] in u.pending;
    }
  }

  lemma {:induction false} JobStillHolds(job: Job, outcomes: map<nat, bool>, lanes: Lanes, e: JobEvent)
    requires Shaped(job) && Holding(job, lanes.owners) && |lanes.owners| == |lanes.lastStarted| == LANES
    requires e.Start? ==> Startable(job, outcomes, lanes, e.node)
    requires e.Complete? ==> e.node < |job.nodes| && job.nodes[e.node] == Running
    ensures Holding(JobAfter(job, outcomes, e), LanesAfter(lanes, job, e).owners)
  {
  }

  lemma {:induction false} JobKeepsHolding(s: State, i: nat, e: JobEvent, k: nat)
    requires JobEnabled(s, i, e) && Sequenced(s) && AllShaped(s) && LanesHeld(s) && k < |s.pending|
    ensures Holding(JobStep(s, i, e).pending[k], JobStep(s, i, e).lanes.owners)
  {
    var job, other := s.pending[i], s.pending[k];
    assert job in s.pending && other in s.pending && Shaped(job);
    if k == i {
      JobStillHolds(job, s.outcomes, s.lanes, e);
    } else {
      assert other.sequence != job.sequence && Holding(job, s.lanes.owners);
    }
  }

  lemma {:induction false} JobKeepsOwner(s: State, i: nat, e: JobEvent, l: nat)
    requires JobEnabled(s, i, e) && AllShaped(s) && LanesHeld(s) && l < LANES
    requires JobStep(s, i, e).lanes.owners[l].Work?
    ensures exists j :: j in JobStep(s, i, e).pending && HeldBy(j, l, JobStep(s, i, e).lanes.owners[l])
  {
    var u := JobStep(s, i, e);
    var w := u.lanes.owners[l];
    assert s.pending[i] in s.pending && Shaped(s.pending[i]);
    if w == s.lanes.owners[l] {
      var k :| 0 <= k < |s.pending| && HeldBy(s.pending[k], l, w);
      assert u.pending[k] in u.pending && HeldBy(u.pending[k], l, w);
    } else {
      assert u.pending[i] in u.pending && HeldBy(u.pending[i], l, w);
    }
  }

  lemma {:induction false} JobKeepsLanes(s: State, i: nat, e: JobEvent)
    requires JobEnabled(s, i, e) && Sequenced(s) && AllShaped(s) && LanesHeld(s)
    ensures LanesHeld(JobStep(s, i, e))
  {
    var u := JobStep(s, i, e);
    forall j | j in u.pending ensures Holding(j, u.lanes.owners) {
      var k :| 0 <= k < |u.pending| && u.pending[k] == j;
      JobKeepsHolding(s, i, e, k);
    }
    forall l | 0 <= l < LANES && u.lanes.owners[l].Work? ensures exists j :: j in u.pending && HeldBy(j, l, u.lanes.owners[l]) {
      JobKeepsOwner(s, i, e, l);
    }
  }

  lemma {:induction false} JobKeepsNative(s: State, i: nat, e: JobEvent)
    requires JobEnabled(s, i, e) && AllShaped(s) && LanesHeld(s) && NativeQueued(s)
    ensures NativeQueued(JobStep(s, i, e)) && Occupied(JobStep(s, i, e)) == Occupied(s)
  {
    assert s.pending[i] in s.pending && Holding(s.pending[i], s.lanes.owners);
  }

  // ---------- submission and removal keep the invariant ----------

  lemma {:induction false} SubmitKeepsSequence(s: State, e: QueueEvent)
    requires e.Submit? && QueueEnabled(s, e) && Sequenced(s)
    ensures Sequenced(QueueStep(s, e))
  {
    var u := QueueStep(s, e);
    forall i, j | 0 <= i < j < |u.pending| ensures u.pending[i].sequence < u.pending[j].sequence {
      assert s.pending[i] in s.pending;
    }
  }

  lemma {:induction false} SubmitKeepsJobs(s: State, e: QueueEvent)
    requires e.Submit? && QueueEnabled(s, e) && AllShaped(s) && CountsEarlier(s.pending) && AllSafe(s)
    ensures var u := QueueStep(s, e); AllShaped(u) && CountsEarlier(u.pending) && AllSafe(u)
  {
    var job := Submitted(s, e.uses, e.regions, e.producers);
    AppendCounts(s.pending, job);
    assert Shaped(job) && Safe(job, s.outcomes);
    forall j | j in QueueStep(s, e).pending ensures j == job || j in s.pending {
    }
  }

  lemma {:induction false} SubmitKeepsLanes(s: State, e: QueueEvent)
    requires e.Submit? && QueueEnabled(s, e) && Sequenced(s) && LanesHeld(s)
    ensures LanesHeld(QueueStep(s, e))
  {
    var u := QueueStep(s, e);
    var job := Submitted(s, e.uses, e.regions, e.producers);
    forall n | 0 <= n < |job.nodes| && job.regions[n].lane < LANES
      ensures s.lanes.owners[job.regions[n].lane] != Work(job.sequence, n)
    {
      var w := s.lanes.owners[job.regions[n].lane];
      if w.Work? {
        var j :| j in s.pending && HeldBy(j, job.regions[n].lane, w);
        assert j.sequence < s.sequence;
      }
    }
    assert Holding(job, u.lanes.owners);
    forall l | 0 <= l < LANES && u.lanes.owners[l].Work? ensures exists j :: j in u.pending && HeldBy(j, l, u.lanes.owners[l]) {
      var j :| j in s.pending && HeldBy(j, l, s.lanes.owners[l]);
      assert j in u.pending;
    }
  }

  lemma {:induction false} SubmitKeepsKnown(s: State, e: QueueEvent, p: nat)
    requires e.Submit? && QueueEnabled(s, e) && Sequenced(s) && Known(s, p)
    ensures p < s.sequence && Known(QueueStep(s, e), p)
  {
  }

  lemma {:induction false} SubmitKeepsProducers(s: State, e: QueueEvent)
    requires e.Submit? && QueueEnabled(s, e) && Sequenced(s) && ProducersKnown(s) && NativeQueued(s)
    ensures ProducersKnown(QueueStep(s, e)) && NativeQueued(QueueStep(s, e))
  {
    var u := QueueStep(s, e);
    forall j | j in u.pending ensures JobKnown(u, j) {
      forall p | p in j.producers && p.Of? ensures p.sequence < j.sequence && Known(u, p.sequence) {
        assert j in s.pending ==> JobKnown(s, j);
        SubmitKeepsKnown(s, e, p.sequence);
      }
    }
  }

  /** The same submission, blocked by no more than before. */
  ghost predicate Survives(was: Job, now: Job) {
    now == was.(blockers := now.blockers) && now.blockers <= was.blockers
  }

  /** What is left in the queue was there before, at another number than the removed one's. */
  lemma {:induction false} WithoutMember(pending: seq<Job>, i: nat, k: nat) returns (m: nat)
    requires i < |pending| && k < |pending| - 1
    ensures m < |pending| && m != i && m == (if k < i then k else k + 1) && Survives(pending[m], Without(pending, i)[k])
  {
    m := if k < i then k else k + 1;
    WithoutAt(pending, i, k);
  }

  lemma {:induction false} WithoutKeeps(pending: seq<Job>, i: nat, m: nat) returns (k: nat)
    requires i < |pending| && m < |pending| && m != i
    ensures k < |pending| - 1 && Survives(pending[m], Without(pending, i)[k])
  {
    k := if m < i then m else m - 1;
    WithoutAt(pending, i, k);
  }

  lemma {:induction false} FinishKeepsJobs(s: State, i: nat)
    requires QueueEnabled(s, Finish(i)) && Sequenced(s) && AllShaped(s) && AllSafe(s)
    ensures var u := QueueStep(s, Finish(i)); AllShaped(u) && AllSafe(u)
  {
    var u := QueueStep(s, Finish(i));
    forall j | j in u.pending ensures Shaped(j) && Safe(j, u.outcomes) {
      WithoutIsOlder(s.pending, i, j);
      var o :| o in s.pending && Survives(o, j);
    }
  }

  lemma {:induction false} WithoutOrdered(pending: seq<Job>, i: nat)
    requires Ordered(pending) && i < |pending|
    ensures Ordered(Without(pending, i))
  {
    var q := Without(pending, i);
    forall a, b | 0 <= a < b < |q| ensures q[a].sequence < q[b].sequence {
      var x := WithoutMember(pending, i, a);
      var y := WithoutMember(pending, i, b);
    }
  }

  lemma {:induction false} WithoutIsOlder(pending: seq<Job>, i: nat, j: Job)
    requires Ordered(pending) && i < |pending| && j in Without(pending, i)
    ensures j.sequence != pending[i].sequence && exists o :: o in pending && Survives(o, j)
  {
    var k :| 0 <= k < |Without(pending, i)| && Without(pending, i)[k] == j;
    var m := WithoutMember(pending, i, k);
    assert pending[m] in pending;
  }

  lemma {:induction false} FinishKeepsSequence(s: State, i: nat)
    requires QueueEnabled(s, Finish(i)) && Sequenced(s)
    ensures Sequenced(QueueStep(s, Finish(i)))
  {
    var u := QueueStep(s, Finish(i));
    assert s.pending[i] in s.pending;
    WithoutOrdered(s.pending, i);
    forall j | j in u.pending ensures j.sequence < u.sequence && j.sequence !in u.finishing && j.sequence !in u.outcomes {
      WithoutIsOlder(s.pending, i, j);
    }
  }

  lemma {:induction false} FinishKeepsOccupied(s: State, i: nat)
    requires QueueEnabled(s, Finish(i)) && Sequenced(s)
    ensures Occupied(QueueStep(s, Finish(i))) == Occupied(s)
  {
    var f := s.pending[i].sequence;
    assert s.pending[i] in s.pending;
    assert s.finishing[f := true].Keys == s.finishing.Keys + {f};
    assert |QueueStep(s, Finish(i)).finishing.Keys| == |s.finishing.Keys| + 1;
  }

  lemma {:induction false} FinishKeepsHolding(s: State, i: nat)
    requires QueueEnabled(s, Finish(i)) && Ordered(s.pending) && LanesHeld(s)
    ensures var u := QueueStep(s, Finish(i)); forall j :: j in u.pending ==> Holding(j, u.lanes.owners)
  {
    var u := QueueStep(s, Finish(i));
    forall j | j in u.pending ensures Holding(j, u.lanes.owners) {
      WithoutIsOlder(s.pending, i, j);
      var o :| o in s.pending && Survives(o, j);
      assert Holding(o, s.lanes.owners);
    }
  }

  lemma {:induction false} FinishKeepsOwner(s: State, i: nat, l: nat)
    requires QueueEnabled(s, Finish(i)) && AllShaped(s) && LanesHeld(s) && l < LANES && s.lanes.owners[l].Work?
    ensures exists j :: j in QueueStep(s, Finish(i)).pending && HeldBy(j, l, s.lanes.owners[l])
  {
    var u, w := QueueStep(s, Finish(i)), s.lanes.owners[l];
    assert s.pending[i] in s.pending && Holding(s.pending[i], s.lanes.owners);
    var m :| 0 <= m < |s.pending| && HeldBy(s.pending[m], l, w);
    var k := WithoutKeeps(s.pending, i, m);
    assert u.pending[k] in u.pending && HeldBy(u.pending[k], l, w);
  }

  lemma {:induction false} FinishKeepsLanes(s: State, i: nat)
    requires QueueEnabled(s, Finish(i)) && Ordered(s.pending) && AllShaped(s) && LanesHeld(s)
    ensures LanesHeld(QueueStep(s, Finish(i)))
  {
    FinishKeepsHolding(s, i);
    forall l | 0 <= l < LANES && s.lanes.owners[l].Work?
      ensures exists j :: j in QueueStep(s, Finish(i)).pending && HeldBy(j, l, s.lanes.owners[l])
    {
      FinishKeepsOwner(s, i, l);
    }
  }

  lemma {:induction false} FinishKeepsProducers(s: State, i: nat)
    requires QueueEnabled(s, Finish(i)) && Ordered(s.pending) && ProducersKnown(s)
    ensures ProducersKnown(QueueStep(s, Finish(i)))
  {
    var u := QueueStep(s, Finish(i));
    forall j | j in u.pending ensures JobKnown(u, j) {
      WithoutIsOlder(s.pending, i, j);
      var o :| o in s.pending && Survives(o, j);
      assert JobKnown(s, o);
      forall p | p in j.producers && p.Of? ensures Known(u, p.sequence) {
        FinishKeepsKnown(s, i, p.sequence);
      }
    }
  }

  lemma {:induction false} FinishKeepsNative(s: State, i: nat)
    requires QueueEnabled(s, Finish(i)) && Ordered(s.pending) && NativeQueued(s)
    ensures NativeQueued(QueueStep(s, Finish(i)))
  {
  }

  lemma {:induction false} FinishKeepsKnown(s: State, i: nat, p: nat)
    requires QueueEnabled(s, Finish(i)) && Known(s, p)
    ensures Known(QueueStep(s, Finish(i)), p)
  {
  }

  lemma {:induction false} PublishKeepsJobs(s: State, f: nat, cancelled: bool)
    requires f in s.finishing && Sequenced(s) && AllSafe(s) && ProducersKnown(s)
    ensures var u := QueueStep(s, Publish(f, cancelled)); Sequenced(u) && AllSafe(u) && ProducersKnown(u)
  {
    var u := QueueStep(s, Publish(f, cancelled));
    forall j | j in u.pending ensures Safe(j, u.outcomes) {
      assert Safe(j, s.outcomes);
    }
    forall j | j in u.pending ensures JobKnown(u, j) {
      assert JobKnown(s, j);
      forall p | p in j.producers && p.Of? ensures Known(u, p.sequence) {
        PublishKeepsKnown(s, f, cancelled, p.sequence);
      }
    }
  }

  lemma {:induction false} PublishKeepsKnown(s: State, f: nat, cancelled: bool, p: nat)
    requires f in s.finishing && Known(s, p)
    ensures Known(QueueStep(s, Publish(f, cancelled)), p)
  {
  }

  lemma {:induction false} PublishFreesRoom(s: State, f: nat, cancelled: bool)
    requires f in s.finishing
    ensures Occupied(QueueStep(s, Publish(f, cancelled))) == Occupied(s) - 1
  {
  }

  lemma {:induction false} QueueKeepsInv(s: State, e: QueueEvent)
    requires QueueEnabled(s, e) && Inv(s)
    ensures Inv(QueueStep(s, e))
  {
    match e
    case Submit(_, _, _) =>
      SubmitKeepsSequence(s, e);
      SubmitKeepsJobs(s, e);
      SubmitKeepsLanes(s, e);
      SubmitKeepsProducers(s, e);
    case Finish(i) =>
      FinishKeepsJobs(s, i);
      FinishKeepsSequence(s, i);
      FinishKeepsOccupied(s, i);
      WithoutCounts(s.pending, i);
      FinishKeepsLanes(s, i);
      FinishKeepsProducers(s, i);
      FinishKeepsNative(s, i);
    case Publish(f, cancelled) =>
      PublishKeepsJobs(s, f, cancelled);
      PublishFreesRoom(s, f, cancelled);
  }

  lemma {:induction false} JobKeepsInv(s: State, i: nat, e: JobEvent)
    requires JobEnabled(s, i, e) && Inv(s)
    ensures Inv(JobStep(s, i, e))
  {
    JobKeepsSequence(s, i, e);
    JobKeepsSafe(s, i, e);
    JobKeepsProducers(s, i, e);
    JobKeepsLanes(s, i, e);
    JobKeepsNative(s, i, e);
  }

  // ---------- native stages keep the invariant ----------

  lemma {:induction false} NativeKeepsLanes(s: State, e: NativeEvent)
    requires NativeEnabled(s, e) && LanesHeld(s)
    ensures LanesHeld(NativeStep(s, e))
  {
  }

  lemma {:induction false} NativeKeepsOccupied(s: State, e: NativeEvent)
    requires NativeEnabled(s, e) && Occupied(s) <= s.capacity
    ensures Occupied(NativeStep(s, e)) <= s.capacity
  {
  }

  lemma {:induction false} NativeKeepsQueue(s: State, e: NativeEvent)
    requires NativeEnabled(s, e) && NativeQueued(s)
    ensures NativeQueued(NativeStep(s, e))
  {
  }

  lemma {:induction false} NativeKeepsJobs(s: State, e: NativeEvent)
    requires NativeEnabled(s, e) && Sequenced(s) && AllShaped(s) && AllSafe(s) && ProducersKnown(s)
    ensures var u := NativeStep(s, e); Sequenced(u) && AllShaped(u) && AllSafe(u) && ProducersKnown(u)
  {
    var u := NativeStep(s, e);
    assert u.pending == s.pending && u.finishing == s.finishing && u.outcomes == s.outcomes && u.sequence >= s.sequence;
    forall j | j in u.pending ensures JobKnown(u, j) {
      assert JobKnown(s, j);
      forall p | p in j.producers && p.Of? ensures Known(u, p.sequence) {
        assert Known(s, p.sequence) ==> Known(u, p.sequence);
      }
    }
  }

  lemma {:induction false} NativeKeepsInv(s: State, e: NativeEvent)
    requires NativeEnabled(s, e) && Inv(s)
    ensures Inv(NativeStep(s, e))
  {
    NativeKeepsLanes(s, e);
    NativeKeepsQueue(s, e);
    NativeKeepsOccupied(s, e);
    NativeKeepsJobs(s, e);
  }

  lemma {:induction false} StepKeepsInv(s: State, e: Event)
    requires Enabled(s, e) && Inv(s)
    ensures Inv(Step(s, e))
  {
    match e
    case OnJob(i, j) => JobKeepsInv(s, i, j);
    case OnQueue(q) => QueueKeepsInv(s, q);
    case OnNative(n) => NativeKeepsInv(s, n);
  }

  lemma {:induction false} RunKeepsInv(states: seq<State>, events: seq<Event>, i: nat)
    requires IsRun(states, events) && i < |states|
    ensures Inv(states[i])
  {
    for k := 0 to i
      invariant Inv(states[k])
    {
      assert states[k + 1] == Step(states[k], events[k]);
      StepKeepsInv(states[k], events[k]);
    }
  }

  // ---------- safety over whole runs ----------

  /**
   * In every reachable state, a submission that clashes with an earlier pending
   * one has not run anything, and a submission that has run anything comes after
   * successful producers.
   */
  lemma {:induction false} ConflictsRunInOrder(states: seq<State>, events: seq<Event>, k: nat, i: nat, j: nat)
    requires IsRun(states, events) && k < |states| && i < j < |states[k].pending|
    requires Clashes(states[k].pending[i].uses, states[k].pending[j].uses)
    ensures !states[k].pending[j].started
    ensures forall n :: 0 <= n < |states[k].pending[j].nodes| ==> states[k].pending[j].nodes[n] != Running
  {
    RunKeepsInv(states, events, k);
    var s := states[k];
    assert s.pending[j] in s.pending && Safe(s.pending[j], s.outcomes);
    EarlierCounts(s.pending, s.pending[j].uses, i, j);
    assert s.pending[j].blockers > 0;
  }

  lemma {:induction false} ProducersSucceedFirst(states: seq<State>, events: seq<Event>, k: nat, j: nat, p: Producer)
    requires IsRun(states, events) && k < |states| && j < |states[k].pending|
    requires states[k].pending[j].started && p in states[k].pending[j].producers
    ensures Outcome(states[k].outcomes, p) == Some(true)
  {
    RunKeepsInv(states, events, k);
    assert states[k].pending[j] in states[k].pending && Safe(states[k].pending[j], states[k].outcomes);
  }

  /** The submission has failed or was cancelled, at whatever stage it is. */
  ghost predicate Doomed(s: State, q: nat) {
    || (exists j :: j in s.pending && j.sequence == q && (j.failed || j.cancelled))
    || (q in s.finishing && !s.finishing[q])
    || (q in s.outcomes && !s.outcomes[q])
  }

  lemma {:induction false} JobKeepsDoom(s: State, i: nat, e: JobEvent, q: nat)
    requires JobEnabled(s, i, e) && Doomed(s, q)
    ensures Doomed(JobStep(s, i, e), q)
  {
    var u := JobStep(s, i, e);
    if j :| j in s.pending && j.sequence == q && (j.failed || j.cancelled) {
      var k :| 0 <= k < |s.pending| && s.pending[k] == j;
      assert u.pending[k] in u.pending && u.pending[k].sequence == q;
    }
  }

  lemma {:induction false} FinishKeepsDoom(s: State, i: nat, q: nat)
    requires QueueEnabled(s, Finish(i)) && Sequenced(s) && Doomed(s, q)
    ensures Doomed(QueueStep(s, Finish(i)), q)
  {
    var u := QueueStep(s, Finish(i));
    assert s.pending[i] in s.pending;
    if m :| 0 <= m < |s.pending| && s.pending[m].sequence == q && (s.pending[m].failed || s.pending[m].cancelled) {
      if m != i {
        var k := WithoutKeeps(s.pending, i, m);
        assert u.pending[k] in u.pending;
      }
    }
  }

  lemma {:induction false} QueueKeepsDoom(s: State, e: QueueEvent, q: nat)
    requires QueueEnabled(s, e) && Sequenced(s) && Doomed(s, q)
    ensures Doomed(QueueStep(s, e), q)
  {
    if e.Finish? {
      FinishKeepsDoom(s, e.job, q);
    } else if j :| j in s.pending && j.sequence == q && (j.failed || j.cancelled) {
      assert j in QueueStep(s, e).pending;
    }
  }

  lemma {:induction false} StepKeepsDoom(s: State, e: Event, q: nat)
    requires Enabled(s, e) && Inv(s) && Doomed(s, q)
    ensures Doomed(Step(s, e), q)
  {
    match e
    case OnJob(i, j) => JobKeepsDoom(s, i, j, q);
    case OnQueue(x) => QueueKeepsDoom(s, x, q);
    case OnNative(_) =>
      if j :| j in s.pending && j.sequence == q && (j.failed || j.cancelled) {
        assert j in Step(s, e).pending;
      }
  }

  /** A region that fails, or a cancellation, dooms its submission: its completion never reports success. */
  lemma {:induction false} FailureIsFinal(states: seq<State>, events: seq<Event>, i: nat, k: nat, q: nat)
    requires IsRun(states, events) && i < k < |states| && events[i].OnJob? && events[i].index < |states[i].pending|
    requires states[i].pending[events[i].index].sequence == q
    requires events[i].job == Cancel || (events[i].job.Complete? && events[i].job.failed)
    ensures Doomed(states[k], q) && (q in states[k].outcomes ==> !states[k].outcomes[q])
  {
    assert states[i + 1] == Step(states[i], events[i]);
    var job := states[i + 1].pending[events[i].index];
    assert job in states[i + 1].pending;
    for j := i + 1 to k
      invariant Doomed(states[j], q)
    {
      RunKeepsInv(states, events, j);
      assert states[j + 1] == Step(states[j], events[j]);
      StepKeepsDoom(states[j], events[j], q);
    }
    RunKeepsInv(states, events, k);
  }

  /** So nothing submitted after it as a producer ever runs. */
  lemma {:induction false} DependentsNeverRun(states: seq<State>, events: seq<Event>, i: nat, k: nat, q: nat, j: nat)
    requires IsRun(states, events) && i < k < |states| && events[i].OnJob? && events[i].index < |states[i].pending|
    requires states[i].pending[events[i].index].sequence == q
    requires events[i].job == Cancel || (events[i].job.Complete? && events[i].job.failed)
    requires j < |states[k].pending| && Of(q) in states[k].pending[j].producers
    ensures !states[k].pending[j].started
  {
    FailureIsFinal(states, events, i, k, q);
    if states[k].pending[j].started {
      ProducersSucceedFirst(states, events, k, j, Of(q));
    }
  }

  /** No lane ever runs two regions, nor a region beside a native stage. */
  lemma {:induction false} LaneIsExclusive(states: seq<State>, events: seq<Event>, k: nat, i: nat, n: nat, j: nat, m: nat)
    requires IsRun(states, events) && k < |states| && i < |states[k].pending| && j < |states[k].pending|
    requires n < |states[k].pending[i].nodes| && states[k].pending[i].nodes[n] == Running
    requires m < |states[k].pending[j].nodes| && states[k].pending[j].nodes[m] == Running
    ensures n < |states[k].pending[i].regions| && m < |states[k].pending[j].regions|
    ensures states[k].pending[i].regions[n].lane == states[k].pending[j].regions[m].lane ==> i == j && n == m
    ensures |states[k].lanes.owners| == LANES
    ensures states[k].lanes.owners[COMPUTE].Native? ==> states[k].pending[i].regions[n].lane != COMPUTE
  {
    RunKeepsInv(states, events, k);
    var s := states[k];
    assert s.pending[i] in s.pending && Shaped(s.pending[i]) && Holding(s.pending[i], s.lanes.owners);
    assert s.pending[j] in s.pending && Shaped(s.pending[j]) && Holding(s.pending[j], s.lanes.owners);
  }

  // ---------- native stages in a run ----------

  lemma {:induction false} StepKeepsKnown(s: State, e: Event, p: nat)
    requires Enabled(s, e) && Inv(s) && Known(s, p)
    ensures Known(Step(s, e), p)
  {
    match e
    case OnJob(i, j) => JobKeepsKnown(s, i, j, p);
    case OnQueue(Submit(_, _, _)) => SubmitKeepsKnown(s, e.queue, p);
    case OnQueue(Finish(i)) => FinishKeepsKnown(s, i, p);
    case OnQueue(Publish(f, cancelled)) => PublishKeepsKnown(s, f, cancelled, p);
    case OnNative(_) =>
      if IsPending(s, p) {
        assert IsPending(Step(s, e), p);
      }
  }

  ghost predicate Submits(s: State, e: Event, p: nat) {
    e.OnQueue? && e.queue.Submit? && s.sequence == p
  }

  /** A submission is pending, then finishing, then published, and never forgotten. */
  lemma {:induction false} SubmissionIsNeverLost(states: seq<State>, events: seq<Event>, i: nat, k: nat, p: nat)
    requires IsRun(states, events) && i < k < |states| && Submits(states[i], events[i], p)
    ensures Known(states[k], p)
  {
    assert states[i + 1] == Step(states[i], events[i]);
    assert states[i + 1].pending[|states[i].pending|] in states[i + 1].pending;
    for j := i + 1 to k
      invariant Known(states[j], p)
    {
      RunKeepsInv(states, events, j);
      assert states[j + 1] == Step(states[j], events[j]);
      StepKeepsKnown(states[j], events[j], p);
    }
  }

  /** A native stage enters in ticket order, and everything submitted before its ticket has been published. */
  lemma {:induction false} NativeEntersLast(states: seq<State>, events: seq<Event>, k: nat)
    requires IsRun(states, events) && k < |events| && events[k] == OnNative(Enter)
    ensures states[k].lanes.native != []
    ensures forall i, p {:trigger Submits(states[i], events[i], p)} ::
              0 <= i < k && Submits(states[i], events[i], p) && p < states[k].lanes.native[0] ==> p in states[k].outcomes
    ensures forall a :: 0 <= a < |states[k].lanes.native| ==> states[k].lanes.native[0] <= states[k].lanes.native[a]
  {
    RunKeepsInv(states, events, k);
    assert Enabled(states[k], events[k]);
    EntrantIsOldest(states[k]);
    forall i, p | 0 <= i < k && Submits(states[i], events[i], p) && p < states[k].lanes.native[0] ensures p in states[k].outcomes {
      SubmissionIsNeverLost(states, events, i, k, p);
      EarlierIsPublished(states[k], p);
    }
  }

  lemma {:induction false} EarlierIsPublished(s: State, p: nat)
    requires |s.lanes.owners| == LANES && NativeReady(s) && Known(s, p) && p < s.lanes.native[0]
    ensures p in s.outcomes
  {
  }

  lemma {:induction false} EntrantIsOldest(s: State)
    requires NativeQueued(s) && NativeReady(s)
    ensures forall a :: 0 <= a < |s.lanes.native| ==> s.lanes.native[0] <= s.lanes.native[a]
  {
  }

  /** The stage holding ticket `t` takes the compute lane. */
  ghost predicate Enters(s: State, e: Event, t: nat) {
    e == OnNative(Enter) && s.lanes.native != [] && s.lanes.native[0] == t
  }

  lemma {:induction false} TicketStays(s: State, e: Event, t: nat)
    requires Enabled(s, e) && t in s.lanes.native && !Enters(s, e, t)
    ensures t in Step(s, e).lanes.native
  {
    if e == OnNative(Enter) {
      assert s.lanes.native == [s.lanes.native[0]] + s.lanes.native[1..];
    }
  }

  lemma {:induction false} WaitingBlocksCompute(s: State, e: Event, t: nat)
    requires Inv(s) && Enabled(s, e) && t in s.lanes.native && StartsOn(s, e, COMPUTE)
    ensures Starter(s, e) <= t
  {
    var a :| 0 <= a < |s.lanes.native| && s.lanes.native[a] == t;
    assert s.lanes.native[0] <= s.lanes.native[a];
  }

  /**
   * No submission overtakes a native stage: whatever starts on the compute lane
   * with a number past the stage's ticket starts after the stage had its turn.
   */
  lemma {:induction false} NoOvertaking(states: seq<State>, events: seq<Event>, i: nat, k: nat)
    requires IsRun(states, events) && i < k < |events| && (events[i] == OnNative(Wait) || events[i] == OnNative(Yield))
    requires StartsOn(states[k], events[k], COMPUTE) && Starter(states[k], events[k]) > states[i].sequence
    ensures exists j {:trigger events[j]} :: i < j < k && Enters(states[j], events[j], states[i].sequence)
  {
    var t := states[i].sequence;
    if forall j {:trigger events[j]} :: i < j < k ==> !Enters(states[j], events[j], t) {
      assert states[i + 1] == Step(states[i], events[i]);
      for j := i + 1 to k
        invariant t in states[j].lanes.native
      {
        assert states[j + 1] == Step(states[j], events[j]);
        TicketStays(states[j], events[j], t);
      }
      RunKeepsInv(states, events, k);
      assert Enabled(states[k], events[k]);
      WaitingBlocksCompute(states[k], events[k], t);
    }
  }

  // ---------- no deadlock ----------

  ghost predicate LanesFree(s: State) {
    |s.lanes.owners| == LANES && forall l :: 0 <= l < LANES ==> s.lanes.owners[l].Free?
  }

  /** The oldest submission is never blocked, and its producers have been published. */
  lemma {:induction false} OldestIsClear(s: State)
    requires Inv(s) && s.pending != [] && s.finishing == map[]
    ensures s.pending[0].blockers == 0
    ensures !AwaitsProducer(s.outcomes, s.pending[0].producers)
  {
    var job := s.pending[0];
    assert job in s.pending && JobKnown(s, job);
    forall j | j in s.pending ensures j.sequence >= job.sequence {
      var k :| 0 <= k < |s.pending| && s.pending[k] == j;
    }
    forall p | p in job.producers ensures Outcome(s.outcomes, p).Some? {
      if p.Of? {
        assert Known(s, p.sequence) && p.sequence < job.sequence && !IsPending(s, p.sequence);
      }
    }
  }

  /** In an idle graph some first unfinished region has all its predecessors done. */
  lemma {:induction false} FirstPending(job: Job, n: nat) returns (m: nat)
    requires Shaped(job) && n < |job.nodes| && job.nodes[n] != Done
    ensures m < |job.nodes| && job.nodes[m] != Done && forall d :: 0 <= d < m ==> job.nodes[d] == Done
  {
    if d :| 0 <= d < n && job.nodes[d] != Done {
      m := FirstPending(job, d);
    } else {
      m := n;
    }
  }

  lemma {:induction false} NothingRuns(s: State, i: nat)
    requires Inv(s) && LanesFree(s) && i < |s.pending|
    ensures forall n :: 0 <= n < |s.pending[i].nodes| ==> s.pending[i].nodes[n] != Running
  {
    assert s.pending[i] in s.pending && Holding(s.pending[i], s.lanes.owners) && Shaped(s.pending[i]);
  }

  /** Producers that are neither awaited nor failed have succeeded. */
  lemma {:induction false} ProducersEnded(job: Job, outcomes: map<nat, bool>)
    requires !AwaitsProducer(outcomes, job.producers) && !Settled(job, outcomes).failed
    ensures Produced(outcomes, job.producers)
  {
  }

  /** Once settled, the oldest submission of an idle scheduler can finish or start a region. */
  lemma {:induction false} OldestMoves(s: State) returns (n: nat)
    requires Inv(s) && LanesFree(s) && s.pending != [] && s.finishing == map[]
    requires s.lanes.native != [] ==> s.pending[0].sequence <= s.lanes.native[0]
    ensures var job := Settled(s.pending[0], s.outcomes);
            AllDone(job) || Startable(job, s.outcomes, s.lanes, n)
  {
    n := 0;
    var job := Settled(s.pending[0], s.outcomes);
    OldestIsClear(s);
    NothingRuns(s, 0);
    assert s.pending[0] in s.pending && Shaped(s.pending[0]);
    if !job.cancelled && !job.failed {
      ProducersEnded(s.pending[0], s.outcomes);
      if k :| 0 <= k < |job.nodes| && job.nodes[k] != Done {
        n := FirstPending(job, k);
      }
    }
  }

  /**
   * A scheduler with no lane held and nothing left to publish always has a next
   * step, as long as anything is pending or waiting: no cycle of submissions,
   * producers and native stages can block it.
   */
  lemma {:induction false} NeverStuck(states: seq<State>, events: seq<Event>, k: nat) returns (settled: State, e: Event)
    requires IsRun(states, events) && k < |states|
    requires LanesFree(states[k]) && states[k].finishing == map[]
    requires states[k].pending != [] || states[k].lanes.native != []
    ensures settled == states[k] || (states[k].pending != [] && settled == JobStep(states[k], 0, Settle))
    ensures Enabled(settled, e) && (e == OnNative(Enter) || e.OnQueue? || (e.OnJob? && e.job.Start?))
  {
    var s := states[k];
    RunKeepsInv(states, events, k);
    if s.pending != [] && (s.lanes.native == [] || s.pending[0].sequence <= s.lanes.native[0]) {
      var n := OldestMoves(s);
      settled := JobStep(s, 0, Settle);
      e := if AllDone(settled.pending[0]) then OnQueue(Finish(0)) else OnJob(0, Start(n));
    } else {
      settled, e := s, OnNative(Enter);
      forall j | j in s.pending ensures j.sequence >= s.lanes.native[0] {
        var i :| 0 <= i < |s.pending| && s.pending[i] == j;
      }
    }
  }

  // ---------- turns on a lane ----------

  /** Submissions after the last one started come first, then the others; older ones first within each. */
  predicate RankLeq(last: Option<nat>, a: nat, b: nat) {
    var aSeen, bSeen := last.Some? && a <= last.value, last.Some? && b <= last.value;
    if aSeen == bSeen then a <= b else bSeen
  }

  /** Going round from `q`, `b` comes after `a` and before `q` again. */
  predicate Turned(q: nat, a: nat, b: nat) {
    if a > q then b > a || b < q else a < b < q
  }

  ghost predicate StartsOn(s: State, e: Event, lane: nat) {
    && e.OnJob? && e.job.Start? && e.index < |s.pending| && e.job.node < |s.pending[e.index].regions|
    && s.pending[e.index].regions[e.job.node].lane == lane
  }

  ghost function Starter(s: State, e: Event): nat
    requires e.OnJob? && e.index < |s.pending|
  {
    s.pending[e.index].sequence
  }

  /** If the event starts work on the lane, `q` did not rank before it. */
  ghost predicate Fair(s: State, e: Event, lane: nat, q: nat) {
    StartsOn(s, e, lane) && lane < |s.lanes.lastStarted| ==> RankLeq(s.lanes.lastStarted[lane], Starter(s, e), q)
  }

  lemma {:induction false} LastStartedStep(s: State, e: Event, lane: nat)
    requires Enabled(s, e) && LanesHeld(s) && lane < LANES
    ensures |Step(s, e).lanes.lastStarted| == LANES
    ensures Step(s, e).lanes.lastStarted[lane] == if StartsOn(s, e, lane) then Some(Starter(s, e)) else s.lanes.lastStarted[lane]
  {
  }

  /** Fair to `q`, and not its turn. */
  ghost predicate PassesOver(s: State, e: Event, lane: nat, q: nat) {
    Fair(s, e, lane, q) && (StartsOn(s, e, lane) ==> Starter(s, e) != q)
  }

  /** Since `p`'s turn the lane has moved strictly round towards `q` without reaching it. */
  ghost predicate Approaching(s: State, lane: nat, p: nat, q: nat) {
    && lane < |s.lanes.lastStarted| && s.lanes.lastStarted[lane].Some?
    && var v := s.lanes.lastStarted[lane].value; v == p || (v != q && Turned(q, p, v))
  }

  lemma {:induction false} ApproachStep(s: State, e: Event, lane: nat, p: nat, q: nat)
    requires Enabled(s, e) && LanesHeld(s) && lane < LANES && p != q
    requires Approaching(s, lane, p, q) && PassesOver(s, e, lane, q)
    ensures Approaching(Step(s, e), lane, p, q)
    ensures StartsOn(s, e, lane) ==> Starter(s, e) != p
  {
  }

  lemma {:induction false} RunApproaches(states: seq<State>, events: seq<Event>, lane: nat, p: nat, q: nat, k: nat)
    requires IsRun(states, events) && k < |events| && lane < LANES && p != q
    requires Approaching(states[k], lane, p, q) && PassesOver(states[k], events[k], lane, q)
    ensures Approaching(states[k + 1], lane, p, q)
    ensures StartsOn(states[k], events[k], lane) ==> Starter(states[k], events[k]) != p
  {
    RunKeepsInv(states, events, k);
    assert states[k + 1] == Step(states[k], events[k]);
    ApproachStep(states[k], events[k], lane, p, q);
  }

  lemma {:induction false} TurnTaken(states: seq<State>, events: seq<Event>, lane: nat, q: nat, from: nat)
    requires IsRun(states, events) && from < |events| && lane < LANES && StartsOn(states[from], events[from], lane)
    ensures Approaching(states[from + 1], lane, Starter(states[from], events[from]), q)
  {
    RunKeepsInv(states, events, from);
    assert states[from + 1] == Step(states[from], events[from]);
    LastStartedStep(states[from], events[from], lane);
  }

  lemma {:induction false} LaneApproaches(states: seq<State>, events: seq<Event>, lane: nat, q: nat, from: nat, to: nat)
    requires IsRun(states, events) && lane < LANES && from < to <= |events|
    requires StartsOn(states[from], events[from], lane) && Starter(states[from], events[from]) != q
    requires forall k {:trigger events[k]} :: from < k < to ==> PassesOver(states[k], events[k], lane, q)
    ensures Approaching(states[to], lane, Starter(states[from], events[from]), q)
  {
    TurnTaken(states, events, lane, q, from);
    for k := from + 1 to to
      invariant Approaching(states[k], lane, Starter(states[from], events[from]), q)
    {
      RunApproaches(states, events, lane, Starter(states[from], events[from]), q, k);
    }
  }

  /** Until `q` has had its turn, nobody gets a second one. */
  lemma {:induction false} NoSecondTurn(states: seq<State>, events: seq<Event>, lane: nat, q: nat, from: nat, to: nat)
    requires IsRun(states, events) && lane < LANES && from < to < |events|
    requires StartsOn(states[from], events[from], lane) && Starter(states[from], events[from]) != q
    requires forall k {:trigger events[k]} :: from < k <= to ==> PassesOver(states[k], events[k], lane, q)
    ensures StartsOn(states[to], events[to], lane) ==> Starter(states[to], events[to]) != Starter(states[from], events[from])
  {
    LaneApproaches(states, events, lane, q, from, to);
    RunApproaches(states, events, lane, Starter(states[from], events[from]), q, to);
  }

  /**
   * Round robin: between two turns of one submission on a lane, every other
   * submission that each turn was fair to has had its own.
   */
  lemma {:induction false} EveryoneGetsATurn(states: seq<State>, events: seq<Event>, lane: nat, q: nat, from: nat, to: nat)
    requires IsRun(states, events) && lane < LANES && from < to < |events|
    requires StartsOn(states[from], events[from], lane) && StartsOn(states[to], events[to], lane)
    requires Starter(states[from], events[from]) == Starter(states[to], events[to]) != q
    requires forall k {:trigger events[k]} :: from < k <= to ==> Fair(states[k], events[k], lane, q)
    ensures exists k {:trigger events[k]} :: from < k < to && StartsOn(states[k], events[k], lane) && Starter(states[k], events[k]) == q
  {
    if forall k {:trigger events[k]} :: from < k < to ==> PassesOver(states[k], events[k], lane, q) {
      NoSecondTurn(states, events, lane, q, from, to);
    }
  }
}
