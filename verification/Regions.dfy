/**
 * Regions of prepared graphs on the lanes: neither within one submission nor
 * between two do regions with conflicting uses run at the same time.
 */
module Regions {
  import opened Accesses
  import opened Summaries
  import Hazards
  import HostLeases
  import opened Schedulers

  // ---------- planned regions ----------

  function AsUse(u: ViewUse): Use {
    Use(u.view.storage.id, u.view.Region().0, u.view.Region().1, u.access)
  }

  /** The byte ranges handed to the dependency frontier. */
  function Ranges(uses: seq<ViewUse>): (r: seq<Use>)
    ensures |r| == |uses| && forall k :: 0 <= k < |r| ==> r[k] == AsUse(uses[k])
  {
    if uses == [] then [] else [AsUse(uses[0])] + Ranges(uses[1..])
  }

  /** The regions as a recorded history, in which nothing fails. */
  function History(regions: seq<Region>): (h: seq<Hazards.Op>)
    ensures |h| == |regions| && forall k :: 0 <= k < |h| ==> h[k] == Hazards.Op([], Ranges(regions[k].uses))
  {
    if regions == [] then [] else [Hazards.Op([], Ranges(regions[0].uses))] + History(regions[1..])
  }

  function AllUses(regions: seq<Region>): seq<ViewUse> {
    if regions == [] then [] else regions[0].uses + AllUses(regions[1..])
  }

  function Predecessors(regions: seq<Region>): (r: Hazards.Predecessors)
    ensures |r| == |regions| && forall k :: 0 <= k < |r| ==> r[k] == set d | d in regions[k].dependencies
  {
    if regions == [] then [] else [set d | d in regions[0].dependencies] + Predecessors(regions[1..])
  }

  /** Lanes 0 to 2 belong to the GPU, lane 3 to the NPU. */
  function EngineOf(lane: nat): HostLeases.Engine {
    if lane < 3 then HostLeases.Gpu else if lane == 3 then HostLeases.Npu else HostLeases.Host
  }

  type Home = Storage -> HostLeases.Engine

  /** Storage that is not shared is mapped by one engine only. */
  ghost predicate AtHome(region: Region, home: Home) {
    forall u :: u in region.uses && !u.view.storage.shared ==> EngineOf(region.lane) == home(u.view.storage)
  }

  /** What preparing a graph gives: inferred dependencies, a summary of all uses, and reachable storage. */
  ghost predicate Planned(uses: seq<ViewUse>, regions: seq<Region>, home: Home) {
    && Summarizes(uses, AllUses(regions))
    && Predecessors(regions) == Hazards.Sparse(History(regions))
    && forall n :: 0 <= n < |regions| ==> AtHome(regions[n], home)
  }

  ghost predicate PlannedRun(events: seq<Event>, home: Home) {
    forall k :: 0 <= k < |events| && events[k].OnQueue? && events[k].queue.Submit? ==>
                  Planned(events[k].queue.uses, events[k].queue.regions, home)
  }

  // ---------- regions of one submission ----------

  ghost predicate SomePending(job: Job) {
    exists n :: 0 <= n < |job.nodes| && job.nodes[n] == Pending
  }

  /** Region `i` comes before region `m`. */
  ghost predicate Before(job: Job, i: nat, m: nat) {
    Hazards.Reaches(Predecessors(job.regions), i, m) && i < m < |job.nodes|
  }

  /** Everything before a running region is done; until regions are skipped, so is everything before a done one. */
  ghost predicate Closed(job: Job) {
    && |job.nodes| == |job.regions|
    && (forall i: nat, m: nat :: Before(job, i, m) && job.nodes[m] == Running ==> job.nodes[i] == Done)
    && (SomePending(job) ==> forall i: nat, m: nat :: Before(job, i, m) && job.nodes[m] == Done ==> job.nodes[i] == Done)
  }

  lemma {:induction false} StartFollows(job: Job, outcomes: map<nat, bool>, lanes: Lanes, n: nat, i: nat)
    requires Closed(job) && Startable(job, outcomes, lanes, n) && Before(job, i, n)
    ensures job.nodes[i] == Done
  {
    assert SomePending(job);
    if i !in Predecessors(job.regions)[n] {
      var p :| p in Predecessors(job.regions)[n] && p < n && Hazards.Reaches(Predecessors(job.regions), i, p);
      assert Before(job, i, p);
    }
  }

  lemma {:induction false} StartKeepsClosed(job: Job, outcomes: map<nat, bool>, lanes: Lanes, n: nat)
    requires Closed(job) && Startable(job, outcomes, lanes, n)
    ensures Closed(JobAfter(job, outcomes, Start(n)))
  {
    var now := JobAfter(job, outcomes, Start(n));
    assert SomePending(job);
    forall i: nat, m: nat | Before(now, i, m) && now.nodes[m] != Pending ensures now.nodes[i] == Done {
      assert Before(job, i, m);
      if m == n {
        StartFollows(job, outcomes, lanes, n, i);
      }
    }
  }

  lemma {:induction false} CompleteKeepsClosed(job: Job, outcomes: map<nat, bool>, n: nat, failed: bool)
    requires Closed(job) && n < |job.nodes| && job.nodes[n] == Running
    ensures Closed(JobAfter(job, outcomes, Complete(n, failed)))
  {
    var now := JobAfter(job, outcomes, Complete(n, failed));
    if SomePending(now) {
      var k :| 0 <= k < |now.nodes| && now.nodes[k] == Pending;
      assert job.nodes[k] == Pending;
    }
    forall i: nat, m: nat | Before(now, i, m) && (now.nodes[m] == Running || (now.nodes[m] == Done && SomePending(now)))
      ensures now.nodes[i] == Done
    {
      assert Before(job, i, m);
    }
  }

  lemma {:induction false} SettleKeepsClosed(job: Job, outcomes: map<nat, bool>)
    requires Closed(job)
    ensures Closed(Settled(job, outcomes))
  {
    var now := Settled(job, outcomes);
    if now.cancelled || now.failed {
      forall i: nat, m: nat | Before(now, i, m) && now.nodes[m] == Running ensures now.nodes[i] == Done {
        assert Before(job, i, m);
      }
      assert !SomePending(now);
    } else {
      SameNodesClosed(job, now);
    }
  }

  lemma {:induction false} SameNodesClosed(job: Job, now: Job)
    requires Closed(job) && now.nodes == job.nodes && now.regions == job.regions
    ensures Closed(now)
  {
    assert SomePending(now) == SomePending(job);
    forall i: nat, m: nat | Before(now, i, m) ensures Before(job, i, m) {
    }
  }

  lemma {:induction false} JobKeepsClosed(s: State, i: nat, e: JobEvent)
    requires JobEnabled(s, i, e) && Closed(s.pending[i])
    ensures Closed(JobAfter(s.pending[i], s.outcomes, e))
  {
    match e {
      case Cancel => SameNodesClosed(s.pending[i], JobAfter(s.pending[i], s.outcomes, e));
      case Settle => SettleKeepsClosed(s.pending[i], s.outcomes);
      case Start(n) => StartKeepsClosed(s.pending[i], s.outcomes, s.lanes, n);
      case Complete(n, failed) => CompleteKeepsClosed(s.pending[i], s.outcomes, n, failed);
    }
  }

  lemma {:induction false} NewIsClosed(job: Job)
    requires |job.nodes| == |job.regions| && forall n :: 0 <= n < |job.nodes| ==> job.nodes[n] == Pending
    ensures Closed(job)
  {
    forall i: nat, m: nat | Before(job, i, m) ensures job.nodes[m] == Pending {
    }
  }

  // ---------- every run ----------

  ghost predicate Orderly(job: Job, home: Home) {
    Closed(job) && Planned(job.uses, job.regions, home)
  }

  ghost predicate AllOrderly(pending: seq<Job>, home: Home) {
    forall i :: 0 <= i < |pending| ==> Orderly(pending[i], home)
  }

  lemma {:induction false} JobKeepsOrderly(s: State, i: nat, e: JobEvent, home: Home)
    requires JobEnabled(s, i, e) && AllOrderly(s.pending, home)
    ensures AllOrderly(JobStep(s, i, e).pending, home)
  {
    assert Orderly(s.pending[i], home);
    JobKeepsClosed(s, i, e);
  }

  lemma {:induction false} SubmitKeepsOrderly(s: State, uses: seq<ViewUse>, regions: seq<Region>, producers: seq<Producer>, home: Home)
    requires AllOrderly(s.pending, home) && Planned(uses, regions, home)
    ensures AllOrderly(s.pending + [Submitted(s, uses, regions, producers)], home)
  {
    NewIsClosed(Submitted(s, uses, regions, producers));
  }

  lemma {:induction false} WithoutKeepsOrderly(pending: seq<Job>, i: nat, home: Home)
    requires AllOrderly(pending, home) && i < |pending|
    ensures AllOrderly(Without(pending, i), home)
  {
    var q := Without(pending, i);
    forall k | 0 <= k < |q| ensures Orderly(q[k], home) {
      WithoutAt(pending, i, k);
      var was := pending[if k < i then k else k + 1];
      assert Orderly(was, home);
      SameNodesClosed(was, q[k]);
    }
  }

  lemma {:induction false} StepKeepsOrderly(s: State, e: Event, home: Home)
    requires Enabled(s, e) && AllOrderly(s.pending, home)
    requires e.OnQueue? && e.queue.Submit? ==> Planned(e.queue.uses, e.queue.regions, home)
    ensures AllOrderly(Step(s, e).pending, home)
  {
    match e {
      case OnJob(i, j) => JobKeepsOrderly(s, i, j, home);
      case OnQueue(Submit(uses, regions, producers)) => SubmitKeepsOrderly(s, uses, regions, producers, home);
      case OnQueue(Finish(i)) => WithoutKeepsOrderly(s.pending, i, home);
      case _ =>
    }
  }

  lemma {:induction false} RunKeepsOrderly(states: seq<State>, events: seq<Event>, home: Home, k: nat)
    requires IsRun(states, events) && PlannedRun(events, home) && k < |states|
    ensures AllOrderly(states[k].pending, home)
  {
    for i := 0 to k
      invariant AllOrderly(states[i].pending, home)
    {
      assert states[i + 1] == Step(states[i], events[i]);
      StepKeepsOrderly(states[i], events[i], home);
    }
  }

  // ---------- conflicting regions never run together ----------

  /** Region `n` of submission `i` is running. */
  ghost predicate Runs(s: State, i: nat, n: nat) {
    i < |s.pending| && n < |s.pending[i].nodes| == |s.pending[i].regions| && s.pending[i].nodes[n] == Running
  }

  function UsesOf(s: State, i: nat, n: nat): seq<ViewUse>
    requires i < |s.pending| && n < |s.pending[i].regions|
  {
    s.pending[i].regions[n].uses
  }

  lemma {:induction false} RangesCover(uses: seq<ViewUse>, id: nat, b: nat)
    ensures UsesByte(uses, id, b) ==> Covered(Ranges(uses), id, b)
    ensures WritesByte(uses, id, b) ==> WritesAt(Ranges(uses), id, b)
  {
    forall u | u in uses && u.view.Covers(id, b) ensures AsUse(u) in Ranges(uses) && AsUse(u).Covers(id, b) {
      var k :| 0 <= k < |uses| && uses[k] == u;
      assert Ranges(uses)[k] == AsUse(u);
    }
  }

  lemma {:induction false} SharedByteIsConflict(x: seq<ViewUse>, y: seq<ViewUse>, id: nat, b: nat)
    requires SharedByte(x, y, id, b)
    ensures Conflict(Ranges(x), Ranges(y))
  {
    RangesCover(x, id, b);
    RangesCover(y, id, b);
  }

  lemma {:induction false} SharedIsBefore(job: Job, n: nat, m: nat, id: nat, b: nat, home: Home)
    requires n < m < |job.regions| == |job.nodes| && Planned(job.uses, job.regions, home)
    requires SharedByte(job.regions[n].uses, job.regions[m].uses, id, b)
    ensures Before(job, n, m)
  {
    var h := History(job.regions);
    SharedByteIsConflict(job.regions[n].uses, job.regions[m].uses, id, b);
    assert Conflict(h[n].uses, h[m].uses);
    assert Hazards.Harmless(h);
    Hazards.HazardsAreOrdered(h);
  }

  lemma {:induction false} AllUsesHas(regions: seq<Region>, n: nat, u: ViewUse)
    requires n < |regions| && u in regions[n].uses
    ensures u in AllUses(regions)
  {
    if n > 0 {
      AllUsesHas(regions[1..], n - 1, u);
    }
  }

  lemma {:induction false} JobUsesByte(regions: seq<Region>, n: nat, id: nat, b: nat)
    requires n < |regions|
    ensures UsesByte(regions[n].uses, id, b) ==> UsesByte(AllUses(regions), id, b)
    ensures WritesByte(regions[n].uses, id, b) ==> WritesByte(AllUses(regions), id, b)
  {
    forall u | u in regions[n].uses ensures u in AllUses(regions) {
      AllUsesHas(regions, n, u);
    }
  }

  lemma {:induction false} SharedIsClash(a: Job, n: nat, b: Job, m: nat, id: nat, p: nat, home: Home)
    requires n < |a.regions| && m < |b.regions| && Planned(a.uses, a.regions, home) && Planned(b.uses, b.regions, home)
    requires SharedByte(a.regions[n].uses, b.regions[m].uses, id, p)
    ensures Clashes(a.uses, b.uses)
  {
    JobUsesByte(a.regions, n, id, p);
    JobUsesByte(b.regions, m, id, p);
    SharedByteIsClash(a.uses, AllUses(a.regions), b.uses, AllUses(b.regions), id, p);
  }

  lemma {:induction false} LaterDoesNotShare(states: seq<State>, events: seq<Event>, home: Home, k: nat, i: nat, n: nat, j: nat, m: nat,
                                             id: nat, b: nat)
    requires IsRun(states, events) && PlannedRun(events, home) && k < |states|
    requires Runs(states[k], i, n) && Runs(states[k], j, m) && (i < j || (i == j && n < m))
    ensures !SharedByte(UsesOf(states[k], i, n), UsesOf(states[k], j, m), id, b)
  {
    RunKeepsOrderly(states, events, home, k);
    var first, second := states[k].pending[i], states[k].pending[j];
    assert Orderly(first, home) && Orderly(second, home);
    if SharedByte(UsesOf(states[k], i, n), UsesOf(states[k], j, m), id, b) {
      if i == j {
        SharedIsBefore(first, n, m, id, b, home);
      } else {
        SharedIsClash(first, n, second, m, id, b, home);
        ConflictsRunInOrder(states, events, k, i, j);
      }
      assert false;
    }
  }

  /**
   * In every reachable state two running regions, of one submission or of two,
   * have no byte in common that either of them writes.
   */
  lemma {:induction false} RunningRegionsShareNothing(states: seq<State>, events: seq<Event>, home: Home, k: nat,
                                                      i: nat, n: nat, j: nat, m: nat, id: nat, b: nat)
    requires IsRun(states, events) && PlannedRun(events, home) && k < |states|
    requires Runs(states[k], i, n) && Runs(states[k], j, m) && (i, n) != (j, m)
    ensures !SharedByte(UsesOf(states[k], i, n), UsesOf(states[k], j, m), id, b)
  {
    if i < j || (i == j && n < m) {
      LaterDoesNotShare(states, events, home, k, i, n, j, m, id, b);
    } else {
      LaterDoesNotShare(states, events, home, k, j, m, i, n, id, b);
    }
  }

  /**
   * Running regions that use one allocation, one of them writing, are on one
   * engine: this is the promise under which device uses start.
   */
  lemma {:induction false} WritersShareAnEngine(states: seq<State>, events: seq<Event>, home: Home, k: nat,
                                                i: nat, n: nat, j: nat, m: nat, u: ViewUse, v: ViewUse)
    requires IsRun(states, events) && PlannedRun(events, home) && k < |states|
    requires Runs(states[k], i, n) && Runs(states[k], j, m)
    requires u in UsesOf(states[k], i, n) && v in UsesOf(states[k], j, m)
    requires u.view.storage == v.view.storage && (u.access.Writes() || v.access.Writes())
    ensures EngineOf(states[k].pending[i].regions[n].lane) == EngineOf(states[k].pending[j].regions[m].lane)
  {
    if (i, n) != (j, m) {
      var storage := u.view.storage;
      if storage.shared {
        assert u.view.Covers(storage.id, 0) && v.view.Covers(storage.id, 0);
        RunningRegionsShareNothing(states, events, home, k, i, n, j, m, storage.id, 0);
      } else {
        RunKeepsOrderly(states, events, home, k);
        assert Orderly(states[k].pending[i], home) && Orderly(states[k].pending[j], home);
        assert AtHome(states[k].pending[i].regions[n], home) && AtHome(states[k].pending[j].regions[m], home);
      }
    }
  }
}
