/**
 * The kernel cache's request, build and requeue protocol. Requests may arrive at
 * any moment; one batch or one direct load at a time holds the build lock.
 */
module Kernels {
  import opened Accesses

  type Key = string

  /** A request still to be built; `source` stands for its module and specialization. */
  datatype Request = Request(key: Key, source: nat)

  datatype Work =
    | Idle
    | Batch(drained: seq<Request>, done: nat, unbuilt: seq<Request>, failed: bool, wanted: set<Key>)
    | Direct(request: Request)

  datatype Loaded = Loaded(
    device: Option<nat>,
    ready: set<Key>,
    waiting: seq<Request>,
    active: set<Key>,
    work: Work,            // what the holder of the build lock is doing
    named: set<Key>)       // every key some handle or index entry has named

  function KeysOf(s: seq<Request>): set<Key> {
    set r | r in s :: r.key
  }

  ghost predicate DistinctKeys(s: seq<Request>) {
    forall i, j :: 0 <= i < j < |s| ==> s[i].key != s[j].key
  }

  /** The requests whose key is not loaded, in their original order. */
  function Missing(s: seq<Request>, ready: set<Key>): seq<Request> {
    if s == [] then []
    else
      var before := Missing(s[..|s| - 1], ready);
      if s[|s| - 1].key in ready then before else before + [s[|s| - 1]]
  }

  // ---------- steps ----------

  datatype Event =
    | Ask(request: Request)
    | Start(device: nat)       // take the build lock and drain the queue
    | Built(ok: bool)          // publish or set aside the next drained request
    | Finish                   // requeue the failures and release the lock
    | StartDirect(device: nat, request: Request)
    | EndDirect(ok: bool)

  predicate Claims(s: Loaded, device: nat) {
    s.device.None? || s.device.value == device
  }

  ghost predicate Enabled(s: Loaded, e: Event) {
    match e
    case Ask(_) => true
    case Start(d) => s.work.Idle? && Claims(s, d)
    case Built(_) => s.work.Batch? && s.work.done < |s.work.drained|
    case Finish => s.work.Batch? && s.work.done == |s.work.drained|
    case StartDirect(d, r) => s.work.Idle? && Claims(s, d) && r.key !in s.ready
    case EndDirect(_) => s.work.Direct?
  }

  predicate Known(s: Loaded, k: Key) {
    k in s.ready || k in s.active || k in KeysOf(s.waiting)
  }

  ghost function Step(s: Loaded, e: Event): Loaded
    requires Enabled(s, e)
  {
    match e
    case Ask(r) =>
      s.(waiting := if Known(s, r.key) then s.waiting else s.waiting + [r], named := s.named + {r.key})
    case Start(d) =>
      if s.waiting == [] then s.(device := Some(d))
      else s.(device := Some(d), waiting := [], active := s.active + KeysOf(s.waiting),
              work := Batch(s.waiting, 0, [], false, s.named))
    case Built(ok) =>
      var r := s.work.drained[s.work.done];
      if ok then s.(ready := s.ready + {r.key}, work := s.work.(done := s.work.done + 1))
      else s.(work := s.work.(done := s.work.done + 1, unbuilt := s.work.unbuilt + [r], failed := true))
    case Finish => s.(waiting := s.work.unbuilt + s.waiting, active := {}, work := Idle)
    case StartDirect(d, r) => s.(device := Some(d), work := Direct(r))
    case EndDirect(ok) =>
      var k := s.work.request.key;
      if ok then s.(waiting := Without(s.waiting, k), ready := s.ready + {k}, named := s.named + {k}, work := Idle)
      else s.(work := Idle)
  }

  function Without(s: seq<Request>, k: Key): seq<Request> {
    Missing(s, {k})
  }

  // ---------- what every step keeps ----------

  /** Nothing anyone asked for is lost. */
  ghost predicate NeverLost(s: Loaded) {
    forall k :: k in s.named ==> Known(s, k)
  }

  /** The queue has no duplicates and nothing that is loaded or being built. */
  ghost predicate CleanQueue(s: Loaded) {
    && DistinctKeys(s.waiting)
    && (forall r :: r in s.waiting ==> r.key !in s.ready && r.key !in s.active && r.key in s.named)
  }

  /** The batch in progress: what it finished is loaded or set aside, in order. */
  ghost predicate BatchTracked(s: Loaded) {
    match s.work
    case Batch(drained, done, unbuilt, failed, wanted) =>
      && s.active == KeysOf(drained) && DistinctKeys(drained) && done <= |drained|
      && unbuilt == Missing(drained[..done], s.ready)
      && (forall j :: done <= j < |drained| ==> drained[j].key !in s.ready)
      && (failed <==> unbuilt != [])
      && s.active <= s.named
      && (forall k :: k in wanted ==> k in s.ready || k in s.active)
    case _ => s.active == {}
  }

  ghost predicate Inv(s: Loaded) {
    NeverLost(s) && CleanQueue(s) && BatchTracked(s)
  }

  // ---------- subsequence facts ----------

  lemma {:induction false} MissingMembers(s: seq<Request>, ready: set<Key>)
    ensures forall r :: r in Missing(s, ready) <==> r in s && r.key !in ready
    ensures DistinctKeys(s) ==> DistinctKeys(Missing(s, ready))
  {
    if s != [] {
      var n := |s| - 1;
      MissingMembers(s[..n], ready);
      assert s == s[..n] + [s[n]];
      var before := Missing(s[..n], ready);
      if DistinctKeys(s) && s[n].key !in ready {
        forall i | 0 <= i < |before| ensures before[i].key != s[n].key {
          assert before[i] in s[..n];
        }
      }
    }
  }

  lemma {:induction false} MissingFrame(s: seq<Request>, ready: set<Key>, more: set<Key>)
    requires forall r :: r in s ==> (r.key in ready <==> r.key in more)
    ensures Missing(s, ready) == Missing(s, more)
  {
    if s != [] {
      var n := |s| - 1;
      assert s[n] in s && forall r :: r in s[..n] ==> r in s;
      MissingFrame(s[..n], ready, more);
    }
  }

  lemma {:induction false} BuiltKeepsBatch(s: Loaded, ok: bool)
    requires Inv(s) && Enabled(s, Built(ok))
    ensures BatchTracked(Step(s, Built(ok)))
  {
    var drained, n := s.work.drained, s.work.done;
    var r, ready := drained[n], if ok then s.ready + {drained[n].key} else s.ready;
    assert drained[..n + 1][..n] == drained[..n];
    forall x | x in drained[..n] ensures x.key in s.ready <==> x.key in ready {
      var i :| 0 <= i < n && drained[i] == x;
    }
    MissingFrame(drained[..n], s.ready, ready);
    assert Missing(drained[..n + 1], ready) == if ok then Missing(drained[..n], ready) else Missing(drained[..n], ready) + [r];
  }

  lemma {:induction false} AskKeepsInv(s: Loaded, r: Request)
    requires Inv(s)
    ensures Inv(Step(s, Ask(r)))
  {
  }

  lemma {:induction false} StartKeepsInv(s: Loaded, d: nat)
    requires Inv(s) && Enabled(s, Start(d))
    ensures Inv(Step(s, Start(d)))
  {
  }

  lemma {:induction false} BuiltKeepsInv(s: Loaded, ok: bool)
    requires Inv(s) && Enabled(s, Built(ok))
    ensures Inv(Step(s, Built(ok)))
  {
    BuiltKeepsBatch(s, ok);
    var r := s.work.drained[s.work.done];
    assert r in s.work.drained && r.key in s.active;
  }

  lemma {:induction false} FinishKeepsInv(s: Loaded)
    requires Inv(s) && Enabled(s, Finish)
    ensures Inv(Step(s, Finish))
  {
    var drained := s.work.drained;
    assert drained[..|drained|] == drained;
    MissingMembers(drained, s.ready);
    var queue := s.work.unbuilt + s.waiting;
    forall k | k in s.active ensures k in s.ready || k in KeysOf(queue) {
      var r :| r in drained && r.key == k;
      if k !in s.ready { assert r in queue; }
    }
    forall i, j | 0 <= i < j < |queue| ensures queue[i].key != queue[j].key {
      if i < |s.work.unbuilt| <= j {
        assert queue[i] in s.work.unbuilt && queue[j] in s.waiting && queue[i].key in s.active;
      }
    }
  }

  lemma {:induction false} DirectKeepsInv(s: Loaded, e: Event)
    requires Inv(s) && Enabled(s, e) && (e.StartDirect? || e.EndDirect?)
    ensures Inv(Step(s, e))
  {
    if e.EndDirect? && e.ok {
      var k := s.work.request.key;
      MissingMembers(s.waiting, {k});
      forall x | x in s.named ensures Known(Step(s, e), x) {
        if x in KeysOf(s.waiting) && x != k {
          var r :| r in s.waiting && r.key == x;
          assert r in Without(s.waiting, k);
        }
      }
    }
  }

  lemma {:induction false} StepKeepsInv(s: Loaded, e: Event)
    requires Inv(s) && Enabled(s, e)
    ensures Inv(Step(s, e))
  {
    match e {
      case Ask(r) => AskKeepsInv(s, r);
      case Start(d) => StartKeepsInv(s, d);
      case Built(ok) => BuiltKeepsInv(s, ok);
      case Finish => FinishKeepsInv(s);
      case _ => DirectKeepsInv(s, e);
    }
  }

  // ---------- runs ----------

  const EMPTY := Loaded(None, {}, [], {}, Idle, {})

  ghost predicate IsRun(states: seq<Loaded>, events: seq<Event>) {
    && |states| == |events| + 1 && states[0] == EMPTY
    && forall i {:trigger events[i]} :: 0 <= i < |events| ==> Enabled(states[i], events[i]) && states[i + 1] == Step(states[i], events[i])
  }

  /**
   * In every run, each key ever asked for is loaded, being built or queued, and
   * the queue holds no duplicate and nothing already loaded.
   */
  lemma {:induction false} RunKeepsInv(states: seq<Loaded>, events: seq<Event>, i: nat)
    requires IsRun(states, events) && i < |states|
    ensures Inv(states[i])
  {
    if i > 0 {
      RunKeepsInv(states, events, i - 1);
      StepKeepsInv(states[i - 1], events[i - 1]);
    }
  }

  /** Failures go back to the front of the queue, in their original order. */
  lemma {:induction false} FailuresRequeueFirst(states: seq<Loaded>, events: seq<Event>, i: nat)
    requires IsRun(states, events) && i < |events| && events[i] == Finish
    ensures states[i].work.Batch?
    ensures states[i + 1].waiting == Missing(states[i].work.drained, states[i].ready) + states[i].waiting
    ensures states[i].work.failed <==> exists r :: r in states[i].work.drained && r.key !in states[i].ready
  {
    RunKeepsInv(states, events, i);
    var drained := states[i].work.drained;
    assert drained[..|drained|] == drained;
    MissingMembers(drained, states[i].ready);
    if states[i].work.failed {
      assert states[i].work.unbuilt[0] in states[i].work.unbuilt;
    }
  }

  /** The batch drained by event `i` is still the one being built before event `j`. */
  lemma {:induction false} BatchPersists(states: seq<Loaded>, events: seq<Event>, i: nat, j: nat)
    requires IsRun(states, events) && i < j <= |events| && events[i].Start? && states[i].waiting != []
    requires forall m :: i < m < j ==> events[m] != Finish
    ensures states[j].work.Batch? && states[j].work.drained == states[i].waiting && states[j].work.wanted == states[i].named
    decreases j
  {
    if i + 1 < j {
      BatchPersists(states, events, i, j - 1);
    }
    assert events[j - 1] != Finish;
  }

  /**
   * A build that reports no failure has loaded everything asked for before it
   * started, so resolving a handle never finds its kernel missing without an error.
   */
  lemma {:induction false} CleanBuildLoadsEverything(states: seq<Loaded>, events: seq<Event>, i: nat, j: nat, k: Key)
    requires IsRun(states, events) && i < j < |events| && events[i].Start? && events[j] == Finish && k in states[i].named
    requires states[i].waiting != [] && forall m :: i < m < j ==> events[m] != Finish
    ensures states[j].work.Batch? && (!states[j].work.failed ==> k in states[j + 1].ready)
  {
    BatchPersists(states, events, i, j);
    RunKeepsInv(states, events, j);
    FailuresRequeueFirst(states, events, j);
  }

  /** With nothing queued, everything asked for is loaded already. */
  lemma {:induction false} EmptyBuildLoadsEverything(states: seq<Loaded>, events: seq<Event>, i: nat, k: Key)
    requires IsRun(states, events) && i < |events| && events[i].Start? && k in states[i].named && states[i].waiting == []
    ensures k in states[i + 1].ready
  {
    RunKeepsInv(states, events, i);
  }

  /** Loaded kernels stay loaded. */
  lemma {:induction false} ReadyGrows(states: seq<Loaded>, events: seq<Event>, i: nat, m: nat)
    requires IsRun(states, events) && i <= m < |states|
    ensures states[i].ready <= states[m].ready
  {
    for j := i to m
      invariant states[i].ready <= states[j].ready
    {
      assert states[j + 1] == Step(states[j], events[j]);
    }
  }

  /** The build started by event `i` returned without an error, just before state `end`. */
  ghost predicate BuildSucceeds(states: seq<Loaded>, events: seq<Event>, i: nat, end: nat)
    requires |states| == |events| + 1
  {
    && i < end <= |events| && events[i].Start?
    && if states[i].waiting == [] then end == i + 1
       else i + 1 < end && events[end - 1] == Finish && states[end - 1].work.Batch? && !states[end - 1].work.failed
            && forall m :: i < m < end - 1 ==> events[m] != Finish
  }

  /**
   * Resolving a handle never finds its kernel missing without an error to report:
   * if the build it ran returned no error, the kernel is loaded then and whenever
   * the handle looks again, although the build lock has been released meanwhile.
   */
  lemma {:induction false} ResolveFindsItsKernel(states: seq<Loaded>, events: seq<Event>, i: nat, end: nat, m: nat, k: Key)
    requires IsRun(states, events) && BuildSucceeds(states, events, i, end) && end <= m < |states| && k in states[i].named
    ensures k in states[m].ready
  {
    if states[i].waiting == [] {
      EmptyBuildLoadsEverything(states, events, i, k);
    } else {
      CleanBuildLoadsEverything(states, events, i, end - 1, k);
    }
    ReadyGrows(states, events, end, m);
  }

  // ---------- the code ----------

  /** The next requests of a batch, with these outcomes. */
  ghost function BuiltAll(s: Loaded, outcomes: seq<bool>): (u: Loaded)
    requires s.work.Batch? && s.work.done + |outcomes| <= |s.work.drained|
    ensures u.work.Batch? && u.work.drained == s.work.drained && u.work.done == s.work.done + |outcomes|
  {
    if outcomes == [] then s
    else Step(BuiltAll(s, outcomes[..|outcomes| - 1]), Built(outcomes[|outcomes| - 1]))
  }

  class Cache {
    var device: Option<nat>
    var ready: set<Key>
    var waiting: seq<Request>
    var active: set<Key>
    ghost var work: Work
    ghost var named: set<Key>

    ghost function State(): Loaded
      reads this
    {
      Loaded(device, ready, waiting, active, work, named)
    }

    constructor ()
      ensures State() == EMPTY && Inv(State())
    {
      device, ready, waiting, active, work, named := None, {}, [], {}, Idle, {};
    }

    /** Record a request unless it is loaded, being built or already queued. */
    method RequestKernel(request: Request)
      modifies this
      ensures State() == old(Step(State(), Ask(request)))
    {
      var known := request.key in ready || request.key in active;
      for i := 0 to |waiting|
        invariant State() == old(State()) && waiting == old(waiting)
        invariant known <==> request.key in ready || request.key in active || request.key in KeysOf(waiting[..i])
      {
        assert waiting[..i + 1] == waiting[..i] + [waiting[i]];
        if waiting[i].key == request.key {
          known := true;
        }
      }
      assert waiting[..|waiting|] == waiting;
      if !known {
        waiting := waiting + [request];
      }
      named := named + {request.key};
    }

    /** Under the build lock: claim the device and take every queued request. */
    method Drain(stream: nat) returns (r: Result<seq<Request>>)
      requires work.Idle?
      modifies this
      ensures r.Ok? <==> old(Claims(State(), stream))
      ensures r.Ok? ==> r.value == old(waiting) && State() == old(Step(State(), Start(stream)))
      ensures r.Err? ==> State() == old(State())
    {
      if device.Some? && device.value != stream {
        return Err(Message);
      }
      device := Some(stream);
      var drained := waiting;
      waiting := [];
      active := active + KeysOf(drained);
      if drained != [] {
        work := Batch(drained, 0, [], false, named);
      } else {
        assert KeysOf(drained) == {};
      }
      r := Ok(drained);
    }

    /** Publish what was built and set the failures aside, in drained order. */
    method PublishBatch(drained: seq<Request>, outcomes: seq<bool>) returns (unbuilt: seq<Request>, failed: bool)
      requires work.Batch? && work == Batch(drained, 0, [], false, work.wanted) && |outcomes| == |drained|
      modifies `ready, `work
      ensures State() == old(BuiltAll(State(), outcomes)) && Enabled(State(), Finish)
      ensures unbuilt == work.unbuilt && failed == work.failed
    {
      unbuilt, failed := [], false;
      for k := 0 to |drained|
        invariant State() == old(BuiltAll(State(), outcomes[..k]))
        invariant unbuilt == work.unbuilt && failed == work.failed
      {
        assert outcomes[..k + 1][..k] == outcomes[..k];
        if outcomes[k] {
          ready := ready + {drained[k].key};
          work := work.(done := k + 1);
        } else {
          unbuilt := unbuilt + [drained[k]];
          failed := true;
          work := work.(done := k + 1, unbuilt := unbuilt, failed := true);
        }
      }
      assert outcomes[..|drained|] == outcomes;
    }

    /** Put the failures back ahead of newer requests and release the lock. */
    method Requeue(unbuilt: seq<Request>)
      requires Inv(State()) && Enabled(State(), Finish) && unbuilt == work.unbuilt
      modifies this
      ensures State() == old(Step(State(), Finish)) && Inv(State())
      ensures waiting == Missing(old(work.drained), ready) + old(waiting)
      ensures forall k :: k in named ==> k in ready || k in KeysOf(waiting)
    {
      StepKeepsInv(State(), Finish);
      assert work.drained[..work.done] == work.drained;
      waiting := unbuilt + waiting;
      active := {};
      work := Idle;
    }

    /** A direct load publishes its kernel and withdraws its queued request. */
    method PublishDirect(request: Request)
      requires work == Direct(request)
      modifies this
      ensures State() == old(Step(State(), EndDirect(true)))
    {
      var kept: seq<Request> := [];
      for i := 0 to |waiting|
        invariant State() == old(State()) && waiting == old(waiting)
        invariant kept == Without(waiting[..i], request.key)
      {
        assert waiting[..i + 1][..i] == waiting[..i];
        if waiting[i].key != request.key {
          kept := kept + [waiting[i]];
        }
      }
      assert waiting[..|waiting|] == waiting;
      waiting := kept;
      ready := ready + {request.key};
      named := named + {request.key};
      work := Idle;
    }
  }
}
