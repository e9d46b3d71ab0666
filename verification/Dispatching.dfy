/** The scheduler's critical sections as code: admission, removal and the choice of the next action. */
module Dispatching {
  import opened Accesses
  import opened Summaries
  import opened Schedulers

  datatype Action = Run(job: nat, node: nat) | Retire(job: nat)

  type Choice = Option<(nat, nat)>

  // ---------- the best candidate of a lane ----------

  /** Among the first `k` jobs and the first `n` regions of job `k`. */
  ghost predicate Seen(k: nat, n: nat, i: nat, m: nat) {
    i < k || (i == k && m < n)
  }

  ghost predicate Candidate(pending: seq<Job>, outcomes: map<nat, bool>, lanes: Lanes, lane: nat, i: nat, m: nat) {
    i < |pending| && Startable(pending[i], outcomes, lanes, m) && pending[i].regions[m].lane == lane
  }

  /** The choice for a lane is a startable region that no seen startable region ranks before. */
  ghost predicate Best(pending: seq<Job>, outcomes: map<nat, bool>, lanes: Lanes, lane: nat, k: nat, n: nat, c: Choice) {
    && lane < |lanes.lastStarted|
    && (c.Some? ==> Candidate(pending, outcomes, lanes, lane, c.value.0, c.value.1) && Seen(k, n, c.value.0, c.value.1))
    && forall i: nat, m: nat :: Seen(k, n, i, m) && Candidate(pending, outcomes, lanes, lane, i, m) ==>
                        && c.Some? && c.value.0 < |pending|
                        && RankLeq(lanes.lastStarted[lane], pending[c.value.0].sequence, pending[i].sequence)
  }

  ghost predicate AllBest(pending: seq<Job>, outcomes: map<nat, bool>, lanes: Lanes, k: nat, n: nat, choices: seq<Choice>) {
    |choices| == LANES && forall l :: 0 <= l < LANES ==> Best(pending, outcomes, lanes, l, k, n, choices[l])
  }

  /** One more region of job `k`: it replaces the lane's choice only if it ranks strictly before. */
  lemma {:induction false} BestWithNext(pending: seq<Job>, outcomes: map<nat, bool>, lanes: Lanes, lane: nat, k: nat, n: nat, c: Choice, d: Choice)
    requires Best(pending, outcomes, lanes, lane, k, n, c) && k < |pending|
    requires if Candidate(pending, outcomes, lanes, lane, k, n)
                && (c.None? || !RankLeq(lanes.lastStarted[lane], pending[c.value.0].sequence, pending[k].sequence))
             then d == Some((k, n)) else d == c
    ensures Best(pending, outcomes, lanes, lane, k, n + 1, d)
  {
  }

  /** A job whose regions have all been seen is behind us; so is one that cannot start anything. */
  lemma {:induction false} BestNextJob(pending: seq<Job>, outcomes: map<nat, bool>, lanes: Lanes, k: nat, n: nat, choices: seq<Choice>)
    requires AllBest(pending, outcomes, lanes, k, n, choices) && k < |pending|
    requires forall m :: n <= m ==> !Startable(pending[k], outcomes, lanes, m)
    ensures AllBest(pending, outcomes, lanes, k + 1, 0, choices)
  {
  }

  /** Offer every region of one job to its lane. */
  method Scan(pending: seq<Job>, outcomes: map<nat, bool>, lanes: Lanes, k: nat, choices: seq<Choice>) returns (r: seq<Choice>)
    requires k < |pending| && AllBest(pending, outcomes, lanes, k, 0, choices) && |lanes.owners| == LANES
    ensures AllBest(pending, outcomes, lanes, k + 1, 0, r)
  {
    r := choices;
    var job := pending[k];
    for n := 0 to |job.nodes|
      invariant AllBest(pending, outcomes, lanes, k, n, r)
    {
      ghost var before := r;
      if Startable(job, outcomes, lanes, n) {
        var lane := job.regions[n].lane;
        assert Best(pending, outcomes, lanes, lane, k, n, r[lane]);
        if r[lane].None? || !RankLeq(lanes.lastStarted[lane], pending[r[lane].value.0].sequence, job.sequence) {
          r := r[lane := Some((k, n))];
        }
      }
      forall l | 0 <= l < LANES ensures Best(pending, outcomes, lanes, l, k, n + 1, r[l]) {
        assert Best(pending, outcomes, lanes, l, k, n, before[l]);
        BestWithNext(pending, outcomes, lanes, l, k, n, before[l], r[l]);
      }
    }
    BestNextJob(pending, outcomes, lanes, k, |job.nodes|, r);
  }

  /** Finished, blocked and waiting jobs offer nothing. */
  method Consider(pending: seq<Job>, outcomes: map<nat, bool>, lanes: Lanes, k: nat, choices: seq<Choice>) returns (r: seq<Choice>)
    requires k < |pending| && AllBest(pending, outcomes, lanes, k, 0, choices) && |lanes.owners| == LANES
    ensures AllBest(pending, outcomes, lanes, k + 1, 0, r)
  {
    var job := pending[k];
    if AllDone(job) || job.blockers != 0 || AwaitsProducer(outcomes, job.producers) {
      BestNextJob(pending, outcomes, lanes, k, 0, choices);
      r := choices;
    } else {
      r := Scan(pending, outcomes, lanes, k, choices);
    }
  }

  // ---------- surveying the queue ----------

  /** The queue after the first `k` submissions were looked at. */
  ghost function SettledUpTo(pending: seq<Job>, outcomes: map<nat, bool>, k: nat): (r: seq<Job>)
    requires k <= |pending|
    ensures |r| == |pending|
    ensures forall i :: 0 <= i < |r| ==> r[i] == if i < k then Settled(pending[i], outcomes) else pending[i]
  {
    if k == 0 then pending else SettledUpTo(pending, outcomes, k - 1)[k - 1 := Settled(pending[k - 1], outcomes)]
  }

  lemma {:induction false} BestFrame(p: seq<Job>, q: seq<Job>, outcomes: map<nat, bool>, lanes: Lanes, k: nat, choices: seq<Choice>)
    requires AllBest(p, outcomes, lanes, k, 0, choices)
    requires |p| == |q| && forall i :: 0 <= i < k && i < |p| ==> p[i] == q[i]
    ensures AllBest(q, outcomes, lanes, k, 0, choices)
  {
  }

  lemma {:induction false} SettleKeepsInv(s: State, p: seq<Job>, k: nat)
    requires Inv(s.(pending := p)) && k < |p|
    ensures Inv(s.(pending := p[k := Settled(p[k], s.outcomes)]))
  {
    JobKeepsInv(s.(pending := p), k, Settle);
  }

  lemma {:induction false} SettlingKeepsInv(s: State, k: nat)
    requires Inv(s) && k <= |s.pending|
    ensures Inv(s.(pending := SettledUpTo(s.pending, s.outcomes, k)))
  {
    var p := s.pending;
    assert s.(pending := p) == s;
    for j := 0 to k
      invariant p == SettledUpTo(s.pending, s.outcomes, j) && Inv(s.(pending := p))
    {
      SettleKeepsInv(s, p, j);
      p := p[j := Settled(p[j], s.outcomes)];
    }
  }

  predicate Wanted(target: Option<nat>, job: Job) {
    target.None? || target.value == job.sequence
  }

  /**
   * Settle the queue in order. Stop at the first wanted submission whose regions
   * are all done; otherwise find the best candidate of every lane.
   */
  method Survey(pending: seq<Job>, outcomes: map<nat, bool>, lanes: Lanes, target: Option<nat>)
      returns (now: seq<Job>, done: Option<nat>, choices: seq<Choice>)
    requires |lanes.owners| == |lanes.lastStarted| == LANES
    ensures done.Some? ==> done.value < |pending| && now == SettledUpTo(pending, outcomes, done.value + 1)
                           && AllDone(now[done.value]) && Wanted(target, now[done.value])
    ensures done.None? ==> now == SettledUpTo(pending, outcomes, |pending|)
                           && AllBest(now, outcomes, lanes, |now|, 0, choices)
                           && forall i :: 0 <= i < |now| && Wanted(target, now[i]) ==> !AllDone(now[i])
  {
    now, choices := pending, [None, None, None, None, None];
    for k := 0 to |pending|
      invariant now == SettledUpTo(pending, outcomes, k)
      invariant AllBest(now, outcomes, lanes, k, 0, choices)
      invariant forall i :: 0 <= i < k && Wanted(target, now[i]) ==> !AllDone(now[i])
    {
      ghost var before := now;
      now := now[k := Settled(pending[k], outcomes)];
      BestFrame(before, now, outcomes, lanes, k, choices);
      var job := now[k];
      if AllDone(job) && Wanted(target, job) {
        return now, Some(k), choices;
      }
      choices := Consider(now, outcomes, lanes, k, choices);
    }
    done := None;
  }

  function LaneAt(next: nat, offset: nat): (lane: nat)
    ensures lane < LANES
  {
    (next + offset) % LANES
  }

  /** How many lanes come before this one when the rotation begins at `next`. */
  function Distance(next: nat, lane: nat): (offset: nat)
    ensures offset < LANES
  {
    (lane + LANES - next % LANES) % LANES
  }

  lemma {:induction false} SmallModulus(x: nat)
    requires x < 2 * LANES
    ensures x % LANES == if x < LANES then x else x - LANES
  {
  }

  lemma {:induction false} Reduced(next: nat, offset: nat)
    ensures LaneAt(next, offset) == (next % LANES + offset) % LANES
  {
    var q, r := next / LANES, next % LANES;
    assert next + offset == LANES * q + (r + offset);
  }

  lemma {:induction false} LaneAtDistance(next: nat, lane: nat, offset: nat)
    requires lane < LANES && offset < LANES
    ensures LaneAt(next, Distance(next, lane)) == lane && Distance(next, LaneAt(next, offset)) == offset
  {
    var r := next % LANES;
    SmallModulus(lane + LANES - r);
    Reduced(next, Distance(next, lane));
    SmallModulus(r + Distance(next, lane));
    Reduced(next, offset);
    SmallModulus(r + offset);
    SmallModulus(LaneAt(next, offset) + LANES - r);
  }

  ghost predicate Declined(pending: seq<Job>, c: Choice, target: Option<nat>) {
    c.Some? && c.value.0 < |pending| ==> !Wanted(target, pending[c.value.0])
  }

  /** No lane served before this distance has a wanted choice. */
  ghost predicate DeclinedBefore(pending: seq<Job>, choices: seq<Choice>, next: nat, target: Option<nat>, offset: nat) {
    |choices| == LANES && forall l :: 0 <= l < LANES && Distance(next, l) < offset ==> Declined(pending, choices[l], target)
  }

  /** Try the lanes in turn, beginning after the last one served: the first wanted choice in rotation order. */
  method Pick(pending: seq<Job>, choices: seq<Choice>, next: nat, target: Option<nat>) returns (r: Option<nat>)
    requires |choices| == LANES && forall l :: 0 <= l < LANES && choices[l].Some? ==> choices[l].value.0 < |pending|
    ensures r.Some? ==> r.value < LANES && choices[r.value].Some? && Wanted(target, pending[choices[r.value].value.0])
                        && DeclinedBefore(pending, choices, next, target, Distance(next, r.value))
    ensures r.None? ==> DeclinedBefore(pending, choices, next, target, LANES)
  {
    for offset := 0 to LANES
      invariant DeclinedBefore(pending, choices, next, target, offset)
    {
      var lane := LaneAt(next, offset);
      LaneAtDistance(next, lane, offset);
      var c := choices[lane];
      if c.Some? && Wanted(target, pending[c.value.0]) {
        return Some(lane);
      }
      forall l | 0 <= l < LANES && Distance(next, l) < offset + 1 ensures Declined(pending, choices[l], target) {
        LaneAtDistance(next, l, offset);
      }
    }
    return None;
  }

  // ---------- the scheduler object ----------

  ghost predicate Canonicals(pending: seq<Job>) {
    forall i :: 0 <= i < |pending| ==> Canonical(pending[i].uses)
  }

  lemma {:induction false} AllCanonical(s: State)
    requires AllShaped(s)
    ensures Canonicals(s.pending)
  {
    forall i | 0 <= i < |s.pending| ensures Canonical(s.pending[i].uses) {
      assert s.pending[i] in s.pending && Shaped(s.pending[i]);
    }
  }

  /** Count the earlier submissions that clash. */
  method CountBlockers(pending: seq<Job>, uses: seq<ViewUse>) returns (blockers: nat)
    requires Canonicals(pending) && Canonical(uses)
    ensures blockers == Earlier(pending, uses, |pending|)
  {
    blockers := 0;
    for k := 0 to |pending|
      invariant blockers == Earlier(pending, uses, k)
    {
      var clash := Conflicts(pending[k].uses, uses);
      assert clash <==> Clashes(pending[k].uses, uses);
      if clash {
        blockers := blockers + 1;
      }
    }
  }

  /** Stop counting a removed job in the later ones. */
  method Unblock(job: Job, later: seq<Job>) returns (r: seq<Job>)
    requires Canonical(job.uses) && Canonicals(later)
    ensures r == Released(job, later)
  {
    r := [];
    for k := 0 to |later|
      invariant r == Released(job, later[..k])
    {
      var clash := Conflicts(job.uses, later[k].uses);
      assert clash <==> Clashes(job.uses, later[k].uses);
      ReleasedAppend(job, later[..k], later[k]);
      assert later[..k + 1] == later[..k] + [later[k]];
      r := r + [if clash then later[k].(blockers := Less(later[k].blockers)) else later[k]];
    }
    assert later[..|later|] == later;
  }

  /** A completion a caller may pass: its runtime is this one, another live one, or gone. */
  datatype Completion = Ours(sequence: nat) | Elsewhere | Orphan(result: Option<bool>)

  predicate Usable(d: Completion) {
    d.Ours? || (d.Orphan? && d.result.Some?)
  }

  function AsProducer(d: Completion): Producer
    requires Usable(d)
  {
    if d.Ours? then Of(d.sequence) else Ended(d.result.value)
  }

  /** What a submission then waits for. */
  function Awaited(dependencies: seq<Completion>): (r: seq<Producer>)
    requires forall d :: d in dependencies ==> Usable(d)
    ensures |r| == |dependencies| && forall i :: 0 <= i < |r| ==> r[i] == AsProducer(dependencies[i])
  {
    if dependencies == [] then [] else [AsProducer(dependencies[0])] + Awaited(dependencies[1..])
  }

  method Validate(dependencies: seq<Completion>) returns (r: Option<seq<Producer>>)
    ensures r.Some? <==> forall d :: d in dependencies ==> Usable(d)
    ensures r.Some? ==> r.value == Awaited(dependencies)
  {
    var producers: seq<Producer> := [];
    for i := 0 to |dependencies|
      invariant forall k :: 0 <= k < i ==> Usable(dependencies[k])
      invariant |producers| == i && forall k :: 0 <= k < i ==> producers[k] == AsProducer(dependencies[k])
    {
      if !Usable(dependencies[i]) {
        return None;
      }
      producers := producers + [AsProducer(dependencies[i])];
    }
    return Some(producers);
  }

  lemma {:induction false} AwaitedKnown(s: State, dependencies: seq<Completion>)
    requires forall d :: d in dependencies ==> Usable(d) && (d.Ours? ==> Known(s, d.sequence))
    ensures AllKnown(s, Awaited(dependencies))
  {
    var producers := Awaited(dependencies);
    forall p | p in producers && p.Of? ensures Known(s, p.sequence) {
      var i :| 0 <= i < |producers| && producers[i] == p;
      assert dependencies[i] in dependencies;
    }
  }

  ghost predicate Accepts(was: State, now: State, uses: seq<ViewUse>, regions: seq<Region>, producers: seq<Producer>) {
    QueueEnabled(was, Submit(uses, regions, producers)) && now == QueueStep(was, Submit(uses, regions, producers))
  }

  lemma {:induction false} Admitted(s: State, uses: seq<ViewUse>, regions: seq<Region>, producers: seq<Producer>, job: Job)
    requires Inv(s) && QueueEnabled(s, Submit(uses, regions, producers)) && job == Submitted(s, uses, regions, producers)
    ensures var u := s.(pending := s.pending + [job], sequence := s.sequence + 1);
            Accepts(s, u, uses, regions, producers) && Inv(u)
  {
    QueueKeepsInv(s, Submit(uses, regions, producers));
  }

  class Scheduler {
    var state: State

    ghost predicate Valid()
      reads this
    {
      Inv(state)
    }

    constructor (capacity: nat)
      ensures Valid() && Initial(state) && state.capacity == capacity
    {
      var free := [Free, Free, Free, Free, Free];
      var never := [None, None, None, None, None];
      state := State([], map[], map[], Lanes(free, never, 0, []), 0, capacity);
    }

    /**
     * Admit a prepared graph. Completions of another runtime and unfinished ones
     * of a dropped runtime are rejected first, then a full runtime is busy.
     */
    method Enqueue(uses: seq<ViewUse>, regions: seq<Region>, dependencies: seq<Completion>) returns (r: Result<nat>)
      requires Valid() && Prepared(uses, regions)
      requires forall d :: d in dependencies && d.Ours? ==> Known(state, d.sequence)
      modifies this
      ensures Valid()
      ensures r == if exists d :: d in dependencies && !Usable(d) then Err(Message)
                   else if Occupied(old(state)) >= old(state).capacity then Err(Busy) else Ok(old(state).sequence)
      ensures r.Err? ==> state == old(state)
      ensures r.Ok? ==> Accepts(old(state), state, uses, regions, Awaited(dependencies))
    {
      var producers := Validate(dependencies);
      if producers.None? {
        return Err(Message);
      }
      if Occupied(state) >= state.capacity {
        return Err(Busy);
      }
      AwaitedKnown(state, dependencies);
      AllCanonical(state);
      var blockers := CountBlockers(state.pending, uses);
      r := Ok(state.sequence);
      var job := Job(state.sequence, uses, regions, producers.value, blockers, Waiting(|regions|), false, false, false);
      Admitted(state, uses, regions, producers.value, job);
      state := state.(pending := state.pending + [job], sequence := state.sequence + 1);
    }

    /** Take a finished submission out of the queue and unblock those it held back. */
    method Remove(i: nat)
      requires Valid() && QueueEnabled(state, Finish(i))
      modifies this
      ensures Valid() && QueueEnabled(old(state), Finish(i)) && state == QueueStep(old(state), Finish(i))
    {
      QueueKeepsInv(state, Finish(i));
      AllCanonical(state);
      var job, was := state.pending[i], state.pending;
      var later := Unblock(job, was[i + 1..]);
      state := state.(pending := was[..i] + later,
                      finishing := state.finishing[job.sequence := !job.failed && !job.cancelled]);
    }

    /** Start the fairest region of the first lane, in rotation order, whose fairest region is wanted. */
    method StartBest(choices: seq<Choice>, target: Option<nat>) returns (a: Option<Action>)
      requires Valid() && AllBest(state.pending, state.outcomes, state.lanes, |state.pending|, 0, choices)
      modifies this
      ensures Valid()
      ensures a.None? ==> state == old(state) && AllOutranked(state, target)
      ensures a.Some? ==> a.value.Run? && Starts(old(state), state, target, a.value.job, a.value.node)
    {
      ChoicesAreCandidates(state, choices);
      var lane := Pick(state.pending, choices, state.lanes.next, target);
      if lane.None? {
        NothingToStart(state, choices, target);
        return None;
      }
      var i, n := choices[lane.value].value.0, choices[lane.value].value.1;
      ChosenIsFair(state, choices, lane.value, target);
      JobKeepsInv(state, i, Start(n));
      state := JobStep(state, i, Start(n));
      return Some(Run(i, n));
    }

    /**
     * Choose and begin the next action: settle the queue, then retire a finished
     * submission or start the fairest region of a lane. Nothing is chosen only
     * when nothing wanted is finished and nothing wanted is next on any lane.
     */
    method NextAction(target: Option<nat>) returns (a: Option<Action>, ghost settled: State)
      requires Valid()
      modifies this
      ensures Valid() && SettledFrom(old(state), settled)
      ensures a.None? ==> state == settled && Inv(state) && Quiet(state, target)
      ensures a.Some? && a.value.Run? ==> Starts(settled, state, target, a.value.job, a.value.node)
      ensures a.Some? && a.value.Retire? ==> Retires(settled, state, a.value.job)
    {
      var pending, done, choices := Survey(state.pending, state.outcomes, state.lanes, target);
      ghost var k := if done.Some? then done.value + 1 else |state.pending|;
      SettlingKeepsInv(state, k);
      SettledTwice(state.pending, state.outcomes);
      state := state.(pending := pending);
      settled := state;
      assert SettledFrom(old(state), settled);
      if done.Some? {
        Remove(done.value);
        a := Some(Retire(done.value));
      } else {
        a := StartBest(choices, target);
      }
    }
  }

  /** Some prefix of the queue was settled, and nothing else changed. */
  ghost predicate SettledFrom(was: State, now: State) {
    exists k: nat :: k <= |was.pending| && now == was.(pending := SettledUpTo(was.pending, was.outcomes, k))
  }

  ghost predicate NoneDone(s: State, target: Option<nat>) {
    forall i :: 0 <= i < |s.pending| && Wanted(target, s.pending[i]) ==> !AllDone(s.pending[i])
  }

  ghost predicate FullySettled(s: State) {
    forall i :: 0 <= i < |s.pending| ==> Settled(s.pending[i], s.outcomes) == s.pending[i]
  }

  /** Someone unwanted can start on the lane and ranks no later than submission `i`. */
  ghost predicate Outranked(s: State, target: Option<nat>, lane: nat, i: nat) {
    && lane < |s.lanes.lastStarted| && i < |s.pending|
    && exists j: nat, m: nat :: Candidate(s.pending, s.outcomes, s.lanes, lane, j, m) && !Wanted(target, s.pending[j])
         && RankLeq(s.lanes.lastStarted[lane], s.pending[j].sequence, s.pending[i].sequence)
  }

  /** Whatever wanted region could start has another submission's region before it on its lane. */
  ghost predicate AllOutranked(s: State, target: Option<nat>) {
    forall lane: nat, i: nat, n: nat :: Candidate(s.pending, s.outcomes, s.lanes, lane, i, n) && Wanted(target, s.pending[i]) ==>
                                          Outranked(s, target, lane, i)
  }

  /** There is nothing to do for the target. */
  ghost predicate Quiet(s: State, target: Option<nat>) {
    FullySettled(s) && NoneDone(s, target) && AllOutranked(s, target)
  }

  /** With no target in mind, nothing at all can start. */
  lemma {:induction false} QuietMeansNothingStarts(s: State)
    requires Quiet(s, None) && |s.lanes.owners| == LANES
    ensures forall i: nat, n: nat :: i < |s.pending| ==> !Startable(s.pending[i], s.outcomes, s.lanes, n)
  {
    forall i: nat, n: nat | i < |s.pending| ensures !Startable(s.pending[i], s.outcomes, s.lanes, n) {
      if n < |s.pending[i].regions| {
        var lane := s.pending[i].regions[n].lane;
        assert !Outranked(s, None, lane, i);
        assert !Candidate(s.pending, s.outcomes, s.lanes, lane, i, n);
      }
    }
  }

  lemma {:induction false} OldestWaitsForNative(s: State)
    requires Inv(s) && LanesFree(s) && s.finishing == map[] && Quiet(s, None) && s.pending != []
    ensures s.lanes.native != [] && s.pending[0].sequence > s.lanes.native[0]
  {
    QuietMeansNothingStarts(s);
    assert Settled(s.pending[0], s.outcomes) == s.pending[0] && !AllDone(s.pending[0]);
    if s.lanes.native == [] || s.pending[0].sequence <= s.lanes.native[0] {
      var n := OldestMoves(s);
    }
  }

  /**
   * The code never stops short: when a worker finds nothing to do although no
   * lane is held and nothing is left to publish, a native stage is ready to
   * enter, or there is no work at all.
   */
  lemma {:induction false} QuietMeansNativeIsNext(s: State)
    requires Inv(s) && LanesFree(s) && s.finishing == map[] && Quiet(s, None)
    requires s.pending != [] || s.lanes.native != []
    ensures NativeReady(s)
  {
    if s.pending != [] {
      OldestWaitsForNative(s);
    }
    forall j | j in s.pending ensures j.sequence >= s.lanes.native[0] {
      var i :| 0 <= i < |s.pending| && s.pending[i] == j;
    }
  }

  ghost predicate Starts(was: State, now: State, target: Option<nat>, i: nat, n: nat) {
    && JobEnabled(was, i, Start(n)) && now == JobStep(was, i, Start(n)) && FairToAll(was, i, n)
    && (target.None? ==> FairToLanes(was, i, n))
  }

  ghost predicate Retires(was: State, now: State, i: nat) {
    QueueEnabled(was, Finish(i)) && now == QueueStep(was, Finish(i))
  }

  /** Starting this region is fair to every submission that could start on its lane. */
  ghost predicate FairToAll(s: State, i: nat, n: nat) {
    forall j: nat, m: nat, lane: nat ::
      Candidate(s.pending, s.outcomes, s.lanes, lane, i, n) && Candidate(s.pending, s.outcomes, s.lanes, lane, j, m) ==>
        Fair(s, OnJob(i, Start(n)), lane, s.pending[j].sequence)
  }

  /** Starting this region is fair to every lane: none before it in the rotation could start anything. */
  ghost predicate FairToLanes(s: State, i: nat, n: nat) {
    && i < |s.pending| && n < |s.pending[i].regions|
    && forall l: nat, j: nat, m: nat :: l < LANES && Candidate(s.pending, s.outcomes, s.lanes, l, j, m) ==>
         Distance(s.lanes.next, s.pending[i].regions[n].lane) <= Distance(s.lanes.next, l)
  }

  lemma {:induction false} SettledTwice(pending: seq<Job>, outcomes: map<nat, bool>)
    ensures var now := SettledUpTo(pending, outcomes, |pending|);
            forall i :: 0 <= i < |now| ==> Settled(now[i], outcomes) == now[i]
  {
    var now := SettledUpTo(pending, outcomes, |pending|);
    forall i | 0 <= i < |now| ensures Settled(now[i], outcomes) == now[i] {
      SkippedTwice(now[i].nodes);
      SkippedTwice(pending[i].nodes);
    }
  }

  lemma {:induction false} SkippedTwice(nodes: seq<Node>)
    ensures Skipped(Skipped(nodes)) == Skipped(nodes)
  {
    var once, twice := Skipped(nodes), Skipped(Skipped(nodes));
    assert |twice| == |once| && forall n :: 0 <= n < |once| ==> twice[n] == once[n];
  }

  lemma {:induction false} ChoicesAreCandidates(s: State, choices: seq<Choice>)
    requires AllBest(s.pending, s.outcomes, s.lanes, |s.pending|, 0, choices)
    ensures forall l :: 0 <= l < LANES && choices[l].Some? ==>
              choices[l].value.0 < |s.pending| && Candidate(s.pending, s.outcomes, s.lanes, l, choices[l].value.0, choices[l].value.1)
  {
  }

  /** Any candidate of a lane has the lane's choice before it. */
  lemma {:induction false} ChoiceIsFirst(s: State, choices: seq<Choice>, lane: nat, i: nat, n: nat)
    requires AllBest(s.pending, s.outcomes, s.lanes, |s.pending|, 0, choices) && lane < LANES
    requires Candidate(s.pending, s.outcomes, s.lanes, lane, i, n)
    ensures lane < |s.lanes.lastStarted| && choices[lane].Some? && choices[lane].value.0 < |s.pending|
    ensures Candidate(s.pending, s.outcomes, s.lanes, lane, choices[lane].value.0, choices[lane].value.1)
    ensures RankLeq(s.lanes.lastStarted[lane], s.pending[choices[lane].value.0].sequence, s.pending[i].sequence)
  {
    assert Best(s.pending, s.outcomes, s.lanes, lane, |s.pending|, 0, choices[lane]) && Seen(|s.pending|, 0, i, n);
  }

  lemma {:induction false} NothingToStart(s: State, choices: seq<Choice>, target: Option<nat>)
    requires AllBest(s.pending, s.outcomes, s.lanes, |s.pending|, 0, choices) && |s.lanes.owners| == LANES
    requires DeclinedBefore(s.pending, choices, s.lanes.next, target, LANES)
    ensures AllOutranked(s, target)
  {
    forall lane: nat, i: nat, n: nat | Candidate(s.pending, s.outcomes, s.lanes, lane, i, n) && Wanted(target, s.pending[i])
      ensures Outranked(s, target, lane, i)
    {
      ChoiceIsFirst(s, choices, lane, i, n);
      assert Declined(s.pending, choices[lane], target);
    }
  }

  lemma {:induction false} ChosenIsFair(s: State, choices: seq<Choice>, lane: nat, target: Option<nat>)
    requires AllBest(s.pending, s.outcomes, s.lanes, |s.pending|, 0, choices)
    requires |s.lanes.owners| == |s.lanes.lastStarted| == LANES && lane < LANES && choices[lane].Some?
    requires DeclinedBefore(s.pending, choices, s.lanes.next, target, Distance(s.lanes.next, lane))
    ensures var i, n := choices[lane].value.0, choices[lane].value.1;
            && i < |s.pending| && JobEnabled(s, i, Start(n)) && FairToAll(s, i, n)
            && (target.None? ==> FairToLanes(s, i, n))
  {
    var i, n := choices[lane].value.0, choices[lane].value.1;
    assert Best(s.pending, s.outcomes, s.lanes, lane, |s.pending|, 0, choices[lane]);
    forall j: nat, m: nat, l: nat |
      Candidate(s.pending, s.outcomes, s.lanes, l, i, n) && Candidate(s.pending, s.outcomes, s.lanes, l, j, m)
      ensures Fair(s, OnJob(i, Start(n)), l, s.pending[j].sequence)
    {
      ChoiceIsFirst(s, choices, lane, j, m);
    }
    if target.None? {
      forall l: nat, j: nat, m: nat | l < LANES && Candidate(s.pending, s.outcomes, s.lanes, l, j, m)
        ensures Distance(s.lanes.next, lane) <= Distance(s.lanes.next, l)
      {
        assert Distance(s.lanes.next, l) < Distance(s.lanes.next, lane) ==> Declined(s.pending, choices[l], target);
        ChoiceIsFirst(s, choices, l, j, m);
      }
    }
  }

  lemma {:induction false} ReleasedAppend(job: Job, later: seq<Job>, next: Job)
    ensures Released(job, later + [next]) == Released(job, later) + [Unblocked(job, next)]
  {
  }

  // ---------- turns over a whole run ----------

  /** The submission could start something on the lane. */
  ghost predicate ReadyOn(s: State, lane: nat, q: nat) {
    exists j: nat, m: nat :: Candidate(s.pending, s.outcomes, s.lanes, lane, j, m) && s.pending[j].sequence == q
  }

  /** If the event starts a region, it is one the scheduler's choice allows. */
  ghost predicate Chosen(s: State, e: Event) {
    e.OnJob? && e.job.Start? ==> FairToAll(s, e.index, e.job.node)
  }

  lemma {:induction false} ChosenIsFairTo(s: State, e: Event, lane: nat, q: nat)
    requires Enabled(s, e) && Chosen(s, e) && StartsOn(s, e, lane) && ReadyOn(s, lane, q)
    ensures Fair(s, e, lane, q)
  {
    var j: nat, m: nat :| Candidate(s.pending, s.outcomes, s.lanes, lane, j, m) && s.pending[j].sequence == q;
    assert Candidate(s.pending, s.outcomes, s.lanes, lane, e.index, e.job.node);
    assert e == OnJob(e.index, Start(e.job.node));
  }

  /**
   * Round robin on a lane: in every run whose starts are the scheduler's choices,
   * between two turns of one submission every other submission that was ready
   * whenever the lane was given away has had a turn.
   */
  lemma {:induction false} ReadyGetsATurn(states: seq<State>, events: seq<Event>, lane: nat, q: nat, from: nat, to: nat)
    requires IsRun(states, events) && lane < LANES && from < to < |events|
    requires StartsOn(states[from], events[from], lane) && StartsOn(states[to], events[to], lane)
    requires Starter(states[from], events[from]) == Starter(states[to], events[to]) != q
    requires forall k {:trigger events[k]} :: from < k <= to ==> Chosen(states[k], events[k])
    requires forall k {:trigger events[k]} :: from < k <= to && StartsOn(states[k], events[k], lane) ==> ReadyOn(states[k], lane, q)
    ensures exists k {:trigger events[k]} :: from < k < to && StartsOn(states[k], events[k], lane) && Starter(states[k], events[k]) == q
  {
    forall k | from < k <= to ensures Fair(states[k], events[k], lane, q) {
      assert Enabled(states[k], events[k]);
      if StartsOn(states[k], events[k], lane) {
        ChosenIsFairTo(states[k], events[k], lane, q);
      }
    }
    EveryoneGetsATurn(states, events, lane, q, from, to);
  }

  // ---------- turns between lanes ----------

  ghost predicate LaneReady(s: State, lane: nat) {
    exists j: nat, m: nat :: Candidate(s.pending, s.outcomes, s.lanes, lane, j, m)
  }

  ghost predicate StartsSome(s: State, e: Event) {
    exists lane: nat :: lane < LANES && StartsOn(s, e, lane)
  }

  lemma {:induction false} DistanceCases(next: nat, lane: nat)
    requires next < LANES && lane < LANES
    ensures Distance(next, lane) == if lane >= next then lane - next else lane + LANES - next
  {
  }

  /** Serving a lane brings the rotation that much closer to every lane behind it. */
  lemma {:induction false} DistanceAfter(next: nat, lane: nat, other: nat)
    requires next < LANES && lane < LANES && other < LANES && Distance(next, lane) < Distance(next, other)
    ensures Distance((lane + 1) % LANES, other) == Distance(next, other) - Distance(next, lane) - 1
  {
    DistanceCases(next, lane);
    DistanceCases(next, other);
    DistanceCases((lane + 1) % LANES, other);
    assert (lane + 1) % LANES == if lane + 1 == LANES then 0 else lane + 1;
  }

  /** The rotation is past `a` and has not reached `b`. */
  ghost predicate Towards(s: State, a: nat, b: nat) {
    s.lanes.next < LANES && Distance(s.lanes.next, b) <= Distance((a + 1) % LANES, b)
  }

  /** Only a start moves the rotation, to just past its lane. */
  lemma {:induction false} NextStep(s: State, e: Event)
    requires Enabled(s, e)
    ensures if StartsSome(s, e)
            then StartLane(s, e) < LANES && Step(s, e).lanes.next == (StartLane(s, e) + 1) % LANES
            else Step(s, e).lanes.next == s.lanes.next
  {
    if e.OnJob? && e.job.Start? {
      assert StartsOn(s, e, s.pending[e.index].regions[e.job.node].lane);
    }
  }

  ghost function StartLane(s: State, e: Event): nat
    requires StartsSome(s, e)
  {
    s.pending[e.index].regions[e.job.node].lane
  }

  /** A start that is fair to the lanes, with lane `b` ready. */
  ghost predicate FairStart(s: State, e: Event, b: nat) {
    StartsSome(s, e) ==> FairToLanes(s, e.index, e.job.node) && LaneReady(s, b)
  }

  lemma {:induction false} FairDistance(s: State, e: Event, b: nat)
    requires StartsSome(s, e) && FairStart(s, e, b) && b < LANES
    ensures Distance(s.lanes.next, StartLane(s, e)) <= Distance(s.lanes.next, b)
  {
    var j: nat, m: nat :| Candidate(s.pending, s.outcomes, s.lanes, b, j, m);
  }

  lemma {:induction false} RotationStep(s: State, e: Event, a: nat, b: nat)
    requires Enabled(s, e) && a < LANES && b < LANES && a != b && Towards(s, a, b) && !StartsOn(s, e, b) && FairStart(s, e, b)
    ensures Towards(Step(s, e), a, b) && !StartsOn(s, e, a)
  {
    NextStep(s, e);
    if StartsSome(s, e) {
      var l := StartLane(s, e);
      FairDistance(s, e, b);
      DistanceCases(s.lanes.next, l);
      DistanceCases(s.lanes.next, b);
      DistanceAfter(s.lanes.next, l, b);
    }
  }

  lemma {:induction false} RotationApproaches(states: seq<State>, events: seq<Event>, a: nat, b: nat, from: nat, to: nat)
    requires IsRun(states, events) && a < LANES && b < LANES && a != b && from < to <= |events|
    requires StartsOn(states[from], events[from], a)
    requires forall k {:trigger events[k]} :: from < k < to ==>
               FairStart(states[k], events[k], b) && !StartsOn(states[k], events[k], b)
    ensures Towards(states[to], a, b)
  {
    assert states[from + 1] == Step(states[from], events[from]);
    NextStep(states[from], events[from]);
    for k := from + 1 to to
      invariant Towards(states[k], a, b)
    {
      assert states[k + 1] == Step(states[k], events[k]);
      RotationStep(states[k], events[k], a, b);
    }
  }

  /**
   * Round robin between lanes: in every run whose starts the background workers
   * chose, between two starts on one lane every other lane that had something to
   * start at each start in between was served.
   */
  lemma {:induction false} EveryLaneIsServed(states: seq<State>, events: seq<Event>, a: nat, b: nat, from: nat, to: nat)
    requires IsRun(states, events) && a < LANES && b < LANES && a != b && from < to < |events|
    requires StartsOn(states[from], events[from], a) && StartsOn(states[to], events[to], a)
    requires forall k {:trigger events[k]} :: from < k <= to ==> FairStart(states[k], events[k], b)
    ensures exists k {:trigger events[k]} :: from < k < to && StartsOn(states[k], events[k], b)
  {
    if forall k {:trigger events[k]} :: from < k < to ==> !StartsOn(states[k], events[k], b) {
      RotationApproaches(states, events, a, b, from, to);
      assert Enabled(states[to], events[to]);
      RotationStep(states[to], events[to], a, b);
    }
  }
}
