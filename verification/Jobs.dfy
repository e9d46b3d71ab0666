/**
 * The bounded job pool: admission by an atomic counter, a bounded channel,
 * worker loops and cooperative cancellation, one event per atomic update.
 */
module Jobs {
  import opened Accesses
  import opened Totals

  datatype Outcome = Cancelled | Finished

  /** Where an admitted job is. */
  datatype Phase = Sending | Queued | Taken | Working | Skipped | Drained(outcome: Outcome) | Notifying | Gone

  datatype Job = Job(phase: Phase, cancelled: bool, finished: bool)

  datatype Pool = Pool(
    capacity: nat,
    live: nat,                       // the admission counter
    queue: seq<nat>,                 // the channel, bounded by the capacity
    jobs: map<nat, Job>,
    delivered: map<nat, Outcome>,    // what each completion callback received
    worked: set<nat>,                // jobs whose work closure ran
    accepted: set<nat>,              // jobs for which some cancel returned true
    late: set<nat>)                  // jobs for which some cancel returned false

  datatype Event =
    | Submit(job: nat)
    | Send(job: nat)
    | SendFails(job: nat)            // the channel is full: drop the job and its permit
    | Take                           // a worker receives the next job
    | Check(job: nat)                // skip the work if already cancelled
    | Drain(job: nat)                // record that the work is over
    | Notify(job: nat)               // run the completion callback
    | Release(job: nat)              // drop the permit
    | Cancel(job: nat)

  ghost predicate InPhase(p: Pool, j: nat, phase: Phase) {
    j in p.jobs && p.jobs[j].phase == phase
  }

  ghost predicate Enabled(p: Pool, e: Event) {
    match e
    case Submit(j) => j !in p.jobs && p.live < p.capacity
    case Send(j) => InPhase(p, j, Sending) && |p.queue| < p.capacity
    case SendFails(j) => InPhase(p, j, Sending) && |p.queue| >= p.capacity
    case Take => p.queue != [] && p.queue[0] in p.jobs
    case Check(j) => InPhase(p, j, Taken)
    case Drain(j) => InPhase(p, j, Working) || InPhase(p, j, Skipped)
    case Notify(j) => j in p.jobs && p.jobs[j].phase.Drained?
    case Release(j) => InPhase(p, j, Notifying)
    case Cancel(j) => j in p.jobs
  }

  function Moved(p: Pool, j: nat, phase: Phase): Pool {
    if j in p.jobs then p.(jobs := p.jobs[j := p.jobs[j].(phase := phase)]) else p
  }

  function Less(n: nat): nat {
    if n > 0 then n - 1 else 0
  }

  ghost function Step(p: Pool, e: Event): Pool
    requires Enabled(p, e)
  {
    match e
    case Submit(j) => p.(live := p.live + 1, jobs := p.jobs[j := Job(Sending, false, false)])
    case Send(j) => Moved(p, j, Queued).(queue := p.queue + [j])
    case SendFails(j) => Moved(p, j, Gone).(live := Less(p.live))
    case Take => Moved(p, p.queue[0], Taken).(queue := p.queue[1..])
    case Check(j) =>
      if p.jobs[j].cancelled then Moved(p, j, Skipped) else Moved(p, j, Working).(worked := p.worked + {j})
    case Drain(j) =>
      var outcome := if p.jobs[j].cancelled then Cancelled else Finished;
      p.(jobs := p.jobs[j := p.jobs[j].(phase := Drained(outcome), finished := true)])
    case Notify(j) => Moved(p, j, Notifying).(delivered := p.delivered[j := p.jobs[j].phase.outcome])
    case Release(j) => Moved(p, j, Gone).(live := Less(p.live))
    case Cancel(j) =>
      if p.jobs[j].finished then p.(late := p.late + {j})
      else p.(jobs := p.jobs[j := p.jobs[j].(cancelled := true)], accepted := p.accepted + {j})
  }

  // ---------- what every step keeps ----------

  ghost function Outstanding(p: Pool): set<nat> {
    set j | j in p.jobs && p.jobs[j].phase != Gone
  }

  /** The counter is the number of jobs still holding a permit, within capacity. */
  ghost predicate Counted(p: Pool) {
    p.live == |Outstanding(p)| && p.live <= p.capacity
  }

  /** The channel holds exactly the queued jobs, each once. */
  ghost predicate Channel(p: Pool) {
    && (forall i, j :: 0 <= i < j < |p.queue| ==> p.queue[i] != p.queue[j])
    && (forall j :: j in p.queue <==> InPhase(p, j, Queued))
  }

  ghost predicate Over(phase: Phase) {
    phase.Drained? || phase.Notifying? || phase.Gone?
  }

  /** `finished` is set exactly when the work is over. */
  ghost predicate Phased(p: Pool) {
    && (forall j :: j in p.jobs && p.jobs[j].finished ==> Over(p.jobs[j].phase))
    && (forall j :: j in p.jobs && (p.jobs[j].phase.Drained? || p.jobs[j].phase.Notifying?) ==> p.jobs[j].finished)
  }

  /** Callbacks run after the work is over, one for each job that reached them. */
  ghost predicate CalledBack(p: Pool) {
    && (forall j :: j in p.jobs && p.jobs[j].phase.Notifying? ==> j in p.delivered)
    && (forall j :: j in p.delivered ==> j in p.jobs && p.jobs[j].finished && (p.jobs[j].phase.Notifying? || p.jobs[j].phase.Gone?))
  }

  /** A settled outcome says Cancelled exactly when cancellation was requested in time. */
  ghost predicate Truthful(p: Pool) {
    && (forall j :: j in p.jobs && p.jobs[j].phase.Drained? ==> (p.jobs[j].phase.outcome == Cancelled <==> p.jobs[j].cancelled))
    && (forall j :: j in p.delivered ==> j in p.jobs && (p.delivered[j] == Cancelled <==> p.jobs[j].cancelled))
  }

  /** What cancel replied: true exactly for the jobs that are cancelled, false only once finished. */
  ghost predicate Replied(p: Pool) {
    && (forall j :: j in p.accepted <==> j in p.jobs && p.jobs[j].cancelled)
    && (forall j :: j in p.late ==> j in p.jobs && p.jobs[j].finished)
  }

  /** Which jobs ran their work: skipped ones were cancelled first. */
  ghost predicate Ran(p: Pool) {
    && (forall j :: j in p.worked ==> j in p.jobs && (p.jobs[j].phase.Working? || Over(p.jobs[j].phase)))
    && (forall j :: j in p.jobs && p.jobs[j].phase.Working? ==> j in p.worked)
    && (forall j :: j in p.jobs && p.jobs[j].phase.Skipped? ==> p.jobs[j].cancelled)
  }

  ghost predicate Inv(p: Pool) {
    Counted(p) && Channel(p) && Phased(p) && CalledBack(p) && Truthful(p) && Replied(p) && Ran(p)
  }

  ghost function Members(q: seq<nat>): set<nat> {
    set x | x in q
  }

  /** A job being sent holds a permit outside the channel, so the channel has room for it. */
  lemma {:induction false} ChannelHasRoom(p: Pool, j: nat)
    requires Counted(p) && Channel(p) && InPhase(p, j, Sending)
    ensures |p.queue| < p.capacity
  {
    var queued := Members(p.queue);
    QueueSize(p.queue);
    assert queued <= Outstanding(p) - {j};
    SubsetSize(queued, Outstanding(p) - {j});
  }

  lemma {:induction false} QueueSize(q: seq<nat>)
    requires forall i, j :: 0 <= i < j < |q| ==> q[i] != q[j]
    ensures |Members(q)| == |q|
  {
    if q != [] {
      var n := |q| - 1;
      QueueSize(q[..n]);
      assert q == q[..n] + [q[n]];
      assert Members(q) == Members(q[..n]) + {q[n]};
      assert q[n] !in Members(q[..n]);
    }
  }

  lemma {:induction false} SamePermits(p: Pool, q: Pool)
    requires p.jobs.Keys == q.jobs.Keys && forall j :: j in p.jobs ==> (p.jobs[j].phase == Gone <==> q.jobs[j].phase == Gone)
    ensures Outstanding(p) == Outstanding(q)
  {
  }

  lemma {:induction false} PermitDropped(p: Pool, j: nat)
    requires Counted(p) && j in p.jobs && p.jobs[j].phase != Gone
    ensures p.live > 0 && Counted(Moved(p, j, Gone).(live := Less(p.live)))
  {
    var q := Moved(p, j, Gone).(live := Less(p.live));
    assert j in Outstanding(p) && Outstanding(q) == Outstanding(p) - {j};
  }

  lemma {:induction false} PermitTaken(p: Pool, j: nat)
    requires Counted(p) && j !in p.jobs && p.live < p.capacity
    ensures Counted(p.(live := p.live + 1, jobs := p.jobs[j := Job(Sending, false, false)]))
  {
    var q := p.(live := p.live + 1, jobs := p.jobs[j := Job(Sending, false, false)]);
    assert Outstanding(q) == Outstanding(p) + {j};
  }

  lemma {:induction false} StepKeepsCount(p: Pool, e: Event)
    requires Counted(p) && Channel(p) && Enabled(p, e)
    ensures Counted(Step(p, e))
  {
    match e {
      case Submit(j) => PermitTaken(p, j);
      case SendFails(j) => PermitDropped(p, j);
      case Release(j) => PermitDropped(p, j);
      case Take =>
        assert p.queue[0] in p.queue;
        SamePermits(p, Step(p, e));
      case _ => SamePermits(p, Step(p, e));
    }
  }

  lemma {:induction false} TakeKeepsChannel(p: Pool)
    requires Channel(p) && Enabled(p, Take)
    ensures Channel(Step(p, Take))
  {
    var head, rest := p.queue[0], p.queue[1..];
    assert p.queue == [head] + rest;
    assert head in p.queue && head !in rest;
    forall j ensures j in rest <==> InPhase(Step(p, Take), j, Queued) {
      assert j in p.queue <==> j == head || j in rest;
    }
  }

  lemma {:induction false} StepKeepsChannel(p: Pool, e: Event)
    requires Channel(p) && Enabled(p, e)
    ensures Channel(Step(p, e))
  {
    match e {
      case Take => TakeKeepsChannel(p);
      case Send(j) =>
        assert j !in p.queue;
        forall i ensures i in p.queue + [j] <==> InPhase(Step(p, e), i, Queued) {
          assert i in p.queue <==> InPhase(p, i, Queued);
        }
      case _ =>
        forall i ensures InPhase(Step(p, e), i, Queued) <==> InPhase(p, i, Queued) {
        }
    }
  }

  lemma {:induction false} StepKeepsPhases(p: Pool, e: Event)
    requires Channel(p) && Phased(p) && Enabled(p, e)
    ensures Phased(Step(p, e))
  {
    assert e.Take? ==> p.queue[0] in p.queue;
  }

  lemma {:induction false} StepKeepsCallbacks(p: Pool, e: Event)
    requires Channel(p) && Phased(p) && CalledBack(p) && Enabled(p, e)
    ensures CalledBack(Step(p, e))
  {
    assert e.Take? ==> p.queue[0] in p.queue;
  }

  lemma {:induction false} StepKeepsOutcomes(p: Pool, e: Event)
    requires Channel(p) && Phased(p) && CalledBack(p) && Truthful(p) && Enabled(p, e)
    ensures Truthful(Step(p, e))
  {
  }

  lemma {:induction false} StepKeepsReplies(p: Pool, e: Event)
    requires Replied(p) && Enabled(p, e)
    ensures Replied(Step(p, e))
  {
  }

  lemma {:induction false} StepKeepsWork(p: Pool, e: Event)
    requires Channel(p) && Ran(p) && Enabled(p, e)
    ensures Ran(Step(p, e))
  {
    assert e.Take? ==> p.queue[0] in p.queue;
  }

  // ---------- runs ----------

  ghost predicate IsRun(states: seq<Pool>, events: seq<Event>) {
    && |states| == |events| + 1
    && states[0] == Pool(states[0].capacity, 0, [], map[], map[], {}, {}, {})
    && forall i {:trigger events[i]} :: 0 <= i < |events| ==> Enabled(states[i], events[i]) && states[i + 1] == Step(states[i], events[i])
  }

  lemma {:induction false} StepKeepsInv(p: Pool, e: Event)
    requires Inv(p) && Enabled(p, e)
    ensures Inv(Step(p, e))
  {
    StepKeepsCount(p, e);
    StepKeepsChannel(p, e);
    StepKeepsPhases(p, e);
    StepKeepsCallbacks(p, e);
    StepKeepsOutcomes(p, e);
    StepKeepsReplies(p, e);
    StepKeepsWork(p, e);
  }

  lemma {:induction false} RunKeepsInv(states: seq<Pool>, events: seq<Event>, i: nat)
    requires IsRun(states, events) && i < |states|
    ensures Inv(states[i])
  {
    for k := 0 to i
      invariant Inv(states[k])
    {
      assert states[k + 1] == Step(states[k], events[k]);
      StepKeepsInv(states[k], events[k]);
    }
  }

  /** After admission the bounded channel is never full. */
  lemma {:induction false} SendNeverFails(states: seq<Pool>, events: seq<Event>, i: nat)
    requires IsRun(states, events) && i < |events|
    ensures !events[i].SendFails?
  {
    if events[i].SendFails? {
      RunKeepsInv(states, events, i);
      ChannelHasRoom(states[i], events[i].job);
    }
  }

  /** What is settled about a job: its cancellation once requested, everything once it finished. */
  ghost predicate StaysSettled(p: Pool, q: Pool, j: nat) {
    && j in p.jobs && j in q.jobs
    && (p.jobs[j].cancelled ==> q.jobs[j].cancelled)
    && (p.jobs[j].finished ==> q.jobs[j].finished && q.jobs[j].cancelled == p.jobs[j].cancelled)
    && (j in p.delivered ==> j in q.delivered && q.delivered[j] == p.delivered[j])
  }

  lemma {:induction false} StepSettles(p: Pool, e: Event, j: nat)
    requires Phased(p) && CalledBack(p) && Enabled(p, e) && j in p.jobs
    ensures StaysSettled(p, Step(p, e), j)
  {
  }

  /** Jobs stay known, and what is settled about them stays settled. */
  lemma {:induction false} Settled(states: seq<Pool>, events: seq<Event>, i: nat, k: nat, j: nat)
    requires IsRun(states, events) && i <= k < |states| && j in states[i].jobs
    ensures StaysSettled(states[i], states[k], j)
  {
    for m := i to k
      invariant StaysSettled(states[i], states[m], j)
    {
      RunKeepsInv(states, events, m);
      assert states[m + 1] == Step(states[m], events[m]);
      StepSettles(states[m], events[m], j);
    }
  }

  /** Each accepted job's callback runs at most once. */
  lemma {:induction false} CallbackRunsOnce(states: seq<Pool>, events: seq<Event>, i: nat, k: nat, j: nat)
    requires IsRun(states, events) && i < k < |events| && events[i] == Notify(j)
    ensures events[k] != Notify(j)
  {
    if events[k] == Notify(j) {
      assert j in states[i + 1].delivered;
      Settled(states, events, i + 1, k, j);
      RunKeepsInv(states, events, k);
      assert false;
    }
  }

  /** A cancel that returned true means the callback receives Cancelled, whenever it runs. */
  lemma {:induction false} CancelIsHonoured(states: seq<Pool>, events: seq<Event>, i: nat, k: nat, j: nat)
    requires IsRun(states, events) && i < k < |events| && events[i] == Cancel(j) && !states[i].jobs[j].finished
    requires events[k] == Notify(j)
    ensures states[k + 1].delivered[j] == Cancelled
  {
    Settled(states, events, i + 1, k, j);
    RunKeepsInv(states, events, k);
  }

  /** A cancel that returned false means the work had already drained, with nothing left to cancel. */
  lemma {:induction false} LateCancelChangesNothing(states: seq<Pool>, events: seq<Event>, i: nat, j: nat)
    requires IsRun(states, events) && i < |events| && events[i] == Cancel(j) && states[i].jobs[j].finished
    ensures Over(states[i].jobs[j].phase) && states[i + 1] == states[i].(late := states[i].late + {j})
  {
    RunKeepsInv(states, events, i);
  }

  /** A job cancelled before a worker checks it never runs its work. */
  lemma {:induction false} EarlyCancelSkipsWork(states: seq<Pool>, events: seq<Event>, i: nat, k: nat, j: nat)
    requires IsRun(states, events) && i <= k < |states| && j in states[i].jobs && states[i].jobs[j].cancelled && j !in states[i].worked
    ensures j !in states[k].worked
    decreases k
  {
    if i < k {
      EarlyCancelSkipsWork(states, events, i, k - 1, j);
      Settled(states, events, i, k - 1, j);
      assert Enabled(states[k - 1], events[k - 1]);
    }
  }

  // ---------- the code ----------

  /** An admitted job finds room in the channel. */
  lemma {:induction false} Admission(p: Pool, j: nat)
    requires Inv(p) && j !in p.jobs && p.live < p.capacity
    ensures |p.queue| < p.capacity && Enabled(Step(p, Submit(j)), Send(j))
    ensures var q := Step(Step(p, Submit(j)), Send(j));
            Inv(q) && q == p.(live := p.live + 1, jobs := p.jobs[j := Job(Queued, false, false)], queue := p.queue + [j])
  {
    var sending := Step(p, Submit(j));
    StepKeepsInv(p, Submit(j));
    ChannelHasRoom(sending, j);
    StepKeepsInv(sending, Send(j));
    assert sending.jobs[j := Job(Queued, false, false)] == p.jobs[j := Job(Queued, false, false)];
  }

  class JobPool {
    const capacity: nat
    var live: nat
    var queue: seq<nat>
    var jobs: map<nat, Job>
    ghost var delivered: map<nat, Outcome>
    ghost var worked: set<nat>
    ghost var accepted: set<nat>
    ghost var late: set<nat>

    ghost function State(): Pool
      reads this
    {
      Pool(capacity, live, queue, jobs, delivered, worked, accepted, late)
    }

    constructor (capacity: nat)
      ensures this.capacity == capacity && State() == Pool(capacity, 0, [], map[], map[], {}, {}, {}) && Inv(State())
    {
      this.capacity := capacity;
      live, queue, jobs := 0, [], map[];
      delivered, worked, accepted, late := map[], {}, {}, {};
      new;
      assert Outstanding(State()) == {};
    }

    /**
     * Admit a job and send it. Admission fails exactly at capacity; once admitted
     * the bounded channel takes the job.
     */
    method SubmitJob(job: nat) returns (r: Result<nat>)
      requires Inv(State()) && job !in jobs
      modifies this
      ensures r == if old(live) < capacity then Ok(job) else Err(Busy)
      ensures r.Err? ==> State() == old(State())
      ensures Inv(State())
      ensures r.Ok? ==> old(Enabled(State(), Submit(job))) && old(Enabled(Step(State(), Submit(job)), Send(job)))
                        && State() == old(Step(Step(State(), Submit(job)), Send(job)))
    {
      if live >= capacity {
        return Err(Busy);
      }
      Admission(State(), job);
      live := live + 1;
      jobs := jobs[job := Job(Queued, false, false)];
      assert |queue| < capacity;   // so the non-blocking send cannot find the channel full
      queue := queue + [job];
      r := Ok(job);
    }

    /**
     * Request cancellation. True means the work had not drained, and then the
     * result will be discarded; false means it had, and nothing changes.
     */
    method CancelJob(job: nat) returns (inTime: bool)
      requires Inv(State()) && job in jobs
      modifies this
      ensures State() == old(Step(State(), Cancel(job))) && Inv(State())
      ensures inTime ==> job in accepted && !jobs[job].finished && !jobs[job].phase.Drained? && job !in delivered
      ensures !inTime ==> jobs == old(jobs) && Over(jobs[job].phase)
    {
      StepKeepsInv(State(), Cancel(job));
      if jobs[job].finished {
        late := late + {job};
        return false;
      }
      jobs := jobs[job := jobs[job].(cancelled := true)];
      accepted := accepted + {job};
      inTime := true;
    }

    /**
     * The work is over. The result is discarded exactly when some cancel returned
     * true, a kept result comes from work that ran, and no later cancel can succeed.
     */
    method DrainJob(job: nat) returns (outcome: Outcome)
      requires Inv(State()) && Enabled(State(), Drain(job))
      modifies this
      ensures State() == old(Step(State(), Drain(job))) && Inv(State())
      ensures outcome == Cancelled <==> job in accepted
      ensures outcome == Finished ==> job in worked
      ensures jobs[job].finished
    {
      StepKeepsInv(State(), Drain(job));
      outcome := if jobs[job].cancelled then Cancelled else Finished;
      jobs := jobs[job := jobs[job].(finished := true, phase := Drained(outcome))];
    }
  }
}
