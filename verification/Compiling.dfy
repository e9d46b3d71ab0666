/**
 * Parallel compilation of a batch: workers claim indices from a shared counter
 * and fill one slot each until the counter passes the end.
 */
module Compiling {
  import opened Accesses

  datatype Worker = Free | Holding(index: nat) | Exited

  /** `next` is the shared counter; a slot holds the request whose outcome it got. */
  datatype Pool = Pool(size: nat, next: nat, workers: seq<Worker>, slots: seq<Option<nat>>)

  datatype Event = Claim(worker: nat) | Fill(worker: nat)

  ghost predicate Enabled(p: Pool, e: Event) {
    match e
    case Claim(w) => w < |p.workers| && p.workers[w].Free?
    case Fill(w) => w < |p.workers| && p.workers[w].Holding? && p.workers[w].index < |p.slots|
  }

  ghost function Step(p: Pool, e: Event): Pool
    requires Enabled(p, e)
  {
    match e
    case Claim(w) =>
      p.(next := p.next + 1, workers := p.workers[w := if p.next < p.size then Holding(p.next) else Exited])
    case Fill(w) =>
      p.(slots := p.slots[p.workers[w].index := Some(p.workers[w].index)], workers := p.workers[w := Free])
  }

  ghost predicate HeldBy(p: Pool, i: nat) {
    exists w :: 0 <= w < |p.workers| && p.workers[w] == Holding(i)
  }

  /** Every claimed index is held by exactly one worker or its slot is filled with its own outcome. */
  ghost predicate Inv(p: Pool) {
    && |p.slots| == p.size
    && (forall w :: 0 <= w < |p.workers| && p.workers[w].Holding? ==>
          p.workers[w].index < p.size && p.workers[w].index < p.next && p.slots[p.workers[w].index].None?)
    && (forall v, w :: 0 <= v < w < |p.workers| && p.workers[v].Holding? ==> p.workers[v] != p.workers[w])
    && (forall i :: 0 <= i < p.size ==> p.slots[i].None? || p.slots[i] == Some(i))
    && (forall i :: 0 <= i < p.size ==> (p.slots[i].Some? || HeldBy(p, i) <==> i < p.next))
    && (forall w :: 0 <= w < |p.workers| && p.workers[w].Exited? ==> p.next >= p.size)
  }

  ghost function Initial(size: nat, workers: nat): Pool {
    Pool(size, 0, seq(workers, _ => Free), seq(size, _ => None))
  }

  lemma {:induction false} ClaimKeepsInv(p: Pool, w: nat)
    requires Inv(p) && Enabled(p, Claim(w))
    ensures Inv(Step(p, Claim(w)))
  {
    var q := Step(p, Claim(w));
    forall i | 0 <= i < p.size ensures q.slots[i].Some? || HeldBy(q, i) <==> i < q.next {
      if HeldBy(p, i) {
        var v :| 0 <= v < |p.workers| && p.workers[v] == Holding(i);
        assert q.workers[v] == Holding(i);
      }
      if i == p.next { assert q.workers[w] == Holding(i); }
      if HeldBy(q, i) {
        var v :| 0 <= v < |q.workers| && q.workers[v] == Holding(i);
        if v != w { assert p.workers[v] == Holding(i); }
      }
    }
  }

  lemma {:induction false} FillKeepsInv(p: Pool, w: nat)
    requires Inv(p) && Enabled(p, Fill(w))
    ensures Inv(Step(p, Fill(w)))
  {
    var q, mine := Step(p, Fill(w)), p.workers[w].index;
    forall i | 0 <= i < p.size ensures q.slots[i].Some? || HeldBy(q, i) <==> i < q.next {
      if HeldBy(p, i) && i != mine {
        var v :| 0 <= v < |p.workers| && p.workers[v] == Holding(i);
        assert q.workers[v] == Holding(i);
      }
      if HeldBy(q, i) {
        var v :| 0 <= v < |q.workers| && q.workers[v] == Holding(i);
        assert p.workers[v] == Holding(i);
      }
    }
  }

  ghost predicate IsRun(states: seq<Pool>, events: seq<Event>, size: nat, workers: nat) {
    && |states| == |events| + 1 && states[0] == Initial(size, workers)
    && forall i {:trigger events[i]} :: 0 <= i < |events| ==> Enabled(states[i], events[i]) && states[i + 1] == Step(states[i], events[i])
  }

  lemma {:induction false} RunKeepsInv(states: seq<Pool>, events: seq<Event>, size: nat, workers: nat, i: nat)
    requires IsRun(states, events, size, workers) && i < |states|
    ensures Inv(states[i]) && states[i].size == size && |states[i].workers| == workers
  {
    if i > 0 {
      RunKeepsInv(states, events, size, workers, i - 1);
      match events[i - 1] {
        case Claim(w) => ClaimKeepsInv(states[i - 1], w);
        case Fill(w) => FillKeepsInv(states[i - 1], w);
      }
    }
  }

  /** When every worker has left, every slot holds the outcome of its own request. */
  lemma {:induction false} EverySlotIsFilled(states: seq<Pool>, events: seq<Event>, size: nat, workers: nat, i: nat)
    requires IsRun(states, events, size, workers) && i < |states| && workers > 0
    requires forall w :: 0 <= w < |states[i].workers| ==> states[i].workers[w].Exited?
    ensures |states[i].slots| == size && forall r :: 0 <= r < size ==> states[i].slots[r] == Some(r)
  {
    RunKeepsInv(states, events, size, workers, i);
    var p := states[i];
    assert p.workers[0].Exited?;
    forall r | 0 <= r < size ensures p.slots[r] == Some(r) {
      assert !HeldBy(p, r);
    }
  }
}
