/**
 * From a recorded history to the meaning of what is emitted for it, and exactly
 * how much a failed recording may declare before that meaning is lost.
 */
module Meanings {
  import opened Accesses
  import opened Hazards
  import opened Graphs
  import opened Execution

  type Command = seq<Use>

  // ---------- what is emitted for a history ----------

  ghost function EdgesInto(h: seq<Op>, op: Op): set<nat> {
    set i: nat | i < |h| && EdgeInto(h, i, op)
  }

  /** The graph recorded for a history: each operation with its largest inferred predecessor. */
  ghost function NodesFor(h: seq<Op>): (nodes: seq<Entry<Command>>)
    ensures |nodes| == |h|
  {
    if h == [] then []
    else
      var before, op := h[..|h| - 1], h[|h| - 1];
      var edges := EdgesInto(before, op);
      NodesFor(before) + [Entry(Prepared(op.uses), if edges == {} then None else Some(Largest(edges)))]
  }

  lemma {:induction false} NodesForPrefix(h: seq<Op>, k: nat)
    requires k <= |h|
    ensures NodesFor(h)[..k] == NodesFor(h[..k])
  {
    if k < |h| {
      var before := h[..|h| - 1];
      NodesForPrefix(before, k);
      assert before[..k] == h[..k];
      assert NodesFor(h)[..k] == NodesFor(before)[..k];
    } else {
      assert h[..k] == h;
    }
  }

  lemma {:induction false} NodesForAt(h: seq<Op>, m: nat)
    requires m < |h|
    ensures NodesFor(h)[m].recorded == Prepared(h[m].uses)
    ensures NodesFor(h)[m].dependency == if Sparse(h)[m] == {} then None else Some(Largest(Sparse(h)[m]))
  {
    NodesForPrefix(h, m + 1);
    var upto := h[..m + 1];
    assert upto[..m] == h[..m] && NodesFor(h)[m] == NodesFor(h)[..m + 1][m];
    assert EdgesInto(h[..m], h[m]) == Sparse(h)[m];
  }

  /** It is the one graph whose nodes carry the operations and their inferred edges. */
  lemma {:induction false} NodesAreForHistory(nodes: seq<Entry<Command>>, h: seq<Op>)
    requires |nodes| == |h| && Linked(nodes, Sparse(h)) && forall i :: 0 <= i < |nodes| ==> nodes[i].recorded == Prepared(h[i].uses)
    ensures nodes == NodesFor(h)
  {
    forall m | 0 <= m < |h| ensures nodes[m] == NodesFor(h)[m] {
      NodesForAt(h, m);
    }
  }

  /** Barriers of a prefix do not depend on what follows. */
  lemma {:induction false} BarrierPrefix(x: seq<Entry<Command>>, y: seq<Entry<Command>>, m: nat)
    requires |x| <= |y| && x == y[..|x|] && m <= |x|
    ensures Completed(x, m) == Completed(y, m)
    ensures m < |x| ==> (Barrier(x, m) <==> Barrier(y, m))
  {
    if m > 0 {
      BarrierPrefix(x, y, m - 1);
    }
  }

  /** The emitted list: every operation in order, with its barrier flag. */
  ghost predicate IsEmitted(h: seq<Op>, ordered: seq<Flagged>) {
    |ordered| == |h| && forall p :: 0 <= p < |h| ==> ordered[p] == (h[p].uses, Barrier(NodesFor(h), p))
  }

  ghost function EmittedFor(h: seq<Op>): (ordered: seq<Flagged>)
    ensures IsEmitted(h, ordered)
  {
    seq(|h|, p requires 0 <= p < |h| => (h[p].uses, Barrier(NodesFor(h), p)))
  }

  lemma {:induction false} EmittedIsOne(h: seq<Op>, x: seq<Flagged>, y: seq<Flagged>)
    requires IsEmitted(h, x) && IsEmitted(h, y)
    ensures x == y
  {
  }

  // ---------- failed attempts since the last barrier ----------

  /** The last command before `n` that got a barrier, or 0. */
  ghost function LastBarrier(h: seq<Op>): nat {
    Completed(NodesFor(h), |h|)
  }

  /** The failed attempt declares no write to a byte used since the last barrier. */
  ghost predicate SafeRetry(h: seq<Op>, phantom: seq<Use>) {
    forall i, a: nat, b: nat :: LastBarrier(h) <= i < |h| && Covered(h[i].uses, a, b) ==> !WritesAt(phantom, a, b)
  }

  /** Every failed attempt was safe when it was made. */
  ghost predicate SafeHistory(h: seq<Op>) {
    forall k :: 0 <= k < |h| ==> SafeRetry(h[..k], h[k].phantom)
  }

  /** In particular attempts that wrote nothing in use, and runs without failures. */
  lemma {:induction false} HarmlessIsSafe(h: seq<Op>)
    requires Harmless(h)
    ensures SafeHistory(h)
  {
    forall k | 0 <= k < |h| ensures SafeRetry(h[..k], h[k].phantom) {
      assert HarmlessAt(h[..k], h[k].phantom);
    }
  }

  lemma {:induction false} SafePrefix(h: seq<Op>, k: nat)
    requires SafeHistory(h) && k <= |h|
    ensures SafeHistory(h[..k])
  {
    forall m | 0 <= m < k ensures SafeRetry(h[..k][..m], h[..k][m].phantom) {
      assert h[..k][..m] == h[..m];
    }
  }

  lemma {:induction false} SafeAppend(h: seq<Op>, op: Op)
    requires SafeHistory(h) && SafeRetry(h, op.phantom)
    ensures SafeHistory(h + [op])
  {
    var h' := h + [op];
    forall m | 0 <= m < |h'| ensures SafeRetry(h'[..m], h'[m].phantom) {
      if m < |h| {
        assert h'[..m] == h[..m];
      } else {
        assert h'[..m] == h;
      }
    }
  }

  // ---------- safe histories keep their meaning ----------

  lemma {:induction false} CompletedGrows<C>(nodes: seq<Entry<C>>, k: nat, n: nat)
    requires k <= n <= |nodes|
    ensures Completed(nodes, k) <= Completed(nodes, n)
  {
    if k < n {
      CompletedGrows(nodes, k, n - 1);
    }
  }

  lemma {:induction false} NoBarrierSince<C>(nodes: seq<Entry<C>>, c: nat, n: nat)
    requires n <= |nodes| && Completed(nodes, n) < c < n
    ensures !Barrier(nodes, c)
  {
    if c < n - 1 {
      NoBarrierSince(nodes, c, n - 1);
    }
  }

  /** Since the last barrier before `q`, no failed attempt has hidden operation `p`. */
  lemma {:induction false} NotHidden(h: seq<Op>, p: nat, k: nat, q: nat, a: nat, b: nat)
    requires SafeHistory(h) && p < k <= q < |h| && Completed(NodesFor(h), q) <= p && Covered(h[p].uses, a, b)
    ensures !WritesAt(h[k].phantom, a, b)
  {
    NodesForPrefix(h, k);
    BarrierPrefix(NodesFor(h[..k]), NodesFor(h), k);
    CompletedGrows(NodesFor(h), k, q);
    assert SafeRetry(h[..k], h[k].phantom) && h[..k][p] == h[p];
  }

  lemma {:induction false} LastWriter(h: seq<Op>, p: nat, q: nat, a: nat, b: nat) returns (d: nat)
    requires p < q <= |h|
    ensures p <= d < q && (d == p || WritesAt(h[d].uses, a, b))
    ensures forall j :: d < j < q ==> !WritesAt(h[j].uses, a, b)
  {
    d := q - 1;
    while d > p && !WritesAt(h[d].uses, a, b)
      invariant p <= d < q && forall j :: d < j < q ==> !WritesAt(h[j].uses, a, b)
    {
      d := d - 1;
    }
  }

  lemma {:induction false} AllCovers(op: Op, a: nat, b: nat)
    ensures Covered(op.uses, a, b) ==> Covered(op.All(), a, b)
    ensures WritesAt(op.All(), a, b) <==> WritesAt(op.uses, a, b) || WritesAt(op.phantom, a, b)
  {
  }

  /** So a conflict since the last barrier has an edge that is recent enough to make a new one. */
  lemma {:induction false} RecentEdge(h: seq<Op>, p: nat, q: nat, a: nat, b: nat) returns (d: nat)
    requires SafeHistory(h) && p < q < |h| && Completed(NodesFor(h), q) <= p
    requires Covered(h[p].uses, a, b) && Covered(h[q].uses, a, b) && (WritesAt(h[p].uses, a, b) || WritesAt(h[q].uses, a, b))
    ensures p <= d < q && EdgeInto(h[..q], d, h[q])
  {
    d := LastWriter(h, p, q, a, b);
    AllCovers(h[p], a, b);
    AllCovers(h[d], a, b);
    assert WritesAt(h[d].uses, a, b) ==> Covered(h[d].uses, a, b);
    forall j | d < j < q ensures !WritesAt(h[..q][j].All(), a, b) {
      AllCovers(h[j], a, b);
      NotHidden(h, p, j, q, a, b);
    }
    NotHidden(h, p, q, q, a, b);
    assert HazardAt(h[..q], d, h[q], a, b);
  }

  lemma {:induction false} ConflictIsSeparated(h: seq<Op>, p: nat, q: nat)
    requires SafeHistory(h) && p < q < |h| && Conflict(h[p].uses, h[q].uses)
    ensures exists c :: p < c <= q && Barrier(NodesFor(h), c)
  {
    var nodes := NodesFor(h);
    if Completed(nodes, q) <= p {
      var a: nat, b: nat :| Covered(h[p].uses, a, b) && Covered(h[q].uses, a, b) && (WritesAt(h[p].uses, a, b) || WritesAt(h[q].uses, a, b));
      var d := RecentEdge(h, p, q, a, b);
      NodesForAt(h, q);
      assert d in Sparse(h)[q];
      assert Barrier(nodes, q);
    } else {
      CompletedIsBarrier(nodes, q);
    }
  }

  lemma {:induction false} SafeSeparates(h: seq<Op>)
    requires SafeHistory(h)
    ensures HazardsSeparated(EmittedFor(h))
  {
    var ordered := EmittedFor(h);
    forall p, q | 0 <= p < q < |ordered| && Conflict(ordered[p].0, ordered[q].0) ensures BarrierBetween(ordered, p, q) {
      ConflictIsSeparated(h, p, q);
      var c :| p < c <= q && Barrier(NodesFor(h), c);
      assert ordered[c].1;
    }
  }

  /** A history whose failed attempts were safe keeps its meaning under every schedule the barriers admit. */
  lemma {:induction false} SafeKeepsMeaning(h: seq<Op>)
    requires SafeHistory(h)
    ensures HazardsSeparated(EmittedFor(h)) && PreservesMeaning(EmittedFor(h))
  {
    SafeSeparates(h);
    SeparationIsMeaning(EmittedFor(h));
  }

  // ---------- and only they do ----------

  ghost predicate AnyRetryKeepsMeaning(h: seq<Op>, phantom: seq<Use>) {
    forall uses :: PreservesMeaning(EmittedFor(h + [Op(phantom, uses)]))
  }

  lemma {:induction false} UnsafeRetryIsVisible(h: seq<Op>, phantom: seq<Use>, i: nat, a: nat, b: nat)
    requires LastBarrier(h) <= i < |h| && Covered(h[i].uses, a, b) && WritesAt(phantom, a, b)
    ensures !PreservesMeaning(EmittedFor(h + [Op(phantom, [Use(a, b, b + 1, Write)])]))
  {
    var retry := [Use(a, b, b + 1, Write)];
    var h', n := h + [Op(phantom, retry)], |h|;
    FailedWriteLosesHazard(h, phantom, i, a, b);
    NodesForAt(h', n);
    NodesForPrefix(h', n);
    assert h'[..n] == h;
    BarrierPrefix(NodesFor(h), NodesFor(h'), n);
    RetryHasNoBarrier(h', i);
    MissingBarrierIsVisible(EmittedFor(h'), i, n);
  }

  lemma {:induction false} RetryHasNoBarrier(h: seq<Op>, i: nat)
    requires h != [] && Completed(NodesFor(h), |h| - 1) <= i < |h| - 1 && NodesFor(h)[|h| - 1].dependency == None
    ensures !BarrierBetween(EmittedFor(h), i, |h| - 1)
  {
    var nodes, n := NodesFor(h), |h| - 1;
    forall c | i < c <= n ensures !Barrier(nodes, c) {
      if c < n {
        NoBarrierSince(nodes, c, n);
      }
    }
  }

  /**
   * After a safe history and a failed attempt, whatever is recorded next keeps the
   * meaning if and only if the failed attempt declared no write to a byte used since
   * the last barrier.
   */
  lemma {:induction false} MeaningSurvivesFailureIff(h: seq<Op>, phantom: seq<Use>)
    requires SafeHistory(h)
    ensures SafeRetry(h, phantom) <==> AnyRetryKeepsMeaning(h, phantom)
  {
    if SafeRetry(h, phantom) {
      forall uses ensures PreservesMeaning(EmittedFor(h + [Op(phantom, uses)])) {
        SafeAppend(h, Op(phantom, uses));
        SafeKeepsMeaning(h + [Op(phantom, uses)]);
      }
    } else {
      var i, a: nat, b: nat :| LastBarrier(h) <= i < |h| && Covered(h[i].uses, a, b) && WritesAt(phantom, a, b);
      UnsafeRetryIsVisible(h, phantom, i, a, b);
    }
  }

  lemma {:induction false} NextIsSafe(h: seq<Op>, k: nat)
    requires k < |h| && SafeHistory(h[..k]) && AnyRetryKeepsMeaning(h[..k], h[k].phantom)
    ensures SafeHistory(h[..k + 1])
  {
    MeaningSurvivesFailureIff(h[..k], h[k].phantom);
    SafeAppend(h[..k], h[k]);
    assert h[..k + 1] == h[..k] + [h[k]];
  }

  lemma {:induction false} SafeAtEveryStep(h: seq<Op>, k: nat)
    requires SafeHistory(h) && k < |h|
    ensures AnyRetryKeepsMeaning(h[..k], h[k].phantom)
  {
    SafePrefix(h, k);
    MeaningSurvivesFailureIff(h[..k], h[k].phantom);
  }

  /** No failed attempt could have cost the meaning, whatever had been recorded next. */
  ghost predicate NoneCostsMeaning(h: seq<Op>) {
    forall k :: 0 <= k < |h| ==> AnyRetryKeepsMeaning(h[..k], h[k].phantom)
  }

  lemma {:induction false} NoneCostsIsSafe(h: seq<Op>)
    requires NoneCostsMeaning(h)
    ensures SafeHistory(h)
  {
    assert h[..|h|] == h;
    for k := 0 to |h|
      invariant SafeHistory(h[..k])
    {
      NextIsSafe(h, k);
    }
  }

  /** Over whole histories: every failed attempt was safe exactly when none could have cost the meaning. */
  lemma {:induction false} SafeHistoryIff(h: seq<Op>)
    ensures SafeHistory(h) <==> NoneCostsMeaning(h)
  {
    if SafeHistory(h) {
      forall k | 0 <= k < |h| ensures AnyRetryKeepsMeaning(h[..k], h[k].phantom) {
        SafeAtEveryStep(h, k);
      }
    }
    if NoneCostsMeaning(h) {
      NoneCostsIsSafe(h);
    }
  }
}
