/**
 * What the frontier's edges mean over a whole recording: an independent
 * characterisation of each edge, equality of the sparse and dense orders, and
 * the exact effect of recordings that fail after the frontier was updated.
 */
module Hazards {
  import opened Accesses
  import opened Frontiers

  /**
   * One recorded operation: the uses it declared, and the uses declared at the
   * same index by attempts that failed before it. The frontier sees both.
   */
  datatype Op = Op(phantom: seq<Use>, uses: seq<Use>) {
    function All(): seq<Use> {
      phantom + uses
    }
  }

  /** Everything the frontier was shown, index by index; the last entry is still open. */
  function Timeline(h: seq<Op>, pending: seq<Use>): seq<seq<Use>> {
    seq(|h|, i requires 0 <= i < |h| => h[i].All()) + [pending]
  }

  // ---------- one byte over one operation ----------

  lemma {:induction false} CoveredStep(uses: seq<Use>, k: nat, a: nat, b: nat)
    requires k < |uses|
    ensures Covered(uses[..k + 1], a, b) <==> Covered(uses[..k], a, b) || uses[k].Covers(a, b)
    ensures WritesAt(uses[..k + 1], a, b) <==> WritesAt(uses[..k], a, b) || (uses[k].Covers(a, b) && uses[k].access.Writes())
  {
  }

  /** The order of an operation's own uses matters neither to its predecessors nor to later ones. */
  lemma {:induction false} FoldOfUses(c: Cell, node: nat, uses: seq<Use>, a: nat, b: nat)
    ensures HazardsAfter(c, node, uses, a, b) - {node} ==
            ((if Covered(uses, a, b) then WriterSet(c) else {}) + (if WritesAt(uses, a, b) then c.readers else {})) - {node}
    ensures WritesAt(uses, a, b) ==>
              CellAfter(c, node, uses, a, b).writer == Some(node) && CellAfter(c, node, uses, a, b).readers <= {node}
    ensures !WritesAt(uses, a, b) ==>
              CellAfter(c, node, uses, a, b) ==
              if Covered(uses, a, b) then Cell(c.writer, c.readers + {node}) else c
    decreases |uses|
  {
    if uses != [] {
      var k := |uses| - 1;
      FoldOfUses(c, node, uses[..k], a, b);
      CoveredStep(uses, k, a, b);
      assert uses[..k + 1] == uses;
      if uses[k].Covers(a, b) {
        var before := CellAfter(c, node, uses[..k], a, b);
        assert HazardsAfter(c, node, uses, a, b) - {node} ==
               (HazardsAfter(c, node, uses[..k], a, b) - {node}) + (Hazards(before, uses[k].access) - {node});
        if WritesAt(uses[..k], a, b) {
          assert Covered(uses[..k], a, b);
        }
      }
    }
  }

  // ---------- one byte over the whole recording ----------

  /** No operation after `i` writes the byte. */
  ghost predicate NoWriterAfter(t: seq<seq<Use>>, i: int, a: nat, b: nat) {
    forall j :: 0 <= j && i < j < |t| ==> !WritesAt(t[j], a, b)
  }

  /** The cell holds the byte's last writer and exactly the readers since. */
  ghost predicate Describes(t: seq<seq<Use>>, a: nat, b: nat, c: Cell) {
    && (c.writer.None? ==> NoWriterAfter(t, -1, a, b))
    && (c.writer.Some? ==> c.writer.value < |t| && WritesAt(t[c.writer.value], a, b) && NoWriterAfter(t, c.writer.value, a, b))
    && (forall r :: r in c.readers ==> r < |t| && Covered(t[r], a, b) && (c.writer.Some? ==> c.writer.value <= r))
    && (forall r :: 0 <= r < |t| && Covered(t[r], a, b) && !WritesAt(t[r], a, b) && NoWriterAfter(t, r, a, b) ==> r in c.readers)
  }

  /** The interval frontier refines the per-byte history of everything it was shown. */
  ghost predicate Refines(segments: map<nat, seq<Segment>>, t: seq<seq<Use>>) {
    forall a: nat, b: nat :: Describes(t, a, b, CellIn(segments, a, b))
  }

  lemma {:induction false} DescribesStep(t: seq<seq<Use>>, uses: seq<Use>, a: nat, b: nat, c: Cell)
    requires |t| > 0 && Describes(t, a, b, c)
    ensures Describes(t[|t| - 1 := t[|t| - 1] + uses], a, b, CellAfter(c, |t| - 1, uses, a, b))
  {
    var k := |t| - 1;
    var t' := t[k := t[k] + uses];
    var c' := CellAfter(c, k, uses, a, b);
    FoldOfUses(c, k, uses, a, b);
    assert Covered(t'[k], a, b) <==> Covered(t[k], a, b) || Covered(uses, a, b);
    assert WritesAt(t'[k], a, b) <==> WritesAt(t[k], a, b) || WritesAt(uses, a, b);
    forall r | 0 <= r < |t'| && Covered(t'[r], a, b) && !WritesAt(t'[r], a, b) && NoWriterAfter(t', r, a, b)
      ensures r in c'.readers
    {
      if r < k {
        assert !WritesAt(t'[k], a, b);
        assert NoWriterAfter(t, r, a, b) by {
          forall j | r < j < |t| ensures !WritesAt(t[j], a, b) { assert !WritesAt(t'[j], a, b); }
        }
      } else if Covered(t[k], a, b) {
        assert NoWriterAfter(t, k, a, b);
      }
    }
  }

  /** Opening the next index shows the frontier nothing. */
  lemma {:induction false} DescribesOpen(t: seq<seq<Use>>, a: nat, b: nat, c: Cell)
    requires Describes(t, a, b, c)
    ensures Describes(t + [[]], a, b, c)
  {
  }

  /** A byte lies in a segment exactly when it has been used. */
  lemma {:induction false} CoveredIffUsed(segments: map<nat, seq<Segment>>, t: seq<seq<Use>>, a: nat, b: nat)
    requires Refines(segments, t)
    requires a in segments ==> WellFormed(segments[a]) && AllUsed(segments[a])
    ensures (a in segments && exists i :: 0 <= i < |segments[a]| && segments[a][i].Has(b))
            <==> exists j :: 0 <= j < |t| && Covered(t[j], a, b)
  {
    var c := CellIn(segments, a, b);
    assert Describes(t, a, b, c);
    if a in segments && exists i :: 0 <= i < |segments[a]| && segments[a][i].Has(b) {
      var i :| 0 <= i < |segments[a]| && segments[a][i].Has(b);
      Lookup(segments[a], i, b);
      if c.writer.Some? {
        assert Covered(t[c.writer.value], a, b);
      } else {
        var r :| r in c.readers;
        assert Covered(t[r], a, b);
      }
    } else {
      assert c == UNUSED;
      if j :| 0 <= j < |t| && Covered(t[j], a, b) {
        assert NoWriterAfter(t, -1, a, b);
        assert !WritesAt(t[j], a, b);
        assert NoWriterAfter(t, j, a, b);
        assert false;
      }
    }
  }

  // ---------- edges ----------

  /** Operation `i` is a direct predecessor of `op` at this byte. */
  ghost predicate HazardAt(h: seq<Op>, i: nat, op: Op, a: nat, b: nat) {
    && i < |h|
    && Covered(op.uses, a, b) && Covered(h[i].All(), a, b)
    && (WritesAt(h[i].All(), a, b) || WritesAt(op.uses, a, b))
    && (forall j :: i < j < |h| ==> !WritesAt(h[j].All(), a, b))
    && !WritesAt(op.phantom, a, b)
  }

  ghost predicate EdgeInto(h: seq<Op>, i: nat, op: Op) {
    exists a: nat, b: nat :: HazardAt(h, i, op, a, b)
  }

  /** The predecessors met at one byte are those with an unshadowed hazard there. */
  lemma {:induction false} EdgeAtByte(h: seq<Op>, pending: seq<Use>, uses: seq<Use>, a: nat, b: nat, c: Cell, d: nat)
    requires Describes(Timeline(h, pending), a, b, c)
    ensures d != |h| && d in HazardsAfter(c, |h|, uses, a, b) <==> HazardAt(h, d, Op(pending, uses), a, b)
  {
    var t, k := Timeline(h, pending), |h|;
    assert forall j :: 0 <= j < k ==> t[j] == h[j].All();
    assert t[k] == pending && |t| == k + 1;
    FoldOfUses(c, k, uses, a, b);
    var met := HazardsAfter(c, k, uses, a, b);
    assert d != k && d in met <==> d in met - {k};
    if HazardAt(h, d, Op(pending, uses), a, b) {
      assert NoWriterAfter(t, d, a, b);
      if WritesAt(t[d], a, b) {
        assert c.writer.Some? && c.writer.value == d;
      }
    }
    if d != k && d in met {
      assert NoWriterAfter(t, d, a, b);
      forall j | d < j < k ensures !WritesAt(h[j].All(), a, b) { assert !WritesAt(t[j], a, b); }
      assert !WritesAt(t[k], a, b);
      assert HazardAt(h, d, Op(pending, uses), a, b);
    }
  }

  /** What `Frontier.Dependencies` returns is exactly the set of edges. */
  lemma {:induction false} ReturnedEdges(segments: map<nat, seq<Segment>>, h: seq<Op>, pending: seq<Use>, uses: seq<Use>, d: nat)
    requires Refines(segments, Timeline(h, pending))
    ensures (d != |h| && exists a: nat, b: nat :: d in HazardsAfter(CellIn(segments, a, b), |h|, uses, a, b))
            <==> EdgeInto(h, d, Op(pending, uses))
  {
    forall a: nat, b: nat
      ensures d != |h| && d in HazardsAfter(CellIn(segments, a, b), |h|, uses, a, b) <==> HazardAt(h, d, Op(pending, uses), a, b)
    {
      EdgeAtByte(h, pending, uses, a, b, CellIn(segments, a, b), d);
    }
  }

  lemma {:induction false} SameUsesSameBytes(x: seq<Use>, y: seq<Use>, a: nat, b: nat)
    requires forall u :: u in x <==> u in y
    ensures Covered(x, a, b) <==> Covered(y, a, b)
    ensures WritesAt(x, a, b) <==> WritesAt(y, a, b)
  {
  }

  /** Edges into an operation do not depend on the order of its own uses. */
  lemma {:induction false} EdgesIgnoreUseOrder(h: seq<Op>, i: nat, phantom: seq<Use>, x: seq<Use>, y: seq<Use>)
    requires forall u :: u in x <==> u in y
    ensures EdgeInto(h, i, Op(phantom, x)) <==> EdgeInto(h, i, Op(phantom, y))
  {
    forall a: nat, b: nat ensures HazardAt(h, i, Op(phantom, x), a, b) <==> HazardAt(h, i, Op(phantom, y), a, b) {
      SameUsesSameBytes(x, y, a, b);
    }
  }

  /** Nor do edges into later operations depend on it. */
  lemma {:induction false} LaterEdgesIgnoreUseOrder(h: seq<Op>, i: nat, op: Op, k: nat, y: seq<Use>)
    requires k < |h| && forall u :: u in h[k].uses <==> u in y
    ensures EdgeInto(h, i, op) <==> EdgeInto(h[k := h[k].(uses := y)], i, op)
  {
    var h' := h[k := h[k].(uses := y)];
    forall a: nat, b: nat ensures HazardAt(h, i, op, a, b) <==> HazardAt(h', i, op, a, b) {
      SameUsesSameBytes(h[k].All(), h'[k].All(), a, b);
      assert forall j :: 0 <= j < |h| ==> (WritesAt(h[j].All(), a, b) <==> WritesAt(h'[j].All(), a, b));
    }
  }

  // ---------- sparse against dense order ----------

  /** For each node its set of predecessors, all of them earlier. */
  type Predecessors = seq<set<nat>>

  ghost predicate Reaches(preds: Predecessors, i: nat, m: nat)
    decreases m
  {
    i < m < |preds| && (i in preds[m] || exists p :: p in preds[m] && p < m && Reaches(preds, i, p))
  }

  ghost function Sparse(h: seq<Op>): (preds: Predecessors)
    ensures |preds| == |h|
  {
    seq(|h|, m requires 0 <= m < |h| => set i: nat | i < m && EdgeInto(h[..m], i, h[m]))
  }

  ghost function Dense(h: seq<Op>): (preds: Predecessors)
    ensures |preds| == |h|
  {
    seq(|h|, m requires 0 <= m < |h| => set i: nat | i < m && Conflict(h[i].uses, h[m].uses))
  }

  lemma {:induction false} ReachesTransitive(preds: Predecessors, i: nat, j: nat, m: nat)
    requires Reaches(preds, i, j) && Reaches(preds, j, m)
    ensures Reaches(preds, i, m)
    decreases m
  {
    if j !in preds[m] {
      var p :| p in preds[m] && p < m && Reaches(preds, j, p);
      ReachesTransitive(preds, i, j, p);
    }
  }

  /** If every edge of one graph is a path of another, so is every path. */
  lemma {:induction false} ReachesMonotone(x: Predecessors, y: Predecessors, i: nat, m: nat)
    requires forall j: nat, n: nat :: j < n < |x| && j in x[n] ==> Reaches(y, j, n)
    requires Reaches(x, i, m)
    ensures Reaches(y, i, m)
    decreases m
  {
    if i !in x[m] {
      var p :| p in x[m] && p < m && Reaches(x, i, p);
      ReachesMonotone(x, y, i, p);
      ReachesTransitive(y, i, p, m);
    }
  }

  /** No failed attempt declared a write to a byte that an earlier recorded operation used. */
  ghost predicate Harmless(h: seq<Op>) {
    forall k :: 0 <= k < |h| ==> HarmlessAt(h[..k], h[k].phantom)
  }

  ghost predicate HarmlessAt(h: seq<Op>, phantom: seq<Use>) {
    forall i, a: nat, b: nat :: 0 <= i < |h| && Covered(h[i].uses, a, b) ==> !WritesAt(phantom, a, b)
  }

  /** Every recording attempt succeeded. */
  ghost predicate Clean(h: seq<Op>) {
    forall k :: 0 <= k < |h| ==> h[k].phantom == []
  }

  /** Every pair of operations that share a byte with a writer is ordered by the returned edges. */
  ghost predicate AllOrdered(h: seq<Op>) {
    forall i: nat, m: nat :: i < m < |h| && Conflict(h[i].uses, h[m].uses) ==> Reaches(Sparse(h), i, m)
  }

  lemma {:induction false} HazardIsOrdered(h: seq<Op>, i: nat, m: nat, a: nat, b: nat)
    requires Harmless(h) && i < m < |h|
    requires Covered(h[i].uses, a, b) && Covered(h[m].uses, a, b)
    requires WritesAt(h[i].uses, a, b) || WritesAt(h[m].uses, a, b)
    ensures Reaches(Sparse(h), i, m)
    decreases m - i
  {
    assert HarmlessAt(h[..m], h[m].phantom) && h[..m][i] == h[i];
    if j :| i < j < m && WritesAt(h[j].All(), a, b) {
      assert HarmlessAt(h[..j], h[j].phantom) && h[..j][i] == h[i];
      assert !WritesAt(h[j].phantom, a, b);
      var u :| u in h[j].All() && u.Covers(a, b) && u.access.Writes();
      assert u in h[j].uses;
      assert WritesAt(h[j].uses, a, b) && Covered(h[j].uses, a, b);
      HazardIsOrdered(h, i, j, a, b);
      HazardIsOrdered(h, j, m, a, b);
      ReachesTransitive(Sparse(h), i, j, m);
    } else {
      assert HazardAt(h[..m], i, h[m], a, b);
      assert i in Sparse(h)[m];
    }
  }

  /** Every hazard is ordered, as long as failed attempts were harmless. */
  lemma {:induction false} HazardsAreOrdered(h: seq<Op>)
    requires Harmless(h)
    ensures AllOrdered(h)
  {
    forall i: nat, m: nat | i < m < |h| && Conflict(h[i].uses, h[m].uses) ensures Reaches(Sparse(h), i, m) {
      var a: nat, b: nat :| Covered(h[i].uses, a, b) && Covered(h[m].uses, a, b)
                            && (WritesAt(h[i].uses, a, b) || WritesAt(h[m].uses, a, b));
      HazardIsOrdered(h, i, m, a, b);
    }
  }

  lemma {:induction false} SparseEdgeIsConflict(h: seq<Op>, i: nat, m: nat)
    requires Clean(h) && i < m < |h| && i in Sparse(h)[m]
    ensures Conflict(h[i].uses, h[m].uses)
  {
  }

  /** The sparse edges and the dense hazard graph have the same transitive closure. */
  lemma {:induction false} SparseOrderIsDenseOrder(h: seq<Op>, i: nat, m: nat)
    requires Clean(h)
    ensures Reaches(Sparse(h), i, m) <==> Reaches(Dense(h), i, m)
  {
    HazardsAreOrdered(h);
    if Reaches(Sparse(h), i, m) {
      forall j: nat, n: nat | j < n < |h| && j in Sparse(h)[n] ensures Reaches(Dense(h), j, n) {
        SparseEdgeIsConflict(h, j, n);
      }
      ReachesMonotone(Sparse(h), Dense(h), i, m);
    }
    if Reaches(Dense(h), i, m) {
      ReachesMonotone(Dense(h), Sparse(h), i, m);
    }
  }

  // ---------- failed recordings ----------

  lemma {:induction false} AppendKeepsHarmless(h: seq<Op>, op: Op)
    requires Harmless(h)
    ensures Harmless(h + [op]) <==> HarmlessAt(h, op.phantom)
  {
    var h' := h + [op];
    assert forall k :: 0 <= k < |h| ==> h'[..k] == h[..k];
    assert h'[..|h|] == h && h'[|h|] == op;
  }

  /**
   * A failed attempt leaves its uses in the frontier. Whatever is recorded next
   * at that index, hazards stay ordered if and only if the failed attempt
   * declared no write to a byte used by the operations recorded so far.
   */
  lemma {:induction false} OrderSurvivesFailureIff(h: seq<Op>, phantom: seq<Use>)
    requires Harmless(h)
    ensures HarmlessAt(h, phantom) <==> forall uses :: AllOrdered(h + [Op(phantom, uses)])
  {
    if HarmlessAt(h, phantom) {
      forall uses ensures AllOrdered(h + [Op(phantom, uses)]) {
        AppendKeepsHarmless(h, Op(phantom, uses));
        HazardsAreOrdered(h + [Op(phantom, uses)]);
      }
    } else {
      var i, a: nat, b: nat :| 0 <= i < |h| && Covered(h[i].uses, a, b) && WritesAt(phantom, a, b);
      FailedWriteLosesHazard(h, phantom, i, a, b);
    }
  }

  /** The next operation to write a byte hidden by a failed write gets no predecessor at all. */
  lemma {:induction false} FailedWriteLosesHazard(h: seq<Op>, phantom: seq<Use>, i: nat, a: nat, b: nat)
    requires i < |h| && Covered(h[i].uses, a, b) && WritesAt(phantom, a, b)
    ensures var retry := [Use(a, b, b + 1, Write)];
            && Conflict(h[i].uses, retry)
            && Sparse(h + [Op(phantom, retry)])[|h|] == {}
            && !AllOrdered(h + [Op(phantom, retry)])
  {
    var retry := [Use(a, b, b + 1, Write)];
    var op := Op(phantom, retry);
    var h' := h + [op];
    assert h'[..|h|] == h && h'[|h|] == op;
    assert retry[0].Covers(a, b) && retry[0].access.Writes();
    assert Covered(retry, a, b) && WritesAt(retry, a, b);
    forall d: nat ensures !EdgeInto(h, d, op) {
      forall x: nat, y: nat ensures !HazardAt(h, d, op, x, y) {
        if Covered(retry, x, y) { assert x == a && y == b; }
      }
    }
    assert Sparse(h')[|h|] == {};
    assert !Reaches(Sparse(h'), i, |h|);
    assert Conflict(h'[i].uses, h'[|h|].uses);
  }
}
