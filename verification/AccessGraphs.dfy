/** Graphs whose edges are inferred from the byte ranges each operation declares. */
module AccessGraphs {
  import opened Accesses
  import opened Frontiers
  import opened Hazards
  import opened Graphs
  import opened Execution
  import opened Meanings

  /** A bound range of one buffer. */
  datatype View = View(owner: nat, offset: nat, len: nat) {
    function Used(access: Access): Use {
      var end := offset + len;
      Use(owner, offset, if end <= USIZE_MAX then end else USIZE_MAX, access)
    }
  }

  /** The graph nodes behind frontier indices. */
  function NodesAt(nodes: seq<Node>, found: seq<nat>): (r: seq<Node>)
    requires forall k :: 0 <= k < |found| ==> found[k] < |nodes|
    ensures |r| == |found| && forall k :: 0 <= k < |r| ==> r[k] == nodes[found[k]]
  {
    if found == [] then [] else [nodes[found[0]]] + NodesAt(nodes, found[1..])
  }

  class AccessGraph {
    /** In this model a command is the list of uses it declares. */
    const graph: Graph<seq<Use>>
    const frontier: Frontier
    var nodes: seq<Node>
    ghost var history: seq<Op>
    ghost var pending: seq<Use>

    ghost predicate Valid()
      reads this, graph, frontier
    {
      && graph.Valid() && frontier.Valid()
      && |nodes| == |history| == |graph.nodes|
      && (forall i :: 0 <= i < |nodes| ==> nodes[i] == Node(graph.id, i))
      && (forall i :: 0 <= i < |nodes| ==> graph.nodes[i].recorded == Prepared(history[i].uses))
      && graph.after == Sparse(history)
      && Refines(frontier.segments, Timeline(history, pending))
    }

    constructor (id: nat)
      ensures Valid() && history == [] && pending == []
      ensures fresh(graph) && fresh(frontier)
    {
      graph := new Graph(id);
      frontier := new Frontier();
      nodes, history, pending := [], [], [];
      new;
      forall a: nat, b: nat ensures Describes(Timeline([], []), a, b, CellIn(map[], a, b)) {
      }
    }

    /** The nodes the new uses depend on. The frontier describes the uses from now on, recorded or not. */
    method Infer(uses: seq<Use>) returns (predecessors: seq<Node>)
      requires Valid()
      modifies frontier
      ensures frontier.Valid() && Refines(frontier.segments, Timeline(history, pending + uses))
      ensures Refines(frontier.segments, Timeline(history + [Op(pending, uses)], []))
      ensures forall n :: n in predecessors ==> n.graph == graph.id && n.index < |nodes|
      ensures Sparse(history) + [set n | n in predecessors :: n.index] == Sparse(history + [Op(pending, uses)])
    {
      ghost var was := frontier.segments;
      var found := frontier.Dependencies(|nodes|, uses);
      FoundAreEdges(was, history, pending, uses, found);
      FrontierAdvances(was, frontier.segments, history, pending, uses);
      predecessors := NodesAt(nodes, found);
      PredecessorsAreSparse(history, Op(pending, uses), graph.id, found, predecessors);
    }

    /**
     * Infer the predecessors, then record. The frontier is updated before the
     * recording can fail, so a failed attempt leaves its uses behind as phantoms.
     */
    method Operate(uses: seq<Use>, accepted: bool) returns (r: Result<Node>)
      requires Valid()
      modifies this, graph, frontier
      ensures Valid()
      ensures r.Ok? <==> accepted && |old(history)| < U32_MAX
      ensures r.Ok? ==> r.value == Node(graph.id, |old(history)|)
                        && history == old(history) + [Op(old(pending), uses)] && pending == []
      ensures r.Err? ==> history == old(history) && pending == old(pending) + uses
    {
      var predecessors := Infer(uses);
      r := graph.AddCommand(predecessors, if accepted then Some(uses) else None);
      if r.Ok? {
        nodes := nodes + [r.value];
        history := history + [Op(pending, uses)];
        pending := [];
      } else {
        pending := pending + uses;
      }
    }

    method Fill(destination: View, accepted: bool) returns (r: Result<Node>)
      requires Valid()
      modifies this, graph, frontier
      ensures Valid()
      ensures r.Ok? <==> accepted && destination.len > 0 && |old(history)| < U32_MAX
      ensures var uses := [destination.Used(Write)];
              if r.Ok? then history == old(history) + [Op(old(pending), uses)] && pending == []
              else history == old(history) && pending == old(pending) + uses
    {
      r := Operate([destination.Used(Write)], accepted && destination.len > 0);
    }

    method Copy(destination: View, source: View, accepted: bool) returns (r: Result<Node>)
      requires Valid()
      modifies this, graph, frontier
      ensures Valid()
      ensures r.Ok? <==> accepted && destination.len == source.len > 0 && |old(history)| < U32_MAX
      ensures var uses := [source.Used(Read), destination.Used(Write)];
              if r.Ok? then history == old(history) + [Op(old(pending), uses)] && pending == []
              else history == old(history) && pending == old(pending) + uses
    {
      r := Operate([source.Used(Read), destination.Used(Write)], accepted && destination.len == source.len > 0);
    }

    method Dispatch(bindings: seq<(View, Access)>, accepted: bool) returns (r: Result<Node>)
      requires Valid()
      modifies this, graph, frontier
      ensures Valid()
      ensures r.Ok? <==> accepted && |old(history)| < U32_MAX
      ensures var uses := seq(|bindings|, k requires 0 <= k < |bindings| => bindings[k].0.Used(bindings[k].1));
              if r.Ok? then history == old(history) + [Op(old(pending), uses)] && pending == []
              else history == old(history) && pending == old(pending) + uses
    {
      var uses := seq(|bindings|, k requires 0 <= k < |bindings| => bindings[k].0.Used(bindings[k].1));
      r := Operate(uses, accepted);
    }

    /**
     * One command per recorded operation. The barriers separate every hazard, so
     * any interleaving they allow leaves memory as running in recording order does.
     */
    method Finish() returns (ordered: seq<(seq<Use>, bool)>)
      requires Valid()
      ensures Faithful(history, ordered)
    {
      ordered := graph.Finish();
      EmittedIsFaithful(graph.nodes, history, ordered);
    }
  }

  /**
   * One command per recorded operation, in order, with no barrier where no
   * predecessor was found; and if failed attempts were safe, every hazard is
   * separated and every schedule the barriers admit keeps the recorded meaning.
   */
  ghost predicate Faithful(h: seq<Op>, ordered: seq<(seq<Use>, bool)>) {
    && IsEmitted(h, ordered)
    && (forall p :: 0 <= p < |h| && Sparse(h)[p] == {} ==> !ordered[p].1)
    && (SafeHistory(h) ==> HazardsSeparated(ordered) && PreservesMeaning(ordered))
  }

  lemma {:induction false} EmittedMeans(h: seq<Op>, ordered: seq<(seq<Use>, bool)>)
    requires IsEmitted(h, ordered)
    ensures SafeHistory(h) ==> HazardsSeparated(ordered) && PreservesMeaning(ordered)
  {
    EmittedIsOne(h, ordered, EmittedFor(h));
    if SafeHistory(h) {
      SafeKeepsMeaning(h);
    }
  }

  lemma {:induction false} EmittedIsFaithful(nodes: seq<Entry<seq<Use>>>, h: seq<Op>, ordered: seq<(seq<Use>, bool)>)
    requires Emitted(nodes, |nodes|, ordered) && |nodes| == |h| && Linked(nodes, Sparse(h))
    requires forall i :: 0 <= i < |nodes| ==> nodes[i].recorded == Prepared(h[i].uses)
    ensures Faithful(h, ordered)
  {
    EmittedInOrder(nodes, h, ordered);
    NodesAreForHistory(nodes, h);
    EmittedMeans(h, ordered);
  }

  /** Without joins the emitted list is the history, each operation with its barrier flag. */
  lemma {:induction false} EmittedInOrder(nodes: seq<Entry<seq<Use>>>, h: seq<Op>, ordered: seq<(seq<Use>, bool)>)
    requires Emitted(nodes, |nodes|, ordered) && |nodes| == |h| && Linked(nodes, Sparse(h))
    requires forall i :: 0 <= i < |nodes| ==> nodes[i].recorded == Prepared(h[i].uses)
    ensures |ordered| == |h| && forall p :: 0 <= p < |h| ==> ordered[p] == (h[p].uses, Barrier(nodes, p))
    ensures forall p :: 0 <= p < |h| && Sparse(h)[p] == {} ==> !ordered[p].1
  {
    CommandsAreDense(nodes, |nodes|);
  }

  /** Every returned index is an inferred edge from an earlier operation. */
  lemma {:induction false} FoundAreEdges(was: map<nat, seq<Segment>>, h: seq<Op>, pending: seq<Use>, uses: seq<Use>, found: seq<nat>)
    requires Refines(was, Timeline(h, pending))
    requires forall d :: d in found <==>
                         d != |h| && exists a: nat, b: nat :: d in HazardsAfter(CellIn(was, a, b), |h|, uses, a, b)
    ensures forall d: nat :: d in found <==> EdgeInto(h, d, Op(pending, uses))
    ensures forall k :: 0 <= k < |found| ==> found[k] < |h|
  {
    forall d: nat ensures d in found <==> EdgeInto(h, d, Op(pending, uses)) {
      ReturnedEdges(was, h, pending, uses, d);
    }
    forall k | 0 <= k < |found| ensures found[k] < |h| {
      assert found[k] in found && EdgeInto(h, found[k], Op(pending, uses));
    }
  }

  /** The updated frontier describes the history with the new uses, whether or not the recording succeeds. */
  lemma {:induction false} FrontierAdvances(was: map<nat, seq<Segment>>, now: map<nat, seq<Segment>>,
                                            h: seq<Op>, pending: seq<Use>, uses: seq<Use>)
    requires Refines(was, Timeline(h, pending))
    requires forall a: nat, b: nat :: CellIn(now, a, b) == CellAfter(CellIn(was, a, b), |h|, uses, a, b)
    ensures Refines(now, Timeline(h, pending + uses))
    ensures Refines(now, Timeline(h + [Op(pending, uses)], []))
  {
    var t, after := Timeline(h, pending), Timeline(h, pending + uses);
    assert after == t[|t| - 1 := t[|t| - 1] + uses];
    assert Timeline(h + [Op(pending, uses)], []) == after + [[]];
    forall a: nat, b: nat ensures Describes(after, a, b, CellIn(now, a, b)) && Describes(after + [[]], a, b, CellIn(now, a, b)) {
      DescribesStep(t, uses, a, b, CellIn(was, a, b));
      DescribesOpen(after, a, b, CellIn(now, a, b));
    }
  }

  lemma {:induction false} PredecessorsAreSparse(h: seq<Op>, op: Op, id: nat, found: seq<nat>, predecessors: seq<Node>)
    requires |predecessors| == |found|
    requires forall k :: 0 <= k < |found| ==> predecessors[k] == Node(id, found[k])
    requires forall d: nat :: d in found <==> EdgeInto(h, d, op)
    ensures Sparse(h) + [set n | n in predecessors :: n.index] == Sparse(h + [op])
  {
    var h' := h + [op];
    assert h'[..|h|] == h && h'[|h|] == op;
    forall m | 0 <= m < |h| ensures Sparse(h)[m] == Sparse(h')[m] {
      assert h'[..m] == h[..m];
    }
    var indices := set n | n in predecessors :: n.index;
    forall d: nat ensures d in indices <==> d in Sparse(h')[|h|] {
      if d in found {
        var k :| 0 <= k < |found| && found[k] == d;
        assert predecessors[k] in predecessors;
      }
    }
    assert indices == Sparse(h')[|h|];
  }

  lemma {:induction false} CommandsAreDense<C>(nodes: seq<Entry<C>>, n: nat)
    requires n <= |nodes| && forall i :: 0 <= i < n ==> nodes[i].recorded.Prepared?
    ensures |Commands(nodes, n)| == n && forall p :: 0 <= p < n ==> Commands(nodes, n)[p] == p
  {
    if n > 0 {
      CommandsAreDense(nodes, n - 1);
      assert Commands(nodes, n) == Commands(nodes, n - 1) + [n - 1];
    }
  }

  /**
   * A failed recording can cost the meaning: fill a view, try to copy another
   * number of bytes over it, and fill it again. The second fill gets no barrier.
   */
  method FailedCopyLosesMeaning(graph: AccessGraph, destination: View, source: View) returns (ordered: seq<(seq<Use>, bool)>)
    requires graph.Valid() && graph.history == [] && graph.pending == []
    requires destination.len != source.len && destination.Used(Write).start < destination.Used(Write).end
    modifies graph, graph.graph, graph.frontier
    ensures |ordered| == 2 && Conflict(ordered[0].0, ordered[1].0) && !ordered[1].1
    ensures !PreservesMeaning(ordered)
  {
    ghost var w, r := destination.Used(Write), source.Used(Read);
    var first := graph.Fill(destination, true);
    assert graph.history == [Op([], [w])] && graph.pending == [];
    var refused := graph.Copy(destination, source, true);
    assert graph.history == [Op([], [w])] && graph.pending == [r, w];
    var second := graph.Fill(destination, true);
    assert graph.history == [Op([], [w]), Op([r, w], [w])];
    ordered := graph.Finish();
    SecondFillIsFree(graph.history, w, r);
    MissingBarrierIsVisible(ordered, 0, 1);
  }

  lemma {:induction false} SecondFillIsFree(h: seq<Op>, w: Use, r: Use)
    requires h == [Op([], [w]), Op([r, w], [w])] && w.access == Write && w.start < w.end
    ensures Conflict(h[0].uses, h[1].uses) && Sparse(h)[1] == {}
  {
    assert w.Covers(w.allocation, w.start) && w in [w] && w in [r, w];
    assert Covered([w], w.allocation, w.start) && WritesAt([w], w.allocation, w.start);
    assert h[..1] == [h[0]];
    forall d: nat ensures !EdgeInto(h[..1], d, h[1]) {
      forall a: nat, b: nat ensures !HazardAt(h[..1], d, h[1], a, b) {
        if Covered([w], a, b) {
          assert w.Covers(a, b);
          assert WritesAt([r, w], a, b);
        }
      }
    }
  }
}
