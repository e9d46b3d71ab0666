/**
 * Recorded command graphs. Each node stores only its largest predecessor, and
 * finishing turns the graph into a list of commands with barrier flags by
 * keeping a single watermark.
 */
module Graphs {
  import opened Accesses
  import opened Hazards
  import opened Totals

  const U32_MAX: nat := 0xFFFF_FFFF

  /** A recorded node, which remembers the recording it belongs to. */
  datatype Node = Node(graph: nat, index: nat)

  datatype Recorded<+C> = Prepared(command: C) | Join

  datatype Entry<+C> = Entry(recorded: Recorded<C>, dependency: Option<nat>)

  /** The stored dependency is the largest of the declared predecessors, all of them earlier. */
  ghost predicate Linked<C>(nodes: seq<Entry<C>>, after: Predecessors) {
    && |after| == |nodes|
    && forall m :: 0 <= m < |nodes| ==>
         && (forall p :: p in after[m] ==> p < m)
         && nodes[m].dependency == if after[m] == {} then None else Some(Largest(after[m]))
  }

  // ---------- the watermark ----------

  /** The watermark before node `n` is ordered: the last command that got a barrier, or 0. */
  ghost function Completed<C>(nodes: seq<Entry<C>>, n: nat): (c: nat)
    requires n <= |nodes|
    ensures c <= n && (n > 0 ==> c < n)
    decreases n, 0
  {
    if n == 0 then 0 else if Barrier(nodes, n - 1) then n - 1 else Completed(nodes, n - 1)
  }

  /** Whether the command at `m` waits for every earlier command. */
  ghost predicate Barrier<C>(nodes: seq<Entry<C>>, m: nat)
    requires m < |nodes|
    decreases m, 1
  {
    && nodes[m].recorded.Prepared?
    && nodes[m].dependency.Some?
    && nodes[m].dependency.value >= Completed(nodes, m)
  }

  /** Node indices of the first `n` entries that carry a command. */
  ghost function Commands<C>(nodes: seq<Entry<C>>, n: nat): (order: seq<nat>)
    requires n <= |nodes|
    ensures StrictlyAscending(order)
    ensures forall m: nat :: m in order <==> m < n && nodes[m].recorded.Prepared?
  {
    if n == 0 then []
    else
      var before := Commands(nodes, n - 1);
      assert forall i :: 0 <= i < |before| ==> before[i] in before;
      if nodes[n - 1].recorded.Prepared? then before + [n - 1] else before
  }

  /** The list of commands, in recording order, each with its barrier flag. */
  ghost predicate Emitted<C>(nodes: seq<Entry<C>>, n: nat, ordered: seq<(C, bool)>)
    requires n <= |nodes|
  {
    var order := Commands(nodes, n);
    && |ordered| == |order|
    && forall p :: 0 <= p < |order| ==>
         order[p] in order && ordered[p] == (nodes[order[p]].recorded.command, Barrier(nodes, order[p]))
  }

  lemma {:induction false} EmittedStep<C>(nodes: seq<Entry<C>>, n: nat, ordered: seq<(C, bool)>)
    requires n < |nodes| && Emitted(nodes, n, ordered)
    ensures match nodes[n].recorded
            case Prepared(command) => Emitted(nodes, n + 1, ordered + [(command, Barrier(nodes, n))])
            case Join => Emitted(nodes, n + 1, ordered)
  {
    var before, after := Commands(nodes, n), Commands(nodes, n + 1);
    assert forall p :: 0 <= p < |before| ==> after[p] == before[p] && before[p] in before;
  }

  // ---------- safety ----------

  lemma {:induction false} CompletedIsBarrier<C>(nodes: seq<Entry<C>>, n: nat)
    requires n <= |nodes|
    ensures Completed(nodes, n) > 0 ==> Barrier(nodes, Completed(nodes, n))
  {
    if n > 0 && !Barrier(nodes, n - 1) {
      CompletedIsBarrier(nodes, n - 1);
    }
  }

  lemma {:induction false} SeparatedFromLargest<C>(nodes: seq<Entry<C>>, i: nat, m: nat)
    requires m < |nodes| && nodes[m].recorded.Prepared?
    requires nodes[m].dependency.Some? && i <= nodes[m].dependency.value < m
    ensures exists c :: i < c <= m && Barrier(nodes, c)
  {
    var c := if Barrier(nodes, m) then m else Completed(nodes, m);
    CompletedIsBarrier(nodes, m);
    assert i < c <= m && Barrier(nodes, c);
  }

  /**
   * Although only the largest predecessor is stored, each command is separated
   * by a barrier from every node that reaches it, directly or through joins.
   */
  lemma {:induction false} ReachingNodesAreSeparated<C>(nodes: seq<Entry<C>>, after: Predecessors, i: nat, m: nat)
    requires Linked(nodes, after) && Reaches(after, i, m) && nodes[m].recorded.Prepared?
    ensures exists c :: i < c <= m && Barrier(nodes, c)
  {
    var p :| p in after[m] && i <= p;
    SeparatedFromLargest(nodes, i, m);
  }

  // ---------- fewest barriers ----------

  /** Some barrier falls after `i` and no later than `m`. */
  ghost predicate Separates(placement: set<nat>, i: nat, m: nat) {
    exists c :: c in placement && i < c <= m
  }

  /** A set of node indices that puts a barrier on every recorded edge into a command. */
  ghost predicate Satisfies<C>(nodes: seq<Entry<C>>, after: Predecessors, placement: set<nat>)
    requires |after| == |nodes|
  {
    forall i, m :: 0 <= m < |nodes| && nodes[m].recorded.Prepared? && i in after[m] ==> Separates(placement, i, m)
  }

  ghost function Barriers<C>(nodes: seq<Entry<C>>, n: nat): set<nat>
    requires n <= |nodes|
  {
    set m: nat | m < n && Barrier(nodes, m)
  }

  ghost function UpTo(s: set<nat>, top: nat): set<nat> {
    set x | x in s && x <= top
  }

  /** A barrier's edge needs a placement past the previous barrier. */
  lemma {:induction false} BarrierNeedsPlacement<C>(nodes: seq<Entry<C>>, after: Predecessors, placement: set<nat>, m: nat)
      returns (c: nat)
    requires Linked(nodes, after) && Satisfies(nodes, after, placement) && m < |nodes| && Barrier(nodes, m)
    ensures c in placement && Completed(nodes, m) < c <= m
  {
    var d := nodes[m].dependency.value;
    assert d in after[m] && Separates(placement, d, m);
    c :| c in placement && d < c <= m;
  }

  lemma {:induction false} BarriersStep<C>(nodes: seq<Entry<C>>, m: nat)
    requires m < |nodes|
    ensures |Barriers(nodes, m + 1)| == |Barriers(nodes, m)| + if Barrier(nodes, m) then 1 else 0
  {
    if Barrier(nodes, m) {
      assert Barriers(nodes, m + 1) == Barriers(nodes, m) + {m};
    } else {
      assert Barriers(nodes, m + 1) == Barriers(nodes, m);
    }
  }

  lemma {:induction false} OneMoreBelow(placement: set<nat>, low: nat, c: nat, high: nat)
    requires c in placement && low < c <= high
    ensures |UpTo(placement, low)| + 1 <= |UpTo(placement, high)|
  {
    SubsetSize(UpTo(placement, low) + {c}, UpTo(placement, high));
  }

  lemma {:induction false} GreedyStaysAhead<C>(nodes: seq<Entry<C>>, after: Predecessors, placement: set<nat>, n: nat)
    requires Linked(nodes, after) && Satisfies(nodes, after, placement) && n <= |nodes|
    ensures |Barriers(nodes, n)| <= |UpTo(placement, Completed(nodes, n))|
  {
    if n > 0 {
      var m := n - 1;
      GreedyStaysAhead(nodes, after, placement, m);
      BarriersStep(nodes, m);
      if Barrier(nodes, m) {
        var c := BarrierNeedsPlacement(nodes, after, placement, m);
        OneMoreBelow(placement, Completed(nodes, m), c, m);
      }
    }
  }

  /** The emitted barriers satisfy every edge, and no placement that does uses fewer. */
  lemma {:induction false} FewestBarriers<C>(nodes: seq<Entry<C>>, after: Predecessors, placement: set<nat>)
    requires Linked(nodes, after)
    ensures Satisfies(nodes, after, Barriers(nodes, |nodes|))
    ensures Satisfies(nodes, after, placement) ==> |Barriers(nodes, |nodes|)| <= |placement|
  {
    forall i, m | 0 <= m < |nodes| && nodes[m].recorded.Prepared? && i in after[m]
      ensures Separates(Barriers(nodes, |nodes|), i, m)
    {
      SeparatedFromLargest(nodes, i, m);
      var c :| i < c <= m && Barrier(nodes, c);
      assert c in Barriers(nodes, |nodes|);
    }
    if Satisfies(nodes, after, placement) {
      GreedyStaysAhead(nodes, after, placement, |nodes|);
      SubsetSize(UpTo(placement, Completed(nodes, |nodes|)), placement);
    }
  }

  /** A placement that only separates commands from the commands that reach them, through joins or not. */
  ghost predicate SeparatesCommands<C>(nodes: seq<Entry<C>>, after: Predecessors, placement: set<nat>)
    requires |after| == |nodes|
  {
    forall i: nat, m: nat :: i < m < |nodes| && nodes[i].recorded.Prepared? && nodes[m].recorded.Prepared? && Reaches(after, i, m) ==>
                               Separates(placement, i, m)
  }

  /** Separating every edge separates everything that reaches a command. */
  lemma {:induction false} EdgesSeparateReaching<C>(nodes: seq<Entry<C>>, after: Predecessors, placement: set<nat>)
    requires Linked(nodes, after) && Satisfies(nodes, after, placement)
    ensures SeparatesCommands(nodes, after, placement)
  {
    forall i: nat, m: nat | i < m < |nodes| && nodes[m].recorded.Prepared? && Reaches(after, i, m) ensures Separates(placement, i, m) {
      if i !in after[m] {
        var p :| p in after[m] && p < m && Reaches(after, i, p);
        assert Separates(placement, p, m);
      }
    }
  }

  /** Without joins, separating reaching commands separates every edge, so no such placement has fewer barriers. */
  lemma {:induction false} FewestForCommands<C>(nodes: seq<Entry<C>>, after: Predecessors, placement: set<nat>)
    requires Linked(nodes, after) && SeparatesCommands(nodes, after, placement)
    requires forall m :: 0 <= m < |nodes| ==> nodes[m].recorded.Prepared?
    ensures SeparatesCommands(nodes, after, Barriers(nodes, |nodes|)) && |Barriers(nodes, |nodes|)| <= |placement|
  {
    forall i, m | 0 <= m < |nodes| && i in after[m] ensures Separates(placement, i, m) {
      assert Reaches(after, i, m);
    }
    FewestBarriers(nodes, after, placement);
    EdgesSeparateReaching(nodes, after, Barriers(nodes, |nodes|));
  }

  /**
   * A join can cost a barrier: with 1 after 0, a join 2 after 0 and 3 after the
   * join, two barriers are emitted although one separates 0 from both commands.
   */
  lemma {:induction false} JoinCostsABarrier<C>(command: C)
    ensures var run, join := Prepared(command), Join;
            var nodes := [Entry(run, None), Entry(run, Some(0)), Entry(join, Some(0)), Entry(run, Some(2))];
            var after: Predecessors := [{}, {0}, {0}, {2}];
            && Linked(nodes, after) && SeparatesCommands(nodes, after, {1})
            && Barriers(nodes, 4) == {1, 3}
  {
    var nodes := [Entry(Prepared(command), None), Entry(Prepared(command), Some(0)), Entry(Join, Some(0)), Entry(Prepared(command), Some(2))];
    var after: Predecessors := [{}, {0}, {0}, {2}];
    assert Largest({0}) == 0 && Largest({2}) == 2;
    assert !Barrier(nodes, 0) && Barrier(nodes, 1) && !Barrier(nodes, 2);
    assert Completed(nodes, 3) == 1 by {
      assert Completed(nodes, 2) == 1;
    }
    assert Barrier(nodes, 3);
    forall i: nat, m: nat | i < m < 4 && nodes[i].recorded.Prepared? && nodes[m].recorded.Prepared? && Reaches(after, i, m)
      ensures Separates({1}, i, m)
    {
      assert i == 0 || !Reaches(after, i, m);
      assert 1 in {1};
    }
  }

  // ---------- the recorder ----------

  class Graph<C> {
    const id: nat
    var nodes: seq<Entry<C>>
    ghost var after: Predecessors

    ghost predicate Valid()
      reads this
    {
      Linked(nodes, after) && |nodes| <= U32_MAX
    }

    constructor (id: nat)
      ensures Valid() && this.id == id && nodes == [] && after == []
    {
      this.id := id;
      nodes, after := [], [];
    }

    predicate Owns(node: Node)
      reads this
    {
      node.graph == id && node.index < |nodes|
    }

    method ValidateDependencies(predecessors: seq<Node>) returns (ok: bool)
      ensures ok <==> (forall n :: n in predecessors ==> Owns(n)) && |nodes| < U32_MAX
    {
      for k := 0 to |predecessors|
        invariant forall j :: 0 <= j < k ==> Owns(predecessors[j])
      {
        if !Owns(predecessors[k]) {
          return false;
        }
      }
      ok := |nodes| < U32_MAX;
    }

    method Record(recorded: Recorded<C>, predecessors: seq<Node>) returns (node: Node)
      requires Valid() && |nodes| < U32_MAX
      requires forall n :: n in predecessors ==> Owns(n)
      modifies this
      ensures Valid() && node == Node(id, |old(nodes)|)
      ensures |nodes| == |old(nodes)| + 1 && nodes[..|old(nodes)|] == old(nodes)
      ensures nodes[|old(nodes)|].recorded == recorded
      ensures after == old(after) + [set n | n in predecessors :: n.index]
    {
      var largest: Option<nat> := None;
      for k := 0 to |predecessors|
        invariant k == 0 ==> largest == None
        invariant k > 0 ==> largest.Some? && exists j :: 0 <= j < k && predecessors[j].index == largest.value
        invariant forall j :: 0 <= j < k ==> predecessors[j].index <= largest.value
      {
        if largest.None? || largest.value < predecessors[k].index {
          largest := Some(predecessors[k].index);
        }
      }
      ghost var indices := set n | n in predecessors :: n.index;
      if |predecessors| > 0 {
        assert predecessors[0].index in indices;
        assert largest.value in indices && Largest(indices) == largest.value;
      }
      node := Node(id, |nodes|);
      nodes := nodes + [Entry(recorded, largest)];
      after := after + [indices];
    }

    /** A dependency join with no command. */
    method AddJoin(predecessors: seq<Node>) returns (r: Result<Node>)
      requires Valid()
      modifies this
      ensures Valid()
      ensures r.Ok? <==> (forall n :: n in predecessors ==> old(Owns(n))) && |old(nodes)| < U32_MAX
      ensures r.Ok? ==> r.value == Node(id, |old(nodes)|) && |nodes| == |old(nodes)| + 1
                        && nodes[..|old(nodes)|] == old(nodes) && nodes[|old(nodes)|].recorded == Join
                        && after == old(after) + [set n | n in predecessors :: n.index]
      ensures r.Err? ==> nodes == old(nodes) && after == old(after)
    {
      var ok := ValidateDependencies(predecessors);
      if !ok {
        return Err(Message);
      }
      var node := Record(Join, predecessors);
      r := Ok(node);
    }

    /** A fill, copy or dispatch; `prepared` is None when its arguments or the device refuse it. */
    method AddCommand(predecessors: seq<Node>, prepared: Option<C>) returns (r: Result<Node>)
      requires Valid()
      modifies this
      ensures Valid()
      ensures r.Ok? <==> (forall n :: n in predecessors ==> old(Owns(n))) && |old(nodes)| < U32_MAX && prepared.Some?
      ensures r.Ok? ==> r.value == Node(id, |old(nodes)|) && |nodes| == |old(nodes)| + 1
                        && nodes[..|old(nodes)|] == old(nodes) && nodes[|old(nodes)|].recorded == Prepared(prepared.value)
                        && after == old(after) + [set n | n in predecessors :: n.index]
      ensures r.Err? ==> nodes == old(nodes) && after == old(after)
    {
      var ok := ValidateDependencies(predecessors);
      if !ok || prepared.None? {
        return Err(Message);
      }
      var node := Record(Prepared(prepared.value), predecessors);
      r := Ok(node);
    }

    /** Order the commands, dropping joins, with one watermark. */
    method Finish() returns (ordered: seq<(C, bool)>)
      requires Valid()
      ensures Emitted(nodes, |nodes|, ordered)
    {
      ordered := [];
      var completed := 0;
      for index := 0 to |nodes|
        invariant completed == Completed(nodes, index)
        invariant Emitted(nodes, index, ordered)
      {
        EmittedStep(nodes, index, ordered);
        var entry := nodes[index];
        if entry.recorded.Prepared? {
          var barrier := entry.dependency.Some? && entry.dependency.value >= completed;
          if barrier {
            completed := index;
          }
          ordered := ordered + [(entry.recorded.command, barrier)];
        }
      }
    }
  }
}
