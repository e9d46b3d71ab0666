/**
 * Per-allocation interval frontiers: each allocation is a sorted list of disjoint
 * segments, split on demand, that remember the last writer and the readers since.
 */
module Frontiers {
  import opened Accesses

  /** What the frontier remembers about one byte. */
  datatype Cell = Cell(writer: Option<nat>, readers: set<nat>)

  const UNUSED := Cell(None, {})

  datatype Segment = Segment(start: nat, end: nat, cell: Cell) {
    predicate Has(b: nat) {
      start <= b < end
    }
  }

  // ---------- the per-byte meaning of one use, and of a list of uses ----------

  function WriterSet(c: Cell): set<nat> {
    if c.writer.Some? then {c.writer.value} else {}
  }

  function Hazards(c: Cell, access: Access): set<nat> {
    WriterSet(c) + if access.Writes() then c.readers else {}
  }

  function Touch(c: Cell, node: nat, access: Access): Cell {
    if access.Writes() then Cell(Some(node), {}) else Cell(c.writer, c.readers + {node})
  }

  /** One byte's cell after `node` has made `uses` in declaration order. */
  ghost function CellAfter(c: Cell, node: nat, uses: seq<Use>, a: nat, b: nat): Cell {
    if uses == [] then c
    else
      var before := CellAfter(c, node, uses[..|uses| - 1], a, b);
      var u := uses[|uses| - 1];
      if u.Covers(a, b) then Touch(before, node, u.access) else before
  }

  /** The predecessors collected at one byte while `node` makes `uses`. */
  ghost function HazardsAfter(c: Cell, node: nat, uses: seq<Use>, a: nat, b: nat): set<nat> {
    if uses == [] then {}
    else
      var rest := uses[..|uses| - 1];
      var u := uses[|uses| - 1];
      HazardsAfter(c, node, rest, a, b) +
      if u.Covers(a, b) then Hazards(CellAfter(c, node, rest, a, b), u.access) else {}
  }

  // ---------- segment lists ----------

  /** Segments are nonempty, sorted and disjoint. */
  ghost predicate WellFormed(segs: seq<Segment>) {
    && (forall i :: 0 <= i < |segs| ==> segs[i].start < segs[i].end)
    && (forall i, j :: 0 <= i < j < |segs| ==> segs[i].end <= segs[j].start)
  }

  /** Every segment records at least one use. */
  ghost predicate AllUsed(segs: seq<Segment>) {
    forall i :: 0 <= i < |segs| ==> segs[i].cell != UNUSED
  }

  /** No segment straddles `point`. */
  ghost predicate Whole(segs: seq<Segment>, point: nat) {
    forall i :: 0 <= i < |segs| ==> !(segs[i].start < point < segs[i].end)
  }

  ghost function CellAt(segs: seq<Segment>, b: nat): Cell {
    if exists i :: 0 <= i < |segs| && segs[i].Has(b) then
      var i :| 0 <= i < |segs| && segs[i].Has(b);
      segs[i].cell
    else UNUSED
  }

  ghost function CellIn(segments: map<nat, seq<Segment>>, a: nat, b: nat): Cell {
    if a in segments then CellAt(segments[a], b) else UNUSED
  }

  lemma {:induction false} Lookup(segs: seq<Segment>, i: nat, b: nat)
    requires WellFormed(segs) && i < |segs| && segs[i].Has(b)
    ensures CellAt(segs, b) == segs[i].cell
  {
  }

  lemma {:induction false} SameCell(r: seq<Segment>, i: nat, s: seq<Segment>, j: nat, b: nat)
    requires WellFormed(r) && WellFormed(s) && i < |r| && j < |s|
    requires r[i].Has(b) && s[j].Has(b) && r[i].cell == s[j].cell
    ensures CellAt(r, b) == CellAt(s, b)
  {
  }

  lemma {:induction false} InsertWellFormed(segs: seq<Segment>, k: nat, seg: Segment)
    requires WellFormed(segs) && k <= |segs| && seg.start < seg.end
    requires forall i :: 0 <= i < k ==> segs[i].end <= seg.start
    requires forall i :: k <= i < |segs| ==> seg.end <= segs[i].start
    ensures WellFormed(segs[..k] + [seg] + segs[k..])
  {
  }

  /** Inserting a segment into a gap defines its bytes and leaves all others alone. */
  lemma {:induction false} InsertCells(segs: seq<Segment>, k: nat, seg: Segment)
    requires WellFormed(segs) && k <= |segs| && seg.start < seg.end
    requires forall i :: 0 <= i < k ==> segs[i].end <= seg.start
    requires forall i :: k <= i < |segs| ==> seg.end <= segs[i].start
    ensures WellFormed(segs[..k] + [seg] + segs[k..])
    ensures forall b: nat :: CellAt(segs[..k] + [seg] + segs[k..], b) == if seg.Has(b) then seg.cell else CellAt(segs, b)
  {
    var r := segs[..k] + [seg] + segs[k..];
    InsertWellFormed(segs, k, seg);
    forall b: nat ensures CellAt(r, b) == if seg.Has(b) then seg.cell else CellAt(segs, b) {
      if seg.Has(b) {
        Lookup(r, k, b);
      } else if i :| 0 <= i < |segs| && segs[i].Has(b) {
        assert r[if i < k then i else i + 1] == segs[i];
        SameCell(r, if i < k then i else i + 1, segs, i, b);
      } else {
        forall j | 0 <= j < |r| ensures !r[j].Has(b) {
          if j != k { assert r[j] == segs[if j < k then j else j - 1]; }
        }
      }
    }
  }

  /** Replacing one segment's cell changes exactly that segment's bytes. */
  lemma {:induction false} ReplaceCells(segs: seq<Segment>, k: nat, cell: Cell)
    requires WellFormed(segs) && k < |segs|
    ensures WellFormed(segs[k := segs[k].(cell := cell)])
    ensures forall b: nat :: CellAt(segs[k := segs[k].(cell := cell)], b) == if segs[k].Has(b) then cell else CellAt(segs, b)
  {
    var r := segs[k := segs[k].(cell := cell)];
    forall b: nat ensures CellAt(r, b) == if segs[k].Has(b) then cell else CellAt(segs, b) {
      if i :| 0 <= i < |segs| && segs[i].Has(b) {
        Lookup(segs, i, b);
        Lookup(r, i, b);
        if segs[k].Has(b) { Lookup(r, k, b); }
      }
    }
  }

  lemma {:induction false} SplitWellFormed(segs: seq<Segment>, k: nat, point: nat)
    requires WellFormed(segs) && k < |segs| && segs[k].start < point < segs[k].end
    ensures WellFormed(segs[..k] + [segs[k].(end := point), segs[k].(start := point)] + segs[k + 1..])
  {
  }

  /** Cutting a segment in two changes no byte's cell. */
  lemma {:induction false} SplitCells(segs: seq<Segment>, k: nat, point: nat)
    requires WellFormed(segs) && k < |segs| && segs[k].start < point < segs[k].end
    ensures var r := segs[..k] + [segs[k].(end := point), segs[k].(start := point)] + segs[k + 1..];
            WellFormed(r) && forall b: nat :: CellAt(r, b) == CellAt(segs, b)
  {
    var r := segs[..k] + [segs[k].(end := point), segs[k].(start := point)] + segs[k + 1..];
    SplitWellFormed(segs, k, point);
    forall b: nat ensures CellAt(r, b) == CellAt(segs, b) {
      if i :| 0 <= i < |segs| && segs[i].Has(b) {
        var j := if i < k || (i == k && b < point) then i else i + 1;
        assert r[j].Has(b) && r[j].cell == segs[i].cell;
        SameCell(r, j, segs, i, b);
      } else {
        forall j | 0 <= j < |r| ensures !r[j].Has(b) {
          assert !segs[if j <= k then j else j - 1].Has(b);
        }
      }
    }
  }

  /** Cut the segment straddling `point`, if there is one. */
  method SplitAt(segs: seq<Segment>, point: nat) returns (r: seq<Segment>)
    requires WellFormed(segs) && AllUsed(segs)
    ensures WellFormed(r) && AllUsed(r) && Whole(r, point)
    ensures forall b: nat :: CellAt(r, b) == CellAt(segs, b)
    ensures forall p: nat :: Whole(segs, p) ==> Whole(r, p)
  {
    var index := 0;
    while index < |segs| && !(segs[index].start < point < segs[index].end)
      invariant 0 <= index <= |segs|
      invariant forall i :: 0 <= i < index ==> !(segs[i].start < point < segs[i].end)
    {
      index := index + 1;
    }
    if index == |segs| {
      return segs;
    }
    SplitCells(segs, index, point);
    r := segs[..index] + [segs[index].(end := point), segs[index].(start := point)] + segs[index + 1..];
    forall j | 0 <= j < |r|
      ensures r[j].cell != UNUSED
      ensures !(r[j].start < point < r[j].end)
      ensures forall p: nat :: Whole(segs, p) ==> !(r[j].start < p < r[j].end)
    {
      var i := if j <= index then j else j - 1;
      assert r[j].cell == segs[i].cell && segs[i].start <= r[j].start && r[j].end <= segs[i].end;
      if i < index { assert segs[i].end <= segs[index].start; }
      if index < i { assert segs[index].end <= segs[i].start; }
      forall p: nat | Whole(segs, p) ensures !(r[j].start < p < r[j].end) {
        assert !(segs[i].start < p < segs[i].end);
      }
    }
  }

  /** The number of leading segments that end at or before `position`. */
  method PartitionPoint(segs: seq<Segment>, position: nat) returns (index: nat)
    requires WellFormed(segs)
    ensures index <= |segs|
    ensures forall i :: 0 <= i < index ==> segs[i].end <= position
    ensures forall i :: index <= i < |segs| ==> position < segs[i].end
  {
    index := 0;
    while index < |segs| && segs[index].end <= position
      invariant index <= |segs|
      invariant forall i :: 0 <= i < index ==> segs[i].end <= position
    {
      index := index + 1;
    }
    if index < |segs| {
      forall i | index < i < |segs| ensures position < segs[i].end {
        assert segs[index].end <= segs[i].start;
      }
    }
  }

  /** Make sure a segment starts at `position`: if none does, fill the gap up to the next one. */
  method FillGap(segs: seq<Segment>, index: nat, position: nat, limit: nat) returns (r: seq<Segment>)
    requires WellFormed(segs) && AllUsed(segs) && Whole(segs, limit)
    requires index <= |segs| && position < limit
    requires forall i :: 0 <= i < index ==> segs[i].end <= position
    requires forall i :: index <= i < |segs| ==> position <= segs[i].start
    ensures WellFormed(r) && Whole(r, limit) && index < |r|
    ensures forall i :: 0 <= i < |r| && i != index ==> r[i].cell != UNUSED
    ensures forall i :: 0 <= i < index ==> r[i].end <= position
    ensures r[index].start == position && r[index].end <= limit
    ensures forall b: nat :: CellAt(r, b) == CellAt(segs, b)
  {
    r := segs;
    if index == |segs| || segs[index].start > position {
      var end := if index == |segs| then limit
                 else if segs[index].start < limit then segs[index].start else limit;
      var gap := Segment(position, end, UNUSED);
      forall i | index <= i < |segs| ensures gap.end <= segs[i].start {
        if index < i { assert segs[index].end <= segs[i].start; }
      }
      GapIsUnused(segs, index, gap);
      InsertCells(segs, index, gap);
      WholeInsert(segs, index, gap, limit);
      r := segs[..index] + [gap] + segs[index..];
      forall i | 0 <= i < |r| && i != index ensures r[i].cell != UNUSED {
        assert r[i] == segs[if i < index then i else i - 1];
      }
    }
  }

  /**
   * Walk the segments under one use, filling gaps, collecting hazards and
   * recording the access. Both ends of the use already lie on segment boundaries.
   */
  method Walk(segs: seq<Segment>, node: nat, use: Use) returns (r: seq<Segment>, found: set<nat>)
    requires WellFormed(segs) && AllUsed(segs)
    requires use.start < use.end && Whole(segs, use.start) && Whole(segs, use.end)
    ensures WellFormed(r) && AllUsed(r)
    ensures forall b: nat :: CellAt(r, b) ==
                        if use.start <= b < use.end then Touch(CellAt(segs, b), node, use.access) else CellAt(segs, b)
    ensures forall d :: d in found <==>
                        exists b: nat :: use.start <= b < use.end && d in Hazards(CellAt(segs, b), use.access)
  {
    r, found := segs, {};
    var position := use.start;
    var index: nat := PartitionPoint(r, position);
    while position < use.end
      invariant use.start <= position <= use.end && index <= |r|
      invariant WellFormed(r) && AllUsed(r) && Whole(r, use.end)
      invariant forall i :: 0 <= i < index ==> r[i].end <= position
      invariant forall i :: index <= i < |r| ==> position <= r[i].start
      invariant forall b: nat :: CellAt(r, b) ==
                            if use.start <= b < position then Touch(CellAt(segs, b), node, use.access) else CellAt(segs, b)
      invariant forall d :: d in found <==>
                            exists b: nat :: use.start <= b < position && d in Hazards(CellAt(segs, b), use.access)
    {
      r := FillGap(r, index, position, use.end);
      var segment := r[index];
      var cell := segment.cell;
      forall b: nat | segment.Has(b) ensures CellAt(segs, b) == cell {
        Lookup(r, index, b);
      }
      found := found + Hazards(cell, use.access);
      HazardsOverSegment(segs, use, position, segment.end, cell);
      ReplaceCells(r, index, Touch(cell, node, use.access));
      r := r[index := segment.(cell := Touch(cell, node, use.access))];
      position := segment.end;
      index := index + 1;
    }
  }

  lemma {:induction false} GapIsUnused(segs: seq<Segment>, k: nat, gap: Segment)
    requires WellFormed(segs) && k <= |segs|
    requires forall i :: 0 <= i < k ==> segs[i].end <= gap.start
    requires forall i :: k <= i < |segs| ==> gap.end <= segs[i].start
    ensures forall b: nat :: gap.Has(b) ==> CellAt(segs, b) == UNUSED
  {
  }

  lemma {:induction false} WholeInsert(segs: seq<Segment>, k: nat, gap: Segment, point: nat)
    requires k <= |segs| && Whole(segs, point) && gap.end <= point
    ensures Whole(segs[..k] + [gap] + segs[k..], point)
  {
  }

  /** The bytes of one segment all contribute the same predecessors. */
  lemma {:induction false} HazardsOverSegment(segs: seq<Segment>, use: Use, position: nat, end: nat, cell: Cell)
    requires use.start <= position < end
    requires forall b: nat :: position <= b < end ==> CellAt(segs, b) == cell
    ensures forall d ::
              ((exists b: nat :: use.start <= b < position && d in Hazards(CellAt(segs, b), use.access)) || d in Hazards(cell, use.access))
              <==> exists b: nat :: use.start <= b < end && d in Hazards(CellAt(segs, b), use.access)
  {
    assert CellAt(segs, position) == cell;
  }

  /** One use of an allocation: split at both ends, then walk. */
  method RecordUse(segs: seq<Segment>, node: nat, use: Use) returns (r: seq<Segment>, found: set<nat>)
    requires WellFormed(segs) && AllUsed(segs) && use.start < use.end
    ensures WellFormed(r) && AllUsed(r) && Touched(segs, r, node, use) && Met(segs, found, use)
  {
    var left := SplitAt(segs, use.start);
    var both := SplitAt(left, use.end);
    assert forall b: nat :: CellAt(both, b) == CellAt(segs, b);
    r, found := Walk(both, node, use);
  }

  /** Exactly the bytes in range have been touched. */
  ghost predicate Touched(segs: seq<Segment>, r: seq<Segment>, node: nat, use: Use) {
    forall b: nat :: CellAt(r, b) ==
                       if use.start <= b < use.end then Touch(CellAt(segs, b), node, use.access) else CellAt(segs, b)
  }

  /** Exactly the hazards of the bytes in range were found. */
  ghost predicate Met(segs: seq<Segment>, found: set<nat>, use: Use) {
    forall d :: d in found <==> exists b: nat :: use.start <= b < use.end && d in Hazards(CellAt(segs, b), use.access)
  }

  ghost predicate Folded(was: map<nat, seq<Segment>>, now: map<nat, seq<Segment>>, node: nat, uses: seq<Use>) {
    forall a: nat, b: nat :: CellIn(now, a, b) == CellAfter(CellIn(was, a, b), node, uses, a, b)
  }

  ghost predicate Collected(was: map<nat, seq<Segment>>, found: set<nat>, node: nat, uses: seq<Use>) {
    forall d :: d in found <==> exists a: nat, b: nat :: d in HazardsAfter(CellIn(was, a, b), node, uses, a, b)
  }

  ghost function SegmentsOf(segments: map<nat, seq<Segment>>, a: nat): seq<Segment> {
    if a in segments then segments[a] else []
  }

  lemma {:induction false} NoSegments(b: nat)
    ensures CellAt([], b) == UNUSED
  {
  }

  class Frontier {
    var segments: map<nat, seq<Segment>>

    ghost predicate Valid()
      reads this
    {
      forall a :: a in segments ==> WellFormed(segments[a]) && AllUsed(segments[a])
    }

    constructor ()
      ensures Valid() && segments == map[]
    {
      segments := map[];
    }

    /**
     * Record `node`'s uses and return its predecessors in increasing order. Every
     * byte's cell is folded over the uses that cover it, and the predecessors are
     * exactly those met at some byte, without the node itself.
     */
    method Dependencies(node: nat, uses: seq<Use>) returns (dependencies: seq<nat>)
      requires Valid()
      modifies this
      ensures Valid()
      ensures forall a: nat, b: nat :: CellIn(segments, a, b) == CellAfter(CellIn(old(segments), a, b), node, uses, a, b)
      ensures StrictlyAscending(dependencies)
      ensures forall d :: d in dependencies <==>
                          d != node && exists a: nat, b: nat :: d in HazardsAfter(CellIn(old(segments), a, b), node, uses, a, b)
    {
      var found: set<nat> := {};
      ghost var was := segments;
      for k := 0 to |uses|
        invariant Valid() && Folded(was, segments, node, uses[..k]) && Collected(was, found, node, uses[..k])
      {
        var use := uses[k];
        if use.start < use.end {
          ghost var before := segments;
          var segs := if use.allocation in segments then segments[use.allocation] else [];
          var walked, more := RecordUse(segs, node, use);
          UseStep(was, before, walked, node, uses, k);
          HazardStep(was, before, node, uses, k, found, more);
          segments := segments[use.allocation := walked];
          found := found + more;
        } else {
          SkipStep(was, segments, node, uses, k, found);
        }
      }
      assert uses[..|uses|] == uses;
      dependencies := Ascending(found - {node});
    }
  }

  lemma {:induction false} SkipStep(was: map<nat, seq<Segment>>, now: map<nat, seq<Segment>>, node: nat, uses: seq<Use>, k: nat, found: set<nat>)
    requires k < |uses| && uses[k].start >= uses[k].end
    requires Folded(was, now, node, uses[..k]) && Collected(was, found, node, uses[..k])
    ensures Folded(was, now, node, uses[..k + 1]) && Collected(was, found, node, uses[..k + 1])
  {
    assert uses[..k + 1][..k] == uses[..k];
    forall a: nat, b: nat ensures HazardsAfter(CellIn(was, a, b), node, uses[..k + 1], a, b) == HazardsAfter(CellIn(was, a, b), node, uses[..k], a, b) {
    }
  }

  lemma {:induction false} UseStep(was: map<nat, seq<Segment>>, before: map<nat, seq<Segment>>, walked: seq<Segment>, node: nat, uses: seq<Use>, k: nat)
    requires k < |uses| && Folded(was, before, node, uses[..k])
    requires Touched(SegmentsOf(before, uses[k].allocation), walked, node, uses[k])
    ensures Folded(was, before[uses[k].allocation := walked], node, uses[..k + 1])
  {
    assert uses[..k + 1][..k] == uses[..k];
    var u, after := uses[k], before[uses[k].allocation := walked];
    forall a: nat, b: nat ensures CellIn(after, a, b) ==
                                  if u.Covers(a, b) then Touch(CellIn(before, a, b), node, u.access) else CellIn(before, a, b) {
      NoSegments(b);
    }
  }

  lemma {:induction false} HazardStep(was: map<nat, seq<Segment>>, before: map<nat, seq<Segment>>,
                                      node: nat, uses: seq<Use>, k: nat, found: set<nat>, more: set<nat>)
    requires k < |uses| && Folded(was, before, node, uses[..k]) && Collected(was, found, node, uses[..k])
    requires Met(SegmentsOf(before, uses[k].allocation), more, uses[k])
    ensures Collected(was, found + more, node, uses[..k + 1])
  {
    var u, rest, now := uses[k], uses[..k], uses[..k + 1];
    var segs := SegmentsOf(before, u.allocation);
    assert now[..k] == rest && now[|now| - 1] == u;
    forall b: nat ensures CellAt(segs, b) == CellIn(before, u.allocation, b) {
      NoSegments(b);
    }
    forall d ensures d in found + more <==> exists a: nat, b: nat :: d in HazardsAfter(CellIn(was, a, b), node, now, a, b) {
      if d in found {
        var a: nat, b: nat :| d in HazardsAfter(CellIn(was, a, b), node, rest, a, b);
        assert d in HazardsAfter(CellIn(was, a, b), node, now, a, b);
      } else if d in more {
        var b: nat :| u.start <= b < u.end && d in Hazards(CellAt(segs, b), u.access);
        assert d in HazardsAfter(CellIn(was, u.allocation, b), node, now, u.allocation, b);
      }
      if a: nat, b: nat :| d in HazardsAfter(CellIn(was, a, b), node, now, a, b) {
        if d !in HazardsAfter(CellIn(was, a, b), node, rest, a, b) {
          assert a == u.allocation && d in Hazards(CellAt(segs, b), u.access);
        }
      }
    }
  }
}
