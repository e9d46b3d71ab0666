/**
 * Canonical access summaries of the execution scheduler: an event sweep unions
 * uses into disjoint intervals, and a two-pointer sweep decides whether two
 * summaries conflict.
 */
module Summaries {
  import opened Accesses

  /** One tracked allocation. Identity is the address used for ordering. */
  datatype RawStorage = Storage(id: nat, shared: bool, bytes: nat)

  /** Allocations reject zero lengths. */
  type Storage = s: RawStorage | s.bytes > 0 witness Storage(0, false, 1)

  datatype RawView = BufferView(storage: Storage, start: nat, end: nat) {
    /** Cache maintenance is allocation-wide for shared storage. */
    function Region(): (nat, nat) {
      if storage.shared then (0, storage.bytes) else (start, end)
    }

    predicate Covers(id: nat, b: nat) {
      storage.id == id && Region().0 <= b < Region().1
    }

    predicate Overlaps(other: RawView) {
      storage == other.storage && start < other.end && other.start < end
    }

    predicate Conflicts(other: RawView) {
      storage == other.storage && (storage.shared || Overlaps(other))
    }
  }

  /** A view is checked against its allocation when it is sliced. */
  type BufferView = v: RawView | v.start <= v.end <= v.storage.bytes witness BufferView(Storage(0, false, 1), 0, 0)

  datatype ViewUse = ViewUse(view: BufferView, access: Access) {
    predicate Conflicts(other: ViewUse) {
      view.Conflicts(other.view) && (access.Writes() || other.access.Writes())
    }
  }

  /** One address names one allocation. */
  ghost predicate Coherent(uses: seq<ViewUse>) {
    forall u, v :: u in uses && v in uses && u.view.storage.id == v.view.storage.id ==> u.view.storage == v.view.storage
  }

  ghost predicate ReadsByte(uses: seq<ViewUse>, id: nat, b: nat) {
    exists u :: u in uses && u.view.Covers(id, b) && u.access.Reads()
  }

  ghost predicate WritesByte(uses: seq<ViewUse>, id: nat, b: nat) {
    exists u :: u in uses && u.view.Covers(id, b) && u.access.Writes()
  }

  ghost predicate UsesByte(uses: seq<ViewUse>, id: nat, b: nat) {
    exists u :: u in uses && u.view.Covers(id, b)
  }

  // ---------- what a summary is ----------

  /** `u` comes wholly before `v`, and cannot be merged with it. */
  ghost predicate Precedes(u: ViewUse, v: ViewUse) {
    || u.view.storage.id < v.view.storage.id
    || (u.view.storage == v.view.storage && u.view.end <= v.view.start && (u.view.end == v.view.start ==> u.access != v.access))
  }

  /** Nonempty, disjoint, sorted by allocation and offset, and maximal; shared storage is whole. */
  ghost predicate Canonical(s: seq<ViewUse>) {
    && (forall i :: 0 <= i < |s| ==> s[i].view.start < s[i].view.end && s[i].view.Region() == (s[i].view.start, s[i].view.end))
    && (forall i, j :: 0 <= i < j < |s| ==> Precedes(s[i], s[j]))
  }

  /** Every byte of the interval is used in exactly the interval's way. */
  ghost predicate Exact(o: ViewUse, uses: seq<ViewUse>) {
    forall b: nat :: o.view.start <= b < o.view.end ==>
                       && (o.access.Reads() <==> ReadsByte(uses, o.view.storage.id, b))
                       && (o.access.Writes() <==> WritesByte(uses, o.view.storage.id, b))
  }

  ghost predicate Listed(s: seq<ViewUse>, id: nat, b: nat) {
    exists o :: o in s && o.view.storage.id == id && o.view.start <= b < o.view.end
  }

  /** Some use is a view of this allocation. */
  ghost predicate Names(uses: seq<ViewUse>, storage: Storage) {
    exists u :: u in uses && u.view.storage == storage
  }

  /** The summary lists exactly the used bytes, each with exactly its access. */
  ghost predicate Summarizes(s: seq<ViewUse>, uses: seq<ViewUse>) {
    && Canonical(s)
    && (forall o :: o in s ==> Exact(o, uses))
    && (forall o :: o in s ==> Names(uses, o.view.storage))
    && (forall id: nat, b: nat :: UsesByte(uses, id, b) ==> Listed(s, id, b))
  }

  // ---------- events ----------

  /** How many reads and writes begin (or end) at a position. */
  datatype Delta = Delta(read: int, written: int) {
    function Plus(d: Delta): Delta {
      Delta(read + d.read, written + d.written)
    }

    function Negated(): Delta {
      Delta(-read, -written)
    }
  }

  function Get(events: map<nat, Delta>, p: nat): Delta {
    if p in events then events[p] else Delta(0, 0)
  }

  function Weight(access: Access): Delta {
    Delta(if access.Reads() then 1 else 0, if access.Writes() then 1 else 0)
  }

  /** The running totals after every event up to `p`. */
  ghost function Total(events: map<nat, Delta>, p: nat): Delta {
    if p == 0 then Get(events, 0) else Total(events, p - 1).Plus(Get(events, p))
  }

  /** How many uses read and write a byte. */
  ghost function Count(uses: seq<ViewUse>, id: nat, b: nat): (d: Delta)
    ensures d.read >= 0 && d.written >= 0
  {
    if uses == [] then Delta(0, 0)
    else
      var u := uses[|uses| - 1];
      var before := Count(uses[..|uses| - 1], id, b);
      if u.view.Covers(id, b) then before.Plus(Weight(u.access)) else before
  }

  lemma {:induction false} CountIsUse(uses: seq<ViewUse>, id: nat, b: nat)
    ensures Count(uses, id, b).read != 0 <==> ReadsByte(uses, id, b)
    ensures Count(uses, id, b).written != 0 <==> WritesByte(uses, id, b)
    ensures UsesByte(uses, id, b) <==> ReadsByte(uses, id, b) || WritesByte(uses, id, b)
  {
    if uses != [] {
      var k := |uses| - 1;
      CountIsUse(uses[..k], id, b);
      assert uses == uses[..k] + [uses[k]];
    }
  }

  lemma {:induction false} TotalUpdate(events: map<nat, Delta>, at: nat, d: Delta, p: nat)
    ensures Total(events[at := Get(events, at).Plus(d)], p) ==
            if at <= p then Total(events, p).Plus(d) else Total(events, p)
    decreases p
  {
    if p > 0 {
      TotalUpdate(events, at, d, p - 1);
    }
  }

  /** Totals do not change where nothing happens. */
  lemma {:induction false} TotalConstant(events: map<nat, Delta>, p: nat, q: nat)
    requires p <= q && forall k :: p < k <= q ==> k !in events
    ensures Total(events, q) == Total(events, p)
    decreases q
  {
    if p < q {
      TotalConstant(events, p, q - 1);
      assert q !in events && Get(events, q) == Delta(0, 0);
      assert Total(events, q) == Total(events, q - 1).Plus(Get(events, q));
    }
  }

  lemma {:induction false} TotalBeforeFirst(events: map<nat, Delta>, q: nat)
    requires forall k :: k in events ==> q < k
    ensures Total(events, q) == Delta(0, 0)
    decreases q
  {
    if q > 0 {
      TotalBeforeFirst(events, q - 1);
    }
  }

  function AddUse(events: map<nat, Delta>, region: (nat, nat), d: Delta): map<nat, Delta> {
    var started := events[region.0 := Get(events, region.0).Plus(d)];
    started[region.1 := Get(started, region.1).Plus(d.Negated())]
  }

  lemma {:induction false} TotalAddUse(events: map<nat, Delta>, region: (nat, nat), d: Delta, p: nat)
    requires region.0 <= region.1
    ensures Total(AddUse(events, region, d), p) ==
            if region.0 <= p < region.1 then Total(events, p).Plus(d) else Total(events, p)
  {
    var started := events[region.0 := Get(events, region.0).Plus(d)];
    TotalUpdate(events, region.0, d, p);
    TotalUpdate(started, region.1, d.Negated(), p);
  }

  /** Every use of the allocation ends at an event. */
  ghost predicate EndsTracked(events: map<nat, Delta>, uses: seq<ViewUse>, id: nat) {
    forall u :: u in uses && u.view.storage.id == id ==> u.view.Region().1 in events
  }

  /** Events lie in the allocation, at its ends when it is shared. */
  ghost predicate Inside(events: map<nat, Delta>, storage: Storage) {
    forall p :: p in events ==> p <= storage.bytes && (storage.shared ==> p == 0 || p == storage.bytes)
  }

  /** One allocation's root view and events describe the uses that name it. */
  ghost predicate Tracks(root: BufferView, events: map<nat, Delta>, uses: seq<ViewUse>, id: nat) {
    && root.storage.id == id
    && Names(uses, root.storage)
    && (forall p: nat {:trigger Count(uses, id, p)} :: Total(events, p) == Count(uses, id, p))
    && EndsTracked(events, uses, id)
    && Inside(events, root.storage)
  }

  lemma {:induction false} CountStep(uses: seq<ViewUse>, k: nat, id: nat, b: nat)
    requires k < |uses|
    ensures Count(uses[..k + 1], id, b) ==
            if uses[k].view.Covers(id, b) then Count(uses[..k], id, b).Plus(Weight(uses[k].access)) else Count(uses[..k], id, b)
  {
    assert uses[..k + 1][..k] == uses[..k];
  }

  lemma {:induction false} TracksOther(root: BufferView, events: map<nat, Delta>, uses: seq<ViewUse>, k: nat, id: nat)
    requires k < |uses| && Tracks(root, events, uses[..k], id) && uses[k].view.storage.id != id
    ensures Tracks(root, events, uses[..k + 1], id)
  {
    assert uses[..k + 1] == uses[..k] + [uses[k]];
    forall p: nat ensures Total(events, p) == Count(uses[..k + 1], id, p) {
      CountStep(uses, k, id, p);
    }
  }

  lemma {:induction false} TracksNext(root: BufferView, events: map<nat, Delta>, uses: seq<ViewUse>, k: nat)
    requires k < |uses|
    requires root.storage == uses[k].view.storage
    requires forall p: nat {:trigger Count(uses[..k], root.storage.id, p)} :: Total(events, p) == Count(uses[..k], root.storage.id, p)
    requires EndsTracked(events, uses[..k], root.storage.id) && Inside(events, root.storage)
    ensures Tracks(root, AddUse(events, uses[k].view.Region(), Weight(uses[k].access)), uses[..k + 1], root.storage.id)
  {
    var id, region, d := root.storage.id, uses[k].view.Region(), Weight(uses[k].access);
    var now := uses[..k + 1];
    assert now == uses[..k] + [uses[k]];
    forall p: nat ensures Total(AddUse(events, region, d), p) == Count(now, id, p) {
      CountStep(uses, k, id, p);
      TotalAddUse(events, region, d, p);
    }
    assert uses[k] in now;
  }

  lemma {:induction false} NothingTracked(uses: seq<ViewUse>, id: nat, b: nat)
    requires forall u :: u in uses ==> u.view.storage.id != id
    ensures Count(uses, id, b) == Delta(0, 0)
  {
    if uses != [] {
      assert uses[|uses| - 1] in uses;
      NothingTracked(uses[..|uses| - 1], id, b);
    }
  }

  type Tracked = map<nat, (BufferView, map<nat, Delta>)>

  ghost predicate TracksAll(allocations: Tracked, uses: seq<ViewUse>) {
    && (forall id :: id in allocations ==> Tracks(allocations[id].0, allocations[id].1, uses, id))
    && (forall u :: u in uses ==> u.view.storage.id in allocations)
  }

  lemma {:induction false} TracksAllStep(allocations: Tracked, uses: seq<ViewUse>, k: nat)
    requires k < |uses| && Coherent(uses) && TracksAll(allocations, uses[..k])
    ensures var u := uses[k];
            var id := u.view.storage.id;
            var (root, events) := if id in allocations then allocations[id] else (u.view, map[]);
            TracksAll(allocations[id := (root, AddUse(events, u.view.Region(), Weight(u.access)))], uses[..k + 1])
  {
    var u := uses[k];
    var id := u.view.storage.id;
    assert uses[..k + 1] == uses[..k] + [u];
    forall other | other in allocations && other != id
      ensures Tracks(allocations[other].0, allocations[other].1, uses[..k + 1], other)
    {
      TracksOther(allocations[other].0, allocations[other].1, uses, k, other);
    }
    if id in allocations {
      var (root, events) := allocations[id];
      TracksNext(root, events, uses, k);
    } else {
      forall p: nat ensures Total(map[], p) == Count(uses[..k], id, p) {
        NothingTracked(uses[..k], id, p);
        TotalBeforeFirst(map[], p);
      }
      TracksNext(u.view, map[], uses, k);
    }
  }

  /** Gather each allocation's events. */
  method Collect(uses: seq<ViewUse>) returns (allocations: Tracked)
    requires Coherent(uses)
    ensures TracksAll(allocations, uses)
  {
    allocations := map[];
    for k := 0 to |uses|
      invariant TracksAll(allocations, uses[..k])
    {
      TracksAllStep(allocations, uses, k);
      var u := uses[k];
      var id := u.view.storage.id;
      var (root, events) := if id in allocations then allocations[id] else (u.view, map[]);
      allocations := allocations[id := (root, AddUse(events, u.view.Region(), Weight(u.access)))];
    }
    assert uses[..|uses|] == uses;
  }

  // ---------- the sweep ----------

  /** A canonical summary of everything before `previous` in the root's allocation. */
  ghost predicate Partial(out: seq<ViewUse>, uses: seq<ViewUse>, storage: Storage, previous: nat) {
    && Canonical(out)
    && (forall o :: o in out ==> Exact(o, uses) && Names(uses, o.view.storage))
    && (forall o :: o in out ==> o.view.storage.id < storage.id || (o.view.storage == storage && o.view.end <= previous))
  }

  /** Append an interval, or extend the last one when it touches with equal access. */
  method Extend(out: seq<ViewUse>, ghost uses: seq<ViewUse>, storage: Storage, access: Access, previous: nat, position: nat)
    returns (r: seq<ViewUse>)
    requires Partial(out, uses, storage, previous) && previous < position <= storage.bytes
    requires Names(uses, storage)
    requires storage.shared ==> previous == 0 && position == storage.bytes
    requires Exact(ViewUse(BufferView(storage, previous, position), access), uses)
    ensures Partial(r, uses, storage, position)
    ensures forall id: nat, b: nat :: Listed(r, id, b) <==> Listed(out, id, b) || (id == storage.id && previous <= b < position)
  {
    var n := |out|;
    if n > 0 && out[n - 1].view.storage == storage && out[n - 1].access == access && out[n - 1].view.end == previous {
      var longer := ViewUse(BufferView(storage, out[n - 1].view.start, position), access);
      r := out[..n - 1] + [longer];
      LongerIsPartial(out, uses, storage, previous, position);
    } else {
      r := out + [ViewUse(BufferView(storage, previous, position), access)];
      NextIsPartial(out, uses, ViewUse(BufferView(storage, previous, position), access));
    }
  }

  lemma {:induction false} NextIsPartial(out: seq<ViewUse>, uses: seq<ViewUse>, next: ViewUse)
    requires Partial(out, uses, next.view.storage, next.view.start) && Exact(next, uses) && Names(uses, next.view.storage)
    requires next.view.start < next.view.end && next.view.Region() == (next.view.start, next.view.end)
    requires out != [] ==> var last := out[|out| - 1];
                           !(last.view.storage == next.view.storage && last.access == next.access && last.view.end == next.view.start)
    ensures Partial(out + [next], uses, next.view.storage, next.view.end)
  {
  }

  lemma {:induction false} LongerIsPartial(out: seq<ViewUse>, uses: seq<ViewUse>, storage: Storage, previous: nat, position: nat)
    requires Partial(out, uses, storage, previous) && previous < position <= storage.bytes && out != []
    requires out[|out| - 1].view.storage == storage && out[|out| - 1].view.end == previous
    requires storage.shared ==> previous == 0 && position == storage.bytes
    requires Exact(ViewUse(BufferView(storage, previous, position), out[|out| - 1].access), uses)
    ensures var last := out[|out| - 1];
            Partial(out[..|out| - 1] + [ViewUse(BufferView(storage, last.view.start, position), last.access)], uses, storage, position)
  {
  }

  function AccessOf(current: Delta): Access {
    if current.read != 0 && current.written != 0 then ReadWrite else if current.written != 0 then Write else Read
  }

  /** Between two neighbouring events the totals say how every byte is used. */
  lemma {:induction false} BetweenEvents(root: BufferView, events: map<nat, Delta>, uses: seq<ViewUse>, current: Delta, previous: nat, position: nat, b: nat)
    requires Tracks(root, events, uses, root.storage.id) && previous <= b < position
    requires forall k :: k in events ==> !(previous < k < position)
    requires current == Total(events, previous) || (current == Delta(0, 0) && forall k :: k in events ==> position <= k)
    ensures current.read != 0 <==> ReadsByte(uses, root.storage.id, b)
    ensures current.written != 0 <==> WritesByte(uses, root.storage.id, b)
    ensures UsesByte(uses, root.storage.id, b) <==> current.read != 0 || current.written != 0
  {
    if current == Total(events, previous) {
      TotalConstant(events, previous, b);
    } else {
      TotalBeforeFirst(events, b);
    }
    CountIsUse(uses, root.storage.id, b);
  }

  /** `position` is the first event after `previous`, and `current` the totals in between. */
  ghost predicate NextEvent(events: map<nat, Delta>, current: Delta, previous: nat, position: nat, first: bool) {
    && position in events && previous <= position
    && (forall e :: e in events ==> !(previous < e < position))
    && if first then previous == 0 && current == Delta(0, 0) && forall e :: e in events ==> position <= e
       else previous in events && previous < position && current == Total(events, previous)
  }

  /** Nothing listed gets lost. */
  ghost predicate Keeps(out: seq<ViewUse>, r: seq<ViewUse>) {
    forall id: nat, b: nat :: Listed(out, id, b) ==> Listed(r, id, b)
  }

  /** Every used byte of the range is listed. */
  ghost predicate Covering(r: seq<ViewUse>, uses: seq<ViewUse>, id: nat, from: nat, to: nat) {
    forall b: nat :: from <= b < to && UsesByte(uses, id, b) ==> Listed(r, id, b)
  }

  lemma {:induction false} CoveringExtends(out: seq<ViewUse>, r: seq<ViewUse>, uses: seq<ViewUse>, id: nat, from: nat, to: nat)
    requires Keeps(out, r) && Covering(out, uses, id, 0, from) && Covering(r, uses, id, from, to)
    ensures Covering(r, uses, id, 0, to)
  {
  }

  lemma {:induction false} KeepsChain(x: seq<ViewUse>, y: seq<ViewUse>, z: seq<ViewUse>)
    requires Keeps(x, y) && Keeps(y, z)
    ensures Keeps(x, z)
  {
  }

  /** Summarize the stretch up to the next event. */
  method Advance(out: seq<ViewUse>, ghost uses: seq<ViewUse>, root: BufferView, ghost events: map<nat, Delta>,
                 current: Delta, previous: nat, position: nat, ghost first: bool)
    returns (r: seq<ViewUse>)
    requires Tracks(root, events, uses, root.storage.id) && Partial(out, uses, root.storage, previous)
    requires NextEvent(events, current, previous, position, first)
    ensures Partial(r, uses, root.storage, position)
    ensures Keeps(out, r) && Covering(r, uses, root.storage.id, previous, position)
  {
    r := out;
    ghost var id := root.storage.id;
    forall b: nat | previous <= b < position
      ensures current.read != 0 <==> ReadsByte(uses, id, b)
      ensures current.written != 0 <==> WritesByte(uses, id, b)
      ensures UsesByte(uses, id, b) <==> current.read != 0 || current.written != 0
    {
      BetweenEvents(root, events, uses, current, previous, position, b);
    }
    if previous < position && (current.read != 0 || current.written != 0) {
      r := Extend(r, uses, root.storage, AccessOf(current), previous, position);
    }
  }

  /** Sweep one allocation's events in order, after all smaller allocations. */
  method Sweep(out: seq<ViewUse>, ghost uses: seq<ViewUse>, root: BufferView, events: map<nat, Delta>) returns (r: seq<ViewUse>)
    requires Tracks(root, events, uses, root.storage.id) && Partial(out, uses, root.storage, 0)
    ensures Partial(r, uses, root.storage, root.storage.bytes) && Keeps(out, r)
    ensures CoveringAll(r, uses, root.storage.id)
  {
    var positions := Ascending(events.Keys);
    ghost var current, last;
    SweepStarts(out, uses, root, events, positions);
    r, current, last := SweepEvents(out, uses, root, events, positions);
    SweepEnds(out, r, uses, root, events, positions, current, last);
  }

  method SweepEvents(out: seq<ViewUse>, ghost uses: seq<ViewUse>, root: BufferView, events: map<nat, Delta>, positions: seq<nat>)
    returns (r: seq<ViewUse>, current: Delta, previous: nat)
    requires InOrder(positions, events) && Tracks(root, events, uses, root.storage.id)
    requires Sweeping(out, out, uses, root, events, positions, 0, Delta(0, 0), 0)
    ensures Sweeping(out, r, uses, root, events, positions, |positions|, current, previous)
  {
    r, current, previous := out, Delta(0, 0), 0;
    for k := 0 to |positions|
      invariant Sweeping(out, r, uses, root, events, positions, k, current, previous)
    {
      r, current, previous := NextStretch(out, r, uses, root, events, positions, k, current, previous);
    }
  }

  ghost predicate InOrder(positions: seq<nat>, events: map<nat, Delta>) {
    StrictlyAscending(positions) && forall e :: e in positions <==> e in events
  }

  lemma {:induction false} SweepStarts(out: seq<ViewUse>, uses: seq<ViewUse>, root: BufferView, events: map<nat, Delta>, positions: seq<nat>)
    requires Partial(out, uses, root.storage, 0)
    ensures Sweeping(out, out, uses, root, events, positions, 0, Delta(0, 0), 0)
  {
  }

  lemma {:induction false} SweepEnds(out: seq<ViewUse>, r: seq<ViewUse>, uses: seq<ViewUse>, root: BufferView, events: map<nat, Delta>,
                                     positions: seq<nat>, current: Delta, last: nat)
    requires InOrder(positions, events) && Tracks(root, events, uses, root.storage.id)
    requires Sweeping(out, r, uses, root, events, positions, |positions|, current, last)
    ensures Partial(r, uses, root.storage, root.storage.bytes) && Keeps(out, r) && CoveringAll(r, uses, root.storage.id)
  {
    AllBeforeLast(root, events, uses, positions, last);
    NothingAfterLast(r, uses, root.storage.id, last);
  }

  /** Everything before the `k`th event is summarized. */
  ghost predicate Sweeping(out: seq<ViewUse>, r: seq<ViewUse>, uses: seq<ViewUse>, root: BufferView, events: map<nat, Delta>,
                           positions: seq<nat>, k: nat, current: Delta, previous: nat)
  {
    && k <= |positions| && Partial(r, uses, root.storage, previous) && Reached(events, positions, k, current, previous)
    && Keeps(out, r) && Covering(r, uses, root.storage.id, 0, previous)
  }

  /** One turn of the sweep: summarize up to the next event, then apply it. */
  method NextStretch(ghost out: seq<ViewUse>, before: seq<ViewUse>, ghost uses: seq<ViewUse>, root: BufferView, events: map<nat, Delta>,
                     positions: seq<nat>, k: nat, current: Delta, previous: nat)
    returns (r: seq<ViewUse>, next: Delta, position: nat)
    requires InOrder(positions, events) && k < |positions|
    requires Tracks(root, events, uses, root.storage.id) && Sweeping(out, before, uses, root, events, positions, k, current, previous)
    ensures Sweeping(out, r, uses, root, events, positions, k + 1, next, position)
  {
    position := positions[k];
    IsNextEvent(events, positions, k, current, previous);
    r := Advance(before, uses, root, events, current, previous, position, k == 0);
    KeepsChain(out, before, r);
    CoveringExtends(before, r, uses, root.storage.id, previous, position);
    TotalStep(events, current, previous, position, k == 0);
    next := current.Plus(events[position]);
  }

  ghost predicate CoveringAll(r: seq<ViewUse>, uses: seq<ViewUse>, id: nat) {
    forall b: nat :: UsesByte(uses, id, b) ==> Listed(r, id, b)
  }

  lemma {:induction false} NothingAfterLast(r: seq<ViewUse>, uses: seq<ViewUse>, id: nat, last: nat)
    requires Covering(r, uses, id, 0, last) && forall b: nat :: UsesByte(uses, id, b) ==> b < last
    ensures CoveringAll(r, uses, id)
  {
  }

  /** The loop has passed the first `k` events. */
  ghost predicate Reached(events: map<nat, Delta>, positions: seq<nat>, k: nat, current: Delta, previous: nat)
    requires k <= |positions|
  {
    if k == 0 then previous == 0 && current == Delta(0, 0)
    else previous == positions[k - 1] && current == Total(events, previous)
  }

  lemma {:induction false} IsNextEvent(events: map<nat, Delta>, positions: seq<nat>, k: nat, current: Delta, previous: nat)
    requires StrictlyAscending(positions) && (forall e :: e in positions <==> e in events) && k < |positions|
    requires Reached(events, positions, k, current, previous)
    ensures NextEvent(events, current, previous, positions[k], k == 0)
  {
  }

  lemma {:induction false} AllBeforeLast(root: BufferView, events: map<nat, Delta>, uses: seq<ViewUse>, positions: seq<nat>, last: nat)
    requires Tracks(root, events, uses, root.storage.id)
    requires StrictlyAscending(positions) && forall e :: e in positions <==> e in events
    requires if positions == [] then last == 0 else last == positions[|positions| - 1]
    ensures last <= root.storage.bytes
    ensures forall b: nat :: UsesByte(uses, root.storage.id, b) ==> b < last
  {
    if positions != [] { assert last in positions; }
    forall b: nat | UsesByte(uses, root.storage.id, b) ensures b < last {
      var u :| u in uses && u.view.Covers(root.storage.id, b);
      assert u.view.Region().1 in positions;
      var j :| 0 <= j < |positions| && positions[j] == u.view.Region().1;
    }
  }

  lemma {:induction false} TotalStep(events: map<nat, Delta>, current: Delta, previous: nat, position: nat, first: bool)
    requires NextEvent(events, current, previous, position, first)
    ensures Total(events, position) == current.Plus(events[position])
  {
    if position > 0 {
      if first {
        TotalBeforeFirst(events, position - 1);
      } else {
        TotalConstant(events, previous, position - 1);
      }
    }
  }

  /** The summary is right for the first `k` allocations and names no later one. */
  ghost predicate SweptTo(summary: seq<ViewUse>, uses: seq<ViewUse>, ids: seq<nat>, k: nat)
    requires k <= |ids|
  {
    && Canonical(summary)
    && (forall o :: o in summary ==> Exact(o, uses) && Names(uses, o.view.storage))
    && (forall o, j :: o in summary && k <= j < |ids| ==> o.view.storage.id < ids[j])
    && (forall j, b: nat :: 0 <= j < k && UsesByte(uses, ids[j], b) ==> Listed(summary, ids[j], b))
  }

  lemma {:induction false} SweptNext(before: seq<ViewUse>, summary: seq<ViewUse>, uses: seq<ViewUse>, ids: seq<nat>, k: nat, storage: Storage)
    requires StrictlyAscending(ids) && k < |ids| && ids[k] == storage.id && SweptTo(before, uses, ids, k)
    requires Partial(summary, uses, storage, storage.bytes)
    requires Keeps(before, summary) && CoveringAll(summary, uses, storage.id)
    ensures SweptTo(summary, uses, ids, k + 1)
  {
  }

  lemma {:induction false} SweptAll(summary: seq<ViewUse>, uses: seq<ViewUse>, ids: seq<nat>)
    requires SweptTo(summary, uses, ids, |ids|) && forall u :: u in uses ==> u.view.storage.id in ids
    ensures Summarizes(summary, uses)
  {
  }

  /** The canonical intervals of a list of uses, found with one sweep over each allocation's events. */
  method Summarize(uses: seq<ViewUse>) returns (summary: seq<ViewUse>)
    requires Coherent(uses)
    ensures Summarizes(summary, uses)
  {
    var allocations := Collect(uses);
    summary := [];
    var ids := Ascending(allocations.Keys);
    for k := 0 to |ids|
      invariant SweptTo(summary, uses, ids, k)
    {
      assert ids[k] in allocations;
      var (root, events) := allocations[ids[k]];
      ghost var before := summary;
      summary := Sweep(summary, uses, root, events);
      SweptNext(before, summary, uses, ids, k, root.storage);
    }
    SweptAll(summary, uses, ids);
  }

  // ---------- conflicts ----------

  /** Two intervals of the same allocation share a byte, and one of them writes it. */
  ghost predicate Clash(u: ViewUse, v: ViewUse) {
    && u.view.storage.id == v.view.storage.id && u.view.start < v.view.end && v.view.start < u.view.end
    && (u.access.Writes() || v.access.Writes())
  }

  /** Sweep two canonical summaries rather than cross-multiplying them. */
  method Conflicts(a: seq<ViewUse>, b: seq<ViewUse>) returns (r: bool)
    requires Canonical(a) && Canonical(b)
    ensures r <==> exists x, y :: 0 <= x < |a| && 0 <= y < |b| && Clash(a[x], b[y])
  {
    var i, j := 0, 0;
    while i < |a| && j < |b|
      invariant 0 <= i <= |a| && 0 <= j <= |b|
      invariant forall x, y :: 0 <= x < |a| && 0 <= y < |b| && (x < i || y < j) ==> !Clash(a[x], b[y])
      decreases |a| - i + |b| - j
    {
      var ai, ar := a[i].view.storage.id, a[i].view.Region();
      var bi, br := b[j].view.storage.id, b[j].view.Region();
      if ai < bi || (ai == bi && ar.1 <= br.0) {
        forall y | j <= y < |b| ensures !Clash(a[i], b[y]) {
          if j < y { assert Precedes(b[j], b[y]); }
        }
        i := i + 1;
      } else if bi < ai || br.1 <= ar.0 {
        forall x | i <= x < |a| ensures !Clash(a[x], b[j]) {
          if i < x { assert Precedes(a[i], a[x]); }
        }
        j := j + 1;
      } else {
        if a[i].access.Writes() || b[j].access.Writes() {
          assert Clash(a[i], b[j]);
          return true;
        }
        if ar.1 <= br.1 {
          forall y | j <= y < |b| ensures !Clash(a[i], b[y]) {
            if j < y { assert Precedes(b[j], b[y]); }
          }
          i := i + 1;
        } else {
          forall x | i <= x < |a| ensures !Clash(a[x], b[j]) {
            if i < x { assert Precedes(a[i], a[x]); }
          }
          j := j + 1;
        }
      }
    }
    r := false;
  }

  /** A byte used by both, written by one of them. */
  ghost predicate SharedByte(x: seq<ViewUse>, y: seq<ViewUse>, id: nat, b: nat) {
    UsesByte(x, id, b) && UsesByte(y, id, b) && (WritesByte(x, id, b) || WritesByte(y, id, b))
  }

  /** The reference test: compare every pair of uses. */
  ghost predicate PairConflicts(x: seq<ViewUse>, y: seq<ViewUse>) {
    exists u, v :: u in x && v in y && u.Conflicts(v)
  }

  lemma {:induction false} ClashIsSharedByte(a: seq<ViewUse>, x: seq<ViewUse>, b: seq<ViewUse>, y: seq<ViewUse>, i: nat, j: nat)
    requires Summarizes(a, x) && Summarizes(b, y) && i < |a| && j < |b| && Clash(a[i], b[j])
    ensures exists id: nat, p: nat :: SharedByte(x, y, id, p)
  {
    var id := a[i].view.storage.id;
    var p := if a[i].view.start < b[j].view.start then b[j].view.start else a[i].view.start;
    assert Exact(a[i], x) && Exact(b[j], y);
    CountIsUse(x, id, p);
    CountIsUse(y, id, p);
    assert SharedByte(x, y, id, p);
  }

  lemma {:induction false} SharedByteIsClash(a: seq<ViewUse>, x: seq<ViewUse>, b: seq<ViewUse>, y: seq<ViewUse>, id: nat, p: nat)
    requires Summarizes(a, x) && Summarizes(b, y) && SharedByte(x, y, id, p)
    ensures exists i, j :: 0 <= i < |a| && 0 <= j < |b| && Clash(a[i], b[j])
  {
  }

  /** The sweep over two summaries sees a conflict exactly when the operations share a written byte. */
  lemma {:induction false} ClashesAreSharedBytes(a: seq<ViewUse>, x: seq<ViewUse>, b: seq<ViewUse>, y: seq<ViewUse>)
    requires Summarizes(a, x) && Summarizes(b, y)
    ensures (exists i, j :: 0 <= i < |a| && 0 <= j < |b| && Clash(a[i], b[j]))
            <==> exists id: nat, p: nat :: SharedByte(x, y, id, p)
  {
    if i, j :| 0 <= i < |a| && 0 <= j < |b| && Clash(a[i], b[j]) {
      ClashIsSharedByte(a, x, b, y, i, j);
    }
    if id: nat, p: nat :| SharedByte(x, y, id, p) {
      SharedByteIsClash(a, x, b, y, id, p);
    }
  }

  ghost predicate ShareByte(u: ViewUse, v: ViewUse) {
    exists b: nat :: u.view.Covers(u.view.storage.id, b) && v.view.Covers(u.view.storage.id, b)
  }

  /** An empty range of unshared storage lying strictly inside the other view. */
  ghost predicate EmptyInside(u: ViewUse, v: ViewUse) {
    && u.view.storage == v.view.storage && !u.view.storage.shared
    && (|| (u.view.start == u.view.end && v.view.start < u.view.start < v.view.end)
        || (v.view.start == v.view.end && u.view.start < v.view.start < u.view.end))
  }

  /**
   * The pairwise view test means "some byte in common", except that it also
   * reports an empty range strictly inside another one.
   */
  lemma {:induction false} ViewTestIsByteTest(u: ViewUse, v: ViewUse)
    requires u.view.storage.id == v.view.storage.id ==> u.view.storage == v.view.storage
    ensures (u.view.Conflicts(v.view) <==> ShareByte(u, v)) <==> !EmptyInside(u, v)
  {
    if u.view.storage == v.view.storage {
      var r, t := u.view.Region(), v.view.Region();
      var b := if r.0 < t.0 then t.0 else r.0;
      if r.0 < r.1 && t.0 < t.1 && r.0 < t.1 && t.0 < r.1 {
        assert u.view.Covers(u.view.storage.id, b) && v.view.Covers(u.view.storage.id, b);
      }
    }
  }

  /** Some written byte is in use on both sides. */
  ghost predicate SharesWrittenByte(x: seq<ViewUse>, y: seq<ViewUse>) {
    exists id: nat, p: nat :: SharedByte(x, y, id, p)
  }

  /** Some pair with a writer has an empty range strictly inside the other view. */
  ghost predicate EmptyInsidePair(x: seq<ViewUse>, y: seq<ViewUse>) {
    exists u, v :: u in x && v in y && EmptyInside(u, v) && (u.access.Writes() || v.access.Writes())
  }

  /**
   * The two-pointer sweep over the two summaries agrees with comparing every pair
   * of uses exactly when a written byte is shared, or no pair with a writer has an
   * empty range inside the other view.
   */
  lemma {:induction false} SweepIsPairwise(a: seq<ViewUse>, x: seq<ViewUse>, b: seq<ViewUse>, y: seq<ViewUse>)
    requires Summarizes(a, x) && Summarizes(b, y) && Coherent(x + y)
    ensures ((exists i, j :: 0 <= i < |a| && 0 <= j < |b| && Clash(a[i], b[j])) <==> PairConflicts(x, y))
            <==> SharesWrittenByte(x, y) || !EmptyInsidePair(x, y)
  {
    ClashesAreSharedBytes(a, x, b, y);
    PairwiseIsByteOrEmpty(x, y);
  }

  lemma {:induction false} PairwiseIsByteOrEmpty(x: seq<ViewUse>, y: seq<ViewUse>)
    requires Coherent(x + y)
    ensures PairConflicts(x, y) <==> SharesWrittenByte(x, y) || EmptyInsidePair(x, y)
  {
    if SharesWrittenByte(x, y) {
      var id: nat, p: nat :| SharedByte(x, y, id, p);
      SharedByteConflicts(x, y, id, p);
    }
    if u, v :| u in x && v in y && EmptyInside(u, v) && (u.access.Writes() || v.access.Writes()) {
      assert u.Conflicts(v);
    }
    if u, v :| u in x && v in y && u.Conflicts(v) {
      ConflictSharesByte(x, y, u, v);
    }
  }

  lemma {:induction false} SharedByteConflicts(x: seq<ViewUse>, y: seq<ViewUse>, id: nat, p: nat)
    requires Coherent(x + y) && SharedByte(x, y, id, p)
    ensures PairConflicts(x, y)
  {
    var u :| u in x && u.view.Covers(id, p) && (WritesByte(x, id, p) ==> u.access.Writes());
    var v :| v in y && v.view.Covers(id, p) && (WritesByte(y, id, p) ==> v.access.Writes());
    assert u in x + y && v in x + y;
    ViewTestIsByteTest(u, v);
    assert u.Conflicts(v);
  }

  lemma {:induction false} ConflictSharesByte(x: seq<ViewUse>, y: seq<ViewUse>, u: ViewUse, v: ViewUse)
    requires Coherent(x + y) && u in x && v in y && u.Conflicts(v)
    ensures SharesWrittenByte(x, y) || EmptyInsidePair(x, y)
  {
    assert u in x + y && v in x + y;
    ViewTestIsByteTest(u, v);
    if !EmptyInside(u, v) {
      var p: nat :| u.view.Covers(u.view.storage.id, p) && v.view.Covers(u.view.storage.id, p);
      assert SharedByte(x, y, u.view.storage.id, p);
    }
  }

  /** The two tests do disagree on an empty view inside a written one. */
  lemma {:induction false} EmptyViewDisagrees(storage: Storage)
    requires !storage.shared && storage.bytes >= 2
    ensures var x, y := [ViewUse(BufferView(storage, 1, 1), Read)], [ViewUse(BufferView(storage, 0, storage.bytes), Write)];
            PairConflicts(x, y) && !exists id: nat, p: nat :: SharedByte(x, y, id, p)
  {
    var x, y := [ViewUse(BufferView(storage, 1, 1), Read)], [ViewUse(BufferView(storage, 0, storage.bytes), Write)];
    assert x[0] in x && y[0] in y && x[0].Conflicts(y[0]);
  }

  // ---------- a summary is unique ----------

  ghost predicate Holds(o: ViewUse, storage: Storage, access: Access, p: nat) {
    o.view.storage == storage && o.access == access && o.view.start <= p < o.view.end
  }

  ghost predicate Found(s: seq<ViewUse>, storage: Storage, access: Access, p: nat) {
    exists j :: 0 <= j < |s| && Holds(s[j], storage, access, p)
  }

  /** Every byte of `a` lies in `b`, in the same allocation and with the same access. */
  ghost predicate Within(a: seq<ViewUse>, b: seq<ViewUse>) {
    forall storage, access, p: nat :: Found(a, storage, access, p) ==> Found(b, storage, access, p)
  }

  /** Location order of interval starts. */
  ghost predicate NotAfter(u: ViewUse, v: ViewUse) {
    u.view.storage.id < v.view.storage.id || (u.view.storage == v.view.storage && u.view.start <= v.view.start)
  }

  lemma {:induction false} HeadNotAfter(a: seq<ViewUse>, b: seq<ViewUse>)
    requires Canonical(a) && Canonical(b) && Within(a, b) && a != []
    ensures b != [] && NotAfter(b[0], a[0])
  {
    assert Holds(a[0], a[0].view.storage, a[0].access, a[0].view.start);
    assert Found(a, a[0].view.storage, a[0].access, a[0].view.start);
    var j :| 0 <= j < |b| && Holds(b[j], a[0].view.storage, a[0].access, a[0].view.start);
    if j > 0 { assert Precedes(b[0], b[j]); }
  }

  lemma {:induction false} HeadEndsNoLater(a: seq<ViewUse>, b: seq<ViewUse>)
    requires Canonical(a) && Canonical(b) && Within(b, a) && a != [] && b != []
    requires a[0].view.storage == b[0].view.storage && a[0].view.start == b[0].view.start && a[0].access == b[0].access
    ensures b[0].view.end <= a[0].view.end
  {
    HeadIsFound(b, a[0].view.end);
    NothingTouches(a);
  }

  lemma {:induction false} HeadIsFound(b: seq<ViewUse>, p: nat)
    requires b != []
    ensures b[0].view.start <= p < b[0].view.end ==> Found(b, b[0].view.storage, b[0].access, p)
  {
  }

  lemma {:induction false} NothingTouches(a: seq<ViewUse>)
    requires Canonical(a) && a != []
    ensures !Found(a, a[0].view.storage, a[0].access, a[0].view.end)
  {
  }

  lemma {:induction false} HeadsEqual(a: seq<ViewUse>, b: seq<ViewUse>)
    requires Canonical(a) && Canonical(b) && Within(a, b) && Within(b, a) && a != []
    ensures b != [] && a[0] == b[0]
  {
    HeadNotAfter(a, b);
    HeadNotAfter(b, a);
    assert Holds(a[0], a[0].view.storage, a[0].access, a[0].view.start);
    assert Found(a, a[0].view.storage, a[0].access, a[0].view.start);
    var j :| 0 <= j < |b| && Holds(b[j], a[0].view.storage, a[0].access, a[0].view.start);
    assert j == 0;
    HeadEndsNoLater(a, b);
    HeadEndsNoLater(b, a);
  }

  lemma {:induction false} TailWithin(a: seq<ViewUse>, b: seq<ViewUse>)
    requires Canonical(a) && Within(a, b) && a != [] && b != [] && a[0] == b[0]
    ensures Within(a[1..], b[1..])
  {
    var s, t := a[1..], b[1..];
    forall storage, access, p: nat | Found(s, storage, access, p) ensures Found(t, storage, access, p) {
      var i :| 0 <= i < |s| && Holds(s[i], storage, access, p);
      assert s[i] == a[i + 1] && Precedes(a[0], a[i + 1]);
      assert Found(a, storage, access, p);
      var j :| 0 <= j < |b| && Holds(b[j], storage, access, p);
      assert j > 0 && t[j - 1] == b[j];
    }
  }

  lemma {:induction false} CanonicalIsUnique(a: seq<ViewUse>, b: seq<ViewUse>)
    requires Canonical(a) && Canonical(b) && Within(a, b) && Within(b, a)
    ensures a == b
    decreases |a|
  {
    if a == [] {
      if b != [] { HeadNotAfter(b, a); }
    } else {
      HeadsEqual(a, b);
      TailWithin(a, b);
      TailWithin(b, a);
      CanonicalIsUnique(a[1..], b[1..]);
      assert a == [a[0]] + a[1..] && b == [b[0]] + b[1..];
    }
  }

  /** Two summaries list a byte under the same allocation. */
  lemma {:induction false} SameListedStorage(x: seq<ViewUse>, y: seq<ViewUse>, s: Storage, t: Storage)
    requires Coherent(x + y) && Names(x, s) && Names(y, t) && s.id == t.id
    ensures s == t
  {
  }

  ghost predicate SameBytes(x: seq<ViewUse>, y: seq<ViewUse>) {
    forall id: nat, p: nat :: (ReadsByte(x, id, p) <==> ReadsByte(y, id, p)) && (WritesByte(x, id, p) <==> WritesByte(y, id, p))
  }

  /** A byte of one summary is listed in the other with the same access. */
  lemma {:induction false} ByteIsFound(o: ViewUse, x: seq<ViewUse>, b: seq<ViewUse>, y: seq<ViewUse>, p: nat)
    requires Exact(o, x) && Names(x, o.view.storage) && o.view.start <= p < o.view.end
    requires Summarizes(b, y) && Coherent(x + y) && SameBytes(x, y)
    ensures Found(b, o.view.storage, o.access, p)
  {
    var id := o.view.storage.id;
    CountIsUse(y, id, p);
    assert Listed(b, id, p);
    var j :| 0 <= j < |b| && b[j].view.storage.id == id && b[j].view.start <= p < b[j].view.end;
    assert b[j] in b && Exact(b[j], y);
    SameListedStorage(x, y, o.view.storage, b[j].view.storage);
    assert Holds(b[j], o.view.storage, o.access, p);
  }

  lemma {:induction false} SummariesWithin(a: seq<ViewUse>, x: seq<ViewUse>, b: seq<ViewUse>, y: seq<ViewUse>)
    requires Summarizes(a, x) && Summarizes(b, y) && Coherent(x + y) && SameBytes(x, y)
    ensures Within(a, b)
  {
    forall storage, access, p: nat | Found(a, storage, access, p) ensures Found(b, storage, access, p) {
      var i :| 0 <= i < |a| && Holds(a[i], storage, access, p);
      assert a[i] in a;
      ByteIsFound(a[i], x, b, y, p);
    }
  }

  /**
   * The summary depends only on which bytes are read and which are written: not
   * on the order, the grouping or the overlap of the uses.
   */
  lemma {:induction false} SummaryIsUnique(a: seq<ViewUse>, x: seq<ViewUse>, b: seq<ViewUse>, y: seq<ViewUse>)
    requires Summarizes(a, x) && Summarizes(b, y) && Coherent(x + y) && SameBytes(x, y)
    ensures a == b
  {
    SummariesWithin(a, x, b, y);
    assert Coherent(y + x) by {
      forall u, v | u in y + x && v in y + x && u.view.storage.id == v.view.storage.id ensures u.view.storage == v.view.storage {
        assert u in x + y && v in x + y;
      }
    }
    SummariesWithin(b, y, a, x);
    CanonicalIsUnique(a, b);
  }
}
