/**
 * What a list of commands with barrier flags means. Each command is any sequence
 * of steps confined to the bytes it declares; the steps of commands with no
 * barrier between them may interleave in any way.
 */
module Execution {
  import opened Accesses

  /** A byte of some allocation, or private state of one command. */
  datatype Loc = Byte(allocation: nat, offset: nat) | Register(command: nat, slot: nat)

  ghost predicate Any(l: Loc) {
    true
  }

  type Memory = m: imap<Loc, int> | forall l: Loc :: l in m ghost witness imap l: Loc | Any(l) :: 0

  type Step = Memory -> Memory

  /** A command is the list of uses it declares, with its barrier flag. */
  type Flagged = (seq<Use>, bool)

  /** Every two conflicting commands have a barrier between them. */
  ghost predicate HazardsSeparated(ordered: seq<Flagged>) {
    forall p, q :: 0 <= p < q < |ordered| && Conflict(ordered[p].0, ordered[q].0) ==> BarrierBetween(ordered, p, q)
  }

  /** A barrier after `p` and no later than `q`: every command up to `p` completes first. */
  ghost predicate BarrierBetween(ordered: seq<Flagged>, p: int, q: int) {
    exists c :: 0 <= c < |ordered| && p < c <= q && ordered[c].1
  }

  // ---------- confined steps commute ----------

  ghost predicate Touches(command: nat, uses: seq<Use>, l: Loc) {
    match l
    case Byte(a, b) => Covered(uses, a, b)
    case Register(owner, _) => owner == command
  }

  ghost predicate MayWrite(command: nat, uses: seq<Use>, l: Loc) {
    match l
    case Byte(a, b) => WritesAt(uses, a, b)
    case Register(owner, _) => owner == command
  }

  ghost predicate Agree(m: Memory, n: Memory, command: nat, uses: seq<Use>) {
    forall l: Loc :: Touches(command, uses, l) ==> m[l] == n[l]
  }

  /** The step writes only what the command may write and depends only on what it touches. */
  ghost predicate Confined(f: Step, command: nat, uses: seq<Use>) {
    && (forall m: Memory, l: Loc :: !MayWrite(command, uses, l) ==> f(m)[l] == m[l])
    && (forall m: Memory, n: Memory, l: Loc :: Agree(m, n, command, uses) && MayWrite(command, uses, l) ==> f(m)[l] == f(n)[l])
  }

  lemma {:induction false} WritersDoNotTouch(i: nat, x: seq<Use>, j: nat, y: seq<Use>, l: Loc)
    requires i != j && !Conflict(x, y) && MayWrite(i, x, l)
    ensures !Touches(j, y, l)
  {
  }

  lemma {:induction false} MayWriteTouches(i: nat, x: seq<Use>, l: Loc)
    requires MayWrite(i, x, l)
    ensures Touches(i, x, l)
  {
  }

  /** At a location the first command may write, the order of the two steps is invisible. */
  lemma {:induction false} CommuteAt(f: Step, i: nat, x: seq<Use>, g: Step, j: nat, y: seq<Use>, m: Memory, l: Loc)
    requires i != j && !Conflict(x, y) && Confined(f, i, x) && Confined(g, j, y)
    requires MayWrite(i, x, l)
    ensures f(g(m))[l] == g(f(m))[l]
  {
    WritersDoNotTouch(i, x, j, y, l);
    if MayWrite(j, y, l) { MayWriteTouches(j, y, l); }
    assert g(f(m))[l] == f(m)[l];
    forall k: Loc | Touches(i, x, k) ensures g(m)[k] == m[k] {
      if MayWrite(j, y, k) {
        assert !Conflict(y, x) by { ConflictSymmetric(x, y); }
        WritersDoNotTouch(j, y, i, x, k);
      }
    }
    assert Agree(g(m), m, i, x);
  }

  lemma {:induction false} ConflictSymmetric(x: seq<Use>, y: seq<Use>)
    ensures Conflict(x, y) <==> Conflict(y, x)
  {
  }

  lemma {:induction false} Commute(f: Step, i: nat, x: seq<Use>, g: Step, j: nat, y: seq<Use>, m: Memory)
    requires i != j && !Conflict(x, y) && Confined(f, i, x) && Confined(g, j, y)
    ensures f(g(m)) == g(f(m))
  {
    ConflictSymmetric(x, y);
    forall l: Loc ensures f(g(m))[l] == g(f(m))[l] {
      if MayWrite(i, x, l) {
        CommuteAt(f, i, x, g, j, y, m, l);
      } else if MayWrite(j, y, l) {
        CommuteAt(g, j, y, f, i, x, m, l);
      } else {
        assert f(g(m))[l] == g(m)[l] == m[l];
        assert g(f(m))[l] == f(m)[l] == m[l];
      }
    }
  }

  // ---------- schedules ----------

  datatype Task = Task(command: nat, step: nat)

  ghost predicate Valid(programs: seq<seq<Step>>, t: Task) {
    t.command < |programs| && t.step < |programs[t.command]|
  }

  /** Recording order: by command, then by step. */
  predicate Before(t: Task, u: Task) {
    t.command < u.command || (t.command == u.command && t.step < u.step)
  }

  ghost predicate AllValid(programs: seq<seq<Step>>, tasks: seq<Task>) {
    forall i :: 0 <= i < |tasks| ==> Valid(programs, tasks[i])
  }

  ghost function Run(programs: seq<seq<Step>>, tasks: seq<Task>, m: Memory): Memory
    requires AllValid(programs, tasks)
  {
    if tasks == [] then m
    else
      Run(programs, tasks[1..], programs[tasks[0].command][tasks[0].step](m))
  }

  ghost predicate Distinct(tasks: seq<Task>) {
    forall i, j :: 0 <= i < j < |tasks| ==> tasks[i] != tasks[j]
  }

  ghost predicate Sorted(tasks: seq<Task>) {
    forall i, j :: 0 <= i < j < |tasks| ==> Before(tasks[i], tasks[j])
  }

  /** Every step of every command, once. */
  ghost predicate Complete(programs: seq<seq<Step>>, tasks: seq<Task>) {
    Distinct(tasks) && AllValid(programs, tasks) && forall t :: Valid(programs, t) ==> t in tasks
  }

  ghost predicate MustPrecede(ordered: seq<Flagged>, t: Task, u: Task) {
    || (t.command == u.command && t.step < u.step)
    || (t.command < u.command && BarrierBetween(ordered, t.command, u.command))
  }

  /** The order the device may run the steps in. */
  ghost predicate Admissible(ordered: seq<Flagged>, programs: seq<seq<Step>>, tasks: seq<Task>) {
    && Complete(programs, tasks)
    && forall i, j :: 0 <= i < j < |tasks| ==> !MustPrecede(ordered, tasks[j], tasks[i])
  }

  ghost predicate Declared(ordered: seq<Flagged>, programs: seq<seq<Step>>) {
    && |programs| == |ordered|
    && forall c, s :: 0 <= c < |programs| && 0 <= s < |programs[c]| ==> Confined(programs[c][s], c, ordered[c].0)
  }

  /** The tasks of the first `c` commands and the first `s` steps of command `c`. */
  ghost function Recorded(programs: seq<seq<Step>>, c: nat, s: nat): (tasks: seq<Task>)
    requires if c == |programs| then s == 0 else c < |programs| && s <= |programs[c]|
    decreases c, s
  {
    if s > 0 then Recorded(programs, c, s - 1) + [Task(c, s - 1)]
    else if c > 0 then Recorded(programs, c - 1, |programs[c - 1]|)
    else []
  }

  lemma {:induction false} RecordedIsSorted(programs: seq<seq<Step>>, c: nat, s: nat)
    requires if c == |programs| then s == 0 else c < |programs| && s <= |programs[c]|
    ensures Sorted(Recorded(programs, c, s))
    ensures AllValid(programs, Recorded(programs, c, s))
    ensures forall t :: t in Recorded(programs, c, s) <==> Valid(programs, t) && Before(t, Task(c, s))
    decreases c, s
  {
    if s > 0 {
      RecordedIsSorted(programs, c, s - 1);
      var before := Recorded(programs, c, s - 1);
      forall i | 0 <= i < |before| ensures Before(before[i], Task(c, s - 1)) {
        assert before[i] in before;
      }
    } else if c > 0 {
      RecordedIsSorted(programs, c - 1, |programs[c - 1]|);
    }
  }

  /** Every step of every command, in recording order. */
  ghost function RecordingOrder(programs: seq<seq<Step>>): (tasks: seq<Task>)
    ensures Complete(programs, tasks) && Sorted(tasks)
  {
    RecordedIsSorted(programs, |programs|, 0);
    Recorded(programs, |programs|, 0)
  }

  /** Recording order is itself an order the device may choose. */
  lemma {:induction false} RecordingOrderIsAdmissible(ordered: seq<Flagged>, programs: seq<seq<Step>>)
    ensures Admissible(ordered, programs, RecordingOrder(programs))
  {
  }

  // ---------- reordering ----------

  ghost predicate Independent(ordered: seq<Flagged>, t: Task, u: Task) {
    t.command < |ordered| && u.command < |ordered| && t.command != u.command
    && !Conflict(ordered[t.command].0, ordered[u.command].0)
  }

  lemma {:induction false} MoveToFront(ordered: seq<Flagged>, programs: seq<seq<Step>>, tasks: seq<Task>, p: nat, m: Memory)
    requires Declared(ordered, programs) && p < |tasks|
    requires AllValid(programs, tasks)
    requires forall k :: 0 <= k < p ==> Independent(ordered, tasks[k], tasks[p])
    ensures AllValid(programs, [tasks[p]] + (tasks[..p] + tasks[p + 1..]))
    ensures Run(programs, tasks, m) == Run(programs, [tasks[p]] + (tasks[..p] + tasks[p + 1..]), m)
    decreases p
  {
    var x, rest := tasks[p], tasks[..p] + tasks[p + 1..];
    if p == 0 {
      assert [x] + rest == tasks;
    } else {
      var e, tail := tasks[0], tasks[1..];
      var f, g := programs[x.command][x.step], programs[e.command][e.step];
      MoveToFront(ordered, programs, tail, p - 1, g(m));
      var rest' := tail[..p - 1] + tail[p..];
      assert rest == [e] + rest';
      Commute(g, e.command, ordered[e.command].0, f, x.command, ordered[x.command].0, m);
      assert ([x] + rest')[1..] == rest' && ([x] + rest)[1..] == rest && rest[1..] == rest';
    }
  }

  /** Any order that only swaps independent tasks leaves the same memory. */
  lemma {:induction false} Reorder(ordered: seq<Flagged>, programs: seq<seq<Step>>, sorted: seq<Task>, tasks: seq<Task>, m: Memory)
    requires Declared(ordered, programs)
    requires AllValid(programs, sorted) && AllValid(programs, tasks)
    requires Sorted(sorted) && Distinct(tasks) && forall t :: t in sorted <==> t in tasks
    requires forall i, j :: 0 <= i < j < |tasks| && Before(tasks[j], tasks[i]) ==> Independent(ordered, tasks[j], tasks[i])
    ensures Run(programs, sorted, m) == Run(programs, tasks, m)
    decreases |tasks|
  {
    if tasks == [] {
      HasMember(sorted);
    } else {
      var x := tasks[0];
      assert x in sorted;
      var p :| 0 <= p < |sorted| && sorted[p] == x;
      forall k | 0 <= k < p ensures Independent(ordered, sorted[k], x) {
        assert sorted[k] in tasks;
        var j :| 0 <= j < |tasks| && tasks[j] == sorted[k];
      }
      MoveToFront(ordered, programs, sorted, p, m);
      var rest := sorted[..p] + sorted[p + 1..];
      RestIsSorted(sorted, p);
      forall t ensures t in rest <==> t in tasks[1..] {
        assert t in tasks <==> t == x || t in tasks[1..];
      }
      var f := programs[x.command][x.step];
      Reorder(ordered, programs, rest, tasks[1..], f(m));
      assert ([x] + rest)[1..] == rest;
    }
  }

  lemma {:induction false} HasMember(tasks: seq<Task>)
    ensures tasks != [] ==> exists t :: t in tasks
  {
    if tasks != [] {
      assert tasks[0] in tasks;
    }
  }

  lemma {:induction false} RestIsSorted(sorted: seq<Task>, p: nat)
    requires Sorted(sorted) && p < |sorted|
    ensures Sorted(sorted[..p] + sorted[p + 1..])
    ensures forall t :: t in sorted[..p] + sorted[p + 1..] <==> t in sorted && t != sorted[p]
  {
  }

  /**
   * Whatever the commands compute within the bytes they declare, and however the
   * device interleaves the steps the barriers leave unordered, the final memory
   * is that of running the commands one after another in recording order.
   */
  lemma {:induction false} MeaningPreserved(ordered: seq<Flagged>, programs: seq<seq<Step>>, tasks: seq<Task>, m: Memory)
    requires HazardsSeparated(ordered) && Declared(ordered, programs) && Admissible(ordered, programs, tasks)
    ensures Run(programs, tasks, m) == Run(programs, RecordingOrder(programs), m)
  {
    forall i, j | 0 <= i < j < |tasks| && Before(tasks[j], tasks[i]) ensures Independent(ordered, tasks[j], tasks[i]) {
      assert !MustPrecede(ordered, tasks[j], tasks[i]);
      assert !BarrierBetween(ordered, tasks[j].command, tasks[i].command);
    }
    var sorted := RecordingOrder(programs);
    forall t ensures t in sorted <==> t in tasks {
      assert t in sorted ==> Valid(programs, t);
      assert t in tasks ==> Valid(programs, t);
    }
    Reorder(ordered, programs, sorted, tasks, m);
  }

  // ---------- the barriers are also necessary ----------

  ghost predicate RunsAsRecorded(programs: seq<seq<Step>>, tasks: seq<Task>, m: Memory)
    requires AllValid(programs, tasks)
  {
    Run(programs, tasks, m) == Run(programs, RecordingOrder(programs), m)
  }

  ghost predicate PreservesMeaning(ordered: seq<Flagged>) {
    forall programs: seq<seq<Step>>, tasks: seq<Task>, m: Memory ::
      Declared(ordered, programs) && Admissible(ordered, programs, tasks) ==> RunsAsRecorded(programs, tasks, m)
  }

  ghost function Set(m: Memory, l: Loc, v: int): Memory {
    m[l := v]
  }

  /** A command that reveals when it ran: it writes the byte, or copies it to a register. */
  ghost function Probe(c: nat, uses: seq<Use>, a: nat, b: nat): Step {
    if WritesAt(uses, a, b) then (m: Memory) => Set(m, Byte(a, b), c + 1)
    else (m: Memory) => Set(m, Register(c, 0), m[Byte(a, b)])
  }

  lemma {:induction false} ProbeIsConfined(c: nat, uses: seq<Use>, a: nat, b: nat)
    requires Covered(uses, a, b)
    ensures Confined(Probe(c, uses, a, b), c, uses)
  {
  }

  /** Running two conflicting probes in the other order changes the final memory. */
  lemma {:induction false} ProbesDiffer(p: nat, x: seq<Use>, q: nat, y: seq<Use>, a: nat, b: nat, m: Memory)
    requires p != q && (WritesAt(x, a, b) || WritesAt(y, a, b))
    requires m[Byte(a, b)] == 0
    ensures Probe(q, y, a, b)(Probe(p, x, a, b)(m)) != Probe(p, x, a, b)(Probe(q, y, a, b)(m))
  {
  }

  ghost function TwoPrograms(n: nat, p: nat, f: Step, q: nat, g: Step): seq<seq<Step>> {
    seq(n, c => if c == p then [f] else if c == q then [g] else [])
  }

  lemma {:induction false} TwoProgramsSteps(n: nat, p: nat, f: Step, q: nat, g: Step)
    requires p < q < n
    ensures var programs := TwoPrograms(n, p, f, q, g);
            && |programs| == n && programs[p] == [f] && programs[q] == [g]
            && forall t :: Valid(programs, t) <==> t == Task(p, 0) || t == Task(q, 0)
  {
  }

  lemma {:induction false} TwoProgramsDeclared(ordered: seq<Flagged>, p: nat, f: Step, q: nat, g: Step)
    requires p < q < |ordered| && Confined(f, p, ordered[p].0) && Confined(g, q, ordered[q].0)
    ensures Declared(ordered, TwoPrograms(|ordered|, p, f, q, g))
  {
  }

  /** With no barrier in between, the second of two tasks may run first. */
  lemma {:induction false} SwapIsAdmissible(ordered: seq<Flagged>, programs: seq<seq<Step>>, first: Task, second: Task)
    requires first.command < second.command && !BarrierBetween(ordered, first.command, second.command)
    requires forall t :: Valid(programs, t) <==> t == first || t == second
    ensures Admissible(ordered, programs, [second, first])
  {
    var tasks := [second, first];
    assert tasks[0] == second && tasks[1] == first;
  }

  /** Programs whose two steps do not commute on some memory, run in the other order, differ from recording order. */
  lemma {:induction false} SwapIsVisible(programs: seq<seq<Step>>, first: Task, second: Task, m: Memory)
    requires Before(first, second) && forall t :: Valid(programs, t) <==> t == first || t == second
    requires Valid(programs, first) && Valid(programs, second)
    requires var f, g := programs[first.command][first.step], programs[second.command][second.step]; g(f(m)) != f(g(m))
    ensures AllValid(programs, [second, first]) && !RunsAsRecorded(programs, [second, first], m)
  {
    OnlyTwoTasks(programs, first, second);
    RunTwo(programs, first, second, m);
    RunTwo(programs, second, first, m);
  }

  /** Two conflicting commands with no barrier between them can be told apart. */
  lemma {:induction false} MissingBarrierIsVisible(ordered: seq<Flagged>, p: nat, q: nat)
    requires p < q < |ordered| && Conflict(ordered[p].0, ordered[q].0) && !BarrierBetween(ordered, p, q)
    ensures !PreservesMeaning(ordered)
  {
    var x, y := ordered[p].0, ordered[q].0;
    var a: nat, b: nat :| Covered(x, a, b) && Covered(y, a, b) && (WritesAt(x, a, b) || WritesAt(y, a, b));
    var f, g := Probe(p, x, a, b), Probe(q, y, a, b);
    var programs := TwoPrograms(|ordered|, p, f, q, g);
    ProbeIsConfined(p, x, a, b);
    ProbeIsConfined(q, y, a, b);
    TwoProgramsDeclared(ordered, p, f, q, g);
    TwoProgramsSteps(|ordered|, p, f, q, g);
    SwapIsAdmissible(ordered, programs, Task(p, 0), Task(q, 0));
    var m: Memory := imap l: Loc | Any(l) :: 0;
    ProbesDiffer(p, x, q, y, a, b, m);
    SwapIsVisible(programs, Task(p, 0), Task(q, 0), m);
  }

  lemma {:induction false} OnlyTwoTasks(programs: seq<seq<Step>>, first: Task, second: Task)
    requires Before(first, second) && forall t :: Valid(programs, t) <==> t == first || t == second
    ensures RecordingOrder(programs) == [first, second]
  {
    var tasks := RecordingOrder(programs);
    assert Valid(programs, first) && Valid(programs, second);
    var i :| 0 <= i < |tasks| && tasks[i] == first;
    var j :| 0 <= j < |tasks| && tasks[j] == second;
    assert Before(tasks[i], tasks[j]) && !Before(tasks[j], tasks[i]);
    assert i < j;
    OneOfTwo(programs, tasks, i, j, 0);
    OneOfTwo(programs, tasks, i, j, 1);
    OneOfTwo(programs, tasks, i, j, |tasks| - 1);
  }

  lemma {:induction false} OneOfTwo(programs: seq<seq<Step>>, tasks: seq<Task>, i: nat, j: nat, k: nat)
    requires AllValid(programs, tasks) && Distinct(tasks) && i < |tasks| && j < |tasks| && k < |tasks|
    requires forall t :: Valid(programs, t) <==> t == tasks[i] || t == tasks[j]
    ensures k == i || k == j
  {
    assert Valid(programs, tasks[k]);
  }

  lemma {:induction false} RunTwo(programs: seq<seq<Step>>, t: Task, u: Task, m: Memory)
    requires Valid(programs, t) && Valid(programs, u)
    ensures Run(programs, [t, u], m) == programs[u.command][u.step](programs[t.command][t.step](m))
  {
    assert [t, u][1..] == [u] && [u][1..] == [];
    var m' := programs[t.command][t.step](m);
    assert Run(programs, [u], m') == programs[u.command][u.step](m');
  }

  /** The barriers preserve the meaning of every program exactly when they separate every hazard. */
  lemma {:induction false} SeparationIsMeaning(ordered: seq<Flagged>)
    ensures HazardsSeparated(ordered) <==> PreservesMeaning(ordered)
  {
    if HazardsSeparated(ordered) {
      forall programs: seq<seq<Step>>, tasks: seq<Task>, m: Memory
        | Declared(ordered, programs) && Admissible(ordered, programs, tasks)
        ensures RunsAsRecorded(programs, tasks, m)
      {
        MeaningPreserved(ordered, programs, tasks, m);
      }
    } else {
      var p, q :| 0 <= p < q < |ordered| && Conflict(ordered[p].0, ordered[q].0) && !BarrierBetween(ordered, p, q);
      MissingBarrierIsVisible(ordered, p, q);
    }
  }
}
