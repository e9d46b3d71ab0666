/** Vocabulary shared by every component: how an operation declares the bytes it uses. */
module Accesses {

  const USIZE_MAX: nat := 0xFFFF_FFFF_FFFF_FFFF

  datatype Option<+T> = None | Some(value: T)

  datatype Error = Message | Busy | DeviceLost | Unsupported

  datatype Result<+T> = Ok(value: T) | Err(error: Error)

  datatype Access = Read | Write | ReadWrite {
    predicate Writes() {
      this != Read
    }

    predicate Reads() {
      this != Write
    }
  }

  /** A half-open byte range of one allocation and the access made through it. */
  datatype Use = Use(allocation: nat, start: nat, end: nat, access: Access) {
    predicate Covers(a: nat, b: nat) {
      allocation == a && start <= b < end
    }
  }

  /** Some use in the list names the byte. */
  ghost predicate Covered(uses: seq<Use>, a: nat, b: nat) {
    exists u :: u in uses && u.Covers(a, b)
  }

  /** Some use in the list may write the byte. */
  ghost predicate WritesAt(uses: seq<Use>, a: nat, b: nat) {
    exists u :: u in uses && u.Covers(a, b) && u.access.Writes()
  }

  /** The two operations share a byte and at least one of them writes it. */
  ghost predicate Conflict(x: seq<Use>, y: seq<Use>) {
    exists a: nat, b: nat ::
      Covered(x, a, b) && Covered(y, a, b) && (WritesAt(x, a, b) || WritesAt(y, a, b))
  }

  // ---------- ordered iteration over a set, as a BTreeSet gives it ----------

  ghost predicate StrictlyAscending(s: seq<nat>) {
    forall i, j :: 0 <= i < j < |s| ==> s[i] < s[j]
  }

  lemma {:induction false} LargestExists(s: set<nat>)
    requires s != {}
    ensures exists m :: m in s && forall x :: x in s ==> x <= m
  {
    var m :| m in s;
    if s != {m} {
      LargestExists(s - {m});
      var n :| n in s - {m} && forall x :: x in s - {m} ==> x <= n;
      var big := if m < n then n else m;
      forall x | x in s ensures x <= big {
        if x != m { assert x in s - {m}; }
      }
      assert big in s;
    }
  }

  function Largest(s: set<nat>): (m: nat)
    requires s != {}
    ensures m in s && forall x :: x in s ==> x <= m
  {
    LargestExists(s);
    var m :| m in s && forall x :: x in s ==> x <= m;
    m
  }

  /** The elements of a set in increasing order. */
  function Ascending(s: set<nat>): (r: seq<nat>)
    ensures StrictlyAscending(r)
    ensures forall x :: x in r <==> x in s
    ensures |r| == |s|
    decreases |s|
  {
    if s == {} then []
    else
      var m := Largest(s);
      Ascending(s - {m}) + [m]
  }
}
