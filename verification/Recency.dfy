/** Choosing a victim: keep the eligible entries with their last use, then take the smallest. */
module Recency {
  import opened Accesses

  /** An eligible entry that no eligible entry is older than. */
  ghost predicate Oldest<K>(lastUse: map<K, nat>, k: K) {
    k in lastUse && forall o :: o in lastUse ==> lastUse[k] <= lastUse[o]
  }

  /** The oldest of the eligible entries, or none; ties are broken by iteration order. */
  method FindOldest<K(==)>(lastUse: map<K, nat>) returns (victim: Option<K>)
    ensures victim.None? <==> lastUse == map[]
    ensures victim.Some? ==> Oldest(lastUse, victim.value)
  {
    victim := None;
    var todo := lastUse.Keys;
    while todo != {}
      invariant todo <= lastUse.Keys && (victim.None? ==> todo == lastUse.Keys)
      invariant victim.Some? ==> victim.value in lastUse
      invariant victim.Some? ==> forall k :: k in lastUse && k !in todo ==> lastUse[victim.value] <= lastUse[k]
      decreases |todo|
    {
      var k :| k in todo;
      if victim.None? || lastUse[k] < lastUse[victim.value] {
        victim := Some(k);
      }
      todo := todo - {k};
    }
  }
}
