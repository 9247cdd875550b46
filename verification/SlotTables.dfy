/** A pool of numbered slots shared between a free list and the experts that occupy one. */
module SlotTables {
  import opened Maps

  ghost predicate InUse<K(!new)>(used: map<K, nat>, slot: nat) {
    exists k :: k in used && used[k] == slot
  }

  ghost predicate Unshared<K(!new)>(used: map<K, nat>) {
    forall j, k :: j in used && k in used && j != k ==> used[j] != used[k]
  }

  ghost predicate NoRepeats(free: seq<nat>) {
    forall i, j :: 0 <= i < j < |free| ==> free[i] != free[j]
  }

  ghost predicate Bounded<K(!new)>(n: nat, free: seq<nat>, used: map<K, nat>) {
    && (forall i :: 0 <= i < |free| ==> free[i] < n)
    && (forall k :: k in used ==> used[k] < n)
  }

  /** Every slot number below n is on the free list or in use by one expert, never both. */
  ghost predicate Table<K(!new)>(n: nat, free: seq<nat>, used: map<K, nat>) {
    && NoRepeats(free) && Unshared(used) && Bounded(n, free, used)
    && (forall s :: 0 <= s < n ==> (s in free <==> !InUse(used, s)))
    && |free| + |used| == n
  }

  function Without(free: seq<nat>, i: nat): seq<nat>
    requires i < |free|
  {
    free[..i] + free[i + 1..]
  }

  lemma WithoutMembers(free: seq<nat>, i: nat, s: nat)
    requires NoRepeats(free) && i < |free|
    ensures s in Without(free, i) <==> s in free && s != free[i]
    ensures NoRepeats(Without(free, i))
  {
    var r := Without(free, i);
    assert forall j :: 0 <= j < i ==> r[j] == free[j];
    assert forall j :: i <= j < |r| ==> r[j] == free[j + 1];
    if s in free && s != free[i] {
      var j :| 0 <= j < |free| && free[j] == s;
      assert r[if j < i then j else j - 1] == s;
    }
  }

  lemma InsertInUse<K(!new)>(used: map<K, nat>, k: K, slot: nat, s: nat)
    requires k !in used
    ensures InUse(used[k := slot], s) <==> InUse(used, s) || s == slot
  {
    var m := used[k := slot];
    if InUse(used, s) { var j :| j in used && used[j] == s; assert j in m && m[j] == s; }
    if s == slot { assert k in m && m[k] == s; }
  }

  /** An expert takes the free slot at position `i`. */
  lemma Occupy<K(!new)>(n: nat, free: seq<nat>, used: map<K, nat>, i: nat, k: K)
    requires Table(n, free, used) && k !in used && i < |free|
    ensures Table(n, Without(free, i), used[k := free[i]])
  {
    hide InUse, NoRepeats;
    SizeInsert(used, k, free[i]);
    assert free[i] in free;
    NotInUse(used, free[i]);
    forall s: nat
      ensures s in Without(free, i) <==> s in free && s != free[i]
      ensures InUse(used[k := free[i]], s) <==> InUse(used, s) || s == free[i]
      ensures NoRepeats(Without(free, i))
    {
      WithoutMembers(free, i, s);
      InsertInUse(used, k, free[i], s);
    }
  }

  lemma NotInUse<K(!new)>(used: map<K, nat>, s: nat)
    requires !InUse(used, s)
    ensures forall k :: k in used ==> used[k] != s
  {
  }

  lemma RemoveInUse<K(!new)>(used: map<K, nat>, v: K, s: nat)
    requires v in used && Unshared(used)
    ensures InUse(used - {v}, s) <==> InUse(used, s) && s != used[v]
  {
    var m := used - {v};
    if InUse(used, s) && s != used[v] { var j :| j in used && used[j] == s; assert j in m && m[j] == s; }
    if InUse(m, s) { var j :| j in m && m[j] == s; assert j in used && used[j] == s; }
  }

  lemma SnocFree<K(!new)>(n: nat, free: seq<nat>, used: map<K, nat>, v: K)
    requires Table(n, free, used) && v in used
    ensures NoRepeats(free + [used[v]]) && used[v] !in free
  {
    assert InUse(used, used[v]);
  }

  /** An expert gives its slot back. */
  lemma Release<K(!new)>(n: nat, free: seq<nat>, used: map<K, nat>, v: K)
    requires Table(n, free, used) && v in used
    ensures Table(n, free + [used[v]], used - {v})
  {
    SnocFree(n, free, used, v);
    hide InUse, NoRepeats;
    SizeRemove(used, v);
    forall s: nat ensures InUse(used - {v}, s) <==> InUse(used, s) && s != used[v] {
      RemoveInUse(used, v, s);
    }
    assert forall s :: s in free + [used[v]] <==> s in free || s == used[v];
  }
}
