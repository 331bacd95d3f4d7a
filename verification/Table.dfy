/** The logical content of the key-value table. A value of length 0 stands for "absent",
    as the log and the redo pass read it. */
module Table {
  type Key = string
  type Value = string

  const ABSENT: Value := ""

  type Table = t: map<Key, Value> | forall k :: k in t ==> t[k] != ABSENT witness map[]

  function Look(t: Table, k: Key): Value {
    if k in t then t[k] else ABSENT
  }

  /** Sets `k` to `v`, or deletes `k` when `v` is absent. */
  function Put(t: Table, k: Key, v: Value): (r: Table)
    ensures Look(r, k) == v
    ensures forall j :: j != k ==> Look(r, j) == Look(t, j)
  {
    if v == ABSENT then t - {k} else t[k := v]
  }

  /** Tables that answer every lookup alike are equal. */
  lemma SameLookups(a: Table, b: Table)
    requires forall k :: Look(a, k) == Look(b, k)
    ensures a == b
  {
    forall k ensures k in a <==> k in b {
      assert Look(a, k) == Look(b, k);
    }
    forall k | k in a ensures a[k] == b[k] {
      assert Look(a, k) == Look(b, k);
    }
  }
}
