/** `src/lock_rwlock.c` and `src/lock_manager.c`: re-entrant exclusive locks, one per stripe. */
module Locks {
  import opened Utils

  /** Thread identity; 0 is nobody. */
  type Thread = nat

  const STRIPES: nat := 64

  datatype Lock = Lock(owner: Thread, count: nat)

  const UNLOCKED := Lock(0, 0)

  function Stripe(k: string): (s: nat)
    ensures s < STRIPES
  {
    Djb2(k) % STRIPES
  }

  /** `self` gets the lock at once; otherwise it waits for the mutex. */
  predicate CanLock(l: Lock, self: Thread) {
    l.owner == self || l.owner == 0
  }

  function Acquired(l: Lock, self: Thread): Lock {
    if l.owner == self then Lock(self, l.count + 1) else Lock(self, 1)
  }

  function Released(l: Lock, self: Thread): Lock {
    if l.owner != self || l.count == 0 then l
    else if l.count == 1 then UNLOCKED
    else Lock(self, l.count - 1)
  }

  type LockTable = ls: seq<Lock> | |ls| == STRIPES witness seq(STRIPES, _ => UNLOCKED)

  function AllUnlocked(): LockTable {
    seq(STRIPES, _ => UNLOCKED)
  }

  function LockKey(ls: LockTable, k: string, self: Thread): LockTable {
    ls[Stripe(k) := Acquired(ls[Stripe(k)], self)]
  }

  function UnlockKey(ls: LockTable, k: string, self: Thread): LockTable {
    ls[Stripe(k) := Released(ls[Stripe(k)], self)]
  }

  /** Unlocks the keys of a lock list from its tail, as `kv_tx_unlock_all` does. */
  function UnlockAll(ls: LockTable, keys: seq<string>, self: Thread): LockTable
    decreases |keys|
  {
    if keys == [] then ls
    else UnlockAll(UnlockKey(ls, keys[|keys| - 1], self), keys[..|keys| - 1], self)
  }

  /** A thread gets a stripe at once exactly when nobody or it itself has it; then it has it, counted once
      more; no other stripe is touched. */
  lemma GrantedIff(ls: LockTable, k: string, self: Thread)
    ensures CanLock(ls[Stripe(k)], self) <==> ls[Stripe(k)].owner == self || ls[Stripe(k)].owner == 0
    ensures var l, l' := ls[Stripe(k)], LockKey(ls, k, self)[Stripe(k)];
            && l'.owner == self
            && (l.owner == self ==> l'.count == l.count + 1)
            && (l.owner != self ==> l'.count == 1)
    ensures forall n | 0 <= n < STRIPES && n != Stripe(k) :: LockKey(ls, k, self)[n] == ls[n]
  {
  }

  // ---------- conservation ----------

  /** How many entries of a lock list fall on stripe `s`. */
  function Entries(keys: seq<string>, s: nat): nat {
    if keys == [] then 0
    else Entries(keys[..|keys| - 1], s) + if Stripe(keys[|keys| - 1]) == s then 1 else 0
  }

  function CountOf(l: Lock, th: Thread): nat {
    if l.owner == th then l.count else 0
  }

  predicate Sane(l: Lock) {
    l.owner == 0 <==> l.count == 0
  }

  /** Every stripe's count is the number of entries on it in its owner's lock list, and nobody else
      has any. */
  ghost predicate Conserved(ls: LockTable, held: map<Thread, seq<string>>) {
    && 0 !in held
    && (forall s | 0 <= s < STRIPES :: Sane(ls[s]) && (ls[s].owner != 0 ==> ls[s].owner in held))
    && (forall th, s | th in held && 0 <= s < STRIPES :: Entries(held[th], s) == CountOf(ls[s], th))
  }

  lemma EntriesAppend(keys: seq<string>, k: string, s: nat)
    ensures Entries(keys + [k], s) == Entries(keys, s) + if Stripe(k) == s then 1 else 0
  {
    assert (keys + [k])[..|keys|] == keys;
  }

  lemma LockConserves(ls: LockTable, held: map<Thread, seq<string>>, th: Thread, k: string)
    requires Conserved(ls, held) && th in held && CanLock(ls[Stripe(k)], th)
    ensures Conserved(LockKey(ls, k, th), held[th := held[th] + [k]])
  {
    forall s | 0 <= s < STRIPES
      ensures Entries(held[th] + [k], s) == CountOf(LockKey(ls, k, th)[s], th)
    {
      EntriesAppend(held[th], k, s);
    }
  }

  lemma UnlockConserves(ls: LockTable, held: map<Thread, seq<string>>, th: Thread)
    requires Conserved(ls, held) && th in held && held[th] != []
    ensures var n := |held[th]| - 1;
            Conserved(UnlockKey(ls, held[th][n], th), held[th := held[th][..n]])
  {
    var n := |held[th]| - 1;
    var k, init := held[th][n], held[th][..n];
    forall s | 0 <= s < STRIPES
      ensures Entries(init, s) == CountOf(UnlockKey(ls, k, th)[s], th)
    {
      assert Entries(held[th], s) == CountOf(ls[s], th);
    }
    assert ls[Stripe(k)].owner == th;
  }

  lemma JoinConserves(ls: LockTable, held: map<Thread, seq<string>>, th: Thread)
    requires Conserved(ls, held) && th !in held && th != 0
    ensures Conserved(ls, held[th := []])
  {
  }

  lemma LeaveConserves(ls: LockTable, held: map<Thread, seq<string>>, th: Thread)
    requires Conserved(ls, held) && th in held && held[th] == []
    ensures Conserved(ls, held - {th})
  {
    forall s | 0 <= s < STRIPES ensures ls[s].owner != th {
      assert Entries(held[th], s) == CountOf(ls[s], th);
    }
  }

  /** Theorem: unlocking a whole lock list frees exactly the stripes its thread owned and leaves
      every other stripe as it was. */
  lemma {:induction false} UnlockAllFrees(ls: LockTable, held: map<Thread, seq<string>>, th: Thread)
    requires Conserved(ls, held) && th in held
    ensures Conserved(UnlockAll(ls, held[th], th), held[th := []])
    ensures forall s | 0 <= s < STRIPES ::
              UnlockAll(ls, held[th], th)[s] == if ls[s].owner == th then UNLOCKED else ls[s]
    decreases |held[th]|
  {
    if held[th] == [] {
      assert held[th := []] == held;
      assert forall s | 0 <= s < STRIPES :: Entries(held[th], s) == 0;
    } else {
      var n := |held[th]| - 1;
      var k, init := held[th][n], held[th][..n];
      UnlockConserves(ls, held, th);
      UnlockAllFrees(UnlockKey(ls, k, th), held[th := init], th);
      assert held[th := init][th := []] == held[th := []];
      assert Entries(held[th], Stripe(k)) == CountOf(ls[Stripe(k)], th);
    }
  }

  /** Theorem: an unlock by a thread that holds nothing, such as the one after a single command,
      changes no lock. */
  lemma ExtraUnlockIsIdle(ls: LockTable, held: map<Thread, seq<string>>, th: Thread, k: string)
    requires Conserved(ls, held) && th != 0 && (th in held ==> held[th] == [])
    ensures UnlockKey(ls, k, th) == ls
  {
    var s := Stripe(k);
    if th in held {
      assert Entries(held[th], s) == CountOf(ls[s], th);
    }
  }
}
