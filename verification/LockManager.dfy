/** The lock objects of `src/lock_rwlock.c` and `src/lock_manager.c` and the lock list of a
    transaction in `src/transaction.c`. A call that would wait for the mutex answers false and
    changes nothing. */
module LockManager {
  import opened Utils
  import opened Locks

  class RwLock {
    var held: bool // the mutex
    var owner: Thread
    var lockCount: nat

    ghost predicate Valid()
      reads this
    {
      (held <==> owner != 0) && (owner != 0 <==> lockCount > 0)
    }

    ghost function State(): Lock
      reads this
    {
      Lock(owner, lockCount)
    }

    constructor ()
      ensures Valid() && State() == UNLOCKED
    {
      held, owner, lockCount := false, 0, 0;
    }

    method WLock(self: Thread) returns (locked: bool)
      requires Valid() && self != 0
      modifies this
      ensures Valid() && locked == CanLock(old(State()), self)
      ensures State() == if locked then Acquired(old(State()), self) else old(State())
      ensures old(owner) == self ==> locked && owner == self && lockCount == old(lockCount) + 1
      ensures old(owner) == 0 ==> locked && owner == self && lockCount == 1
      ensures old(owner) != self && old(owner) != 0 ==> !locked && owner == old(owner) && lockCount == old(lockCount)
    {
      if owner == self {
        lockCount := lockCount + 1;
        return true;
      }
      if held {
        return false;
      }
      held, lockCount, owner := true, 1, self;
      return true;
    }

    /** The same code as for writing: reads exclude each other too. */
    method RLock(self: Thread) returns (locked: bool)
      requires Valid() && self != 0
      modifies this
      ensures Valid() && locked == CanLock(old(State()), self)
      ensures State() == if locked then Acquired(old(State()), self) else old(State())
      ensures old(owner) == self ==> locked && owner == self && lockCount == old(lockCount) + 1
      ensures old(owner) == 0 ==> locked && owner == self && lockCount == 1
      ensures old(owner) != self && old(owner) != 0 ==> !locked && owner == old(owner) && lockCount == old(lockCount)
    {
      locked := WLock(self);
    }

    method Unlock(self: Thread)
      requires Valid() && self != 0
      modifies this
      ensures Valid() && State() == Released(old(State()), self)
      ensures old(owner) == self && old(lockCount) > 1 ==> owner == self && lockCount == old(lockCount) - 1
      ensures old(owner) == self && old(lockCount) == 1 ==> owner == 0 && lockCount == 0
      ensures old(owner) != self ==> owner == old(owner) && lockCount == old(lockCount)
    {
      if owner == self {
        lockCount := lockCount - 1;
        if lockCount == 0 {
          owner, held := 0, false;
        }
      }
    }
  }

  class LockManager {
    const lockList: array<RwLock>
    var counter: int
    ghost var state: LockTable

    ghost predicate Valid()
      reads this, lockList, lockList[..]
    {
      && lockList.Length == STRIPES
      && (forall i, j | 0 <= i < j < STRIPES :: lockList[i] != lockList[j])
      && (forall i | 0 <= i < STRIPES :: lockList[i].Valid() && lockList[i].State() == state[i])
    }

    constructor ()
      ensures Valid() && lockList.Length == 64 && state == AllUnlocked() && counter == 0
      ensures fresh(lockList) && fresh(set l | l in lockList[..])
    {
      var dummy := new RwLock();
      lockList := new RwLock[STRIPES](_ => dummy);
      counter := 0;
      state := AllUnlocked();
      new;
      for i := 0 to STRIPES
        modifies lockList
        invariant lockList.Length == STRIPES && fresh(lockList) && fresh(dummy)
        invariant state == AllUnlocked()
        invariant forall j | 0 <= j < STRIPES :: fresh(lockList[j])
        invariant forall j | 0 <= j < i :: lockList[j].Valid() && lockList[j].State() == UNLOCKED
        invariant forall j, k | 0 <= j < k < i :: lockList[j] != lockList[k]
      {
        lockList[i] := new RwLock();
      }
    }

    method WLock(key: string, self: Thread) returns (locked: bool)
      requires Valid() && self != 0
      modifies this, lockList[..]
      ensures Valid() && locked == CanLock(old(state)[Stripe(key)], self)
      ensures state == if locked then LockKey(old(state), key, self) else old(state)
      ensures locked <==> old(state)[Stripe(key)].owner == self || old(state)[Stripe(key)].owner == 0
      ensures counter == old(counter) + 1
    {
      var idx := ComputeDjb2(key);
      idx := idx % STRIPES;
      counter := counter + 1;
      locked := lockList[idx].WLock(self);
      state := state[idx := lockList[idx].State()];
    }

    method RLock(key: string, self: Thread) returns (locked: bool)
      requires Valid() && self != 0
      modifies this, lockList[..]
      ensures Valid() && locked == CanLock(old(state)[Stripe(key)], self)
      ensures state == if locked then LockKey(old(state), key, self) else old(state)
      ensures locked <==> old(state)[Stripe(key)].owner == self || old(state)[Stripe(key)].owner == 0
      ensures counter == old(counter) + 1
    {
      var idx := ComputeDjb2(key);
      idx := idx % STRIPES;
      counter := counter + 1;
      locked := lockList[idx].RLock(self);
      state := state[idx := lockList[idx].State()];
    }

    method Unlock(key: string, self: Thread)
      requires Valid() && self != 0
      modifies this, lockList[..]
      ensures Valid() && state == UnlockKey(old(state), key, self) && counter == old(counter) - 1
    {
      var idx := ComputeDjb2(key);
      idx := idx % STRIPES;
      counter := counter - 1;
      lockList[idx].Unlock(self);
      state := state[idx := lockList[idx].State()];
    }
  }

  /** The lock list of a `kv_tx`. */
  class LockList {
    var keys: seq<string>

    constructor ()
      ensures keys == []
    {
      keys := [];
    }

    method Add(key: string)
      modifies this
      ensures keys == old(keys) + [key]
    {
      keys := keys + [key];
    }

    /** `kv_tx_unlock_all`: from the tail, one unlock for every entry. */
    method UnlockAll(lm: LockManager, self: Thread)
      requires lm.Valid() && self != 0
      modifies this, lm, lm.lockList[..]
      ensures lm.Valid() && keys == []
      ensures lm.state == Locks.UnlockAll(old(lm.state), old(keys), self)
      ensures lm.counter == old(lm.counter) - |old(keys)|
    {
      while keys != []
        invariant lm.Valid() && lm.counter - |keys| == old(lm.counter) - |old(keys)|
        invariant Locks.UnlockAll(lm.state, keys, self) == Locks.UnlockAll(old(lm.state), old(keys), self)
        decreases |keys|
      {
        lm.Unlock(keys[|keys| - 1], self);
        keys := keys[..|keys| - 1];
      }
    }
  }
}
