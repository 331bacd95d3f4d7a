/** What recovery by any accurate CHECK record makes of the table, key by key, whether or not the
    record lists transactions that had already logged COMMIT or ABORT. */
module UncleanRecovery {
  import opened Table
  import opened LogRecord
  import opened LogProtocol
  import opened Coherence
  import opened Chains
  import opened RecoverySpec
  import opened RecoveryProof
  import opened UncleanCheckpoint

  ghost predicate AccurateList(b: nat, log: Log, c: Lsn, list: seq<Ongoing>) {
    DistinctTxs(list) && b <= c <= |log| && forall e <- list :: Accurate(b, log, c, e)
  }

  // ---------- all entries, one after another ----------

  function UndoneAll(b: nat, log: Log, c: Lsn, list: seq<Ongoing>, t: Table): Table
    requires c <= |log|
    decreases |list|
  {
    if list == [] then t
    else UndoneAll(b, log, c, list[1..], Undone(t, ToUndo(b, log, c, list[0].tx)))
  }

  lemma NoneOfOthers(log: Log, ext: Log, more: Log, t: TxId, own: TxId)
    requires NoneOf(log, ext, t) && ext <= more && t != own
    requires forall n | |ext| <= n < |more| :: TxOf(more[n]) == own
    ensures NoneOf(log, more, t)
  {
    forall n | |log| <= n < |more| ensures TxOf(more[n]) != t {
      assert n < |ext| ==> more[n] == ext[n];
    }
  }

  lemma {:induction false} ListUndoes(b: nat, log: Log, c: Lsn, list: seq<Ongoing>, ext: Log)
    requires ValidLog(b, log) && OnlineLinked(b, log) && AccurateList(b, log, c, list)
    requires forall e <- list :: NoneOf(log, ext, e.tx)
    ensures RecoverAll(ext, c, list).ok
    ensures Replay(map[], RecoverAll(ext, c, list).log) == UndoneAll(b, log, c, list, Replay(map[], ext))
    decreases |list|
  {
    hide ValidLog, OnlineLinked, RecoverTx, ToUndo, Undone, Replay, Accurate, NoneOf;
    if list != [] {
      var e, rest := list[0], list[1..];
      assert e in list;
      EntryUndoes(b, log, c, e, ext);
      var o := RecoverTx(ext, c, e);
      forall x | x in rest ensures Accurate(b, log, c, x) && NoneOf(log, o.log, x.tx) {
        assert x in list;
        NoneOfOthers(log, ext, o.log, x.tx, e.tx);
      }
      ListUndoes(b, log, c, rest, o.log);
    }
  }

  // ---------- key by key ----------

  /** Recovering the entry puts an older value back at `k`. */
  predicate Restores(b: nat, log: Log, c: Lsn, e: Ongoing, k: Key)
    requires c <= |log|
  {
    Touches(ToUndo(b, log, c, e.tx), k)
  }

  /** Entry `n` is the last of the list that does. */
  predicate LastRestorer(b: nat, log: Log, c: Lsn, list: seq<Ongoing>, n: nat, k: Key)
    requires c <= |log|
  {
    && n < |list| && Restores(b, log, c, list[n], k)
    && forall j | n < j < |list| :: !Restores(b, log, c, list[j], k)
  }

  predicate Untouched(b: nat, log: Log, c: Lsn, list: seq<Ongoing>, k: Key)
    requires c <= |log|
  {
    forall e <- list :: !Restores(b, log, c, e, k)
  }

  /** The value that `list`, recovered in order, leaves at `k` over `t`. */
  ghost predicate LeftAt(b: nat, log: Log, c: Lsn, list: seq<Ongoing>, t: Table, k: Key, v: Value)
    requires c <= |log|
  {
    && (Untouched(b, log, c, list, k) ==> v == Look(t, k))
    && forall n: nat | LastRestorer(b, log, c, list, n, k) :: v == OldestBefore(ToUndo(b, log, c, list[n].tx), k)
  }

  lemma {:induction false} UndoneAllAt(b: nat, log: Log, c: Lsn, list: seq<Ongoing>, t: Table, k: Key)
    requires c <= |log|
    ensures LeftAt(b, log, c, list, t, k, Look(UndoneAll(b, log, c, list, t), k))
    decreases |list|
  {
    hide ToUndo, Undone, Touches;
    if list != [] {
      var e, rest := list[0], list[1..];
      var s := ToUndo(b, log, c, e.tx);
      var t' := Undone(t, s);
      UndoneAt(t, s, k);
      UndoneAllAt(b, log, c, rest, t', k);
      var v := Look(UndoneAll(b, log, c, rest, t'), k);
      assert list == [e] + rest;
      forall n: nat | LastRestorer(b, log, c, list, n, k) ensures v == OldestBefore(ToUndo(b, log, c, list[n].tx), k) {
        if n == 0 {
          assert forall x <- rest :: !Restores(b, log, c, x, k);
        } else {
          assert forall j | n - 1 < j < |rest| :: rest[j] == list[j + 1];
          assert LastRestorer(b, log, c, rest, n - 1, k);
        }
      }
      if Untouched(b, log, c, list, k) {
        assert !Restores(b, log, c, list[0], k);
        assert forall x <- rest :: x in list;
      }
    }
  }

  lemma {:induction false} FindRestorer(b: nat, log: Log, c: Lsn, list: seq<Ongoing>, k: Key) returns (n: nat)
    requires c <= |log| && !Untouched(b, log, c, list, k)
    ensures LastRestorer(b, log, c, list, n, k)
    decreases |list|
  {
    hide Restores;
    var m := |list| - 1;
    if Restores(b, log, c, list[m], k) {
      n := m;
    } else {
      assert list == list[..m] + [list[m]];
      n := FindRestorer(b, log, c, list[..m], k);
      forall j | n < j < |list| ensures !Restores(b, log, c, list[j], k) {
        assert j < m ==> list[j] == list[..m][j];
      }
    }
  }

  /** Theorem: recovery by an accurate list always succeeds, and redo then finds at every key what the
      oldest undone update of the last entry that restores the key had found; a key that no entry
      restores keeps the value it had. */
  lemma RecoveredValue(b: nat, log: Log, c: Lsn, list: seq<Ongoing>, k: Key)
    requires ValidLog(b, log) && OnlineLinked(b, log) && AccurateList(b, log, c, list)
    ensures RecoverAll(log, c, list).ok
    ensures LeftAt(b, log, c, list, Replay(map[], log), k, Look(Replay(map[], RecoverAll(log, c, list).log), k))
  {
    hide ValidLog, OnlineLinked, LeftAt;
    ListUndoes(b, log, c, list, log);
    UndoneAllAt(b, log, c, list, Replay(map[], log), k);
  }

  // ---------- against the committed table ----------

  /** While a transaction is unfinished, all its updates, undone or not, stand on the committed table. */
  lemma {:induction false} WholeStack(b: nat, log: Log, t: TxId)
    requires ValidLog(b, log) && Live(b, log, t)
    ensures StackOk(Committed(b, log), UpdatesOf(b, log, t), t)
    ensures forall u <- UpdatesOf(b, log, t) :: u.Update? && u.key in Info(b, log, t).keys
    decreases |log|
  {
    ValidLast(b, log);
    var init, r := log[..|log| - 1], log[|log| - 1];
    ValidIsCoherent(b, init);
    InfoAppend(b, init, r, t);
    UpdatesAppend(b, init, r, t);
    if TxOf(r) != t {
      WholeStack(b, init, t);
      OthersKeepStack(b, init, r, t);
    } else if r.Abort? || r.Clr? {
      WholeStack(b, init, t);
      CommittedAppend(b, init, r);
    } else {
      ValidIsCoherent(b, log);
      assert Overlaid(b, log, t);
      StackUpdates(Committed(b, log), Info(b, log, t).stack, t);
    }
  }

  lemma OthersKeepStack(b: nat, log: Log, r: Record, t: TxId)
    requires Coherent(b, log) && b <= |log| && CanAppend(b, log, r) && TxOf(r) != t && Live(b, log, t)
    requires StackOk(Committed(b, log), UpdatesOf(b, log, t), t)
    requires forall u <- UpdatesOf(b, log, t) :: u.Update? && u.key in Info(b, log, t).keys
    ensures StackOk(Committed(b, log + [r]), UpdatesOf(b, log, t), t)
  {
    forall u | u in UpdatesOf(b, log, t)
      ensures Look(Committed(b, log), u.key) == Look(Committed(b, log + [r]), u.key)
    {
      assert Free(b, log, t, u.key);
      assert u.key !in Info(b, log, TxOf(r)).keys;
      OthersUntouched(b, log, r, u.key);
    }
    StackLocal(Committed(b, log), Committed(b, log + [r]), UpdatesOf(b, log, t), t);
  }

  /** What recovery puts back for an unfinished transaction is the committed value. */
  lemma UnfinishedIsRight(b: nat, log: Log, c: Lsn, t: TxId, k: Key)
    requires ValidLog(b, log) && c <= |log| && Live(b, log, t) && Touches(ToUndo(b, log, c, t), k)
    ensures OldestBefore(ToUndo(b, log, c, t), k) == Look(Committed(b, log), k)
  {
    WholeStack(b, log, t);
    ValidIsCoherent(b, log);
    assert Overlaid(b, log, t);
    OldestIsBase(Committed(b, log), ToUndo(b, log, c, t), t, k);
  }

  /** A finished transaction is undone only if it had settled before the checkpoint, and then wholly. */
  lemma FinishedIsUndoneWhole(b: nat, log: Log, c: Lsn, t: TxId, k: Key)
    requires ValidLog(b, log) && c <= |log| && !Live(b, log, t) && Touches(ToUndo(b, log, c, t), k)
    ensures ToUndo(b, log, c, t) == UpdatesOf(b, log, t)
  {
    ValidIsCoherent(b, log);
  }

  /** When recovery is right about `k`, in terms of the log at the crash: the last entry that restores
      `k` is of an unfinished transaction, or its first update of `k` found what is committed now; or
      no entry restores `k` and no unfinished transaction has left another value there. */
  ghost predicate KeyIsRight(b: nat, log: Log, c: Lsn, list: seq<Ongoing>, k: Key)
    requires c <= |log|
  {
    && (forall n: nat | LastRestorer(b, log, c, list, n, k) && !Live(b, log, list[n].tx) ::
          Touches(UpdatesOf(b, log, list[n].tx), k) ==>
            OldestBefore(UpdatesOf(b, log, list[n].tx), k) == Look(Committed(b, log), k))
    && (Untouched(b, log, c, list, k) ==>
          forall t: TxId :: Live(b, log, t) && k in Info(b, log, t).keys ==>
                              Look(Replay(map[], log), k) == Look(Committed(b, log), k))
  }

  lemma UntouchedIsRightIff(b: nat, log: Log, k: Key)
    requires ValidLog(b, log)
    ensures Look(Replay(map[], log), k) == Look(Committed(b, log), k)
       <==> forall t: TxId :: Live(b, log, t) && k in Info(b, log, t).keys ==>
                                Look(Replay(map[], log), k) == Look(Committed(b, log), k)
  {
    ValidIsCoherent(b, log);
    if forall t: TxId :: Live(b, log, t) ==> k !in Info(b, log, t).keys {
      assert Free(b, log, 0, k);
    }
  }

  /** Theorem: a key has its committed value after recovery if and only if it `KeyIsRight`. */
  lemma KeyIsRightIff(b: nat, log: Log, c: Lsn, list: seq<Ongoing>, k: Key)
    requires ValidLog(b, log) && OnlineLinked(b, log) && AccurateList(b, log, c, list)
    ensures Look(Replay(map[], RecoverAll(log, c, list).log), k) == Look(Committed(b, log), k)
       <==> KeyIsRight(b, log, c, list, k)
  {
    hide ValidLog, OnlineLinked, AccurateList, Restores, Touches, ToUndo, OldestBefore, Replay, Committed, Info;
    assert c <= |log| by { ListInside(b, log, c, list); }
    RecoveredValue(b, log, c, list, k);
    if Untouched(b, log, c, list, k) {
      UntouchedIsRightIff(b, log, k);
      assert forall n: nat :: !LastRestorer(b, log, c, list, n, k);
    } else {
      var n := FindRestorer(b, log, c, list, k);
      var t := list[n].tx;
      RestorerFacts(b, log, c, list[n], k);
      assert forall m: nat | LastRestorer(b, log, c, list, m, k) :: m == n;
    }
  }

  lemma ListInside(b: nat, log: Log, c: Lsn, list: seq<Ongoing>)
    requires AccurateList(b, log, c, list)
    ensures c <= |log|
  {
  }

  lemma RestorerFacts(b: nat, log: Log, c: Lsn, e: Ongoing, k: Key)
    requires ValidLog(b, log) && c <= |log| && Restores(b, log, c, e, k)
    ensures Touches(ToUndo(b, log, c, e.tx), k)
    ensures Live(b, log, e.tx) ==> OldestBefore(ToUndo(b, log, c, e.tx), k) == Look(Committed(b, log), k)
    ensures !Live(b, log, e.tx) ==> ToUndo(b, log, c, e.tx) == UpdatesOf(b, log, e.tx)
  {
    if Live(b, log, e.tx) {
      UnfinishedIsRight(b, log, c, e.tx, k);
    } else {
      FinishedIsUndoneWhole(b, log, c, e.tx, k);
    }
  }

  /** Theorem: recovery by an accurate list yields the committed table if and only if every key is
      right, a condition on the log before recovery. */
  lemma RecoveryIsRightIff(b: nat, log: Log, c: Lsn, list: seq<Ongoing>)
    requires ValidLog(b, log) && OnlineLinked(b, log) && AccurateList(b, log, c, list)
    ensures Replay(map[], RecoverAll(log, c, list).log) == Committed(b, log)
       <==> forall k: Key :: KeyIsRight(b, log, c, list, k)
  {
    hide ValidLog, OnlineLinked, KeyIsRight, Replay, Committed, RecoverAll;
    var z := Replay(map[], RecoverAll(log, c, list).log);
    forall k: Key ensures Look(z, k) == Look(Committed(b, log), k) <==> KeyIsRight(b, log, c, list, k) {
      KeyIsRightIff(b, log, c, list, k);
    }
    if forall k: Key :: KeyIsRight(b, log, c, list, k) {
      SameLookups(z, Committed(b, log));
    }
  }

  // ---------- commits that are lost ----------

  /** Theorem: a transaction that had logged COMMIT or ABORT (at index `m`) before the checkpoint is
      undone by recovery as a whole: each of its keys that no later entry restores goes back to the
      value committed before index `m`, over its own commit and over every later one. */
  lemma SettledIsUndone(b: nat, log: Log, c: Lsn, list: seq<Ongoing>, n: nat, m: nat, k: Key)
    requires ValidLog(b, log) && OnlineLinked(b, log) && AccurateList(b, log, c, list)
    requires LastRestorer(b, log, c, list, n, k) && m < c && Settles(b, log, m, list[n].tx)
    ensures Look(Replay(map[], RecoverAll(log, c, list).log), k) == Look(Committed(b, log[..m]), k)
  {
    var t, pre := list[n].tx, log[..m];
    RecoveredValue(b, log, c, list, k);
    SettledChain(b, log, m, t);
    SettledAfter(b, log, m, c, t);
    assert ToUndo(b, log, c, t) == UpdatesOf(b, log, t);
    NoUpdatesLater(b, log, m, |log|, t);
    assert log[..|log|] == log;
    assert CanAppend(b, pre, log[m]);
    ValidPrefix(b, log, m);
    WholeStack(b, pre, t);
    OldestIsBase(Committed(b, pre), UpdatesOf(b, pre, t), t, k);
  }

  /** A commit is lost at `k`, then, if and only if what is committed at `k` when the server crashes
      is not what was committed there before. */
  lemma CommitIsLostIff(b: nat, log: Log, c: Lsn, list: seq<Ongoing>, n: nat, m: nat, k: Key)
    requires ValidLog(b, log) && OnlineLinked(b, log) && AccurateList(b, log, c, list)
    requires LastRestorer(b, log, c, list, n, k) && m < c && Settles(b, log, m, list[n].tx) && log[m].Commit?
    ensures Look(Replay(map[], RecoverAll(log, c, list).log), k) != Look(Committed(b, log), k)
       <==> Look(Committed(b, log[..m]), k) != Look(Committed(b, log), k)
  {
    SettledIsUndone(b, log, c, list, n, m, k);
  }
}
