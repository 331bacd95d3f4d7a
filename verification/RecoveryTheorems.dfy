/** What crash recovery guarantees, and exactly when. */
module RecoveryTheorems {
  import opened Table
  import opened LogRecord
  import opened LogProtocol
  import opened Coherence
  import opened Chains
  import opened RecoverySpec
  import opened RecoveryProof

  /** Unfinished, and not among the entries of `list`: recovery by that list passes it by. */
  ghost predicate Missed(b: nat, log: Log, c: Lsn, list: seq<Ongoing>, t: TxId) {
    Live(b, log, t) && t !in Covered(b, log, c, list)
  }

  ghost predicate MissedKey(b: nat, log: Log, c: Lsn, list: seq<Ongoing>, k: Key) {
    exists t: TxId :: Missed(b, log, c, list, t) && k in Info(b, log, t).keys
  }

  /** The table rebuilt after undoing, key by key: the committed value, except that a key updated by
      an unfinished transaction that the list misses keeps the value it had. */
  ghost predicate RebuiltFrom(b: nat, log: Log, c: Lsn, list: seq<Ongoing>, rebuilt: Table) {
    forall k: Key :: Look(rebuilt, k)
                  == if MissedKey(b, log, c, list, k) then Look(Replay(map[], log), k)
                     else Look(Committed(b, log), k)
  }

  /** Any log between the crash and the completed recovery, that is, a log left by a recovery that
      was itself cut short. */
  ghost predicate Between(log: Log, mid: Log, ext: Log) {
    log <= mid <= ext
  }

  lemma RebuiltByRollback(b: nat, log: Log, c: Lsn, list: seq<Ongoing>, ext: Log)
    requires ValidLog(b, log) && ValidLog(b, ext)
    requires RollsBack(log, ext, Covered(b, log, c, list))
    requires forall t <- Covered(b, log, c, list) :: Info(b, ext, t).phase == Done
    ensures RebuiltFrom(b, log, c, list, Replay(map[], ext))
  {
    var ts := Covered(b, log, c, list);
    RollsBackKeeps(b, log, ext, ts);
    ValidIsCoherent(b, log);
    ValidIsCoherent(b, ext);
    forall k: Key
      ensures Look(Replay(map[], ext), k)
           == if MissedKey(b, log, c, list, k) then Look(Replay(map[], log), k) else Look(Committed(b, log), k)
    {
      if MissedKey(b, log, c, list, k) {
        var t: TxId :| Missed(b, log, c, list, t) && k in Info(b, log, t).keys;
        assert Info(b, ext, t) == Info(b, log, t);
        assert Overlaid(b, log, t) && Overlaid(b, ext, t);
      } else {
        forall u: TxId | Live(b, ext, u) ensures k !in Info(b, ext, u).keys {
          assert u !in ts;
          assert Missed(b, log, c, list, u);
        }
        assert Free(b, ext, 0, k);
      }
    }
  }

  /** Main theorem. After recovery by the list of the published CHECK record, redo rebuilds exactly
      the committed table, except on keys of unfinished transactions that the record misses. */
  lemma RecoveredTable(b: nat, log: Log, c: Lsn, list: seq<Ongoing>)
    requires ValidLog(b, log) && ListOk(b, log, c, list)
    ensures RecoverAll(log, c, list).ok
    ensures RebuiltFrom(b, log, c, list, Replay(map[], RecoverAll(log, c, list).log))
  {
    RecoverAllOk(b, log, c, list);
    RebuiltByRollback(b, log, c, list, RecoverAll(log, c, list).log);
  }

  /** Recovery yields the committed table if and only if every key of every missed transaction
      already holds its committed value. */
  lemma RecoveryIsExactIff(b: nat, log: Log, c: Lsn, list: seq<Ongoing>)
    requires ValidLog(b, log) && ListOk(b, log, c, list)
    ensures Replay(map[], RecoverAll(log, c, list).log) == Committed(b, log)
       <==> forall t: TxId, k: Key :: Missed(b, log, c, list, t) && k in Info(b, log, t).keys
                                      ==> Look(Replay(map[], log), k) == Look(Committed(b, log), k)
  {
    hide ValidLog, ListOk, RecoverAll, Replay, Committed, Missed, Info;
    RecoveredTable(b, log, c, list);
    var z := Replay(map[], RecoverAll(log, c, list).log);
    if forall t: TxId, k: Key :: Missed(b, log, c, list, t) && k in Info(b, log, t).keys
                                 ==> Look(Replay(map[], log), k) == Look(Committed(b, log), k) {
      forall k: Key ensures Look(z, k) == Look(Committed(b, log), k) {
        if MissedKey(b, log, c, list, k) {
          var t: TxId :| Missed(b, log, c, list, t) && k in Info(b, log, t).keys;
        }
      }
      SameLookups(z, Committed(b, log));
    } else {
      var t: TxId, k: Key :| Missed(b, log, c, list, t) && k in Info(b, log, t).keys
                             && Look(Replay(map[], log), k) != Look(Committed(b, log), k);
      assert MissedKey(b, log, c, list, k);
      assert Look(z, k) != Look(Committed(b, log), k);
    }
  }

  /** No lost commit and no surviving loser when the list names every unfinished transaction. */
  lemma RecoveryIsExact(b: nat, log: Log, c: Lsn, list: seq<Ongoing>)
    requires ValidLog(b, log) && ListOk(b, log, c, list)
    requires forall t: TxId :: Live(b, log, t) ==> t in Covered(b, log, c, list)
    ensures RecoverAll(log, c, list).ok
    ensures Replay(map[], RecoverAll(log, c, list).log) == Committed(b, log)
  {
    RecoveredTable(b, log, c, list);
    RecoveryIsExactIff(b, log, c, list);
  }

  const MISSED: Log := [Check([]), Begin(0, 1), Update(2, 1, "k", "", "v")]

  /** An instance of a missed transaction: it began after the only checkpoint, so recovery leaves its
      uncommitted write in the table. */
  lemma LoserSurvivesExample()
    ensures Recover(MISSED, 1) == Outcome(MISSED, true)
    ensures Look(Committed(0, MISSED), "k") == ABSENT && Look(Replay(map[], MISSED), "k") == "v"
  {
    var u := Update(2, 1, "k", "", "v");
    var two := [Check([]), Begin(0, 1)];
    CommittedAppend(0, [], Check([]));
    CommittedAppend(0, [Check([])], Begin(0, 1));
    CommittedAppend(0, two, u);
    assert [] + [Check([])] == [Check([])] && [Check([])] + [Begin(0, 1)] == two && two + [u] == MISSED;
    ReplayAppend(map[], two, u);
    assert Redo(Replay(map[], two), u) == Put(Replay(map[], two), u.key, u.after);
  }

  // ---------- order, repetition, interruption ----------

  /** The order of the list does not matter. */
  lemma OrderIsIrrelevant(b: nat, log: Log, c: Lsn, list: seq<Ongoing>, other: seq<Ongoing>)
    requires ValidLog(b, log) && ListOk(b, log, c, list)
    requires forall e :: e in list <==> e in other
    ensures Replay(map[], RecoverAll(log, c, list).log) == Replay(map[], RecoverAll(log, c, other).log)
  {
    RecoveredTable(b, log, c, list);
    RecoveredTable(b, log, c, other);
    assert Covered(b, log, c, list) == Covered(b, log, c, other);
    var x, y := Replay(map[], RecoverAll(log, c, list).log), Replay(map[], RecoverAll(log, c, other).log);
    forall k: Key ensures Look(x, k) == Look(y, k) {
      assert MissedKey(b, log, c, list, k) <==> MissedKey(b, log, c, other, k) by {
        assert forall t: TxId :: Missed(b, log, c, list, t) <==> Missed(b, log, c, other, t);
      }
    }
    SameLookups(x, y);
  }

  lemma {:induction false} NothingToDo(b: nat, log: Log, c: Lsn, list: seq<Ongoing>)
    requires forall e <- list :: AnalyseEntry(log, c, e).finished
    ensures RecoverAll(log, c, list) == Outcome(log, true)
    decreases |list|
  {
    if list != [] {
      assert list[0] in list;
      assert forall e <- list[1..] :: e in list;
      NothingToDo(b, log, c, list[1..]);
    }
  }

  /** After a complete recovery the scan sees every listed transaction finished. */
  lemma AllFinished(b: nat, log: Log, c: Lsn, list: seq<Ongoing>)
    requires ValidLog(b, log) && ListOk(b, log, c, list)
    ensures forall e <- list :: AnalyseEntry(RecoverAll(log, c, list).log, c, e).finished
  {
    RecoverAllOk(b, log, c, list);
    var z := RecoverAll(log, c, list).log;
    forall e | e in list ensures AnalyseEntry(z, c, e).finished {
      KnownStays(b, log, z, c, e);
      if EntryOk(b, log, c, e) {
        assert e.tx in Covered(b, log, c, list);
        EntryFollows(b, z, c, e);
      }
    }
  }

  /** Recovering a second time appends nothing. */
  lemma RecoveryIsIdempotent(b: nat, log: Log, c: Lsn, list: seq<Ongoing>)
    requires ValidLog(b, log) && ListOk(b, log, c, list)
    ensures var z := RecoverAll(log, c, list).log; RecoverAll(z, c, list) == Outcome(z, true)
  {
    AllFinished(b, log, c, list);
    NothingToDo(b, RecoverAll(log, c, list).log, c, list);
  }

  lemma CutShort(b: nat, log: Log, c: Lsn, list: seq<Ongoing>, mid: Log)
    requires ValidLog(b, log) && ListOk(b, log, c, list)
    requires Between(log, mid, RecoverAll(log, c, list).log)
    ensures ValidLog(b, mid) && ListOk(b, mid, c, list)
    ensures RollsBack(log, mid, Covered(b, log, c, list))
    ensures Covered(b, mid, c, list) == Covered(b, log, c, list)
  {
    RecoverAllOk(b, log, c, list);
    var z := RecoverAll(log, c, list).log;
    assert mid == z[..|mid|];
    ValidPrefix(b, z, |mid|);
    ListOkStays(b, log, mid, c, list);
  }

  /** A recovery that crashed after any prefix of its records, restarted, rebuilds the table that
      the uninterrupted one rebuilds. */
  lemma RecoveryIsRestartable(b: nat, log: Log, c: Lsn, list: seq<Ongoing>, mid: Log)
    requires ValidLog(b, log) && ListOk(b, log, c, list)
    requires Between(log, mid, RecoverAll(log, c, list).log)
    ensures RecoverAll(mid, c, list).ok
    ensures Replay(map[], RecoverAll(mid, c, list).log) == Replay(map[], RecoverAll(log, c, list).log)
  {
    CutShort(b, log, c, list, mid);
    RecoverAllOk(b, mid, c, list);
    RecoverAllOk(b, log, c, list);
    var x, y := RecoverAll(mid, c, list).log, RecoverAll(log, c, list).log;
    RollsBackMore(log, mid, x, Covered(b, log, c, list));
    RebuiltByRollback(b, log, c, list, x);
    RebuiltByRollback(b, log, c, list, y);
    SameLookups(Replay(map[], x), Replay(map[], y));
  }

  /** Any number of interrupted attempts, each on the log that the one before left behind. */
  lemma {:induction false} AnyNumberOfCrashes(b: nat, logs: seq<Log>, c: Lsn, list: seq<Ongoing>)
    requires logs != [] && ValidLog(b, logs[0]) && ListOk(b, logs[0], c, list)
    requires forall i | 0 <= i < |logs| - 1 :: Between(logs[i], logs[i + 1], RecoverAll(logs[i], c, list).log)
    ensures Replay(map[], RecoverAll(logs[|logs| - 1], c, list).log)
         == Replay(map[], RecoverAll(logs[0], c, list).log)
    decreases |logs|
  {
    if |logs| > 1 {
      assert Between(logs[0], logs[1], RecoverAll(logs[0], c, list).log);
      CutShort(b, logs[0], c, list, logs[1]);
      RecoveryIsRestartable(b, logs[0], c, list, logs[1]);
      AnyNumberOfCrashes(b, logs[1..], c, list);
    }
  }

  /** Redo from the snapshot taken at any point gives the same table as redo from the start. */
  lemma CheckpointIsTransparent(log: Log, ext: Log, c: nat)
    requires c <= |log| && log <= ext
    ensures Replay(Replay(map[], log[..c]), ext[c..]) == Replay(map[], ext)
  {
    assert ext == log[..c] + ext[c..];
    ReplaySplit(map[], log[..c], ext[c..]);
  }

  // ---------- a snapshot between a record and its write ----------

  predicate Writes(r: Record, k: Key) {
    (r.Update? || r.Clr?) && r.key == k
  }

  predicate Written(log: Log, k: Key) {
    exists r <- log :: Writes(r, k)
  }

  lemma WrittenInit(log: Log, k: Key)
    requires log != []
    ensures Written(log, k) <==> Written(log[..|log| - 1], k) || Writes(log[|log| - 1], k)
  {
    assert forall x :: x in log <==> x in log[..|log| - 1] || x == log[|log| - 1];
  }

  /** What redo finds at `k` at first shows in the end only if no record writes `k`. */
  lemma {:induction false} OnlyIfUnwritten(t: Table, t': Table, log: Log, k: Key)
    ensures if Written(log, k) then Look(Replay(t, log), k) == Look(Replay(t', log), k)
            else Look(Replay(t, log), k) == Look(t, k) && Look(Replay(t', log), k) == Look(t', k)
    decreases |log|
  {
    if log != [] {
      hide Written;
      OnlyIfUnwritten(t, t', log[..|log| - 1], k);
      WrittenInit(log, k);
    }
  }

  /** Redo of one stretch from two tables that differ at most at `k`. */
  lemma SameRedoIff(t: Table, t': Table, log: Log, k: Key)
    requires forall j: Key :: j != k ==> Look(t, j) == Look(t', j)
    ensures Replay(t, log) == Replay(t', log) <==> Written(log, k) || Look(t, k) == Look(t', k)
  {
    hide Replay, Written, Look;
    forall j: Key ensures j != k ==> Look(Replay(t, log), j) == Look(Replay(t', log), j) {
      OnlyIfUnwritten(t, t', log, j);
    }
    OnlyIfUnwritten(t, t', log, k);
    if Look(Replay(t, log), k) == Look(Replay(t', log), k) {
      SameLookups(Replay(t, log), Replay(t', log));
    }
  }

  lemma TornRedo(a: Log, u: Record, m: Log, z: Log)
    requires u.Update?
    ensures Replay(Replay(map[], a + m), z) == Replay(map[], a + [u] + (m + z))
       <==> Written(m + z, u.key) || Look(Replay(map[], a), u.key) == u.after
  {
    hide Replay, Written;
    var pre := Replay(map[], a);
    ReplaySplit(map[], a, m);
    ReplaySplit(pre, m, z);
    ReplayAppend(map[], a, u);
    ReplaySplit(map[], a + [u], m + z);
    SameRedoIff(pre, Redo(pre, u), m + z, u.key);
  }

  /** The program logs a change first and makes it afterwards, and the checkpointer may come in between:
      the snapshot of the CHECK record at `c` then lacks the change that is logged at index `n`. Redo from
      it rebuilds the table if and only if a later record writes the key, or the change changed nothing. */
  lemma TornCheckpointIff(log: Log, n: nat, c: nat)
    requires n < c <= |log| && log[n].Update?
    ensures Replay(Replay(map[], log[..n] + log[n + 1..c]), log[c..]) == Replay(map[], log)
       <==> Written(log[n + 1..], log[n].key) || Look(Replay(map[], log[..n]), log[n].key) == log[n].after
  {
    hide Replay, Written, Look;
    assert log[n + 1..] == log[n + 1..c] + log[c..];
    assert log == log[..n] + [log[n]] + log[n + 1..];
    TornRedo(log[..n], log[n], log[n + 1..c], log[c..]);
  }

  // ---------- transactions and their BEGIN ----------

  /** Every unfinished transaction has its BEGIN in the log. */
  lemma {:induction false} HasBegun(b: nat, log: Log, t: TxId) returns (l: Lsn)
    requires ValidLog(b, log) && Info(b, log, t).phase != Unborn && t != 0
    ensures b < l <= |log| && At(log, l).Begin? && At(log, l).tx == t
    decreases |log|
  {
    ValidLast(b, log);
    var r := log[|log| - 1];
    InfoAppend(b, log[..|log| - 1], r, t);
    if r.Begin? && r.tx == t {
      l := |log|;
    } else {
      l := HasBegun(b, log[..|log| - 1], t);
    }
  }

  lemma LiveInBetween(b: nat, log: Log, n: nat, t: TxId, l: Lsn)
    requires ValidLog(b, log) && Live(b, log, t) && t != 0
    requires b < l <= n <= |log| && At(log, l).Begin? && At(log, l).tx == t
    ensures Live(b, log[..n], t)
  {
    InfoAt(b, log, l - 1, t);
    NeverUnborn(b, log, l, n, t);
    if Info(b, log[..n], t).phase == Done {
      DoneStays(b, log, n, t);
    }
  }

  lemma {:induction false} NeverUnborn(b: nat, log: Log, l: nat, n: nat, t: TxId)
    requires ValidLog(b, log) && b <= l <= n <= |log| && Info(b, log[..l], t).phase != Unborn
    ensures Info(b, log[..n], t).phase != Unborn
    decreases n
  {
    hide CanAppend, Info;
    if l < n {
      NeverUnborn(b, log, l, n - 1, t);
      InfoAt(b, log, n - 1, t);
    }
  }
}
