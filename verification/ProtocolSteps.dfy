/** The remaining steps, and the theorem over all runs. */
module ProtocolSteps {
  import opened Table
  import opened LogRecord
  import opened LogProtocol
  import opened Coherence
  import opened Chains
  import opened RecoverySpec
  import opened RecoveryProof
  import opened RecoveryTheorems
  import opened Locks
  import opened Serial
  import opened Protocol
  import opened ProtocolInvariant
  import opened ProtocolProof

  // ---------- begin, commit, abort ----------

  /** An id that no record carries has no history. */
  lemma {:induction false} FreshId(b: nat, log: Log, bound: TxId, t: TxId)
    requires t > bound && forall r <- log :: TxOf(r) <= bound
    ensures Info(b, log, t) == FRESH
    decreases |log|
  {
    if |log| > b {
      assert log[|log| - 1] in log;
      assert forall r <- log[..|log| - 1] :: r in log;
      FreshId(b, log[..|log| - 1], bound, t);
    }
  }

  lemma BeginAppends(s: State, th: Thread)
    requires th !in s.active && s.up
    ensures Appends(s, Began(s, th), th, Begin(0, s.lastId + 1))
  {
    hide Replay;
  }

  lemma BeginAllowed(s: State)
    requires Inv(s)
    ensures CanAppend(s.epoch, s.log, Begin(0, s.lastId + 1))
  {
    FreshId(s.epoch, s.log, s.lastId, s.lastId + 1);
  }

  lemma BeginSerial(s: State, th: Thread)
    requires Inv(s)
    ensures SerialOk(Began(s, th))
  {
    hide Volatile, SnapshotsOk, PointerOk;
    CommittedAppend(s.epoch, s.log, Begin(0, s.lastId + 1));
  }

  lemma BeginBooks(s: State, th: Thread)
    requires Inv(s) && s.up && th != 0 && th !in s.active
    ensures Conserved(Began(s, th).locks, Held(Began(s, th).active)) && OrderOk(Began(s, th))
  {
    hide Durable, ThreadsOk, NoOrphans, IdsOk, OnlineLinked, Replay, Conserved;
    JoinConserves(s.locks, Held(s.active), th);
    HeldWith(s.active, th, Began(s, th).active[th]);
  }

  lemma BeginKeeps(s: State, th: Thread)
    requires Inv(s) && s.up && th != 0 && th !in s.active
    ensures Inv(Began(s, th))
  {
    hide Inv, Conserved, OrderOk, SerialOk, CanAppend, Appends, ThreadOk;
    BeginAppends(s, th);
    BeginAllowed(s);
    BeginSerial(s, th);
    BeginBooks(s, th);
    BeginThread(s, th);
    AppendKeeps(s, Began(s, th), th, Begin(0, s.lastId + 1));
  }

  lemma BeginThread(s: State, th: Thread)
    requires Inv(s) && s.up && th != 0 && th !in s.active
    ensures ThreadOk(Began(s, th), th)
  {
    hide SerialOk, SnapshotsOk, PointerOk, ThreadsOk, NoOrphans, OrderOk, CanAppend, Committed, Replay;
    assert s.epoch <= |s.log|;
    hide ValidLog, OnlineLinked, Info, Stripe;
    var r := Begin(0, s.lastId + 1);
    FreshId(s.epoch, s.log, s.lastId, r.tx);
    InfoAppend(s.epoch, s.log, r, r.tx);
    assert forall k: Key :: !Owns(s.locks, th, k) by {
      assert th !in Held(s.active);
    }
  }

  /** What the commit adds to the committed table is what the client's operations do to it. */
  lemma CommitIsRun(s: State, th: Thread)
    requires Inv(s) && InStage(s, th, Working)
    ensures Replay(Committed(s.epoch, s.log), UpdatesOf(s.epoch, s.log, s.active[th].id))
         == Run(Committed(s.epoch, s.log), s.active[th].ops)
  {
    var tx := s.active[th];
    var c := Committed(s.epoch, s.log);
    var i := Info(s.epoch, s.log, tx.id);
    ValidIsCoherent(s.epoch, s.log);
    assert ThreadOk(s, th) && Overlaid(s.epoch, s.log, tx.id);
    StackUpdates(c, i.stack, tx.id);
    forall k: Key ensures Look(Replay(c, i.stack), k) == Look(Run(c, tx.ops), k) {
      if k !in i.keys {
        ReplayElsewhere(c, i.stack, k);
        if Owns(s.locks, th, k) {
          OwnedIsFree(s, th, k);
          assert Free(s.epoch, s.log, 0, k);
        } else {
          RunElsewhere(c, tx.ops, k);
        }
      }
    }
    SameLookups(Replay(c, i.stack), Run(c, tx.ops));
  }

  lemma CommitSerial(s: State, th: Thread, r: Record, tx: Tx)
    requires Inv(s) && InStage(s, th, Working) && r == Commit(s.active[th].last, s.active[th].id)
    ensures SerialOk(Recorded(s, th, r, tx, s.history + [s.active[th].ops]))
  {
    CommitIsRun(s, th);
    hide Volatile, Replay, Committed, Run, UpdatesOf, Redo;
    CommittedAppend(s.epoch, s.log, r);
    RunSeriallyAppend(s.origin, s.history, s.active[th].ops);
  }

  lemma CommitThread(s: State, th: Thread, r: Record, tx: Tx)
    requires Inv(s) && InStage(s, th, Working) && r == Commit(s.active[th].last, s.active[th].id)
    requires tx == s.active[th].(last := |s.log| + 1, stage := Releasing)
    ensures ThreadOk(Recorded(s, th, r, tx, s.history + [s.active[th].ops]), th) && CanAppend(s.epoch, s.log, r)
  {
    hide Conserved, NoOrphans, IdsOk, OrderOk, OnlineLinked, Replay, Committed, SnapshotsOk, PointerOk, SerialOk;
    assert ThreadOk(s, th);
    InfoAppend(s.epoch, s.log, r, tx.id);
  }

  lemma CommitKeeps(s: State, th: Thread)
    requires Inv(s) && InStage(s, th, Working)
    ensures Inv(Commits(s, th))
  {
    hide Inv, ThreadOk, SerialOk, CanAppend;
    var was := s.active[th];
    var r := Commit(was.last, was.id);
    var tx := was.(last := |s.log| + 1, stage := Releasing);
    var history := s.history + [was.ops];
    CommitThread(s, th, r, tx);
    CommitSerial(s, th, r, tx);
    RecordKeeps(s, th, r, tx, history);
    EntersRecorded(s, th, r, Releasing, history);
  }

  lemma AbortThread(s: State, th: Thread, r: Record, tx: Tx)
    requires Inv(s) && InStage(s, th, Working)
    requires r == Abort(s.active[th].last, s.active[th].id)
    requires tx == s.active[th].(last := |s.log| + 1, stage := Undoing(|s.log| + 1))
    ensures ThreadOk(Recorded(s, th, r, tx, s.history), th) && CanAppend(s.epoch, s.log, r)
  {
    assert ThreadOk(s, th);
    assert ChainOk(s.epoch, s.log, tx.id) by { ValidIsChained(s.epoch, s.log); }
    InfoAppend(s.epoch, s.log, r, tx.id);
  }

  lemma AbortKeeps(s: State, th: Thread)
    requires Inv(s) && InStage(s, th, Working)
    ensures Inv(Aborts(s, th))
  {
    var was := s.active[th];
    var r := Abort(was.last, was.id);
    var tx := was.(last := |s.log| + 1, stage := Undoing(|s.log| + 1));
    AbortThread(s, th, r, tx);
    SerialKept(s, th, r, tx);
    RecordKeeps(s, th, r, tx, s.history);
    EntersRecorded(s, th, r, tx.stage, s.history);
  }

  // ---------- one record of a rollback ----------

  ghost predicate InRollback(s: State, th: Thread) {
    s.up && th in s.active && s.active[th].stage.Undoing? && Has(s.log, s.active[th].stage.next)
  }

  lemma RollbackFacts(s: State, th: Thread)
    requires Inv(s) && InRollback(s, th)
    ensures Tracks(s.epoch, s.log, s.active[th]) && TwoPhase(s.epoch, s.log, s.locks, th, s.active[th])
    ensures ChainOk(s.epoch, s.log, s.active[th].id)
  {
    assert ThreadOk(s, th);
    ValidIsChained(s.epoch, s.log);
  }

  lemma UndoEndThread(s: State, th: Thread, r: Record, tx: Tx)
    requires Inv(s) && InRollback(s, th) && At(s.log, s.active[th].stage.next).Begin?
    requires r == End(s.active[th].last, s.active[th].id)
    requires tx == s.active[th].(last := |s.log| + 1, stage := Releasing)
    ensures ThreadOk(Recorded(s, th, r, tx, s.history), th) && CanAppend(s.epoch, s.log, r)
  {
    RollbackFacts(s, th);
    InfoAppend(s.epoch, s.log, r, tx.id);
  }

  lemma UndoEndKeeps(s: State, th: Thread)
    requires Inv(s) && InRollback(s, th) && At(s.log, s.active[th].stage.next).Begin?
    ensures Inv(Undo(s, th))
  {
    var was := s.active[th];
    var r := End(was.last, was.id);
    var tx := was.(last := |s.log| + 1, stage := Releasing);
    UndoEndThread(s, th, r, tx);
    SerialKept(s, th, r, tx);
    RecordKeeps(s, th, r, tx, s.history);
    EntersRecorded(s, th, r, Releasing, s.history);
  }

  /** The update that rollback has reached is the newest one not yet undone. */
  lemma UndoUpdateThread(s: State, th: Thread, u: Record, r: Record, tx: Tx)
    requires Inv(s) && InRollback(s, th) && u == At(s.log, s.active[th].stage.next) && u.Update?
    requires r == Clr(s.active[th].last, s.active[th].id, u.prev, u.key, u.after, u.before)
    requires tx == s.active[th].(last := |s.log| + 1, stage := Undoing(u.prev))
    ensures ThreadOk(Recorded(s, th, r, tx, s.history), th) && CanAppend(s.epoch, s.log, r)
  {
    RollbackFacts(s, th);
    var i := Info(s.epoch, s.log, tx.id);
    assert u == Top(i.stack);
    assert Linked(s.log, u.prev, Below(i.stack), tx.id);
    InfoAppend(s.epoch, s.log, r, tx.id);
  }

  lemma UndoUpdateKeeps(s: State, th: Thread)
    requires Inv(s) && InRollback(s, th) && At(s.log, s.active[th].stage.next).Update?
    ensures Inv(Undo(s, th))
  {
    var was := s.active[th];
    var u := At(s.log, was.stage.next);
    var r := Clr(was.last, was.id, u.prev, u.key, u.after, u.before);
    var tx := was.(last := |s.log| + 1, stage := Undoing(u.prev));
    UndoUpdateThread(s, th, u, r, tx);
    SerialKept(s, th, r, tx);
    RecordKeeps(s, th, r, tx, s.history);
    UndoesRecorded(s, th, r, tx.stage);
  }

  lemma UndoSkipKeeps(s: State, th: Thread)
    requires Inv(s) && InRollback(s, th)
    requires !At(s.log, s.active[th].stage.next).Begin? && !At(s.log, s.active[th].stage.next).Update?
    ensures Inv(Undo(s, th))
  {
    var s' := Undo(s, th);
    RollbackFacts(s, th);
    HeldWith(s.active, th, s'.active[th]);
    assert Held(s'.active) == Held(s.active);
    LocalKeeps(s, s', th);
  }

  // ---------- releasing and leaving ----------

  lemma ReleaseKeeps(s: State, th: Thread)
    requires Inv(s) && InStage(s, th, Releasing) && s.active[th].locks != []
    ensures Inv(Releases(s, th))
  {
    hide Durable, Conserved, Local, UnlockKey, Stripe;
    var s' := Releases(s, th);
    UnlockConserves(s.locks, Held(s.active), th);
    HeldWith(s.active, th, s'.active[th]);
    assert ThreadOk(s, th);
    ReleaseIsLocal(s, th);
    LocalKeeps(s, s', th);
  }

  lemma ReleaseIsLocal(s: State, th: Thread)
    requires Inv(s) && InStage(s, th, Releasing) && s.active[th].locks != []
    ensures Local(s, Releases(s, th), th)
  {
    hide Durable, ThreadsOk, NoOrphans, IdsOk, OrderOk, OnlineLinked, Replay, Stripe;
    assert 0 !in Held(s.active);
  }

  lemma {:induction false} WithoutOk(order: seq<Thread>, th: Thread)
    requires forall i, j | 0 <= i < j < |order| :: order[i] != order[j]
    ensures forall x :: x in Without(order, th) <==> x in order && x != th
    ensures forall i, j | 0 <= i < j < |Without(order, th)| :: Without(order, th)[i] != Without(order, th)[j]
    decreases |order|
  {
    if order != [] {
      var n := |order| - 1;
      WithoutOk(order[..n], th);
      assert order == order[..n] + [order[n]];
      assert order[n] !in order[..n];
    }
  }

  lemma LeaveThreads(s: State, th: Thread)
    requires Inv(s) && InStage(s, th, Releasing)
    ensures ThreadsOk(Leaves(s, th)) && NoOrphans(Leaves(s, th)) && IdsOk(Leaves(s, th))
  {
    hide Durable, Conserved, OnlineLinked, Replay, Isolated, TwoPhase, Info, Without;
    var s' := Leaves(s, th);
    assert ThreadOk(s, th);
    forall x | x in s'.active ensures ThreadOk(s', x) {
      assert ThreadOk(s, x) && Undisturbed(s, s', x);
      UndisturbedKeeps(s, s', x);
    }
    forall t: TxId | Live(s'.epoch, s'.log, t) ensures exists x <- s'.active :: s'.active[x].id == t {
      var x :| x in s.active && s.active[x].id == t;
      assert x != th;
      assert x in s'.active && s'.active[x].id == t;
    }
  }

  lemma LeaveKeeps(s: State, th: Thread)
    requires Inv(s) && InStage(s, th, Releasing) && s.active[th].locks == []
    ensures Inv(Leaves(s, th))
  {
    hide Durable, ThreadsOk, NoOrphans, IdsOk;
    var s' := Leaves(s, th);
    SameDurable(s, s');
    LeaveThreads(s, th);
    LeaveConserves(s.locks, Held(s.active), th);
    assert Held(s'.active) == Held(s.active) - {th};
    WithoutOk(s.order, th);
    assert OrderOk(s');
  }

  lemma ExtraUnlockKeeps(s: State, th: Thread, k: Key)
    requires Inv(s) && s.up && th != 0 && th !in s.active
    ensures s.(locks := UnlockKey(s.locks, k, th)) == s
  {
    ExtraUnlockIsIdle(s.locks, Held(s.active), th, k);
  }

  // ---------- checkpoints ----------

  /** The list holds exactly the active threads' transactions. */
  lemma ListIsActive(s: State)
    requires Inv(s) && s.up
    ensures forall e :: e in OngoingList(s, s.order)
                   <==> exists th <- s.active :: e == Ongoing(s.active[th].id, s.active[th].last)
  {
    var list := OngoingList(s, s.order);
    forall e ensures e in list <==> exists th <- s.active :: e == Ongoing(s.active[th].id, s.active[th].last) {
      if e in list {
        var n :| 0 <= n < |list| && list[n] == e;
        assert s.order[n] in s.active;
      }
      if th :| th in s.active && e == Ongoing(s.active[th].id, s.active[th].last) {
        assert th in s.order;
        var n :| 0 <= n < |s.order| && s.order[n] == th;
        assert list[n] == e;
      }
    }
  }

  lemma LastOfThread(s: State, th: Thread)
    requires Inv(s) && s.up && th in s.active
    ensures Info(s.epoch, s.log, s.active[th].id).last == s.active[th].last
    ensures Info(s.epoch, s.log, s.active[th].id).phase != Unborn && s.active[th].id != 0
  {
    hide Durable, SerialOk, Conserved, NoOrphans, IdsOk, OrderOk, TwoPhase, Isolated;
    assert ThreadOk(s, th);
  }

  /** Every transaction that the log shows unfinished is listed with its newest record. */
  lemma ListIsComplete(s: State)
    requires Inv(s) && s.up
    ensures Complete(s.epoch, s.log, OngoingList(s, s.order))
  {
    hide Durable, ThreadsOk, Conserved, IdsOk, Info;
    ListIsActive(s);
    forall t: TxId | Live(s.epoch, s.log, t)
      ensures Ongoing(t, Info(s.epoch, s.log, t).last) in OngoingList(s, s.order)
    {
      var x :| x in s.active && s.active[x].id == t;
      LastOfThread(s, x);
    }
  }

  lemma ListIsDistinct(s: State)
    requires Inv(s) && s.up
    ensures DistinctTxs(OngoingList(s, s.order))
  {
    hide Durable, ThreadsOk, Conserved, NoOrphans;
    var list := OngoingList(s, s.order);
    forall i, j | 0 <= i < j < |list| ensures list[i].tx != list[j].tx {
      assert s.order[i] in s.order && s.order[j] in s.order;
    }
  }

  lemma ListIsTruthful(s: State)
    requires Inv(s) && s.up
    ensures forall e <- OngoingList(s, s.order) ::
              Truthful(s.epoch, s.log, e) && e.last == Info(s.epoch, s.log, e.tx).last
  {
    hide Info, Conserved, ThreadsOk, NoOrphans, Durable, IdsOk;
    ListIsActive(s);
    forall e | e in OngoingList(s, s.order)
      ensures Truthful(s.epoch, s.log, e) && e.last == Info(s.epoch, s.log, e.tx).last
    {
      var x :| x in s.active && e == Ongoing(s.active[x].id, s.active[x].last);
      LastOfThread(s, x);
      assert Has(s.log, Info(s.epoch, s.log, e.tx).last) by {
        ValidWhenUp(s);
        LastLinksBack(s.epoch, s.log, e.tx);
      }
    }
  }

  /** Theorem: a CHECK record lists exactly the transactions then active, each with its newest record,
      and among them every transaction that the log shows unfinished. */
  lemma CheckpointListsAll(s: State)
    requires Inv(s) && s.up
    ensures ListsActive(s.epoch, s.log, OngoingList(s, s.order))
    ensures forall e :: e in OngoingList(s, s.order)
                   <==> exists th <- s.active :: e == Ongoing(s.active[th].id, s.active[th].last)
  {
    hide Inv;
    ListIsActive(s);
    ListIsComplete(s);
    ListIsDistinct(s);
    ListIsTruthful(s);
  }

  ghost predicate AtCheckpoint(s: State, s': State) {
    Inv(s) && s.up && s.fork.NoFork? && s' == Checkpointed(s)
  }

  /** The CHECK record itself belongs to no transaction. */
  lemma CheckChangesNothing(b: nat, log: Log, list: seq<Ongoing>)
    requires ValidLog(b, log) && ListsActive(b, log, list)
    ensures ListsActive(b, log + [Check(list)], list)
    ensures forall e <- list :: e.last <= |log|
  {
    hide ValidLog, Info, DistinctTxs;
    var ext := log + [Check(list)];
    assert b <= |log| by { ValidIsLong(b, log); }
    forall t: TxId ensures Info(b, ext, t) == Info(b, log, t) {
      InfoAppend(b, log, Check(list), t);
    }
    forall e | e in list ensures Truthful(b, ext, e) && e.last == Info(b, ext, e.tx).last && e.last <= |log| {
      assert Truthful(b, log, e);
      LastLinksBack(b, log, e.tx);
      assert At(ext, Info(b, log, e.tx).last) == At(log, Info(b, log, e.tx).last);
    }
  }

  lemma CheckpointListOk(s: State, s': State)
    requires AtCheckpoint(s, s')
    ensures CheckpointOk(s'.epoch, s'.log, |s'.log|)
  {
    hide Durable, ThreadsOk, NoOrphans, Conserved, OnlineLinked, Replay, Known, ListsActive;
    var c := |s'.log|;
    var list := OngoingList(s, s.order);
    assert s'.log[..c] == s'.log;
    CheckpointListsAll(s);
    CheckpointLater(s, s');
    assert ValidLog(s.epoch, s.log) by { ValidWhenUp(s); }
    CheckChangesNothing(s.epoch, s.log, list);
    if CleanAt(s'.epoch, s'.log, c) {
      forall e | e in list ensures Known(s'.epoch, s'.log, c, e) {
        ListedIsKnown(s'.epoch, s'.log, list, e);
      }
    }
  }

  lemma ValidIsLong(b: nat, log: Log)
    requires ValidLog(b, log)
    ensures b <= |log|
  {
  }

  lemma ValidWhenUp(s: State)
    requires Inv(s)
    ensures ValidLog(s.epoch, s.log)
  {
  }

  /** A truthful entry of a running transaction is what recovery needs. */
  lemma ListedIsKnown(b: nat, log: Log, list: seq<Ongoing>, e: Ongoing)
    requires ListsActive(b, log, list) && e in list && e.last <= |log| && b <= |log|
    requires Info(b, log, e.tx).phase == Running
    ensures Known(b, log, |log|, e)
  {
    assert Truthful(b, log, e);
    assert log[..|log|] == log;
  }

  lemma CheckpointLater(s: State, s': State)
    requires AtCheckpoint(s, s')
    ensures |s'.log| > s'.epoch
  {
  }

  /** Everything durable but the new child. */
  lemma CheckpointLog(s: State, s': State)
    requires AtCheckpoint(s, s')
    ensures Durable(s'.(fork := s.fork))
  {
    hide Volatile, SnapshotsOk, PointerOk, ValidLog;
    var r := s'.log[|s.log|];
    assert s.epoch <= |s.log| by { ValidIsLong(s.epoch, s.log); }
    CommittedAppend(s.epoch, s.log, r);
    AppendDurable(s, s'.(fork := s.fork), r);
  }

  lemma CheckpointFork(s: State, s': State)
    requires AtCheckpoint(s, s')
    ensures s'.fork.Fork? && s'.fork.lsn == |s'.log| && s'.fork.table == Replay(map[], s'.log[..|s'.log|])
  {
    hide Durable, ThreadsOk, NoOrphans, Conserved, IdsOk, OnlineLinked;
    ReplayAppend(map[], s.log, s'.log[|s.log|]);
    assert s'.log[..|s'.log|] == s'.log;
  }

  lemma CheckpointDurable(s: State, s': State)
    requires AtCheckpoint(s, s')
    ensures Durable(s')
  {
    CheckpointLog(s, s');
    CheckpointListOk(s, s');
    CheckpointFork(s, s');
    hide AtCheckpoint, ValidLog, SerialOk, Replay, CheckpointOk;
    WithFork(s'.(fork := s.fork), s');
  }

  lemma WithFork(was: State, s: State)
    requires Durable(was) && was == s.(fork := was.fork)
    requires s.fork.Fork? && s.fork.lsn == |s.log| && s.fork.table == Replay(map[], s.log[..|s.log|])
    requires CheckpointOk(s.epoch, s.log, |s.log|)
    ensures Durable(s)
  {
    hide ValidLog, CheckpointOk, Replay;
  }

  lemma CheckpointThreads(s: State, s': State)
    requires AtCheckpoint(s, s')
    ensures ThreadsOk(s') && NoOrphans(s')
  {
    var r := s'.log[|s.log|];
    CommittedAppend(s.epoch, s.log, r);
    forall x | x in s'.active ensures ThreadOk(s', x) {
      assert ThreadOk(s, x);
      InfoAppend(s.epoch, s.log, r, s.active[x].id);
      assert Undisturbed(s, s', x);
      UndisturbedKeeps(s, s', x);
    }
    forall t: TxId | Live(s'.epoch, s'.log, t) ensures exists x <- s'.active :: s'.active[x].id == t {
      InfoAppend(s.epoch, s.log, r, t);
      assert Live(s.epoch, s.log, t);
      var x :| x in s.active && s.active[x].id == t;
    }
  }

  lemma CheckpointIds(s: State, s': State)
    requires AtCheckpoint(s, s')
    ensures IdsOk(s') && OrderOk(s')
  {
    hide Durable, ThreadsOk, NoOrphans, Conserved, OnlineLinked, Replay;
    forall q | q in s'.log ensures TxOf(q) <= s'.lastId {
      assert q in s.log || q == s'.log[|s.log|];
    }
  }

  lemma CheckpointReplay(s: State, s': State)
    requires AtCheckpoint(s, s')
    ensures s'.table == Replay(map[], s'.log) && OnlineLinked(s'.epoch, s'.log)
  {
    hide Durable, ThreadsOk, NoOrphans, Conserved, IdsOk, OrderOk, OnlineLinked;
    var r := s'.log[|s.log|];
    assert s.epoch <= |s.log| by { ValidWhenUp(s); ValidIsLong(s.epoch, s.log); }
    ReplayAppend(map[], s.log, r);
    OnlineAppend(s.epoch, s.log, r);
  }

  lemma CheckpointLocks(s: State, s': State)
    requires AtCheckpoint(s, s')
    ensures Conserved(s'.locks, Held(s'.active)) && s'.up
  {
    hide Durable, ThreadsOk, NoOrphans, Conserved, IdsOk, OnlineLinked, Replay;
  }

  lemma CheckpointKeeps(s: State)
    requires Inv(s) && s.up && s.fork.NoFork?
    ensures Inv(Checkpointed(s))
  {
    assert forall th <- s.order :: th in s.active by { OrderInside(s); }
    var s' := Checkpointed(s);
    assert AtCheckpoint(s, s');
    hide Inv, Checkpointed;
    CheckpointDurable(s, s');
    CheckpointThreads(s, s');
    CheckpointReplay(s, s');
    CheckpointLocks(s, s');
    CheckpointIds(s, s');
    InvWhenUp(s');
  }

  lemma InvWhenUp(s: State)
    requires s.up && Durable(s) && Volatile(s)
    ensures Inv(s)
  {
  }

  lemma OrderInside(s: State)
    requires Inv(s) && s.up
    ensures forall th <- s.order :: th in s.active
  {
  }

  /** Nothing that the threads use has changed. */
  lemma SameThreads(s: State, s': State)
    requires Volatile(s)
    requires s' == s.(snapshots := s'.snapshots, pointer := s'.pointer, fork := s'.fork)
    ensures Volatile(s')
  {
    forall x | x in s'.active ensures ThreadOk(s', x) {
      assert ThreadOk(s, x);
    }
  }

  lemma FinishKeeps(s: State)
    requires Inv(s) && s.up && s.fork.Fork?
    ensures Inv(s.(snapshots := s.snapshots[s.fork.lsn := s.fork.table]))
  {
    SameThreads(s, s.(snapshots := s.snapshots[s.fork.lsn := s.fork.table]));
  }

  lemma PublishKeeps(s: State)
    requires Inv(s) && s.up && s.fork.Fork? && s.fork.lsn in s.snapshots
    ensures Inv(s.(pointer := s.fork.lsn, fork := NoFork))
  {
    SameThreads(s, s.(pointer := s.fork.lsn, fork := NoFork));
  }

  // ---------- crash, recovery, restart ----------

  lemma RecoverableList(s: State)
    requires Inv(s) && CleanAt(s.epoch, s.log, s.pointer)
    ensures ListOk(s.epoch, s.log, s.pointer, Listed(s.log, s.pointer))
  {
  }

  lemma CoveredIds(s: State)
    requires Inv(s) && CleanAt(s.epoch, s.log, s.pointer)
    ensures forall t <- Covered(s.epoch, s.log, s.pointer, Listed(s.log, s.pointer)) :: t <= s.lastId
  {
    var list := Listed(s.log, s.pointer);
    forall e | e in list && EntryOk(s.epoch, s.log, s.pointer, e) ensures e.tx <= s.lastId {
      var n := ScanStart(s.pointer, e);
      if e.tx > s.lastId {
        assert forall r <- s.log[..n] :: r in s.log;
        FreshId(s.epoch, s.log[..n], s.lastId, e.tx);
      }
    }
  }

  /** A log that recovery has extended, wholly or in part. */
  lemma RecoveredIds(s: State, log: Log)
    requires Inv(s) && CleanAt(s.epoch, s.log, s.pointer)
    requires RollsBack(s.log, log, Covered(s.epoch, s.log, s.pointer, Listed(s.log, s.pointer)))
    ensures forall q <- log :: TxOf(q) <= s.lastId
  {
    CoveredIds(s);
    forall q | q in log ensures TxOf(q) <= s.lastId {
      var n :| 0 <= n < |log| && log[n] == q;
      if n < |s.log| {
        assert q == s.log[n];
      }
    }
  }

  lemma TryRecoverKeeps(s: State, n: nat)
    requires Inv(s) && !s.up && CleanAt(s.epoch, s.log, s.pointer)
    requires |s.log| <= n <= |Recover(s.log, s.pointer).log|
    ensures Inv(PartlyRecovered(s, n))
  {
    var s' := PartlyRecovered(s, n);
    var list := Listed(s.log, s.pointer);
    RecoverableList(s);
    RecoverExtends(s.log, s.pointer, list);
    assert Between(s.log, s'.log, Recover(s.log, s.pointer).log);
    CutShort(s.epoch, s.log, s.pointer, list, s'.log);
    RollsBackKeeps(s.epoch, s.log, s'.log, Covered(s.epoch, s.log, s.pointer, list));
    GrowSnapshots(s, s');
    RecoveredIds(s, s'.log);
  }

  /** Redo from the snapshot rebuilds the replay of the whole log. */
  lemma RedoIsReplay(s: State, log: Log)
    requires Inv(s) && CanRedo(s) && s.log <= log
    ensures RedoFromSnapshot(s, log) == Replay(map[], log)
  {
    if s.pointer != 0 {
      assert log[..s.pointer] == s.log[..s.pointer];
      CheckpointIsTransparent(s.log, log, s.pointer);
    }
  }

  ghost predicate CanRestart(s: State) {
    !s.up && CleanAt(s.epoch, s.log, s.pointer) && CanRedo(s)
  }

  lemma RestartPointer(s: State)
    requires Inv(s) && CanRestart(s) && s.pointer != 0
    ensures CheckpointOk(Restarted(s).epoch, Restarted(s).log, s.pointer)
  {
    var log := Recover(s.log, s.pointer).log;
    var list := Listed(s.log, s.pointer);
    RecoverableList(s);
    RecoverExtends(s.log, s.pointer, list);
    AllFinished(s.epoch, s.log, s.pointer, list);
    forall e | e in list ensures Known(|log|, log, s.pointer, e) {
      assert Known(s.epoch, s.log, s.pointer, e);
    }
  }

  lemma RestartLog(s: State)
    requires Inv(s) && CanRestart(s)
    ensures s.log <= Restarted(s).log
    ensures forall q <- Restarted(s).log :: TxOf(q) <= s.lastId
    ensures Restarted(s).table == Replay(map[], Restarted(s).log)
  {
    var list := Listed(s.log, s.pointer);
    RecoverableList(s);
    RecoverAllOk(s.epoch, s.log, s.pointer, list);
    RecoverExtends(s.log, s.pointer, list);
    RedoIsReplay(s, Restarted(s).log);
    RecoveredIds(s, Restarted(s).log);
  }

  lemma RestartSnapshots(s: State)
    requires Inv(s) && CanRestart(s)
    ensures SnapshotsOk(Restarted(s)) && PointerOk(Restarted(s))
  {
    hide CleanAt, CheckpointOk, ValidLog, SerialOk, Replay, Recover;
    var s' := Restarted(s);
    RestartLog(s);
    assert forall c | 0 <= c <= |s.log| :: s'.log[..c] == s.log[..c];
    if s.pointer != 0 {
      RestartPointer(s);
    }
  }

  lemma RestartSerial(s: State)
    requires Inv(s) && CanRestart(s)
    ensures SerialOk(Restarted(s)) && ValidLog(Restarted(s).epoch, Restarted(s).log)
  {
    hide CleanAt, PointerOk, SnapshotsOk, Recover, Replay;
    RestartLog(s);
  }

  lemma RestartDurable(s: State)
    requires Inv(s) && CanRestart(s)
    ensures Durable(Restarted(s))
  {
    RestartLog(s);
    RestartSnapshots(s);
    RestartSerial(s);
    hide Inv, CanRestart, Restarted, SnapshotsOk, PointerOk, SerialOk, ValidLog;
    assert Restarted(s).lastId == s.lastId by { RestartId(s); }
  }

  lemma RestartId(s: State)
    requires CanRestart(s)
    ensures Restarted(s).lastId == s.lastId
  {
    hide Recover, CleanAt;
  }

  lemma RestartKeeps(s: State)
    requires Inv(s) && CanRestart(s)
    ensures Inv(Restarted(s))
  {
    RestartDurable(s);
    assert Volatile(Restarted(s)) by { RestartVolatile(s); }
  }

  lemma RestartVolatile(s: State)
    requires Inv(s) && CanRestart(s)
    ensures Volatile(Restarted(s))
  {
    hide ValidLog, SerialOk, SnapshotsOk, PointerOk, CleanAt;
    RestartLog(s);
    RestartedIs(s);
    hide CanRestart, Restarted, Replay;
    FreshStart(Restarted(s));
  }

  lemma RestartedIs(s: State)
    requires Inv(s) && CanRestart(s)
    ensures var s' := Restarted(s);
            && s'.up && s'.epoch == |s'.log| && s'.lastId == s.lastId
            && s'.locks == AllUnlocked() && s'.active == map[] && s'.order == []
  {
    hide Durable, Recover, Replay, Committed, CleanAt;
  }

  /** With nobody inside yet. */
  lemma FreshStart(s: State)
    requires s.up && s.epoch == |s.log| && s.locks == AllUnlocked() && s.active == map[] && s.order == []
    requires s.table == Replay(map[], s.log) && forall r <- s.log :: TxOf(r) <= s.lastId
    ensures Volatile(s)
  {
    hide Replay;
    assert Held(s.active) == map[];
  }

  // ---------- all runs ----------

  lemma GetKeeps(s: State, th: Thread, k: Key)
    requires Inv(s) && CanTouch(s, th, k)
    ensures Inv(Got(s, th, k))
  {
    hide Inv;
    TouchKeeps(s, th, k);
    NoteKeeps(Touch(s, th, k), th, GetOp(k, Look(s.table, k)));
  }

  lemma SetKeeps(s: State, th: Thread, k: Key, v: Value)
    requires Inv(s) && CanTouch(s, th, k)
    ensures Inv(Write(Touch(s, th, k), th, k, v, SetOp(k, v)))
  {
    hide Inv;
    TouchKeeps(s, th, k);
    WriteKeeps(Touch(s, th, k), th, k, v, SetOp(k, v));
  }

  lemma DelKeeps(s: State, th: Thread, k: Key)
    requires Inv(s) && CanTouch(s, th, k)
    ensures Inv(Deleted(s, th, k))
  {
    hide Inv;
    TouchKeeps(s, th, k);
    if Look(s.table, k) == ABSENT {
      SameLookups(Put(s.table, k, ABSENT), s.table);
      NoteKeeps(Touch(s, th, k), th, DelOp(k, false));
    } else {
      WriteKeeps(Touch(s, th, k), th, k, ABSENT, DelOp(k, true));
    }
  }

  lemma UndoKeeps(s: State, th: Thread)
    requires Inv(s) && InRollback(s, th)
    ensures Inv(Undo(s, th))
  {
    hide Inv;
    var r := At(s.log, s.active[th].stage.next);
    if r.Begin? {
      UndoEndKeeps(s, th);
    } else if r.Update? {
      UndoUpdateKeeps(s, th);
    } else {
      UndoSkipKeeps(s, th);
    }
  }

  lemma CrashKeeps(s: State)
    requires Inv(s)
    ensures Inv(Crashed(s))
  {
  }

  /** Theorem: every step keeps the invariant. */
  lemma StepKeeps(s: State, step: Step)
    requires Inv(s) && Enabled(s, step)
    ensures Inv(Do(s, step))
  {
    hide Inv;
    match step
    case BeginTx(th) => BeginKeeps(s, th);
    case GetKey(th, k) => GetKeeps(s, th, k);
    case SetKey(th, k, v) => SetKeeps(s, th, k, v);
    case DelKey(th, k) => DelKeeps(s, th, k);
    case CommitTx(th) => CommitKeeps(s, th);
    case AbortTx(th) => AbortKeeps(s, th);
    case UndoOne(th) => UndoKeeps(s, th);
    case ReleaseOne(th) => ReleaseKeeps(s, th);
    case Leave(th) => LeaveKeeps(s, th);
    case ExtraUnlock(th, k) => ExtraUnlockKeeps(s, th, k);
    case TakeCheckpoint => CheckpointKeeps(s);
    case FinishSnapshot => FinishKeeps(s);
    case PublishPointer => PublishKeeps(s);
    case Crash => CrashKeeps(s);
    case TryRecover(n) => TryRecoverKeeps(s, n);
    case Restart => RestartKeeps(s);
  }

  lemma InitialOk()
    ensures Inv(INITIAL)
  {
    assert Held(INITIAL.active) == map[];
  }

  /** Theorem: the invariant holds in every state of every run. */
  lemma {:induction false} ReachableOk(states: seq<State>, steps: seq<Step>, n: nat)
    requires IsRun(states, steps) && n < |states|
    ensures Inv(states[n])
  {
    if n == 0 {
      InitialOk();
    } else {
      ReachableOk(states, steps, n - 1);
      assert states[n - 1 + 1] == Do(states[n - 1], steps[n - 1]);
      StepKeeps(states[n - 1], steps[n - 1]);
    }
  }
}
