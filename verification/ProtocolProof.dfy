/** Every step keeps the invariant. */
module ProtocolProof {
  import opened Table
  import opened LogRecord
  import opened LogProtocol
  import opened Coherence
  import opened Chains
  import opened RecoverySpec
  import opened RecoveryProof
  import opened RecoveryTheorems
  import opened Locks
  import opened Serial
  import opened Protocol
  import opened ProtocolInvariant

  // ---------- threads that the step does not concern ----------

  /** Nothing that `x` relies on has changed. */
  ghost predicate Undisturbed(s: State, s': State, x: Thread) {
    && x in s.active && x in s'.active && s'.active[x] == s.active[x]
    && s.log <= s'.log
    && Info(s'.epoch, s'.log, s.active[x].id) == Info(s.epoch, s.log, s.active[x].id)
    && (forall k: Key :: Owns(s'.locks, x, k) <==> Owns(s.locks, x, k))
    && (forall k: Key | Owns(s.locks, x, k) ::
          && Look(s'.table, k) == Look(s.table, k)
          && Look(Committed(s'.epoch, s'.log), k) == Look(Committed(s.epoch, s.log), k))
  }

  lemma UndisturbedKeeps(s: State, s': State, x: Thread)
    requires Undisturbed(s, s', x) && ThreadOk(s, x)
    ensures ThreadOk(s', x)
  {
    var tx := s.active[x];
    var c, c' := Committed(s.epoch, s.log), Committed(s'.epoch, s'.log);
    assert Isolated(c, s.table, s.locks, x, tx);
    if tx.stage.Working? {
      FaithfulAgrees(c, c', tx.ops);
      forall k: Key | Owns(s'.locks, x, k) ensures Look(Run(c', tx.ops), k) == Look(s'.table, k) {
        assert Owns(s.locks, x, k);
        RunAgrees(c, c', tx.ops, k);
      }
    }
  }

  /** The step appends `r` for thread `th` and leaves the other threads' entries and locks alone. */
  ghost predicate Appends(s: State, s': State, th: Thread, r: Record) {
    && s'.log == s.log + [r] && s'.epoch == s.epoch && !r.Check?
    && s'.table == Redo(s.table, r)
    && th in s'.active && s'.active[th].id == r.tx
    && (forall x | x != th :: x in s'.active <==> x in s.active)
    && (forall x | x != th && x in s.active :: s'.active[x] == s.active[x])
    && (if th in s.active then s.active[th].id == r.tx && !s.active[th].stage.Releasing? && s'.lastId == s.lastId
        else r.Begin? && r.tx == s.lastId + 1 && s'.lastId == r.tx)
    && s'.locks == s.locks && (th in s.active ==> r.prev == s.active[th].last)
    && (r.Update? ==> Owns(s.locks, th, r.key))
  }

  lemma AppendUndisturbed(s: State, s': State, th: Thread, r: Record, x: Thread)
    requires ValidLog(s.epoch, s.log) && s.table == Replay(map[], s.log) && ThreadsOk(s) && IdsOk(s)
    requires Appends(s, s', th, r) && CanAppend(s.epoch, s.log, r) && x != th && x in s.active
    ensures Undisturbed(s, s', x)
  {
    ValidIsCoherent(s.epoch, s.log);
    assert s.active[x].id != r.tx;
    InfoAppend(s.epoch, s.log, r, s.active[x].id);
    ReplayAppend(map[], s.log, r);
    forall k: Key | Owns(s.locks, x, k)
      ensures Look(s'.table, k) == Look(s.table, k)
      ensures Look(Committed(s'.epoch, s'.log), k) == Look(Committed(s.epoch, s.log), k)
    {
      if th in s.active {
        assert ThreadOk(s, th);
      } else {
        assert Idle(s.epoch, s.log);
      }
      assert k !in Info(s.epoch, s.log, r.tx).keys;
      OthersUntouched(s.epoch, s.log, r, k);
    }
  }

  lemma AppendThreads(s: State, s': State, th: Thread, r: Record)
    requires ValidLog(s.epoch, s.log) && s.table == Replay(map[], s.log) && ThreadsOk(s) && IdsOk(s)
    requires Appends(s, s', th, r) && CanAppend(s.epoch, s.log, r) && ThreadOk(s', th)
    ensures ThreadsOk(s')
  {
    forall x | x in s'.active ensures ThreadOk(s', x) {
      if x != th {
        AppendUndisturbed(s, s', th, r, x);
        assert ThreadOk(s, x);
        UndisturbedKeeps(s, s', x);
      }
    }
  }

  lemma AppendIds(s: State, s': State, th: Thread, r: Record)
    requires IdsOk(s) && Appends(s, s', th, r)
    ensures IdsOk(s')
  {
    forall q | q in s'.log ensures TxOf(q) <= s'.lastId {
      assert q in s.log || q == r;
    }
  }

  lemma AppendOrphans(s: State, s': State, th: Thread, r: Record)
    requires ValidLog(s.epoch, s.log) && NoOrphans(s) && Appends(s, s', th, r)
    ensures NoOrphans(s')
  {
    forall t: TxId | Live(s'.epoch, s'.log, t) ensures exists x <- s'.active :: s'.active[x].id == t {
      InfoAppend(s.epoch, s.log, r, t);
      if t == r.tx {
        assert th in s'.active && s'.active[th].id == t;
      } else {
        assert Live(s.epoch, s.log, t);
        var x :| x in s.active && s.active[x].id == t;
        assert x in s'.active && s'.active[x].id == t;
      }
    }
  }

  /** Appending keeps what is durable. */
  lemma AppendDurable(s: State, s': State, r: Record)
    requires Durable(s) && CanAppend(s.epoch, s.log, r) && SerialOk(s')
    requires s'.log == s.log + [r] && s'.epoch == s.epoch && TxOf(r) <= s'.lastId && s.lastId <= s'.lastId
    requires s'.snapshots == s.snapshots && s'.pointer == s.pointer && s'.fork == s.fork
    ensures Durable(s')
  {
    ValidAppend(s.epoch, s.log, r);
    GrowSnapshots(s, s');
    forall q | q in s'.log ensures TxOf(q) <= s'.lastId {
      assert q in s.log || q == r;
    }
  }

  lemma GrowCheckpoint(b: nat, log: Log, ext: Log, c: Lsn)
    requires CheckpointOk(b, log, c) && log <= ext
    ensures CheckpointOk(b, ext, c)
  {
    hide ListOk, ListsActive;
    assert ext[..c] == log[..c];
    if CleanAt(b, log, c) {
      ListOkStays(b, log, ext, c, Listed(log, c));
    }
  }

  lemma GrowSnapshots(s: State, s': State)
    requires SnapshotsOk(s) && PointerOk(s) && s.log <= s'.log && s'.epoch == s.epoch
    requires s'.snapshots == s.snapshots && s'.pointer == s.pointer && s'.fork == s.fork
    ensures SnapshotsOk(s') && PointerOk(s')
  {
    assert forall c | 0 <= c <= |s.log| :: s'.log[..c] == s.log[..c];
    if s.pointer != 0 {
      GrowCheckpoint(s.epoch, s.log, s'.log, s.pointer);
    }
    if s.fork.Fork? {
      GrowCheckpoint(s.epoch, s.log, s'.log, s.fork.lsn);
    }
  }

  lemma OnlineAppend(b: nat, log: Log, r: Record)
    requires OnlineLinked(b, log) && b <= |log|
    requires r.Begin? || r.Check? || PrevOf(r) == Info(b, log, TxOf(r)).last
    ensures OnlineLinked(b, log + [r])
  {
    hide Info;
    var ext := log + [r];
    forall n | b <= n < |ext| && !ext[n].Begin? && !ext[n].Check?
      ensures PrevOf(ext[n]) == Info(b, ext[..n], TxOf(ext[n])).last
    {
      if n < |log| {
        assert ext[..n] == log[..n] && ext[n] == log[n];
      } else {
        assert ext[..n] == log;
      }
    }
  }

  lemma AppendOnline(s: State, s': State, th: Thread, r: Record)
    requires ValidLog(s.epoch, s.log) && OnlineLinked(s.epoch, s.log) && ThreadsOk(s)
    requires Appends(s, s', th, r)
    ensures OnlineLinked(s'.epoch, s'.log)
  {
    hide CanAppend, Isolated, TwoPhase;
    if th in s.active {
      assert ThreadOk(s, th);
    }
    OnlineAppend(s.epoch, s.log, r);
  }

  lemma AppendVolatile(s: State, s': State, th: Thread, r: Record)
    requires ValidLog(s.epoch, s.log) && Volatile(s)
    requires Appends(s, s', th, r) && CanAppend(s.epoch, s.log, r)
    requires Conserved(s'.locks, Held(s'.active)) && OrderOk(s') && ThreadOk(s', th)
    ensures Volatile(s')
  {
    hide CanAppend, ValidLog, ThreadOk, NoOrphans, IdsOk, OrderOk, Conserved, OnlineLinked;
    AppendThreads(s, s', th, r);
    AppendIds(s, s', th, r);
    AppendOrphans(s, s', th, r);
    AppendOnline(s, s', th, r);
    ReplayAppend(map[], s.log, r);
  }

  /** Everything at once, for a step that appends a record. */
  lemma AppendKeeps(s: State, s': State, th: Thread, r: Record)
    requires Inv(s) && s.up && s'.up
    requires Appends(s, s', th, r) && CanAppend(s.epoch, s.log, r)
    requires s'.snapshots == s.snapshots && s'.pointer == s.pointer && s'.fork == s.fork
    requires SerialOk(s') && Conserved(s'.locks, Held(s'.active)) && OrderOk(s') && ThreadOk(s', th)
    ensures Inv(s')
  {
    assert Durable(s') by {
      assert r.tx <= s'.lastId && s.lastId <= s'.lastId by {
        assert th in s.active ==> s.active[th].id <= s.lastId;
      }
      AppendDurable(s, s', r);
    }
    assert Volatile(s') by { AppendVolatile(s, s', th, r); }
  }

  // ---------- steps that write no log record ----------

  /** The step changes only the entry of `th`, and the locks only where `th` is concerned. */
  ghost predicate Local(s: State, s': State, th: Thread) {
    && s' == s.(locks := s'.locks, active := s'.active)
    && th in s.active && th in s'.active && s'.active[th].id == s.active[th].id
    && s'.active == s.active[th := s'.active[th]]
    && (forall x, k: Key | x != th && x in s.active :: Owns(s'.locks, x, k) <==> Owns(s.locks, x, k))
  }

  lemma SameDurable(s: State, s': State)
    requires Durable(s)
    requires s' == s.(up := s'.up, table := s'.table, locks := s'.locks, active := s'.active, order := s'.order)
    ensures Durable(s')
  {
  }

  lemma LocalKeeps(s: State, s': State, th: Thread)
    requires Inv(s) && s.up && Local(s, s', th)
    requires Conserved(s'.locks, Held(s'.active)) && ThreadOk(s', th)
    ensures Inv(s')
  {
    hide Durable, ThreadOk, Conserved, Info;
    SameDurable(s, s');
    forall x | x in s'.active ensures ThreadOk(s', x) {
      if x != th {
        assert ThreadOk(s, x);
        assert Undisturbed(s, s', x);
        UndisturbedKeeps(s, s', x);
      }
    }
    forall t: TxId | Live(s'.epoch, s'.log, t) ensures exists x <- s'.active :: s'.active[x].id == t {
      var x :| x in s.active && s.active[x].id == t;
      assert x in s'.active && s'.active[x].id == t;
    }
  }

  lemma HeldWith(active: map<Thread, Tx>, th: Thread, tx: Tx)
    ensures Held(active[th := tx]) == Held(active)[th := tx.locks]
  {
  }

  /** The state after thread `th` has appended `r`: its effect on the table is that of redoing it. */
  function Recorded(s: State, th: Thread, r: Record, tx: Tx, history: seq<seq<Op>>): State {
    s.(log := s.log + [r], table := Redo(s.table, r), active := s.active[th := tx], history := history)
  }

  lemma RecordKeeps(s: State, th: Thread, r: Record, tx: Tx, history: seq<seq<Op>>)
    requires Inv(s) && s.up && th in s.active && !s.active[th].stage.Releasing? && !r.Check?
    requires tx.id == s.active[th].id == r.tx && tx.locks == s.active[th].locks && r.prev == s.active[th].last
    requires CanAppend(s.epoch, s.log, r) && (r.Update? ==> Owns(s.locks, th, r.key))
    requires SerialOk(Recorded(s, th, r, tx, history)) && ThreadOk(Recorded(s, th, r, tx, history), th)
    ensures Inv(Recorded(s, th, r, tx, history))
  {
    hide ThreadOk, SerialOk, CanAppend, Conserved;
    var s' := Recorded(s, th, r, tx, history);
    RecordBooks(s, th, r, tx, history);
    RecordAppends(s, th, r, tx, history);
    hide Inv, Recorded, Appends, OrderOk;
    AppendKeeps(s, s', th, r);
  }

  lemma RecordAppends(s: State, th: Thread, r: Record, tx: Tx, history: seq<seq<Op>>)
    requires th in s.active && !s.active[th].stage.Releasing? && !r.Check?
    requires tx.id == s.active[th].id == r.tx && r.prev == s.active[th].last
    requires r.Update? ==> Owns(s.locks, th, r.key)
    ensures Appends(s, Recorded(s, th, r, tx, history), th, r)
  {
    hide Redo;
  }

  lemma RecordBooks(s: State, th: Thread, r: Record, tx: Tx, history: seq<seq<Op>>)
    requires Inv(s) && s.up && th in s.active && tx.locks == s.active[th].locks
    ensures var s' := Recorded(s, th, r, tx, history);
            && Conserved(s'.locks, Held(s'.active)) && OrderOk(s') && s'.up
            && s'.snapshots == s.snapshots && s'.pointer == s.pointer && s'.fork == s.fork
  {
    hide Durable, ThreadsOk, NoOrphans, IdsOk, OnlineLinked, Replay, Conserved, Redo;
    HeldWith(s.active, th, tx);
    assert Held(Recorded(s, th, r, tx, history).active) == Held(s.active);
  }

  lemma EntersRecorded(s: State, th: Thread, r: Record, stage: Stage, history: seq<seq<Op>>)
    requires th in s.active && !r.Update? && !r.Clr?
    ensures Enter(Appended(s.(history := history), th, r), th, stage)
         == Recorded(s, th, r, s.active[th].(last := |s.log| + 1, stage := stage), history)
  {
    var tx := s.active[th].(last := |s.log| + 1, stage := stage);
    assert Enter(Appended(s.(history := history), th, r), th, stage).active == s.active[th := tx];
  }

  lemma UndoesRecorded(s: State, th: Thread, r: Record, stage: Stage)
    requires th in s.active && r.Clr?
    ensures Enter(Appended(s, th, r).(table := Put(s.table, r.key, r.after)), th, stage)
         == Recorded(s, th, r, s.active[th].(last := |s.log| + 1, stage := stage), s.history)
  {
    var tx := s.active[th].(last := |s.log| + 1, stage := stage);
    assert Enter(Appended(s, th, r).(table := Put(s.table, r.key, r.after)), th, stage).active == s.active[th := tx];
  }

  /** A record that is not a COMMIT changes neither the committed table nor the history. */
  lemma SerialKept(s: State, th: Thread, r: Record, tx: Tx)
    requires Inv(s) && !r.Commit?
    ensures SerialOk(Recorded(s, th, r, tx, s.history))
    ensures Committed(s.epoch, s.log + [r]) == Committed(s.epoch, s.log)
  {
    CommittedAppend(s.epoch, s.log, r);
  }

  /** On a stripe nobody owns, the table is the committed table. */
  lemma UnownedIsCommitted(s: State, k: Key)
    requires Inv(s) && s.up && s.locks[Stripe(k)].owner == 0
    ensures Look(s.table, k) == Look(Committed(s.epoch, s.log), k)
  {
    ValidIsCoherent(s.epoch, s.log);
    forall u: TxId | Live(s.epoch, s.log, u) ensures k !in Info(s.epoch, s.log, u).keys {
      var x :| x in s.active && s.active[x].id == u;
      assert ThreadOk(s, x);
      assert 0 !in s.active by { assert 0 !in Held(s.active); }
    }
    assert Free(s.epoch, s.log, 0, k);
  }

  lemma TouchThread(s: State, th: Thread, k: Key)
    requires Inv(s) && CanTouch(s, th, k)
    ensures ThreadOk(Touch(s, th, k), th)
  {
    hide Durable, NoOrphans, IdsOk, OrderOk, Conserved;
    var s' := Touch(s, th, k);
    var tx := s.active[th];
    var c := Committed(s.epoch, s.log);
    assert ThreadOk(s, th);
    forall j: Key | Owns(s'.locks, th, j) ensures Look(Run(c, tx.ops), j) == Look(s'.table, j) {
      if !Owns(s.locks, th, j) {
        assert s.locks[Stripe(j)].owner == 0;
        UnownedIsCommitted(s, j);
        RunElsewhere(c, tx.ops, j);
      }
    }
  }

  lemma TouchKeeps(s: State, th: Thread, k: Key)
    requires Inv(s) && CanTouch(s, th, k)
    ensures Inv(Touch(s, th, k)) && Owns(Touch(s, th, k).locks, th, k)
  {
    hide Durable, ThreadOk, NoOrphans, IdsOk, OrderOk;
    var s' := Touch(s, th, k);
    LockConserves(s.locks, Held(s.active), th, k);
    HeldWith(s.active, th, s'.active[th]);
    TouchThread(s, th, k);
    assert 0 !in s.active by { assert 0 !in Held(s.active); }
    LocalKeeps(s, s', th);
  }

  /** One operation more, answered and performed on the table. */
  lemma IsolatedMore(c: Table, table: Table, locks: LockTable, th: Thread, tx: Tx, op: Op, tx': Tx)
    requires Isolated(c, table, locks, th, tx) && tx.stage.Working? && Owns(locks, th, op.key)
    requires Honest(table, op) && tx'.ops == tx.ops + [op]
    ensures Isolated(c, Effect(table, op), locks, th, tx')
  {
    RunAppend(c, tx.ops, op);
    assert Look(Run(c, tx.ops), op.key) == Look(table, op.key);
    forall k: Key | Owns(locks, th, k) ensures Look(Run(c, tx.ops + [op]), k) == Look(Effect(table, op), k) {
      assert Look(Run(c, tx.ops), k) == Look(table, k);
    }
  }

  lemma NoteThread(s: State, th: Thread, op: Op)
    requires Inv(s) && InStage(s, th, Working) && Owns(s.locks, th, op.key)
    requires Honest(s.table, op) && Effect(s.table, op) == s.table
    ensures ThreadOk(Note(s, th, op), th)
  {
    hide Durable, NoOrphans, IdsOk, OrderOk, Conserved, OnlineLinked, Replay, Isolated, Info, Committed;
    assert ThreadOk(s, th);
    IsolatedMore(Committed(s.epoch, s.log), s.table, s.locks, th, s.active[th], op, Note(s, th, op).active[th]);
  }

  lemma NoteKeeps(s: State, th: Thread, op: Op)
    requires Inv(s) && InStage(s, th, Working) && Owns(s.locks, th, op.key)
    requires Honest(s.table, op) && Effect(s.table, op) == s.table
    ensures Inv(Note(s, th, op))
  {
    hide Durable, NoOrphans, IdsOk, OrderOk, ThreadOk, OnlineLinked, Replay, Conserved;
    var s' := Note(s, th, op);
    HeldWith(s.active, th, s'.active[th]);
    assert Held(s'.active) == Held(s.active);
    NoteThread(s, th, op);
    LocalKeeps(s, s', th);
  }

  // ---------- writing a key ----------

  /** No other live transaction has written a key on a stripe that `th` owns. */
  lemma OwnedIsFree(s: State, th: Thread, k: Key)
    requires Inv(s) && s.up && th in s.active && Owns(s.locks, th, k)
    ensures Free(s.epoch, s.log, s.active[th].id, k)
  {
    forall u: TxId | u != s.active[th].id && Live(s.epoch, s.log, u) ensures k !in Info(s.epoch, s.log, u).keys {
      var x :| x in s.active && s.active[x].id == u;
      assert ThreadOk(s, x);
    }
  }

  lemma WriteThread(s: State, th: Thread, k: Key, v: Value, op: Op, r: Record, tx: Tx)
    requires Inv(s) && InStage(s, th, Working) && Owns(s.locks, th, k) && op.key == k
    requires Honest(s.table, op) && Effect(s.table, op) == Put(s.table, k, v)
    requires r == Update(s.active[th].last, s.active[th].id, k, Look(s.table, k), v)
    requires tx == s.active[th].(last := |s.log| + 1, ops := s.active[th].ops + [op])
    ensures ThreadOk(Recorded(s, th, r, tx, s.history), th)
  {
    hide Durable, NoOrphans, IdsOk, OrderOk, Conserved, OnlineLinked, Replay, Isolated, Committed;
    SerialSame(s, r);
    assert ThreadOk(s, th);
    InfoAppend(s.epoch, s.log, r, tx.id);
    IsolatedMore(Committed(s.epoch, s.log), s.table, s.locks, th, s.active[th], op, tx);
  }

  lemma SerialSame(s: State, r: Record)
    requires Inv(s) && !r.Commit?
    ensures Committed(s.epoch, s.log + [r]) == Committed(s.epoch, s.log) && s.epoch <= |s.log|
  {
    CommittedAppend(s.epoch, s.log, r);
  }

  lemma WriteKeeps(s: State, th: Thread, k: Key, v: Value, op: Op)
    requires Inv(s) && InStage(s, th, Working) && Owns(s.locks, th, k) && op.key == k
    requires Honest(s.table, op) && Effect(s.table, op) == Put(s.table, k, v)
    ensures Inv(Write(s, th, k, v, op))
  {
    var was := s.active[th];
    var r := Update(was.last, was.id, k, Look(s.table, k), v);
    var tx := was.(last := |s.log| + 1, ops := was.ops + [op]);
    assert ThreadOk(s, th);
    OwnedIsFree(s, th, k);
    WriteThread(s, th, k, v, op, r, tx);
    SerialKept(s, th, r, tx);
    RecordKeeps(s, th, r, tx, s.history);
    WriteIsRecorded(s, th, k, v, op, r, tx);
  }

  lemma WriteIsRecorded(s: State, th: Thread, k: Key, v: Value, op: Op, r: Record, tx: Tx)
    requires th in s.active
    requires r == Update(s.active[th].last, s.active[th].id, k, Look(s.table, k), v)
    requires tx == s.active[th].(last := |s.log| + 1, ops := s.active[th].ops + [op])
    ensures Write(s, th, k, v, op) == Recorded(s, th, r, tx, s.history)
  {
    assert Write(s, th, k, v, op).active == s.active[th := tx];
  }
}
