/** The branches of `run_command`, the end of a transaction and the checkpoint, on the log file, the hash
    table, the lock objects and the transaction list, proved against the steps of the protocol. */
module Session {
  import opened Table
  import opened Utils
  import opened LogRecord
  import opened LogProtocol
  import opened RecoverySpec
  import opened LogShape
  import opened Locks
  import opened Serial
  import opened Protocol
  import opened ProtocolInvariant
  import opened ProtocolSteps
  import opened TextFile
  import opened LogCodec
  import LogFile
  import opened KvHash
  import opened Snapshot
  import opened SnapshotFiles
  import opened KvRecovery
  import opened KvTransaction
  import opened ServerStart
  import opened Requests
  import opened Publication
  import opened TxManager
  import opened LockManager

  /** The objects are the log, the table and thread `th`'s transaction of state `s`. */
  ghost predicate Shows(s: State, th: Thread, log: LogWriter, ht: HashTable, tx: Transaction)
    reads log, ht, ht.table, ht.nodes, tx
  {
    && th in s.active && tx.id == s.active[th].id && tx.lastLsn == s.active[th].last
    && log.records == s.log && tx.Ready(log, ht, s.table)
  }

  /** The transactions of the threads, in the same order. */
  ghost predicate Parallel(list: seq<Transaction>, order: seq<Thread>, active: map<Thread, Tx>)
    reads list
  {
    && |list| == |order| && (forall x <- order :: x in active)
    && forall i | 0 <= i < |order| ::
         list[i].id == active[order[i]].id && list[i].lastLsn == active[order[i]].last
  }

  /** The list of ongoing transactions is that of state `s`, in the same order. */
  ghost predicate Lists(txm: TxManager, s: State)
    reads txm, txm.txList
  {
    txm.Valid() && txm.transactionId == s.lastId && Parallel(txm.txList, s.order, s.active)
  }

  /** The transaction of `th` is on the list of state `s`, and the list is apart from the table. */
  ghost predicate Attends(s: State, th: Thread, txm: TxManager, ht: HashTable, tx: Transaction)
    reads txm, txm.txList, ht
  {
    && Lists(txm, s) && tx in txm.txList && (forall x | x in s.active && x != th :: s.active[x].id != tx.id)
    && Apart(txm, ht)
  }

  ghost predicate Apart(txm: TxManager, ht: HashTable)
    reads txm, ht
  {
    txm !in ht.Repr() && forall t <- txm.txList :: t !in ht.Repr()
  }

  /** A step of `th` inside its transaction. */
  predicate Follows(s: State, s': State, th: Thread) {
    && s'.order == s.order && s'.lastId == s.lastId
    && th in s.active && th in s'.active && s'.active == s.active[th := s'.active[th]]
    && s'.active[th].id == s.active[th].id
  }

  lemma OnlyOne(txm: TxManager, i: nat, tx: Transaction)
    requires txm.Valid() && i < |txm.txList| && tx in txm.txList && txm.txList[i].id == tx.id
    ensures txm.txList[i] == tx
  {
  }

  /** The transactions other than `tx`, and the ids of all, are as in the list. */
  ghost predicate OthersParallel(list: seq<Transaction>, order: seq<Thread>, active: map<Thread, Tx>, tx: Transaction)
    reads list
  {
    && |list| == |order| && (forall x <- order :: x in active)
    && forall i | 0 <= i < |list| ::
         list[i].id == active[order[i]].id && (list[i] != tx ==> list[i].lastLsn == active[order[i]].last)
  }

  /** When only `tx` has moved on, the list is that of the state after the step. */
  lemma AttendsKept(s: State, s': State, th: Thread, txm: TxManager, ht: HashTable, tx: Transaction)
    requires txm.Valid() && txm.transactionId == s.lastId && tx in txm.txList && Apart(txm, ht)
    requires OthersParallel(txm.txList, s.order, s.active, tx)
    requires forall x | x in s.active && x != th :: s.active[x].id != tx.id
    requires Follows(s, s', th) && tx.id == s.active[th].id && tx.lastLsn == s'.active[th].last
    ensures Attends(s', th, txm, ht, tx)
  {
    hide TxManager.Valid, Apart;
    var list, order := txm.txList, s.order;
    forall i | 0 <= i < |order|
      ensures list[i].id == s'.active[order[i]].id && list[i].lastLsn == s'.active[order[i]].last
    {
      assert order[i] in order && list[i] in list;
      if order[i] == th {
        OnlyOne(txm, i, tx);
      } else {
        assert list[i] != tx;
      }
    }
  }

  lemma AttendsOthers(s: State, th: Thread, txm: TxManager, ht: HashTable, tx: Transaction)
    requires Attends(s, th, txm, ht, tx)
    ensures txm.Valid() && txm.transactionId == s.lastId && tx in txm.txList && Apart(txm, ht)
    ensures OthersParallel(txm.txList, s.order, s.active, tx)
    ensures forall x | x in s.active && x != th :: s.active[x].id != tx.id
  {
    hide TxManager.Valid;
  }

  /** What the start of the server makes besides the table: no lock is held, nobody is on the list, and the
      ids go on where the file ends. */
  method OpenSession(idFile: string, ghost ids: seq<TxId>, ghost z: State) returns (lm: LockManager, txm: TxManager)
    requires Inv(z) && Enabled(z, Restart)
    requires |ids| == z.lastId && Word(|ids|) && forall i | 0 <= i < |ids| :: ids[i] == i + 1
    requires idFile == Join(LogFile.IdLines(ids))
    ensures lm.Valid() && lm.state == Do(z, Restart).locks && Lists(txm, Do(z, Restart)) && txm.ids == ids
    ensures fresh(lm) && fresh(txm)
  {
    hide Inv, Enabled, Do, Join, LogFile.IdLines, LockManager.Valid, TxManager.Valid;
    RestartShows(z);
    lm := new LockManager();
    txm := new TxManager(idFile, ids);
    assert txm.transactionId == |ids| by { ListIsNumbered(txm); }
  }

  lemma ListIsNumbered(txm: TxManager)
    requires txm.Valid()
    ensures txm.transactionId == |txm.ids|
  {
  }

  lemma RestartShows(z: State)
    requires Inv(z) && Enabled(z, Restart)
    ensures var s := Do(z, Restart);
            s.locks == AllUnlocked() && s.active == map[] && s.order == [] && s.lastId == z.lastId
  {
    RestartedIs(z);
    hide Inv, Restarted;
  }

  function Reply(v: Value): Option<Value> {
    if v == ABSENT then None else Some(v)
  }

  lemma LookIsGet(t: Table, k: Key)
    ensures (if k in t then Some(t[k]) else None) == Reply(Look(t, k))
  {
  }

  /** The lookup that each of the three commands begins with. */
  method Fetch(ht: HashTable, key: Key, ghost t: Table) returns (value: Option<Value>)
    requires ht.Means(t)
    ensures value == Reply(Look(t, key))
  {
    hide Filed, Complete, AllLinked, Keyed, LinksOf;
    LookIsGet(t, key);
    value := ht.Get(key);
  }

  /** A step of `th` on a key, as far as the list shows it. */
  lemma KeyStepFollows(s: State, step: Step)
    requires Enabled(s, step) && IsKeyStep(step)
    ensures Follows(s, Do(s, step), step.th)
  {
    hide LockKey, Put, Stripe, Write, Look;
    match step
    case SetKey(th, k, v) => WriteFollows(s, th, k, v, SetOp(k, v));
    case DelKey(th, k) => WriteFollows(s, th, k, ABSENT, DelOp(k, true));
    case GetKey(th, k) =>
  }

  lemma WriteFollows(s: State, th: Thread, k: Key, v: Value, op: Op)
    requires th in s.active
    ensures Follows(s, Write(Touch(s, th, k), th, k, v, op), th)
  {
    hide LockKey, Put;
  }

  /** GET, from the lookup on. */
  method RunGet(log: LogWriter, ht: HashTable, tx: Transaction, key: Key, ghost txm: TxManager,
                ghost s: State, ghost th: Thread)
    returns (value: Option<Value>)
    requires Shows(s, th, log, ht, tx) && Enabled(s, GetKey(th, key)) && Attends(s, th, txm, ht, tx)
    ensures Shows(Do(s, GetKey(th, key)), th, log, ht, tx) && Attends(Do(s, GetKey(th, key)), th, txm, ht, tx)
    ensures value == Reply(Look(s.table, key))
  {
    hide Transaction.Ready, Attends, Follows, TxManager.Valid, Do, Enabled, Look;
    AttendsOthers(s, th, txm, ht, tx);
    KeyStepFollows(s, GetKey(th, key));
    GetShows(s, th, key);
    MeansTable(log, ht, tx, s.table);
    value := Fetch(ht, key, s.table);
    AttendsKept(s, Do(s, GetKey(th, key)), th, txm, ht, tx);
  }

  lemma GetShows(s: State, th: Thread, k: Key)
    requires Enabled(s, GetKey(th, k))
    ensures var s' := Do(s, GetKey(th, k));
            && th in s'.active && s'.active[th].id == s.active[th].id && s'.active[th].last == s.active[th].last
            && s'.log == s.log && s'.table == s.table
  {
    hide LockKey;
  }

  /** Logs one change and makes `lastLsn` point at it. */
  method LogChange(log: LogWriter, ht: HashTable, tx: Transaction, key: Key, before: Value, after: Value,
                   ghost t: Table)
    requires tx.Ready(log, ht, t) && (before != ABSENT || after != ABSENT)
    requires Printable(|log.records| + 1, Update(tx.lastLsn, tx.id, key, before, after))
    modifies tx, log
    ensures tx.Ready(log, ht, t) && tx.lastLsn == |log.records|
    ensures log.records == old(log.records) + [Update(old(tx.lastLsn), tx.id, key, before, after)]
  {
    hide HashTable.Means, LogFile.AllPrintable, LogFile.FileText, Printable, Shaped;
    ShapedAppend(log.records, Update(tx.lastLsn, tx.id, key, before, after));
    tx.lastLsn := log.UpdateLog(tx.lastLsn, tx.id, key, before, after);
  }

  method Store(log: LogWriter, ht: HashTable, tx: Transaction, key: Key, value: Value, ghost t: Table)
    requires tx.Ready(log, ht, t) && value != ABSENT
    modifies ht.Repr()
    ensures tx.Ready(log, ht, Put(t, key, value)) && fresh(ht.Repr() - old(ht.Repr()))
    ensures log.records == old(log.records) && tx.lastLsn == old(tx.lastLsn)
  {
    hide HashTable.Means, LogWriter.Valid, Shaped;
    Assign(ht, key, value, t);
  }

  method Drop(log: LogWriter, ht: HashTable, tx: Transaction, key: Key, ghost t: Table)
    requires tx.Ready(log, ht, t)
    modifies ht.Repr()
    ensures tx.Ready(log, ht, Put(t, key, ABSENT)) && fresh(ht.Repr() - old(ht.Repr()))
    ensures log.records == old(log.records) && tx.lastLsn == old(tx.lastLsn)
  {
    hide HashTable.Means, LogWriter.Valid, Shaped;
    Erase(ht, key, t);
  }

  /** The state after a write, as far as the objects show it. */
  lemma WriteShows(s: State, th: Thread, k: Key, v: Value, op: Op)
    requires th in s.active
    ensures var s' := Write(Touch(s, th, k), th, k, v, op);
            && th in s'.active && s'.active[th].id == s.active[th].id && s'.active[th].last == |s.log| + 1
            && s'.log == s.log + [Update(s.active[th].last, s.active[th].id, k, Look(s.table, k), v)]
            && s'.table == Put(s.table, k, v)
  {
    hide Put, LockKey;
  }

  lemma SetShows(s: State, th: Thread, k: Key, v: Value)
    requires Enabled(s, SetKey(th, k, v))
    ensures var s' := Do(s, SetKey(th, k, v));
            && th in s'.active && s'.active[th].id == s.active[th].id && s'.active[th].last == |s.log| + 1
            && s'.log == s.log + [Update(s.active[th].last, s.active[th].id, k, Look(s.table, k), v)]
            && s'.table == Put(s.table, k, v) && v != ABSENT
  {
    hide Write, Put;
    WriteShows(s, th, k, v, SetOp(k, v));
  }

  lemma DelShows(s: State, th: Thread, k: Key)
    requires Enabled(s, DelKey(th, k))
    ensures var s' := Do(s, DelKey(th, k));
            && th in s'.active && s'.active[th].id == s.active[th].id
            && if Look(s.table, k) == ABSENT then
                 s'.active[th].last == s.active[th].last && s'.log == s.log && s'.table == s.table
               else
                 && s'.active[th].last == |s.log| + 1 && s'.table == Put(s.table, k, ABSENT)
                 && s'.log == s.log + [Update(s.active[th].last, s.active[th].id, k, Look(s.table, k), ABSENT)]
  {
    hide Write, Put, Look, LockKey;
    WriteShows(s, th, k, ABSENT, DelOp(k, true));
  }

  /** The record that a write will log fits the line buffer. */
  predicate Loggable(s: State, th: Thread, k: Key, v: Value)
    requires th in s.active
  {
    Printable(|s.log| + 1, Update(s.active[th].last, s.active[th].id, k, Look(s.table, k), v))
  }

  /** Looks the old value up, logs both, then changes the table. */
  method SetLogged(log: LogWriter, ht: HashTable, tx: Transaction, key: Key, value: Value, ghost t: Table)
    requires tx.Ready(log, ht, t) && value != ABSENT
    requires Printable(|log.records| + 1, Update(tx.lastLsn, tx.id, key, Look(t, key), value))
    modifies tx, log, ht.Repr()
    ensures tx.Ready(log, ht, Put(t, key, value)) && fresh(ht.Repr() - old(ht.Repr()))
    ensures log.records == old(log.records) + [Update(old(tx.lastLsn), tx.id, key, Look(t, key), value)]
    ensures tx.lastLsn == |log.records|
  {
    hide Transaction.Ready, HashTable.Means, Put, Printable, Look;
    MeansTable(log, ht, tx, t);
    var before := Fetch(ht, key, t);
    LogChange(log, ht, tx, key, if before.Some? then before.value else ABSENT, value, t);
    Store(log, ht, tx, key, value, t);
  }

  /** SET, from the lookup on. */
  method RunSet(log: LogWriter, ht: HashTable, tx: Transaction, key: Key, value: Value, ghost txm: TxManager,
                ghost s: State, ghost th: Thread)
    requires Shows(s, th, log, ht, tx) && Enabled(s, SetKey(th, key, value)) && Loggable(s, th, key, value)
    requires Attends(s, th, txm, ht, tx)
    modifies tx, log, ht.Repr()
    ensures Shows(Do(s, SetKey(th, key, value)), th, log, ht, tx) && fresh(ht.Repr() - old(ht.Repr()))
    ensures Attends(Do(s, SetKey(th, key, value)), th, txm, ht, tx)
  {
    hide Transaction.Ready, Attends, Follows, TxManager.Valid, Do, Enabled, Put, Printable;
    AttendsOthers(s, th, txm, ht, tx);
    KeyStepFollows(s, SetKey(th, key, value));
    SetShows(s, th, key, value);
    SetLogged(log, ht, tx, key, value, s.table);
    AttendsKept(s, Do(s, SetKey(th, key, value)), th, txm, ht, tx);
  }

  lemma MeansTable(log: LogWriter, ht: HashTable, tx: Transaction, t: Table)
    requires tx.Ready(log, ht, t)
    ensures ht.Means(t)
  {
  }

  /** A key that is not there is neither logged nor deleted. */
  method DelLogged(log: LogWriter, ht: HashTable, tx: Transaction, key: Key, ghost t: Table) returns (existed: bool)
    requires tx.Ready(log, ht, t)
    requires Printable(|log.records| + 1, Update(tx.lastLsn, tx.id, key, Look(t, key), ABSENT))
    modifies tx, log, ht.Repr()
    ensures existed == (Look(t, key) != ABSENT) && fresh(ht.Repr() - old(ht.Repr()))
    ensures if existed then
              && tx.Ready(log, ht, Put(t, key, ABSENT)) && tx.lastLsn == |log.records|
              && log.records == old(log.records) + [Update(old(tx.lastLsn), tx.id, key, Look(t, key), ABSENT)]
            else tx.Ready(log, ht, t) && log.records == old(log.records) && tx.lastLsn == old(tx.lastLsn)
  {
    hide Transaction.Ready, HashTable.Means, Put, Printable, Look;
    MeansTable(log, ht, tx, t);
    var before := Fetch(ht, key, t);
    existed := before.Some?;
    if existed {
      LogChange(log, ht, tx, key, before.value, ABSENT, t);
      Drop(log, ht, tx, key, t);
    }
  }

  /** DEL, from the lookup on. */
  method RunDel(log: LogWriter, ht: HashTable, tx: Transaction, key: Key, ghost txm: TxManager,
                ghost s: State, ghost th: Thread)
    returns (existed: bool)
    requires Shows(s, th, log, ht, tx) && Enabled(s, DelKey(th, key)) && Loggable(s, th, key, ABSENT)
    requires Attends(s, th, txm, ht, tx)
    modifies tx, log, ht.Repr()
    ensures Shows(Do(s, DelKey(th, key)), th, log, ht, tx) && fresh(ht.Repr() - old(ht.Repr()))
    ensures Attends(Do(s, DelKey(th, key)), th, txm, ht, tx)
    ensures existed == (Look(s.table, key) != ABSENT)
  {
    hide Transaction.Ready, Attends, Follows, TxManager.Valid, Do, Enabled, Put, Printable, Look;
    AttendsOthers(s, th, txm, ht, tx);
    KeyStepFollows(s, DelKey(th, key));
    DelShows(s, th, key);
    existed := DelLogged(log, ht, tx, key, s.table);
    AttendsKept(s, Do(s, DelKey(th, key)), th, txm, ht, tx);
  }

  /** BEGIN: a new id, its BEGIN record, and the transaction that points at it. */
  method RunBegin(log: LogWriter, ht: HashTable, txm: TxManager, ghost s: State, ghost th: Thread)
    returns (tx: Transaction)
    requires Enabled(s, BeginTx(th)) && log.Valid() && log.records == s.log && Shaped(s.log)
    requires ht.Means(s.table) && log !in ht.Repr()
    requires Lists(txm, s) && IdsOk(s) && Apart(txm, ht) && Word(s.lastId + 1) && Word(|s.log| + 1)
    modifies txm, log
    ensures fresh(tx) && Shows(Do(s, BeginTx(th)), th, log, ht, tx) && Attends(Do(s, BeginTx(th)), th, txm, ht, tx)
    ensures tx.id !in old(txm.ids)
    ensures txm.txList == old(txm.txList) + [tx]
  {
    hide HashTable.Means, TxManager.Valid, LogWriter.Valid, Transaction.Ready, Shaped, Do, Attends;
    BeginIs(s, th);
    tx := BeginStep(log, ht, txm, s, th);
    hide Enabled;
    AttendsNew(s, Do(s, BeginTx(th)), th, txm, ht, tx, old(txm.txList));
  }

  lemma BeginIs(s: State, th: Thread)
    requires Enabled(s, BeginTx(th))
    ensures var s' := Do(s, BeginTx(th));
            && th !in s.active && th in s'.active && s'.active == s.active[th := s'.active[th]]
            && s'.active[th].id == s.lastId + 1 && s'.order == s.order + [th]
  {
  }

  method BeginStep(log: LogWriter, ht: HashTable, txm: TxManager, ghost s: State, ghost th: Thread)
    returns (tx: Transaction)
    requires Enabled(s, BeginTx(th)) && log.Valid() && log.records == s.log && Shaped(s.log)
    requires ht.Means(s.table) && log !in ht.Repr() && txm.Valid() && Apart(txm, ht)
    requires txm.transactionId == s.lastId && Word(s.lastId + 1) && Word(|s.log| + 1)
    modifies txm, log
    ensures fresh(tx) && Shows(Do(s, BeginTx(th)), th, log, ht, tx) && txm.Valid() && Apart(txm, ht)
    ensures txm.transactionId == Do(s, BeginTx(th)).lastId && tx.id !in old(txm.ids)
    ensures txm.txList == old(txm.txList) + [tx]
  {
    hide HashTable.Means, TxManager.Valid, LogFile.AllPrintable, LogFile.FileText, Shaped;
    ghost var repr := ht.Repr();
    tx := txm.StartNewTransaction();
    assert tx !in repr;
    FirstRecord(log, tx);
  }

  /** A new transaction at the end of the list. */
  lemma AttendsNew(s: State, s': State, th: Thread, txm: TxManager, ht: HashTable, tx: Transaction,
                   list: seq<Transaction>)
    requires txm.Valid() && txm.transactionId == s'.lastId && txm.txList == list + [tx] && Apart(txm, ht)
    requires Parallel(list, s.order, s.active)
    requires th !in s.active && th in s'.active && s'.active == s.active[th := s'.active[th]]
    requires forall x | x in s.active :: s.active[x].id < tx.id
    requires s'.order == s.order + [th] && tx.id == s'.active[th].id && tx.lastLsn == s'.active[th].last
    ensures Attends(s', th, txm, ht, tx)
  {
    hide TxManager.Valid;
    forall i | 0 <= i < |s.order|
      ensures list[i].id == s'.active[s.order[i]].id && list[i].lastLsn == s'.active[s.order[i]].last
    {
      assert s.order[i] in s.order && list[i] in list;
    }
  }

  /** Writes the BEGIN record of a new transaction. */
  method FirstRecord(log: LogWriter, tx: Transaction)
    requires log.Valid() && Shaped(log.records) && Word(|log.records| + 1) && Word(tx.id) && tx.lastLsn == 0
    modifies tx, log
    ensures log.Valid() && Shaped(log.records) && tx.lastLsn == |log.records|
    ensures log.records == old(log.records) + [Begin(0, tx.id)]
  {
    hide LogFile.AllPrintable, LogFile.FileText, Shaped;
    ShapedAppend(log.records, Begin(tx.lastLsn, tx.id));
    tx.lastLsn := log.BeginLog(tx.lastLsn, tx.id);
  }

  /** Writes COMMIT. */
  method RunCommit(log: LogWriter, ht: HashTable, tx: Transaction, ghost txm: TxManager,
                   ghost s: State, ghost th: Thread)
    requires Shows(s, th, log, ht, tx) && Enabled(s, CommitTx(th)) && Word(|s.log| + 1)
    requires Attends(s, th, txm, ht, tx)
    modifies tx, log
    ensures Shows(Do(s, CommitTx(th)), th, log, ht, tx) && Attends(Do(s, CommitTx(th)), th, txm, ht, tx)
  {
    hide Transaction.Ready, Attends, Follows, TxManager.Valid, Do, Enabled;
    AttendsOthers(s, th, txm, ht, tx);
    CommitFollows(s, th);
    LogCommit(log, ht, tx, s.table);
    AttendsKept(s, Do(s, CommitTx(th)), th, txm, ht, tx);
  }

  lemma CommitFollows(s: State, th: Thread)
    requires Enabled(s, CommitTx(th))
    ensures var s' := Do(s, CommitTx(th));
            && Follows(s, s', th) && s'.active[th].last == |s.log| + 1 && s'.table == s.table
            && s'.log == s.log + [Commit(s.active[th].last, s.active[th].id)]
  {
  }

  method LogCommit(log: LogWriter, ht: HashTable, tx: Transaction, ghost t: Table)
    requires tx.Ready(log, ht, t) && Word(|log.records| + 1)
    modifies tx, log
    ensures tx.Ready(log, ht, t) && log.records == old(log.records) + [Commit(old(tx.lastLsn), tx.id)]
    ensures tx.lastLsn == |log.records|
  {
    hide HashTable.Means, LogFile.AllPrintable, LogFile.FileText, Shaped;
    ShapedAppend(log.records, Commit(tx.lastLsn, tx.id));
    tx.lastLsn := log.CommitLog(tx.lastLsn, tx.id);
  }

  /** Writes ABORT. */
  method WriteAbort(log: LogWriter, ht: HashTable, tx: Transaction, ghost s: State, ghost th: Thread)
    requires Shows(s, th, log, ht, tx) && Enabled(s, AbortTx(th)) && Word(|s.log| + 1)
    modifies tx, log
    ensures Shows(Do(s, AbortTx(th)), th, log, ht, tx)
  {
    hide HashTable.Means, LogFile.AllPrintable, LogFile.FileText, Shaped;
    ShapedAppend(log.records, Abort(tx.lastLsn, tx.id));
    tx.lastLsn := log.AbortLog(tx.lastLsn, tx.id);
  }

  /** The state after the ABORT record, as far as the objects show it. */
  lemma AbortShows(s: State, th: Thread)
    requires InStage(s, th, Working)
    ensures var s1 := Do(s, AbortTx(th));
            && th in s1.active && s1.active[th].stage == Undoing(s1.active[th].last)
            && FullyAborted(s, th) == RolledBack(s1, th)
  {
  }

  /** ABORT: its record, then the whole rollback. It always finds every record it needs. */
  method RunAbort(log: LogWriter, ht: HashTable, tx: Transaction, ghost txm: TxManager,
                  ghost s: State, ghost th: Thread)
    returns (ok: bool)
    requires Shows(s, th, log, ht, tx) && Enabled(s, AbortTx(th)) && Inv(s) && WellShaped(s)
    requires Word(|FullyAborted(s, th).log|) && Attends(s, th, txm, ht, tx)
    modifies tx, log, ht.Repr()
    ensures ok && fresh(ht.Repr() - old(ht.Repr()))
    ensures Shows(FullyAborted(s, th), th, log, ht, tx) && Attends(FullyAborted(s, th), th, txm, ht, tx)
  {
    hide Transaction.Ready, Inv, WellShaped, FullyAborted, Attends, Follows, TxManager.Valid, Do, Enabled;
    AttendsOthers(s, th, txm, ht, tx);
    AbortFollows(s, th);
    ok := AbortStep(log, ht, tx, s, th);
    AttendsKept(s, FullyAborted(s, th), th, txm, ht, tx);
  }

  method AbortStep(log: LogWriter, ht: HashTable, tx: Transaction, ghost s: State, ghost th: Thread)
    returns (ok: bool)
    requires Shows(s, th, log, ht, tx) && Enabled(s, AbortTx(th)) && Inv(s) && WellShaped(s)
    requires Word(|FullyAborted(s, th).log|)
    modifies tx, log, ht.Repr()
    ensures ok && fresh(ht.Repr() - old(ht.Repr()))
    ensures Shows(FullyAborted(s, th), th, log, ht, tx)
  {
    hide Transaction.Ready, Inv, WellShaped, RolledBack, FullyAborted;
    AbortShows(s, th);
    ghost var s1 := Do(s, AbortTx(th));
    StepKeeps(s, AbortTx(th));
    StepKeepsShape(s, AbortTx(th));
    RollbackFinishes(s1, th);
    RollbackIsOnlineWalk(s1, th);
    WriteAbort(log, ht, tx, s, th);
    ok := tx.Rollback(log, ht, s1.table);
  }

  /** The whole rollback, as far as the list shows it. */
  lemma AbortFollows(s: State, th: Thread)
    requires Inv(s) && Enabled(s, AbortTx(th))
    ensures Follows(s, FullyAborted(s, th), th)
  {
    hide Inv, RolledBack, Committed;
    AbortWithin(s, th);
    StepKeeps(s, AbortTx(th));
    var _ := RollbackScript(Aborts(s, th), th);
  }

  /** A checkpoint: the CHECK record lists the ongoing transactions, and the forked child writes the
      table as it is at that moment. */
  method RunCheckpoint(log: LogWriter, ht: HashTable, txm: TxManager, ghost s: State)
    returns (checkLsn: Lsn, snapshot: string)
    requires Enabled(s, TakeCheckpoint) && log.Valid() && log.records == s.log && Lists(txm, s)
    requires ht.Means(s.table) && log !in ht.Repr()
    requires Printable(|s.log| + 1, Check(OngoingList(s, s.order)))
    modifies log
    ensures log.Valid() && log.records == Do(s, TakeCheckpoint).log
    ensures Do(s, TakeCheckpoint).fork == Fork(checkLsn, s.table) && SnapshotOf(snapshot, s.table)
    ensures Lists(txm, Do(s, TakeCheckpoint))
  {
    hide LogWriter.Valid, Printable, SnapshotOf, HashTable.Means, Lists;
    CheckpointShows(s);
    hide Do, Enabled, OngoingList;
    var list := ListOngoing(txm, s);
    ListsSame(txm, s, Do(s, TakeCheckpoint));
    checkLsn, snapshot := CheckAndSave(log, ht, list, s.table);
  }

  lemma ListsSame(txm: TxManager, s: State, s': State)
    requires Lists(txm, s) && s'.order == s.order && s'.active == s.active && s'.lastId == s.lastId
    ensures Lists(txm, s')
  {
    hide TxManager.Valid;
  }

  /** The child's first part: its snapshot goes to the file of its CHECK record. */
  method RunFinish(disk: SnapshotDisk, checkLsn: Lsn, snapshot: string, ghost s: State)
    requires Enabled(s, FinishSnapshot) && CheckpointFiles(disk.lastLsn, disk.files, s)
    requires checkLsn == s.fork.lsn && Word(checkLsn) && SnapshotOf(snapshot, s.fork.table)
    modifies disk
    ensures CheckpointFiles(disk.lastLsn, disk.files, Do(s, FinishSnapshot))
  {
    ghost var files, last := disk.files, disk.lastLsn;
    disk.Save(checkLsn, snapshot);
    FilesMore(s, last, files, snapshot);
  }

  lemma FilesMore(s: State, lastLsn: Option<string>, files: map<string, string>, snapshot: string)
    requires Enabled(s, FinishSnapshot) && CheckpointFiles(lastLsn, files, s) && Word(s.fork.lsn)
    requires SnapshotOf(snapshot, s.fork.table)
    ensures CheckpointFiles(lastLsn, files[FileName(s.fork.lsn) := snapshot], Do(s, FinishSnapshot))
  {
    hide SnapshotOf, FileName, LastText, Saved;
    SavedMore(s.snapshots, files, s.fork.lsn, s.fork.table, snapshot);
  }

  /** The child's second part: the last-LSN file names its CHECK record. */
  method RunPublish(disk: SnapshotDisk, checkLsn: Lsn, ghost s: State)
    requires Enabled(s, PublishPointer) && Inv(s) && CheckpointFiles(disk.lastLsn, disk.files, s)
    requires checkLsn == s.fork.lsn
    modifies disk
    ensures CheckpointFiles(disk.lastLsn, disk.files, Do(s, PublishPointer))
    ensures disk.lastLsn == Some(LastText(checkLsn))
  {
    PublishShows(s);
    assert disk.lastLsn.Some? ==> |disk.lastLsn.value| == 9;
    hide SnapshotOf, FileName, LastText, Inv, Do, Enabled;
    disk.Publish(checkLsn);
    assert LastText(checkLsn) + "" == LastText(checkLsn);
  }

  lemma PublishShows(s: State)
    requires Inv(s) && Enabled(s, PublishPointer)
    ensures var s' := Do(s, PublishPointer); s'.pointer == s.fork.lsn > 0 && s'.snapshots == s.snapshots
  {
    hide Volatile, ValidLog, SerialOk, SnapshotsOk;
  }

  /** No other step touches these files. */
  lemma FilesStay(s: State, step: Step, lastLsn: Option<string>, files: map<string, string>)
    requires Enabled(s, step) && !step.FinishSnapshot? && !step.PublishPointer? && CheckpointFiles(lastLsn, files, s)
    ensures CheckpointFiles(lastLsn, files, Do(s, step))
  {
    hide SnapshotOf, FileName, LastText;
    if !step.TakeCheckpoint? && !step.Crash? {
      hide Do, Enabled;
      OthersPublishNothing(s, step);
    }
  }

  method CheckAndSave(log: LogWriter, ht: HashTable, list: seq<Ongoing>, ghost t: Table)
    returns (checkLsn: Lsn, snapshot: string)
    requires log.Valid() && ht.Means(t) && log !in ht.Repr() && Printable(|log.records| + 1, Check(list))
    modifies log
    ensures log.Valid() && log.records == old(log.records) + [Check(list)] && checkLsn == |log.records|
    ensures SnapshotOf(snapshot, t)
  {
    hide LogFile.AllPrintable, LogFile.FileText, Printable, SnapshotOf, HashTable.Means;
    checkLsn := log.CheckLog(list);
    snapshot := WriteTable(ht, t);
  }

  lemma CheckpointShows(s: State)
    requires Enabled(s, TakeCheckpoint)
    ensures Do(s, TakeCheckpoint).log == s.log + [Check(OngoingList(s, s.order))]
    ensures var s' := Do(s, TakeCheckpoint);
            && s'.fork == Fork(|s.log| + 1, s.table)
            && s'.order == s.order && s'.active == s.active && s'.lastId == s.lastId
  {
  }

  method ListOngoing(txm: TxManager, ghost s: State) returns (list: seq<Ongoing>)
    requires Lists(txm, s)
    ensures (forall th <- s.order :: th in s.active) && list == OngoingList(s, s.order)
  {
    list := txm.OngoingTransactions();
  }

  method WriteTable(ht: HashTable, ghost t: Table) returns (snapshot: string)
    requires ht.Means(t)
    ensures SnapshotOf(snapshot, t)
  {
    hide Filed, Complete, AllLinked, Keyed, LinksOf, SnapshotOf;
    snapshot := WriteSnapshot(ht);
  }

  // ---------- locks, and the end of a transaction ----------

  /** What a command does before it looks its key up. Not granted means that it waits. */
  method TakeStripe(lm: LockManager, locks: LockList, key: Key, ghost s: State, ghost th: Thread, self: Thread)
    returns (granted: bool)
    requires self == th != 0 && th in s.active && lm.Valid() && lm.state == s.locks
    requires locks.keys == s.active[th].locks
    modifies lm, lm.lockList[..], locks
    ensures lm.Valid()
    ensures granted <==> s.locks[Stripe(key)].owner == th || s.locks[Stripe(key)].owner == 0
    ensures var s' := if granted then Touch(s, th, key) else s;
            lm.state == s'.locks && locks.keys == s'.active[th].locks
  {
    hide Stripe, LockKey;
    ghost var keys := locks.keys;
    granted := lm.WLock(key, self);
    if granted {
      locks.Add(key);
    }
  }

  lemma ParallelInit(list: seq<Transaction>, order: seq<Thread>, active: map<Thread, Tx>)
    requires Parallel(list, order, active) && order != []
    ensures Parallel(list[..|order| - 1], order[..|order| - 1], active)
  {
    assert forall x <- order[..|order| - 1] :: x in order;
  }

  lemma ParallelMore(list: seq<Transaction>, order: seq<Thread>, active: map<Thread, Tx>, tx: Transaction, x: Thread)
    requires Parallel(list, order, active) && x in active && tx.id == active[x].id && tx.lastLsn == active[x].last
    ensures Parallel(list + [tx], order + [x], active)
  {
  }

  /** Taking the thread off one list and its transaction off the other keeps them parallel. */
  lemma {:induction false} StayParallel(list: seq<Transaction>, order: seq<Thread>, active: map<Thread, Tx>, th: Thread)
    requires Parallel(list, order, active) && th in active
    requires forall x | x in active && x != th :: active[x].id != active[th].id
    ensures Parallel(OthersThan(list, active[th].id), Without(order, th), active)
    decreases |order|
  {
    if order != [] {
      var n := |order| - 1;
      assert order[n] in order && list[n].id == active[order[n]].id && list[n].lastLsn == active[order[n]].last;
      ParallelInit(list, order, active);
      hide Parallel;
      StayParallel(list[..n], order[..n], active, th);
      var l, o := OthersThan(list[..n], active[th].id), Without(order[..n], th);
      if order[n] == th {
        assert l + [] == l && o + [] == o;
      } else {
        ParallelMore(l, o, active, list[n], order[n]);
      }
    }
  }

  lemma {:induction false} NotIn(order: seq<Thread>, th: Thread)
    ensures th !in Without(order, th)
    decreases |order|
  {
    if order != [] {
      NotIn(order[..|order| - 1], th);
    }
  }

  lemma ParallelElsewhere(list: seq<Transaction>, order: seq<Thread>, active: map<Thread, Tx>,
                          active': map<Thread, Tx>, th: Thread)
    requires Parallel(list, order, active) && th !in order
    requires forall x | x in active && x != th :: x in active' && active'[x] == active[x]
    ensures Parallel(list, order, active')
  {
  }

  /** The end of a transaction: every lock released, then off the list. */
  method RunEnd(lm: LockManager, locks: LockList, txm: TxManager, tx: Transaction,
                ghost s: State, ghost th: Thread, self: Thread)
    requires self == th != 0 && InStage(s, th, Releasing) && IdsOk(s) && lm.Valid() && lm.state == s.locks
    requires locks.keys == s.active[th].locks && tx.id == s.active[th].id && Lists(txm, s)
    modifies lm, lm.lockList[..], locks, txm
    ensures lm.Valid() && lm.state == Ended(s, th).locks && locks.keys == []
    ensures Lists(txm, Ended(s, th)) && tx !in txm.txList
  {
    hide Lists, IdsOk, Ended, UnlockAll;
    EndedIs(s, th);
    locks.UnlockAll(lm, self);
    LeaveList(txm, tx, s, th);
  }

  method LeaveList(txm: TxManager, tx: Transaction, ghost s: State, ghost th: Thread)
    requires th in s.active && IdsOk(s) && tx.id == s.active[th].id && Lists(txm, s)
    modifies txm
    ensures Lists(txm, Ended(s, th)) && tx !in txm.txList
  {
    hide TxManager.Valid, Ended, Without, OthersThan, Parallel;
    EndedIs(s, th);
    ghost var rest, order, active := OthersThan(txm.txList, tx.id), Without(s.order, th), s.active - {th};
    StayParallel(txm.txList, s.order, s.active, th);
    hide IdsOk;
    NotIn(s.order, th);
    ParallelElsewhere(rest, order, s.active, active, th);
    EndParallel(txm, tx, order, active);
  }

  method EndParallel(txm: TxManager, tx: Transaction, ghost order: seq<Thread>, ghost active: map<Thread, Tx>)
    requires txm.Valid() && Parallel(OthersThan(txm.txList, tx.id), order, active)
    modifies txm
    ensures txm.Valid() && Parallel(txm.txList, order, active) && txm.transactionId == old(txm.transactionId)
    ensures tx !in txm.txList
  {
    ghost var rest := OthersThan(txm.txList, tx.id);
    assert tx !in rest && forall t <- rest :: t in txm.txList by { RestIs(txm, tx); }
    hide TxManager.Valid, OthersThan;
    assert forall i | 0 <= i < |rest| :: rest[i] in rest && rest[i].lastLsn == active[order[i]].last;
    txm.EndTransaction(tx);
    assert forall i | 0 <= i < |rest| :: rest[i] in rest && rest[i].lastLsn == active[order[i]].last;
  }

  lemma RestIs(txm: TxManager, tx: Transaction)
    requires txm.Valid()
    ensures tx !in OthersThan(txm.txList, tx.id) && forall t <- OthersThan(txm.txList, tx.id) :: t in txm.txList
  {
    OthersThanKeeps(txm.txList, tx.id);
  }
}
