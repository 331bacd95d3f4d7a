/** What the invariant means for clients and for a server that has crashed. */
module ProtocolTheorems {
  import opened Table
  import opened LogRecord
  import opened LogProtocol
  import opened Coherence
  import opened Chains
  import opened RecoverySpec
  import opened RecoveryProof
  import opened RecoveryTheorems
  import opened UncleanCheckpoint
  import opened UncleanRecovery
  import opened RecoveryLinks
  import opened IntendedRecovery
  import opened Locks
  import opened Serial
  import opened Protocol
  import opened ProtocolInvariant
  import opened ProtocolProof
  import opened ProtocolSteps

  // ---------- serialisability ----------

  /** Theorem: in every run, whatever the interleaving, the replies of the committed transactions are
      those of a serial run in commit order, and when nobody is in the middle of a transaction the
      table is what that serial run leaves. */
  lemma Serialisable(states: seq<State>, steps: seq<Step>, n: nat)
    requires IsRun(states, steps) && n < |states|
    ensures FaithfulSerially(states[n].origin, states[n].history)
    ensures states[n].up && (forall th <- states[n].active :: states[n].active[th].stage.Releasing?)
            ==> states[n].table == RunSerially(states[n].origin, states[n].history)
  {
    ReachableOk(states, steps, n);
    var s := states[n];
    if s.up && (forall th <- s.active :: s.active[th].stage.Releasing?) {
      QuietIsCommitted(s);
    }
  }

  lemma QuietIsCommitted(s: State)
    requires Inv(s) && s.up && forall th <- s.active :: s.active[th].stage.Releasing?
    ensures s.table == Committed(s.epoch, s.log)
  {
    ValidIsCoherent(s.epoch, s.log);
    forall x | x in s.active ensures !Live(s.epoch, s.log, s.active[x].id) {
      assert ThreadOk(s, x);
    }
    assert forall t: TxId :: !Live(s.epoch, s.log, t);
    forall k: Key ensures Look(s.table, k) == Look(Committed(s.epoch, s.log), k) {
      assert Free(s.epoch, s.log, 0, k);
    }
    SameLookups(s.table, Committed(s.epoch, s.log));
  }

  /** The reply to a read is the committed value overlaid with the reader's own writes: no
      transaction sees an uncommitted write of another. */
  lemma NoDirtyRead(s: State, th: Thread, k: Key)
    requires Inv(s) && Enabled(s, GetKey(th, k))
    ensures var tx := s.active[th];
            var tx' := Do(s, GetKey(th, k)).active[th];
            tx'.ops == tx.ops + [GetOp(k, Look(Run(Committed(s.epoch, s.log), tx.ops), k))]
  {
    TouchKeeps(s, th, k);
    var s1 := Touch(s, th, k);
    assert ThreadOk(s1, th);
  }

  // ---------- rollback ----------

  /** Theorem: when a transaction has written its END (or its COMMIT), every key on its stripes holds
      its last committed value, whatever the other threads did in between. */
  lemma EndedIsCommitted(s: State, th: Thread, k: Key)
    requires Inv(s) && InStage(s, th, Releasing) && Owns(s.locks, th, k)
    ensures Look(s.table, k) == Look(Committed(s.epoch, s.log), k)
  {
    ValidIsCoherent(s.epoch, s.log);
    forall u: TxId | Live(s.epoch, s.log, u) ensures k !in Info(s.epoch, s.log, u).keys {
      var x :| x in s.active && s.active[x].id == u;
      assert ThreadOk(s, x) && ThreadOk(s, th);
    }
    assert Free(s.epoch, s.log, 0, k);
  }

  /** A rollback step changes no key outside its own stripes, and never the committed table. */
  lemma RollbackStaysInside(s: State, th: Thread)
    requires Inv(s) && Enabled(s, UndoOne(th))
    ensures Committed(s.epoch, Do(s, UndoOne(th)).log) == Committed(s.epoch, s.log)
    ensures forall k: Key :: !Owns(s.locks, th, k) ==> Look(Do(s, UndoOne(th)).table, k) == Look(s.table, k)
  {
    var tx := s.active[th];
    var r := At(s.log, tx.stage.next);
    RollbackFacts(s, th);
    ValidIsCoherent(s.epoch, s.log);
    if r.Begin? {
      CommittedAppend(s.epoch, s.log, End(tx.last, tx.id));
    } else if r.Update? {
      CommittedAppend(s.epoch, s.log, Clr(tx.last, tx.id, r.prev, r.key, r.after, r.before));
      var i := Info(s.epoch, s.log, tx.id);
      assert Overlaid(s.epoch, s.log, tx.id);
      assert Top(i.stack) in i.stack;
    }
  }

  /** Theorem: a rollback step always finds its record, so `kv_tx_rollback` never takes its error
      exit, and the records it has still to read get strictly older. */
  lemma RollbackProgresses(s: State, th: Thread)
    requires Inv(s) && s.up && th in s.active && s.active[th].stage.Undoing?
    ensures InRollback(s, th)
    ensures var stage := Undo(s, th).active[th].stage;
            stage == Releasing || (stage.Undoing? && stage.next < s.active[th].stage.next)
  {
    assert ThreadOk(s, th);
    RollbackFacts(s, th);
  }

  // ---------- locks ----------

  lemma LeaverOwnsNothing(s: State, th: Thread)
    requires Inv(s) && InStage(s, th, Releasing) && s.active[th].locks == []
    ensures th != 0 && forall j: Key :: !Owns(s.locks, th, j)
  {
    hide Durable, ThreadsOk, NoOrphans, IdsOk, OrderOk, OnlineLinked, Replay;
    assert th != 0 by { assert 0 !in Held(s.active); }
    forall j: Key ensures !Owns(s.locks, th, j) {
      assert Entries(Held(s.active)[th], Stripe(j)) == CountOf(s.locks[Stripe(j)], th);
    }
  }

  /** Theorem: a transaction that has left holds no stripe, so the unlock that follows a single
      command releases nobody's lock. */
  lemma LeavingFreesAll(s: State, th: Thread, k: Key)
    requires Inv(s) && Enabled(s, Leave(th))
    ensures Do(s, Leave(th)) == Leaves(s, th) && (forall j: Key :: !Owns(Leaves(s, th).locks, th, j))
    ensures Enabled(Leaves(s, th), ExtraUnlock(th, k))
    ensures Do(Leaves(s, th), ExtraUnlock(th, k)) == Leaves(s, th)
  {
    hide Inv, Without, Stripe;
    LeaverOwnsNothing(s, th);
    assert !Owns(s.locks, th, k) && UnlockKey(s.locks, k, th) == s.locks;
  }

  // ---------- the log across restarts ----------

  /** No two BEGIN records carry the same transaction id. */
  predicate BeginsOnce(log: Log) {
    forall i, j | 0 <= i < j < |log| :: log[i].Begin? && log[j].Begin? ==> log[i].tx != log[j].tx
  }

  /** The log only grows, and only a BEGIN, which comes alone, uses the next id. */
  ghost predicate Grows(s: State, s': State) {
    && s.log <= s'.log
    && (forall n | |s.log| <= n < |s'.log| :: s'.log[n].Begin? ==> n == |s.log| && s'.log[n].tx == s'.lastId)
    && s'.lastId == s.lastId + if |s'.log| > |s.log| && s'.log[|s.log|].Begin? then 1 else 0
  }

  lemma UndoGrows(s: State, th: Thread)
    requires Inv(s) && InRollback(s, th)
    ensures Grows(s, Undo(s, th))
  {
    hide Inv;
  }

  lemma WriteGrows(s: State, th: Thread, k: Key, v: Value, op: Op)
    requires th in s.active
    ensures Grows(s, Write(Touch(s, th, k), th, k, v, op))
  {
  }

  lemma RecoveryGrows(s: State)
    requires Inv(s) && CleanAt(s.epoch, s.log, s.pointer)
    ensures var z := Recover(s.log, s.pointer).log;
            s.log <= z && forall n | |s.log| <= n < |z| :: !z[n].Begin?
  {
    var list := Listed(s.log, s.pointer);
    RecoverableList(s);
    RecoverAllOk(s.epoch, s.log, s.pointer, list);
  }

  lemma LogGrows(s: State, step: Step)
    requires Inv(s) && Enabled(s, step)
    ensures Grows(s, Do(s, step))
  {
    hide Inv, Grows;
    match step
    case SetKey(th, k, v) => WriteGrows(s, th, k, v, SetOp(k, v));
    case DelKey(th, k) => DeleteGrows(s, th, k);
    case UndoOne(th) => UndoGrows(s, th);
    case TryRecover(n) => AttemptGrows(s, step);
    case Restart => RestartGrows(s, step);
    case _ => OtherGrows(s, step);
  }

  lemma DeleteGrows(s: State, th: Thread, k: Key)
    requires th in s.active
    ensures Grows(s, Deleted(s, th, k))
  {
    WriteGrows(s, th, k, ABSENT, DelOp(k, true));
  }

  lemma AttemptGrows(s: State, step: Step)
    requires Inv(s) && Enabled(s, step) && step.TryRecover?
    ensures Grows(s, Do(s, step))
  {
    hide Inv, CleanAt;
    RecoveryGrows(s);
  }

  lemma RestartGrows(s: State, step: Step)
    requires Inv(s) && Enabled(s, step) && step.Restart?
    ensures Grows(s, Do(s, step))
  {
    hide Inv, CleanAt;
    RecoveryGrows(s);
  }

  lemma OtherGrows(s: State, step: Step)
    requires Enabled(s, step) && !step.SetKey? && !step.DelKey? && !step.UndoOne?
    requires !step.TryRecover? && !step.Restart?
    ensures Grows(s, Do(s, step))
  {
    hide LockKey, UnlockKey, Without, OngoingList;
  }

  /** Theorem: in every run the log is append-only and transaction ids never repeat, not even across
      crashes and restarts. */
  lemma {:induction false} IdsNeverRepeat(states: seq<State>, steps: seq<Step>, m: nat, n: nat)
    requires IsRun(states, steps) && m <= n < |states|
    ensures states[m].log <= states[n].log && BeginsOnce(states[n].log)
    decreases n
  {
    hide Inv, Do, Enabled;
    if n > 0 {
      IdsNeverRepeat(states, steps, if m < n then m else n - 1, n - 1);
      ReachableOk(states, steps, n - 1);
      assert states[n - 1 + 1] == Do(states[n - 1], steps[n - 1]);
      LogGrows(states[n - 1], steps[n - 1]);
      BeginsOnceGrows(states[n - 1], states[n]);
    }
  }

  lemma BeginsOnceGrows(s: State, s': State)
    requires Inv(s) && BeginsOnce(s.log) && Grows(s, s')
    ensures BeginsOnce(s'.log)
  {
    forall i, j | 0 <= i < j < |s'.log| && s'.log[i].Begin? && s'.log[j].Begin?
      ensures s'.log[i].tx != s'.log[j].tx
    {
      assert s.log[..|s.log|] == s'.log[..|s.log|];
      if j < |s.log| {
        assert s'.log[i] == s.log[i] && s'.log[j] == s.log[j];
      } else {
        assert i < |s.log|;
        assert s'.log[i] == s.log[i];
        assert TxOf(s.log[i]) <= s.lastId;
      }
    }
  }

  function Begins(log: Log): nat {
    if log == [] then 0 else Begins(log[..|log| - 1]) + if log[|log| - 1].Begin? then 1 else 0
  }

  /** The BEGIN records carry the ids 1, 2, 3 and so on, in order, and `lastId` is the number of them. */
  ghost predicate CountsUp(log: Log, lastId: TxId) {
    && lastId == Begins(log)
    && forall i | 0 <= i < |log| :: log[i].Begin? ==> log[i].tx == Begins(log[..i + 1])
  }

  lemma {:induction false} BeginsMore(log: Log, ext: Log)
    requires log <= ext && forall n | |log| < n < |ext| :: !ext[n].Begin?
    ensures Begins(ext) == Begins(log) + if |ext| > |log| && ext[|log|].Begin? then 1 else 0
    decreases |ext|
  {
    if |ext| > |log| {
      BeginsMore(log, ext[..|ext| - 1]);
    } else {
      assert ext == log;
    }
  }

  lemma CountsUpGrows(s: State, s': State)
    requires CountsUp(s.log, s.lastId) && Grows(s, s')
    ensures CountsUp(s'.log, s'.lastId)
  {
    var log, ext := s.log, s'.log;
    BeginsMore(log, ext);
    forall i | 0 <= i < |ext| && ext[i].Begin? ensures ext[i].tx == Begins(ext[..i + 1]) {
      if i < |log| {
        assert ext[..i + 1] == log[..i + 1] && ext[i] == log[i];
      } else {
        assert i == |log|;
        BeginsMore(log, ext[..i + 1]);
      }
    }
  }

  /** Theorem: in every run the ids count the BEGIN records, from 1 up without a gap, across crashes and
      restarts. */
  lemma {:induction false} IdsCountUp(states: seq<State>, steps: seq<Step>, n: nat)
    requires IsRun(states, steps) && n < |states|
    ensures CountsUp(states[n].log, states[n].lastId)
    decreases n
  {
    hide Inv, Do, Enabled, Grows, CountsUp;
    if n == 0 {
      assert CountsUp([], 0) by { NothingCounts(); }
    } else {
      IdsCountUp(states, steps, n - 1);
      ReachableOk(states, steps, n - 1);
      assert states[n - 1 + 1] == Do(states[n - 1], steps[n - 1]);
      LogGrows(states[n - 1], steps[n - 1]);
      CountsUpGrows(states[n - 1], states[n]);
    }
  }

  lemma NothingCounts()
    ensures CountsUp([], 0)
  {
  }

  // ---------- links across restarts ----------

  /** Every link of the log leads strictly down, within its own transaction. */
  ghost predicate AllLinkDown(log: Log) {
    forall l | 1 <= l <= |log| :: LinksDown(log, l)
  }

  lemma WriteStays(s: State, th: Thread, k: Key, v: Value, op: Op)
    requires CanTouch(s, th, k)
    ensures var s' := Write(Touch(s, th, k), th, k, v, op);
            s'.epoch == s.epoch && s'.fork == s.fork && s'.pointer == s.pointer && s'.snapshots == s.snapshots
  {
    hide LockKey, Put;
  }

  /** Nothing but the log, the table and the transaction of `th` has changed. */
  predicate Alike(s: State, s': State, th: Thread) {
    && s'.up == s.up && s'.locks == s.locks && s'.history == s.history && s'.epoch == s.epoch
    && s'.order == s.order && s'.lastId == s.lastId
    && s'.fork == s.fork && s'.pointer == s.pointer && s'.snapshots == s.snapshots
    && th in s.active && th in s'.active && s'.active == s.active[th := s'.active[th]]
    && s'.active[th].id == s.active[th].id
  }

  lemma UndoTouches(s: State, th: Thread)
    requires InRollback(s, th)
    ensures Alike(s, Undo(s, th), th)
  {
    hide Put, Enter, Appended;
    var tx := s.active[th];
    var r := At(s.log, tx.stage.next);
    if r.Begin? {
      AppendIsAlike(s, th, End(tx.last, tx.id), s.table, Releasing);
      assert Appended(s, th, End(tx.last, tx.id)).(table := s.table) == Appended(s, th, End(tx.last, tx.id));
    } else if r.Update? {
      AppendIsAlike(s, th, Clr(tx.last, tx.id, r.prev, r.key, r.after, r.before),
                    Put(s.table, r.key, r.before), Undoing(r.prev));
    } else {
      EnterIsAlike(s, th, Undoing(PrevOf(r)));
    }
  }

  lemma AppendIsAlike(s: State, th: Thread, r: Record, table: Table, stage: Stage)
    requires th in s.active
    ensures th in Appended(s, th, r).active && Appended(s, th, r).table == s.table
    ensures Alike(s, Enter(Appended(s, th, r).(table := table), th, stage), th)
  {
  }

  lemma EnterIsAlike(s: State, th: Thread, stage: Stage)
    requires th in s.active
    ensures Alike(s, Enter(s, th, stage), th)
  {
  }

  lemma EpochStays(s: State, step: Step)
    requires Enabled(s, step) && !step.Restart?
    ensures Do(s, step).epoch == s.epoch
  {
    hide LockKey, UnlockKey, Without, OngoingList, CleanAt, Recover, CanTouch, Undo, Write;
    match step
    case SetKey(th, k, v) => WriteStays(s, th, k, v, SetOp(k, v));
    case DelKey(th, k) => WriteStays(s, th, k, ABSENT, DelOp(k, true));
    case UndoOne(th) => UndoTouches(s, th);
    case _ =>
  }

  lemma RestartLogIs(s: State)
    requires Enabled(s, Restart)
    ensures CleanAt(s.epoch, s.log, s.pointer) && Do(s, Restart).log == Recover(s.log, s.pointer).log
  {
    hide Recover, Replay, Committed, CleanAt;
  }

  lemma RestartIsValid(s: State)
    requires Inv(s) && Enabled(s, Restart)
    ensures ValidLog(s.epoch, Do(s, Restart).log)
  {
    hide Inv, Enabled, Do, ValidLog, ListOk, RecoverAll, RollsBack, CleanAt;
    RestartLogIs(s);
    RecoverableList(s);
    ValidWhenUp(s);
    RecoverAllOk(s.epoch, s.log, s.pointer, Listed(s.log, s.pointer));
  }

  lemma LinksDownStays(log: Log, ext: Log, l: Lsn)
    requires log <= ext && Has(log, l) && LinksDown(log, l)
    ensures LinksDown(ext, l)
  {
    assert At(ext, l) == At(log, l);
  }

  lemma LinksAfter(b: nat, log: Log, ext: Log)
    requires AllLinkDown(log) && log <= ext && b <= |log| && ValidLog(b, ext)
    ensures AllLinkDown(ext)
  {
    hide LinksDown, ValidLog;
    ValidIsChained(b, ext);
    forall l | 1 <= l <= |log| ensures LinksDown(ext, l) {
      LinksDownStays(log, ext, l);
    }
  }

  /** Theorem: in every run every `prev_lsn` and `undo_next_lsn` of the whole log, back to the first start
      of the server, leads strictly down to a record of the same transaction. */
  lemma {:induction false} LinksAlwaysLeadDown(states: seq<State>, steps: seq<Step>, n: nat)
    requires IsRun(states, steps) && n < |states|
    ensures AllLinkDown(states[n].log)
    decreases n
  {
    hide Inv, Do, Enabled, AllLinkDown;
    if n == 0 {
      assert AllLinkDown([]) by { NoLinks(); }
    } else {
      var s, step := states[n - 1], steps[n - 1];
      LinksAlwaysLeadDown(states, steps, n - 1);
      ReachableOk(states, steps, n - 1);
      ReachableOk(states, steps, n);
      assert states[n - 1 + 1] == Do(s, step);
      LogGrows(s, step);
      if step.Restart? {
        RestartIsValid(s);
      } else {
        EpochStays(s, step);
        ValidWhenUp(states[n]);
      }
      ValidWhenUp(s);
      LinksAfter(s.epoch, s.log, states[n].log);
    }
  }

  lemma NoLinks()
    ensures AllLinkDown([])
  {
  }

  // ---------- crashes ----------

  /** Theorem: the last-LSN file always names a complete snapshot, taken when the log ended at its CHECK
      record; and a record of the present run lists exactly the transactions then active, each with its
      newest record, and among them every unfinished one. */
  lemma PublishedSnapshotIsComplete(states: seq<State>, steps: seq<Step>, n: nat)
    requires IsRun(states, steps) && n < |states| && states[n].pointer != 0
    ensures states[n].pointer in states[n].snapshots && Has(states[n].log, states[n].pointer)
    ensures At(states[n].log, states[n].pointer).Check?
    ensures states[n].snapshots[states[n].pointer] == Replay(map[], states[n].log[..states[n].pointer])
    ensures states[n].pointer > states[n].epoch ==>
              ListsActive(states[n].epoch, states[n].log[..states[n].pointer], Listed(states[n].log, states[n].pointer))
  {
    ReachableOk(states, steps, n);
  }

  // ---------- the links that recovery writes ----------

  /** Theorem: in every state of every run, up or down, after any number of killed recoveries and whatever the
      published CHECK record lists, every record that recovery would write links as `RecoveryLinksNewest` says. */
  lemma RecoveryLinksInRuns(states: seq<State>, steps: seq<Step>, n: nat)
    requires IsRun(states, steps) && n < |states|
    ensures var s := states[n]; AllLinkedRight(s.epoch, |s.log|, s.log, Recover(s.log, s.pointer).log)
  {
    hide AllLinkedRight, RecoverAll;
    ReachableOk(states, steps, n);
    PublishedIsNewest(states[n]);
    RecoveryLinksNewest(states[n].epoch, states[n].log, states[n].pointer, Listed(states[n].log, states[n].pointer));
  }

  lemma PublishedIsNewest(s: State)
    requires Inv(s)
    ensures ValidLog(s.epoch, s.log)
    ensures ListOk(s.epoch, s.log, s.pointer, Listed(s.log, s.pointer))
            || NewestList(s.epoch, s.log, s.pointer, Listed(s.log, s.pointer))
  {
    hide Volatile, SerialOk, SnapshotsOk, ValidLog, Truthful, Info;
    if CleanAt(s.epoch, s.log, s.pointer) {
      RecoverableList(s);
    }
  }

  /** Theorem: whenever the server is up, every record of the present run but BEGIN and CHECK links to the
      newest record of its transaction. */
  lemma RunningLinksNewest(states: seq<State>, steps: seq<Step>, n: nat, l: nat)
    requires IsRun(states, steps) && n < |states| && states[n].up && states[n].epoch <= l < |states[n].log|
    ensures var r := states[n].log[l];
            r.Begin? || r.Check? || PrevOf(r) == Info(states[n].epoch, states[n].log[..l], TxOf(r)).last
  {
    ReachableOk(states, steps, n);
    hide Info;
  }

  // ---------- which transactions recovery misses ----------

  /** `t` began after position `c`. */
  predicate BeganAfter(log: Log, c: Lsn, t: TxId) {
    exists n | c <= n < |log| :: log[n].Begin? && log[n].tx == t
  }

  lemma BeganAfterIs(log: Log, c: Lsn, t: TxId, l: Lsn)
    requires c < l <= |log| && At(log, l).Begin? && At(log, l).tx == t
    ensures BeganAfter(log, c, t)
  {
    assert log[l - 1].Begin?;
  }

  /** A transaction that has begun does not begin again. */
  lemma BegunStays(b: nat, log: Log, n: nat, t: TxId)
    requires ValidLog(b, log) && b <= n <= |log| && Info(b, log[..n], t).phase != Unborn
    ensures !BeganAfter(log, n, t)
  {
    hide Info, ValidLog;
    forall m | n <= m < |log| ensures !(log[m].Begin? && log[m].tx == t) {
      NeverUnborn(b, log, n, m, t);
      assert CanAppend(b, log[..m], log[m]) by { ValidAt(b, log, m); }
    }
  }

  /** A clean and complete list misses exactly the transactions that began later. */
  lemma MissedIffLater(b: nat, log: Log, c: Lsn, t: TxId)
    requires ValidLog(b, log) && CheckpointOk(b, log, c) && CleanAt(b, log, c) && Live(b, log, t)
    ensures Missed(b, log, c, Listed(log, c), t) <==> BeganAfter(log, c, t)
  {
    hide ValidLog, Info, Truthful, ListOk, DistinctTxs;
    var list, covered := Listed(log, c), Covered(b, log, c, Listed(log, c));
    LiveNotZero(b, log, t);
    assert Info(b, log, t).phase != Unborn;
    var l := HasBegun(b, log, t);
    if l <= c {
      LiveInBetween(b, log, c, t, l);
      var e := Ongoing(t, Info(b, log[..c], t).last);
      assert e in list && EntryOk(b, log, c, e);
      assert e.tx in covered;
    } else {
      BeganAfterIs(log, c, t, l);
    }
    if t in covered {
      var e :| e in list && EntryOk(b, log, c, e) && e.tx == t;
      assert ScanStart(c, e) == c;
      BegunStays(b, log, c, t);
    }
  }

  /** At a crash a transaction is missed if and only if it began after the published CHECK record. */
  lemma MissedIffLaterAt(s: State, t: TxId)
    requires Inv(s) && CleanAt(s.epoch, s.log, s.pointer) && Live(s.epoch, s.log, t)
    ensures Missed(s.epoch, s.log, s.pointer, Listed(s.log, s.pointer), t) <==> BeganAfter(s.log, s.pointer, t)
  {
    if s.pointer == 0 {
      LiveNotZero(s.epoch, s.log, t);
      var l := HasBegun(s.epoch, s.log, t);
      BeganAfterIs(s.log, 0, t, l);
    } else {
      MissedIffLater(s.epoch, s.log, s.pointer, t);
    }
  }

  /** Theorem: after a crash any prefix of the records that recovery would write may be left, if the published
      CHECK record is clean, and a restart is possible whatever is left. */
  lemma RestartIsPossible(s: State, n: nat)
    requires Inv(s) && !s.up && CleanAt(s.epoch, s.log, s.pointer) && |s.log| <= n <= |Recover(s.log, s.pointer).log|
    ensures Enabled(s, TryRecover(n)) && Enabled(s, Restart)
    ensures var z := Do(s, TryRecover(n)); !z.up && |z.log| == n && s.log <= z.log <= Recover(s.log, s.pointer).log
    ensures Do(s, Restart).up && Do(s, Restart).log == Recover(s.log, s.pointer).log
  {
    hide ListOk, RecoverAll, RollsBack, SerialOk, SnapshotsOk, ValidLog, Replay, Committed, CleanAt;
    RecoverableList(s);
    assert ValidLog(s.epoch, s.log) by { ValidWhenUp(s); }
    RecoverAllOk(s.epoch, s.log, s.pointer, Listed(s.log, s.pointer));
    RecoverExtends(s.log, s.pointer, Listed(s.log, s.pointer));
    assert CanRedo(s) by { CanRedoIt(s); }
  }

  lemma CanRedoIt(s: State)
    requires Inv(s)
    ensures CanRedo(s)
  {
    hide Volatile, SerialOk, ValidLog;
  }

  /** Recovery started and was killed any number of times between `i` and `j`. */
  ghost predicate CrashedBetween(states: seq<State>, steps: seq<Step>, i: nat, j: nat) {
    && IsRun(states, steps) && i < j < |steps| && steps[i].Crash? && steps[j].Restart?
    && forall n | i < n < j :: steps[n].TryRecover?
  }

  /** `z` is what is left of `s` after the crash and some attempts at recovery. */
  ghost predicate Remains(s: State, z: State) {
    && z.epoch == s.epoch && z.pointer == s.pointer && !z.up
    && z.origin == s.origin && z.history == s.history
    && Committed(z.epoch, z.log) == Committed(s.epoch, s.log)
    && (CleanAt(z.epoch, z.log, z.pointer) <==> CleanAt(s.epoch, s.log, s.pointer))
    && Replay(map[], Recover(z.log, z.pointer).log) == Replay(map[], Recover(s.log, s.pointer).log)
  }

  lemma CrashRemains(s: State, step: Step)
    requires Enabled(s, step) && step.Crash?
    ensures Remains(s, Do(s, step))
  {
  }

  lemma {:induction false} AttemptsAgree(states: seq<State>, steps: seq<Step>, i: nat, j: nat, n: nat)
    requires CrashedBetween(states, steps, i, j) && i < n <= j
    ensures Remains(states[i], states[n])
    decreases n
  {
    hide Inv, Do, Enabled;
    assert states[n - 1 + 1] == Do(states[n - 1], steps[n - 1]);
    if n - 1 == i {
      CrashRemains(states[i], steps[i]);
    } else {
      ReachableOk(states, steps, n - 1);
      AttemptsAgree(states, steps, i, j, n - 1);
      AttemptAgrees(states[n - 1], steps[n - 1].n);
    }
  }

  /** The same on values: `mid` is a log left by a recovery by checkpoint `c` that was cut short. */
  lemma CutShortAgrees(b: nat, log: Log, c: Lsn, mid: Log)
    requires ValidLog(b, log) && ListOk(b, log, c, Listed(log, c)) && (c == 0 || Has(log, c))
    requires Between(log, mid, Recover(log, c).log)
    ensures Committed(b, mid) == Committed(b, log) && (CleanAt(b, mid, c) <==> CleanAt(b, log, c))
    ensures Replay(map[], Recover(mid, c).log) == Replay(map[], Recover(log, c).log)
  {
    hide Replay, Committed, Info, ListOk, CanAppend;
    var list := Listed(log, c);
    assert Listed(mid, c) == list;
    CutShort(b, log, c, list, mid);
    RollsBackKeeps(b, log, mid, Covered(b, log, c, list));
    RecoveryIsRestartable(b, log, c, list, mid);
    if c != 0 {
      assert mid[..c] == log[..c];
    }
  }

  lemma AttemptAgrees(s: State, n: nat)
    requires Inv(s) && Enabled(s, TryRecover(n))
    ensures Remains(s, Do(s, TryRecover(n)))
  {
    hide Replay, Committed, Info, ListOk, CanAppend, SerialOk, SnapshotsOk, CleanAt, Volatile;
    var z := PartlyRecovered(s, n);
    RecoverableList(s);
    RecoverExtends(s.log, s.pointer, Listed(s.log, s.pointer));
    CutShortAgrees(s.epoch, s.log, s.pointer, z.log);
  }

  /** A key that an unfinished transaction has written which began after the published CHECK record. */
  ghost predicate WrittenLate(s: State, k: Key) {
    exists t: TxId :: Live(s.epoch, s.log, t) && BeganAfter(s.log, s.pointer, t) && k in Info(s.epoch, s.log, t).keys
  }

  /** The committed table at the crash, except that keys written late keep the value they had. */
  ghost predicate Survives(s: State, rebuilt: Table) {
    forall k: Key :: Look(rebuilt, k)
                  == if WrittenLate(s, k) then Look(s.table, k) else Look(Committed(s.epoch, s.log), k)
  }

  lemma SurvivesIsRebuilt(s: State, rebuilt: Table)
    requires Inv(s) && s.up && CleanAt(s.epoch, s.log, s.pointer)
    requires RebuiltFrom(s.epoch, s.log, s.pointer, Listed(s.log, s.pointer), rebuilt)
    ensures Survives(s, rebuilt)
  {
    hide Durable, ThreadsOk, NoOrphans, Conserved, IdsOk, OrderOk, OnlineLinked, CleanAt;
    var list := Listed(s.log, s.pointer);
    forall k: Key ensures MissedKey(s.epoch, s.log, s.pointer, list, k) <==> WrittenLate(s, k) {
      forall t: TxId | Live(s.epoch, s.log, t)
        ensures Missed(s.epoch, s.log, s.pointer, list, t) <==> BeganAfter(s.log, s.pointer, t)
      {
        MissedIffLaterAt(s, t);
      }
    }
  }

  /** Main theorem: whenever the server crashes, and however often recovery itself is killed, the
      restarted server holds the committed values at the crash, except on keys written by unfinished
      transactions that began after the published CHECK record: these keep the value they had. */
  lemma CrashRecovery(states: seq<State>, steps: seq<Step>, i: nat, j: nat)
    requires CrashedBetween(states, steps, i, j)
    ensures states[j + 1].up && Survives(states[i], states[j + 1].table)
  {
    hide Survives, Remains, Do, Inv;
    var s, z := states[i], states[j];
    AttemptsAgree(states, steps, i, j, j);
    ReachableOk(states, steps, i);
    ReachableOk(states, steps, j);
    assert states[j + 1] == Do(z, Restart);
    RestartSurvives(s, z);
  }

  lemma RestartSurvives(s: State, z: State)
    requires Inv(s) && s.up && Inv(z) && Enabled(z, Restart) && Remains(s, z)
    ensures Do(z, Restart).up && Survives(s, Do(z, Restart).table)
  {
    hide Survives, Committed, Replay, Volatile, CleanAt, RebuiltFrom, ListOk, RecoverAll;
    RestartLog(z);
    RecoverableList(s);
    RecoveredTable(s.epoch, s.log, s.pointer, Listed(s.log, s.pointer));
    SurvivesIsRebuilt(s, Do(z, Restart).table);
  }

  /** When no unfinished transaction began after the published CHECK record, no commit is lost and no
      loser survives: the restarted server holds exactly what the committed transactions, run one after
      another since `origin`, leave; and the history goes on. */
  lemma CrashRecoveryIsExact(states: seq<State>, steps: seq<Step>, i: nat, j: nat)
    requires CrashedBetween(states, steps, i, j)
    requires forall t: TxId :: Live(states[i].epoch, states[i].log, t) ==>
                                 !BeganAfter(states[i].log, states[i].pointer, t)
    ensures states[j + 1].table == RunSerially(states[i].origin, states[i].history)
    ensures states[j + 1].origin == states[i].origin && states[j + 1].history == states[i].history
  {
    var s, z := states[i], states[j];
    CrashRecovery(states, steps, i, j);
    AttemptsAgree(states, steps, i, j, j);
    ReachableOk(states, steps, i);
    forall k: Key ensures Look(states[j + 1].table, k) == Look(Committed(s.epoch, s.log), k) {
      assert !WrittenLate(s, k);
    }
    SameLookups(states[j + 1].table, Committed(s.epoch, s.log));
    assert states[j + 1] == Do(z, Restart);
  }

  // ---------- crashes after an unclean checkpoint ----------

  lemma PublishedIsAccurate(s: State)
    requires Inv(s) && s.up && s.pointer > s.epoch
    ensures ValidLog(s.epoch, s.log) && OnlineLinked(s.epoch, s.log)
    ensures AccurateList(s.epoch, s.log, s.pointer, Listed(s.log, s.pointer))
  {
  }

  /** Theorem: whatever the published CHECK record of the present run lists, clean or not, recovery right
      after a crash never meets a missing record; and it yields the committed value of a key if and only
      if the key is right by the log at the crash. */
  lemma AnyCrash(states: seq<State>, steps: seq<Step>, i: nat, k: Key)
    requires IsRun(states, steps) && i < |steps| && steps[i].Crash? && states[i].pointer > states[i].epoch
    ensures Recover(states[i].log, states[i].pointer).ok && states[i].pointer <= |states[i].log|
    ensures var s := states[i];
            var rebuilt := Replay(map[], Recover(s.log, s.pointer).log);
            && LeftAt(s.epoch, s.log, s.pointer, Listed(s.log, s.pointer), s.table, k, Look(rebuilt, k))
            && (Look(rebuilt, k) == Look(Committed(s.epoch, s.log), k)
                <==> KeyIsRight(s.epoch, s.log, s.pointer, Listed(s.log, s.pointer), k))
  {
    hide LeftAt, KeyIsRight;
    var s := states[i];
    ReachableOk(states, steps, i);
    PublishedIsAccurate(s);
    RecoveredValue(s.epoch, s.log, s.pointer, Listed(s.log, s.pointer), k);
    KeyIsRightIff(s.epoch, s.log, s.pointer, Listed(s.log, s.pointer), k);
  }

  /** A published CHECK record of the present run that is clean is what the intended recovery needs. */
  lemma PublishedIsGood(s: State)
    requires Inv(s) && s.pointer > s.epoch && CleanAt(s.epoch, s.log, s.pointer)
    ensures GoodCheckpoint(s.epoch, s.log, s.pointer)
  {
    hide Volatile, SerialOk, SnapshotsOk, ValidLog, Truthful;
    var list, pre := Listed(s.log, s.pointer), s.log[..s.pointer];
    forall t: TxId | Live(s.epoch, pre, t) ensures t in Covered(s.epoch, s.log, s.pointer, list) {
      var e := Ongoing(t, Info(s.epoch, pre, t).last);
      assert e in list && EntryOk(s.epoch, s.log, s.pointer, e);
    }
  }
}
