/** The running server as a state machine: client threads, two-phase locks, the log, the table,
    checkpoints, crashes and restarts. Each step is one stretch of code during which nothing else
    touches the same stripe, log position or list entry. */
module Protocol {
  import opened Table
  import opened LogRecord
  import opened LogProtocol
  import opened RecoverySpec
  import opened Locks
  import opened Serial

  /** `Undoing(next)`: inside `kv_tx_rollback`, with `next` the LSN it reads next.
      `Releasing`: COMMIT or END is written; the locks go one by one. */
  datatype Stage = Working | Undoing(next: Lsn) | Releasing

  /** A `kv_tx`; `ops` records what its client asked for and was answered. */
  datatype Tx = Tx(id: TxId, last: Lsn, locks: seq<Key>, stage: Stage, ops: seq<Op>)

  /** A forked child that is writing a snapshot file. */
  datatype Fork = NoFork | Fork(lsn: Lsn, table: Table)

  datatype State = State(
    // volatile
    up: bool,
    table: Table,
    locks: LockTable,
    active: map<Thread, Tx>,
    order: seq<Thread>,
    fork: Fork,
    // durable
    log: Log,
    lastId: TxId,
    snapshots: map<Lsn, Table>,
    pointer: Lsn,
    // history: log length at the last restart; what the committed transactions did since `origin`
    epoch: nat,
    origin: Table,
    history: seq<seq<Op>>)

  const INITIAL :=
    State(true, map[], AllUnlocked(), map[], [], NoFork, [], 0, map[], 0, 0, map[], [])

  datatype Step =
    | BeginTx(th: Thread)
    | GetKey(th: Thread, key: Key)
    | SetKey(th: Thread, key: Key, value: Value)
    | DelKey(th: Thread, key: Key)
    | CommitTx(th: Thread)
    | AbortTx(th: Thread)
    | UndoOne(th: Thread)
    | ReleaseOne(th: Thread)
    | Leave(th: Thread)
    | ExtraUnlock(th: Thread, key: Key)
    | TakeCheckpoint
    | FinishSnapshot
    | PublishPointer
    | Crash
    | TryRecover(n: nat)
    | Restart

  predicate InStage(s: State, th: Thread, stage: Stage) {
    s.up && th in s.active && s.active[th].stage == stage
  }

  /** A working transaction that gets the stripe of `k` without waiting. */
  predicate CanTouch(s: State, th: Thread, k: Key) {
    InStage(s, th, Working) && CanLock(s.locks[Stripe(k)], th)
  }

  /** The CHECK record at `c`, if it belongs to the present run, lists running transactions only.
      The program's locks do not ensure this: `UncleanCheckpoint` says what happens without it. */
  predicate CleanAt(b: nat, log: Log, c: Lsn) {
    c > b && Has(log, c) ==> forall e <- Listed(log, c) :: Info(b, log[..c], e.tx).phase == Running
  }

  predicate Enabled(s: State, step: Step) {
    match step
    case BeginTx(th) => s.up && th != 0 && th !in s.active
    case GetKey(th, k) => CanTouch(s, th, k)
    case SetKey(th, k, v) => CanTouch(s, th, k) && v != ABSENT && ' ' !in v
    case DelKey(th, k) => CanTouch(s, th, k)
    case CommitTx(th) => InStage(s, th, Working)
    case AbortTx(th) => InStage(s, th, Working)
    case UndoOne(th) => s.up && th in s.active && s.active[th].stage.Undoing? && Has(s.log, s.active[th].stage.next)
    case ReleaseOne(th) => InStage(s, th, Releasing) && s.active[th].locks != []
    case Leave(th) => InStage(s, th, Releasing) && s.active[th].locks == []
    case ExtraUnlock(th, k) => s.up && th != 0 && th !in s.active
    case TakeCheckpoint =>
      s.up && s.fork.NoFork? && forall th <- s.order :: th in s.active
    case FinishSnapshot => s.up && s.fork.Fork?
    case PublishPointer => s.up && s.fork.Fork? && s.fork.lsn in s.snapshots
    case Crash => s.up
    case TryRecover(n) =>
      !s.up && CleanAt(s.epoch, s.log, s.pointer) && |s.log| <= n <= |Recover(s.log, s.pointer).log|
    case Restart =>
      !s.up && CleanAt(s.epoch, s.log, s.pointer) && Recover(s.log, s.pointer).ok && CanRedo(s)
  }

  function With(s: State, th: Thread, tx: Tx): State {
    s.(active := s.active[th := tx])
  }

  /** Takes the stripe of `k` and notes it in the lock list. */
  function Touch(s: State, th: Thread, k: Key): State
    requires th in s.active
  {
    var tx := s.active[th];
    With(s.(locks := LockKey(s.locks, k, th)), th, tx.(locks := tx.locks + [k]))
  }

  /** Appends a record of `th`'s transaction and makes it the transaction's last. */
  function Appended(s: State, th: Thread, r: Record): State
    requires th in s.active
  {
    With(s.(log := s.log + [r]), th, s.active[th].(last := |s.log| + 1))
  }

  function Note(s: State, th: Thread, op: Op): State
    requires th in s.active
  {
    With(s, th, s.active[th].(ops := s.active[th].ops + [op]))
  }

  function Enter(s: State, th: Thread, stage: Stage): State
    requires th in s.active
  {
    With(s, th, s.active[th].(stage := stage))
  }

  /** Logs and makes one change to a key whose stripe the thread owns. */
  function Write(s: State, th: Thread, k: Key, v: Value, op: Op): State
    requires th in s.active
  {
    var tx := s.active[th];
    var logged := Appended(s, th, Update(tx.last, tx.id, k, Look(s.table, k), v));
    Note(logged.(table := Put(s.table, k, v)), th, op)
  }

  function Undo(s: State, th: Thread): State
    requires th in s.active && s.active[th].stage.Undoing? && Has(s.log, s.active[th].stage.next)
  {
    var tx := s.active[th];
    var r := At(s.log, tx.stage.next);
    if r.Begin? then Enter(Appended(s, th, End(tx.last, tx.id)), th, Releasing)
    else if r.Update? then
      var undone := Appended(s, th, Clr(tx.last, tx.id, r.prev, r.key, r.after, r.before));
      Enter(undone.(table := Put(s.table, r.key, r.before)), th, Undoing(r.prev))
    else Enter(s, th, Undoing(PrevOf(r)))
  }

  function OngoingList(s: State, order: seq<Thread>): (list: seq<Ongoing>)
    requires forall th <- order :: th in s.active
    ensures |list| == |order|
    ensures forall i | 0 <= i < |order| :: list[i] == Ongoing(s.active[order[i]].id, s.active[order[i]].last)
  {
    if order == [] then []
    else
      var n := |order| - 1;
      assert order[n] in order;
      assert forall th <- order[..n] :: th in order;
      OngoingList(s, order[..n]) + [Ongoing(s.active[order[n]].id, s.active[order[n]].last)]
  }

  function Without(order: seq<Thread>, th: Thread): seq<Thread> {
    if order == [] then []
    else
      var n := |order| - 1;
      Without(order[..n], th) + if order[n] == th then [] else [order[n]]
  }

  predicate CanRedo(s: State) {
    s.pointer == 0 || (s.pointer in s.snapshots && s.pointer <= |s.log|)
  }

  /** `kv_recovery_redo`: load the snapshot that the last-LSN file names, then redo what follows. */
  function RedoFromSnapshot(s: State, log: Log): Table
    requires CanRedo(s) && |s.log| <= |log|
  {
    if s.pointer == 0 then Replay(map[], log) else Replay(s.snapshots[s.pointer], log[s.pointer..])
  }

  function Restarted(s: State): State
    requires !s.up && CanRedo(s)
  {
    RecoverExtends(s.log, s.pointer, Listed(s.log, s.pointer));
    var log := Recover(s.log, s.pointer).log;
    var t := RedoFromSnapshot(s, log);
    var same := t == Committed(s.epoch, s.log);
    s.(up := true, table := t, locks := AllUnlocked(), log := log, epoch := |log|,
       origin := if same then s.origin else t, history := if same then s.history else [])
  }

  function Began(s: State, th: Thread): State {
    var id := s.lastId + 1;
    With(s.(log := s.log + [Begin(0, id)], lastId := id, order := s.order + [th]),
         th, Tx(id, |s.log| + 1, [], Working, []))
  }

  function Got(s: State, th: Thread, k: Key): State
    requires th in s.active
  {
    Note(Touch(s, th, k), th, GetOp(k, Look(s.table, k)))
  }

  function Deleted(s: State, th: Thread, k: Key): State
    requires th in s.active
  {
    if Look(s.table, k) == ABSENT then Note(Touch(s, th, k), th, DelOp(k, false))
    else Write(Touch(s, th, k), th, k, ABSENT, DelOp(k, true))
  }

  function Commits(s: State, th: Thread): State
    requires th in s.active
  {
    var tx := s.active[th];
    Enter(Appended(s.(history := s.history + [tx.ops]), th, Commit(tx.last, tx.id)), th, Releasing)
  }

  function Aborts(s: State, th: Thread): State
    requires th in s.active
  {
    var tx := s.active[th];
    Enter(Appended(s, th, Abort(tx.last, tx.id)), th, Undoing(|s.log| + 1))
  }

  function Releases(s: State, th: Thread): State
    requires th in s.active && s.active[th].locks != []
  {
    var tx := s.active[th];
    var n := |tx.locks| - 1;
    With(s.(locks := UnlockKey(s.locks, tx.locks[n], th)), th, tx.(locks := tx.locks[..n]))
  }

  function Leaves(s: State, th: Thread): State {
    s.(active := s.active - {th}, order := Without(s.order, th))
  }

  function Checkpointed(s: State): State
    requires forall th <- s.order :: th in s.active
  {
    s.(log := s.log + [Check(OngoingList(s, s.order))], fork := Fork(|s.log| + 1, s.table))
  }

  function Crashed(s: State): State {
    s.(up := false, table := map[], locks := AllUnlocked(), active := map[], order := [], fork := NoFork)
  }

  function PartlyRecovered(s: State, n: nat): State
    requires n <= |Recover(s.log, s.pointer).log|
  {
    s.(log := Recover(s.log, s.pointer).log[..n])
  }

  function Do(s: State, step: Step): State
    requires Enabled(s, step)
  {
    match step
    case BeginTx(th) => Began(s, th)
    case GetKey(th, k) => Got(s, th, k)
    case SetKey(th, k, v) => Write(Touch(s, th, k), th, k, v, SetOp(k, v))
    case DelKey(th, k) => Deleted(s, th, k)
    case CommitTx(th) => Commits(s, th)
    case AbortTx(th) => Aborts(s, th)
    case UndoOne(th) => Undo(s, th)
    case ReleaseOne(th) => Releases(s, th)
    case Leave(th) => Leaves(s, th)
    case ExtraUnlock(th, k) => s.(locks := UnlockKey(s.locks, k, th))
    case TakeCheckpoint => Checkpointed(s)
    case FinishSnapshot => s.(snapshots := s.snapshots[s.fork.lsn := s.fork.table])
    case PublishPointer => s.(pointer := s.fork.lsn, fork := NoFork)
    case Crash => Crashed(s)
    case TryRecover(n) => PartlyRecovered(s, n)
    case Restart => Restarted(s)
  }

  /** A run: any steps of any threads, in any order, from the first start on. */
  ghost predicate IsRun(states: seq<State>, steps: seq<Step>) {
    && |states| == |steps| + 1
    && states[0] == INITIAL
    && forall i | 0 <= i < |steps| :: Enabled(states[i], steps[i]) && states[i + 1] == Do(states[i], steps[i])
  }
}
