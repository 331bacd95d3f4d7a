/** What holds in every state that the server can reach. */
module ProtocolInvariant {
  import opened Table
  import opened LogRecord
  import opened LogProtocol
  import opened Coherence
  import opened Chains
  import opened RecoverySpec
  import opened RecoveryProof
  import opened Locks
  import opened Serial
  import opened Protocol

  ghost function Held(active: map<Thread, Tx>): map<Thread, seq<Key>> {
    map th | th in active :: active[th].locks
  }

  predicate Owns(locks: LockTable, th: Thread, k: Key) {
    locks[Stripe(k)].owner == th
  }

  /** The transaction is where its records in the log say it is. */
  ghost predicate Tracks(b: nat, log: Log, tx: Tx) {
    var i := Info(b, log, tx.id);
    && tx.id != 0
    && match tx.stage
       case Working => i.phase == Running && i.last == tx.last
       case Undoing(next) =>
         && i.phase == Aborting && i.last == tx.last && Has(log, next)
         && (next == i.cursor
             || (At(log, next).Abort? && At(log, next).tx == tx.id && At(log, next).prev == i.cursor
                 && i.cursor < next))
       case Releasing => i.phase == Done && i.last == tx.last
  }

  /** Until it releases, it holds the stripes of all it has written and all it has read. */
  ghost predicate TwoPhase(b: nat, log: Log, locks: LockTable, th: Thread, tx: Tx) {
    && (!tx.stage.Releasing? ==> forall k <- Info(b, log, tx.id).keys :: Owns(locks, th, k))
    && (tx.stage.Working? ==> forall op <- tx.ops :: Owns(locks, th, op.key))
  }

  /** Run alone on the committed table, its operations get the replies they got, and leave on its
      stripes what the table holds there. */
  ghost predicate Isolated(c: Table, table: Table, locks: LockTable, th: Thread, tx: Tx) {
    tx.stage.Working? ==>
      && Faithful(c, tx.ops)
      && forall k: Key :: Owns(locks, th, k) ==> Look(Run(c, tx.ops), k) == Look(table, k)
  }

  ghost predicate ThreadOk(s: State, th: Thread)
    requires th in s.active
  {
    && Tracks(s.epoch, s.log, s.active[th])
    && TwoPhase(s.epoch, s.log, s.locks, th, s.active[th])
    && Isolated(Committed(s.epoch, s.log), s.table, s.locks, th, s.active[th])
  }

  ghost predicate ThreadsOk(s: State) {
    forall th <- s.active :: ThreadOk(s, th)
  }

  ghost predicate IdsOk(s: State) {
    && (forall x, y | x in s.active && y in s.active && x != y :: s.active[x].id != s.active[y].id)
    && (forall th <- s.active :: s.active[th].id <= s.lastId)
    && (forall r <- s.log :: TxOf(r) <= s.lastId)
  }

  /** Every transaction that the log shows unfinished belongs to a thread. */
  ghost predicate NoOrphans(s: State) {
    forall t: TxId :: Live(s.epoch, s.log, t) ==> exists th <- s.active :: s.active[th].id == t
  }

  ghost predicate OrderOk(s: State) {
    && (forall th :: th in s.order <==> th in s.active)
    && (forall i, j | 0 <= i < j < |s.order| :: s.order[i] != s.order[j])
  }

  /** The history is serial: each committed transaction's replies are those of a run of the committed
      transactions one after another in commit order, and together they built the committed table. */
  ghost predicate SerialOk(s: State) {
    && FaithfulSerially(s.origin, s.history)
    && RunSerially(s.origin, s.history) == Committed(s.epoch, s.log)
  }

  ghost predicate SnapshotsOk(s: State) {
    && (forall c <- s.snapshots :: c <= |s.log| && s.snapshots[c] == Replay(map[], s.log[..c]))
    && (s.fork.Fork? ==> s.fork.lsn <= |s.log| && s.fork.table == Replay(map[], s.log[..s.fork.lsn]))
  }

  /** The list of a CHECK record that ends `pre`: exactly the transactions then active, each with its
      newest record, and among them every unfinished one. */
  ghost predicate ListsActive(b: nat, pre: Log, list: seq<Ongoing>) {
    && DistinctTxs(list) && Complete(b, pre, list)
    && forall e <- list :: Truthful(b, pre, e) && e.last == Info(b, pre, e.tx).last
  }

  /** A published checkpoint. */
  ghost predicate CheckpointOk(b: nat, log: Log, c: Lsn) {
    && Has(log, c) && At(log, c).Check?
    && (forall e <- Listed(log, c) :: e.last <= c)
    && (CleanAt(b, log, c) ==> ListOk(b, log, c, Listed(log, c)))
    && (c > b ==> ListsActive(b, log[..c], Listed(log, c)))
  }

  ghost predicate PointerOk(s: State) {
    && (s.pointer == 0 || (s.pointer in s.snapshots && CheckpointOk(s.epoch, s.log, s.pointer)))
    && (s.fork.Fork? ==> CheckpointOk(s.epoch, s.log, s.fork.lsn))
  }

  ghost predicate Durable(s: State) {
    && ValidLog(s.epoch, s.log) && SerialOk(s) && SnapshotsOk(s) && PointerOk(s)
    && forall r <- s.log :: TxOf(r) <= s.lastId
  }

  ghost predicate Volatile(s: State) {
    && s.table == Replay(map[], s.log) && OnlineLinked(s.epoch, s.log)
    && Conserved(s.locks, Held(s.active))
    && ThreadsOk(s) && IdsOk(s) && NoOrphans(s) && OrderOk(s)
  }

  ghost predicate Inv(s: State) {
    && Durable(s)
    && (s.up ==> Volatile(s))
    && (!s.up ==> s.active == map[] && s.order == [] && s.fork == NoFork)
  }
}
