/** The protocol against the program's own loops: rolling back and starting the server on its files. */
module ServerStart {
  import opened Table
  import opened Utils
  import opened LogRecord
  import opened RecoverySpec
  import opened LogProtocol
  import opened RecoveryTheorems
  import opened LogShape
  import opened Locks
  import opened Serial
  import opened Protocol
  import opened ProtocolInvariant
  import opened ProtocolProof
  import opened ProtocolSteps
  import opened ProtocolTheorems
  import LogFile
  import opened LogCodec
  import opened Snapshot
  import opened SnapshotFiles
  import opened KvHash
  import opened KvRecovery
  import opened UncleanRecovery
  import opened PlainValues

  // ---------- the shape of every log ----------

  predicate LastsInside(s: State) {
    forall th <- s.active :: 0 < s.active[th].last <= |s.log|
  }

  predicate WellShaped(s: State) {
    Shaped(s.log) && LastsInside(s)
  }

  /** The log grows by one record or none, and the transactions' last LSNs stay inside it. */
  ghost predicate Adds(s: State, s': State) {
    && (s'.log == s.log
        || (|s'.log| == |s.log| + 1 && s'.log[..|s.log|] == s.log
            && PointsBack(s'.log[|s.log|], |s'.log|) && NotIdle(s'.log[|s.log|])))
    && LastsInside(s')
  }

  lemma AddsKeeps(s: State, s': State)
    requires WellShaped(s) && Adds(s, s')
    ensures WellShaped(s')
  {
    hide PointsBack, NotIdle, LastsInside, Shaped;
    if s'.log != s.log {
      var r := s'.log[|s.log|];
      assert s'.log == s.log + [r];
      ShapedAppend(s.log, r);
    }
  }

  lemma WriteAdds(s: State, th: Thread, k: Key, v: Value, op: Op)
    requires LastsInside(s) && th in s.active && (v != ABSENT || Look(s.table, k) != ABSENT)
    ensures Adds(s, Write(Touch(s, th, k), th, k, v, op))
  {
    hide LockKey, Put;
  }

  lemma LastInside(s: State, th: Thread)
    requires LastsInside(s) && th in s.active
    ensures s.active[th].last <= |s.log|
  {
  }

  lemma AppendAdds(s: State, s': State, th: Thread, r: Record)
    requires LastsInside(s) && s'.log == s.log + [r] && PointsBack(r, |s.log| + 1) && NotIdle(r)
    requires th in s'.active && s'.active == s.active[th := s'.active[th]] && 0 < s'.active[th].last <= |s'.log|
    ensures Adds(s, s')
  {
    hide PointsBack, NotIdle;
  }

  /** One record more, and perhaps another table. */
  lemma Entered(s: State, th: Thread, r: Record, table: Table, stage: Stage)
    requires th in s.active
    ensures th in Appended(s, th, r).active && Appended(s, th, r).table == s.table
    ensures var s' := Enter(Appended(s, th, r).(table := table), th, stage);
            && s'.log == s.log + [r] && th in s'.active && s'.active == s.active[th := s'.active[th]]
            && s'.active[th].last == |s.log| + 1
  {
  }

  lemma SkipAdds(s: State, th: Thread, stage: Stage)
    requires LastsInside(s) && th in s.active
    ensures Adds(s, Enter(s, th, stage))
  {
  }

  lemma UndoAdds(s: State, th: Thread)
    requires WellShaped(s) && th in s.active && s.active[th].stage.Undoing? && Has(s.log, s.active[th].stage.next)
    ensures Adds(s, Undo(s, th))
  {
    hide Put, Shaped, LastsInside, Adds, Enter, Appended;
    assert s.active[th].last <= |s.log| by { LastInside(s, th); }
    var tx := s.active[th];
    var r, s' := At(s.log, tx.stage.next), Undo(s, th);
    ShapedAt(s.log, tx.stage.next);
    if r.Begin? {
      Entered(s, th, End(tx.last, tx.id), s.table, Releasing);
      assert Appended(s, th, End(tx.last, tx.id)).(table := s.table) == Appended(s, th, End(tx.last, tx.id));
      AppendAdds(s, s', th, End(tx.last, tx.id));
    } else if r.Update? {
      Entered(s, th, Clr(tx.last, tx.id, r.prev, r.key, r.after, r.before),
              Put(s.table, r.key, r.before), Undoing(r.prev));
      AppendAdds(s, s', th, Clr(tx.last, tx.id, r.prev, r.key, r.after, r.before));
    } else {
      SkipAdds(s, th, Undoing(PrevOf(r)));
    }
  }

  lemma CheckpointAdds(s: State)
    requires LastsInside(s) && forall th <- s.order :: th in s.active
    ensures Adds(s, Checkpointed(s))
  {
    var list := OngoingList(s, s.order);
    forall e | e in list ensures 0 < e.last <= |s.log| {
      var i :| 0 <= i < |list| && list[i] == e;
      assert s.order[i] in s.order;
    }
  }

  lemma OtherAdds(s: State, step: Step)
    requires LastsInside(s) && Enabled(s, step)
    requires !step.SetKey? && !step.DelKey? && !step.UndoOne? && !step.TakeCheckpoint?
    requires !step.TryRecover? && !step.Restart?
    ensures Adds(s, Do(s, step))
  {
    hide LockKey, UnlockKey, Without, OngoingList;
  }

  lemma RecoveryKeepsShape(s: State, step: Step)
    requires WellShaped(s) && Enabled(s, step) && (step.TryRecover? || step.Restart?) && s.active == map[]
    ensures WellShaped(Do(s, step))
  {
    hide Shaped, Recover, CleanAt;
    RecoverShaped(s.log, s.pointer);
    if step.TryRecover? {
      ShapedPrefix(Recover(s.log, s.pointer).log, step.n);
    }
  }

  lemma StepKeepsShape(s: State, step: Step)
    requires WellShaped(s) && Enabled(s, step) && (!s.up ==> s.active == map[])
    ensures WellShaped(Do(s, step))
  {
    hide WellShaped, Adds;
    assert LastsInside(s) by { ShapeParts(s); }
    match step
    case SetKey(th, k, v) => WriteAdds(s, th, k, v, SetOp(k, v)); AddsKeeps(s, Do(s, step));
    case DelKey(th, k) =>
      if Look(s.table, k) != ABSENT {
        WriteAdds(s, th, k, ABSENT, DelOp(k, true));
      } else {
        NoWriteAdds(s, th, k);
      }
      AddsKeeps(s, Do(s, step));
    case UndoOne(th) => UndoAdds(s, th); AddsKeeps(s, Do(s, step));
    case TakeCheckpoint => CheckpointAdds(s); AddsKeeps(s, Do(s, step));
    case TryRecover(n) => RecoveryKeepsShape(s, step);
    case Restart => RecoveryKeepsShape(s, step);
    case _ => OtherAdds(s, step); AddsKeeps(s, Do(s, step));
  }

  lemma ShapeParts(s: State)
    requires WellShaped(s)
    ensures LastsInside(s)
  {
  }

  lemma NoWriteAdds(s: State, th: Thread, k: Key)
    requires LastsInside(s) && th in s.active
    ensures Adds(s, Note(Touch(s, th, k), th, DelOp(k, false)))
  {
    hide LockKey;
  }

  /** Theorem: in every run, links of the whole log, back to the first start of the server, lead
      strictly down, so the loops over the file end; and every logged change changes something. */
  lemma {:induction false} ReachableIsShaped(states: seq<State>, steps: seq<Step>, n: nat)
    requires IsRun(states, steps) && n < |states|
    ensures WellShaped(states[n])
    decreases n
  {
    hide WellShaped, Do, Enabled, Inv;
    if n == 0 {
      InitialShape();
    } else {
      ReachableIsShaped(states, steps, n - 1);
      ReachableOk(states, steps, n - 1);
      assert states[n - 1 + 1] == Do(states[n - 1], steps[n - 1]);
      DownIsEmpty(states[n - 1]);
      StepKeepsShape(states[n - 1], steps[n - 1]);
    }
  }

  lemma InitialShape()
    ensures WellShaped(INITIAL)
  {
  }

  lemma DownIsEmpty(s: State)
    requires Inv(s)
    ensures !s.up ==> s.active == map[]
  {
  }

  // ---------- rollback step by step ----------

  /** The rollback steps of `th`, one after another until its END is written. */
  function RolledBack(s: State, th: Thread): (s': State)
    requires th in s.active && s.active[th].stage.Undoing?
    ensures th in s'.active
    decreases s.active[th].stage.next
  {
    var next := s.active[th].stage.next;
    if !Has(s.log, next) then s
    else
      var s' := Undo(s, th);
      if s'.active[th].stage.Undoing? && s'.active[th].stage.next < next then RolledBack(s', th) else s'
  }

  /** `s'` is `s` with the log that `walk` gives; its table is what redo makes of the new records. */
  ghost predicate Walked(s: State, s': State, walk: Outcome) {
    && s'.log == walk.log && s.log <= s'.log
    && s'.table == Replay(s.table, s'.log[|s.log|..])
  }

  /** Theorem: the rollback steps of the protocol write what the loop of `kv_tx_rollback` writes, and
      their table is what redo makes of it. */
  lemma {:induction false} RollbackIsOnlineWalk(s: State, th: Thread)
    requires WellShaped(s) && th in s.active && s.active[th].stage.Undoing?
    ensures Walked(s, RolledBack(s, th), WalkOf(s, th))
    ensures WalkOf(s, th).ok <==> RolledBack(s, th).active[th].stage == Releasing
    ensures RolledBack(s, th).active[th].id == s.active[th].id
    ensures WalkOf(s, th).ok ==> RolledBack(s, th).active[th].last == |RolledBack(s, th).log|
    decreases s.active[th].stage.next
  {
    hide Replay, OnlineWalk, Undo, WellShaped;
    var next := s.active[th].stage.next;
    UndoTurn(s, th);
    if Has(s.log, next) {
      UndoKeepsShape(s, th);
      UndoIsReplay(s, th);
      if !At(s.log, next).Begin? {
        var s' := Undo(s, th);
        RollbackIsOnlineWalk(s', th);
        ReplayMore(s.table, s.log, s'.log, RolledBack(s', th).log);
      }
    } else {
      ReplayNothing(s.table, s.log[|s.log|..]);
    }
  }

  /** The walk that the rollback of `th` has still to make. */
  function WalkOf(s: State, th: Thread): Outcome
    requires th in s.active && s.active[th].stage.Undoing?
  {
    OnlineWalk(s.log, s.active[th].stage.next, s.active[th].last, s.active[th].id)
  }

  /** One step against one turn of the walk. */
  lemma UndoTurn(s: State, th: Thread)
    requires WellShaped(s) && th in s.active && s.active[th].stage.Undoing?
    ensures var next := s.active[th].stage.next;
            if !Has(s.log, next) then WalkOf(s, th) == Outcome(s.log, false)
            else
              var s' := Undo(s, th);
              th in s'.active &&
              s'.active[th].id == s.active[th].id &&
              if At(s.log, next).Begin? then
                && WalkOf(s, th) == Outcome(s'.log, true) && s'.active[th].stage == Releasing
                && s'.active[th].last == |s'.log|
              else
                && s'.active[th].stage.Undoing? && s'.active[th].stage.next < next
                && WalkOf(s', th) == WalkOf(s, th)
  {
    hide Shaped, OnlineWalk, Put;
    var tx := s.active[th];
    OnlineTurn(s.log, tx.stage.next, tx.last, tx.id);
    if Has(s.log, tx.stage.next) {
      ShapedAt(s.log, tx.stage.next);
    }
  }

  /** Theorem: in a reachable state the rollback runs through to its END. */
  lemma {:induction false} RollbackFinishes(s: State, th: Thread)
    requires Inv(s) && s.up && th in s.active && s.active[th].stage.Undoing?
    ensures RolledBack(s, th).active[th].stage == Releasing && Inv(RolledBack(s, th))
    decreases s.active[th].stage.next
  {
    hide Inv, Undo;
    RollbackProgresses(s, th);
    StepKeeps(s, UndoOne(th));
    var s' := Undo(s, th);
    UndoTouches(s, th);
    if s'.active[th].stage.Undoing? {
      RollbackFinishes(s', th);
    }
  }

  lemma UndoKeepsShape(s: State, th: Thread)
    requires WellShaped(s) && th in s.active && s.active[th].stage.Undoing? && Has(s.log, s.active[th].stage.next)
    ensures WellShaped(Undo(s, th))
  {
    UndoAdds(s, th);
    AddsKeeps(s, Undo(s, th));
  }

  lemma UndoIsReplay(s: State, th: Thread)
    requires th in s.active && s.active[th].stage.Undoing? && Has(s.log, s.active[th].stage.next)
    ensures s.log <= Undo(s, th).log
    ensures Undo(s, th).table == Replay(s.table, Undo(s, th).log[|s.log|..])
  {
    var tx := s.active[th];
    var r := At(s.log, tx.stage.next);
    if r.Begin? {
      ReplayLast(s.table, s.log, End(tx.last, tx.id));
    } else if r.Update? {
      ReplayLast(s.table, s.log, Clr(tx.last, tx.id, r.prev, r.key, r.after, r.before));
    } else {
      ReplayNothing(s.table, s.log[|s.log|..]);
    }
  }

  lemma ReplayLast(t: Table, log: Log, r: Record)
    ensures log <= log + [r] && Replay(t, (log + [r])[|log|..]) == Redo(t, r)
  {
    assert (log + [r])[|log|..] == [r];
    ReplayOne(t, r);
  }

  lemma ReplayMore(t: Table, a: Log, b: Log, c: Log)
    requires a <= b <= c
    ensures Replay(t, c[|a|..]) == Replay(Replay(t, b[|a|..]), c[|b|..])
  {
    ReplaySplit(t, b[|a|..], c[|b|..]);
    assert c[|a|..] == b[|a|..] + c[|b|..];
  }

  // ---------- starting the server ----------

  /** The snapshot files and the last-LSN file are those of state `s`. */
  ghost predicate CheckpointFiles(lastLsn: Option<string>, files: map<string, string>, s: State) {
    && lastLsn == (if s.pointer == 0 then None else Some(LastText(s.pointer)))
    && Saved(s.snapshots, files)
  }

  /** What a start finds on disk: the log, and the files of the checkpoints. */
  ghost predicate OnDisk(s: State, text: string, lastLsn: Option<string>, files: map<string, string>) {
    LogFile.AllPrintable(s.log) && text == LogFile.FileText(s.log) && CanRedo(s) && CheckpointFiles(lastLsn, files, s)
  }

  /** The table that redo starts from. */
  function Base(s: State): Table
    requires CanRedo(s)
  {
    if s.pointer == 0 then map[] else s.snapshots[s.pointer]
  }

  lemma RestartIs(s: State)
    requires Enabled(s, Restart)
    ensures var o := Recover(s.log, s.pointer);
            && o.ok && s.log <= o.log && s.pointer <= |o.log|
            && Do(s, Restart).log == o.log && Do(s, Restart).table == Replay(Base(s), o.log[s.pointer..])
  {
    hide CleanAt, RecoverAll, Replay, Committed;
    RecoverExtends(s.log, s.pointer, Listed(s.log, s.pointer));
    var log := Recover(s.log, s.pointer).log;
    assert s.pointer == 0 ==> log[s.pointer..] == log;
  }

  /** The snapshot of a run can be reloaded, and what the loops need holds of its log. */
  lemma Startable(states: seq<State>, steps: seq<Step>, j: nat, text: string, lastLsn: Option<string>,
                  files: map<string, string>)
    requires IsRun(states, steps) && j < |states| && OnDisk(states[j], text, lastLsn, files)
    ensures Shaped(states[j].log) && CanRedo(states[j]) && states[j].pointer <= |states[j].log|
    ensures LeftBehind(lastLsn, files, states[j].pointer, Base(states[j])) && Storable(Base(states[j]))
  {
    hide LogFile.AllPrintable, LogFile.FileText, Shaped, SnapshotOf, LastText, FileName;
    ReachableIsShaped(states, steps, j);
    if states[j].pointer != 0 {
      SnapshotIsStorable(states, steps, j, states[j].pointer);
    }
  }

  /** The loops of a start on the files of any state of a run. */
  method StartOn(text: string, disk: SnapshotDisk, ghost states: seq<State>, ghost steps: seq<Step>, ghost j: nat)
    returns (log: LogWriter, ht: HashTable, ok: bool)
    requires IsRun(states, steps) && j < |states| && OnDisk(states[j], text, disk.lastLsn, disk.files)
    requires Word(|Recover(states[j].log, states[j].pointer).log|)
    ensures log.Readable() && (log.Valid() <==> |log.records| != 1) && fresh(log) && fresh(ht.Repr())
    ensures Outcome(log.records, ok) == Recover(states[j].log, states[j].pointer)
    ensures CanRedo(states[j]) && states[j].pointer <= |states[j].log| <= |log.records|
    ensures ok ==> ht.Means(Replay(Base(states[j]), log.records[states[j].pointer..]))
  {
    Startable(states, steps, j, text, disk.lastLsn, disk.files);
    hide Shaped, LeftBehind, Storable, Recover, Replay, HashTable.Means, LogFile.AllPrintable, LogFile.FileText;
    log, ht, ok := StartServer(text, disk, states[j].log, states[j].pointer, Base(states[j]));
  }

  /** Theorem: started on the files of a crashed server, the program's loops end in the log and the
      table of the protocol's restart step. Only the LSN counter is wrong, and only when the file has
      exactly one line. */
  method Start(text: string, disk: SnapshotDisk, ghost states: seq<State>, ghost steps: seq<Step>, ghost j: nat)
    returns (log: LogWriter, ht: HashTable, ok: bool)
    requires IsRun(states, steps) && j < |steps| && steps[j].Restart?
    requires OnDisk(states[j], text, disk.lastLsn, disk.files)
    requires Word(|Recover(states[j].log, states[j].pointer).log|)
    ensures ok && log.Readable() && (log.Valid() <==> |log.records| != 1) && fresh(log) && fresh(ht.Repr())
    ensures log.records == states[j + 1].log && ht.Means(states[j + 1].table)
  {
    hide OnDisk, Enabled, Do, Recover, Replay, HashTable.Means, LogWriter.Readable, LogWriter.Valid;
    assert Enabled(states[j], Restart) && states[j + 1] == Do(states[j], Restart);
    RestartIs(states[j]);
    log, ht, ok := StartOn(text, disk, states, steps, j);
  }

  /** Main theorem, end to end: whatever the clients of a run did up to the crash at step `i`, and
      however many attempts at recovery were killed up to step `j`, the program's own loops, started on
      the log text and the checkpoint files that are left, fill the hash table with the committed values
      at the crash, except that keys written by unfinished transactions that began after the published
      CHECK record keep the value they had; and the log file goes on from there. */
  method StartAfterCrash(text: string, disk: SnapshotDisk,
                         ghost states: seq<State>, ghost steps: seq<Step>, ghost i: nat, ghost j: nat)
    returns (log: LogWriter, ht: HashTable, ok: bool)
    requires CrashedBetween(states, steps, i, j) && OnDisk(states[j], text, disk.lastLsn, disk.files)
    requires Word(|Recover(states[j].log, states[j].pointer).log|)
    ensures ok && log.records == states[j + 1].log && ht.Means(states[j + 1].table)
    ensures log.Readable() && (log.Valid() <==> |log.records| != 1)
    ensures Survives(states[i], states[j + 1].table)
  {
    hide OnDisk, Survives, Do, Enabled, Recover, HashTable.Means, LogWriter.Readable, LogWriter.Valid;
    CrashRecovery(states, steps, i, j);
    log, ht, ok := Start(text, disk, states, steps, j);
  }

  /** The same right after any crash, whatever the published CHECK record of the run lists, clean or not:
      the loops never meet a missing record, and a key gets its committed value if and only if it is
      right by the log at the crash. */
  method StartAfterAnyCrash(text: string, disk: SnapshotDisk,
                            ghost states: seq<State>, ghost steps: seq<Step>, ghost i: nat)
    returns (log: LogWriter, ht: HashTable, ok: bool, ghost rebuilt: Table)
    requires IsRun(states, steps) && i < |steps| && steps[i].Crash? && states[i].pointer > states[i].epoch
    requires OnDisk(states[i], text, disk.lastLsn, disk.files)
    requires Word(|Recover(states[i].log, states[i].pointer).log|)
    ensures ok && ht.Means(rebuilt) && log.Readable() && (log.Valid() <==> |log.records| != 1)
    ensures states[i].pointer <= |states[i].log| && forall k: Key ::
              var s := states[i];
              && LeftAt(s.epoch, s.log, s.pointer, Listed(s.log, s.pointer), s.table, k, Look(rebuilt, k))
              && (Look(rebuilt, k) == Look(Committed(s.epoch, s.log), k)
                  <==> KeyIsRight(s.epoch, s.log, s.pointer, Listed(s.log, s.pointer), k))
  {
    hide LeftAt, KeyIsRight, Do, Enabled, Recover, Replay, HashTable.Means, LogWriter.Readable, LogWriter.Valid;
    hide OnDisk;
    ghost var s := states[i];
    ghost var c := s.pointer;
    rebuilt := Replay(map[], Recover(s.log, c).log);
    ReachableOk(states, steps, i);
    RedoIsWhole(s);
    forall k: Key
      ensures LeftAt(s.epoch, s.log, c, Listed(s.log, c), s.table, k, Look(rebuilt, k))
      ensures Look(rebuilt, k) == Look(Committed(s.epoch, s.log), k)
              <==> KeyIsRight(s.epoch, s.log, c, Listed(s.log, c), k)
    {
      AnyCrash(states, steps, i, k);
    }
    AnyCrash(states, steps, i, "");
    log, ht, ok := StartOn(text, disk, states, steps, i);
  }

  /** Redo from the published snapshot is redo of the whole recovered log. */
  lemma RedoIsWhole(s: State)
    requires Inv(s) && s.pointer != 0
    ensures CanRedo(s) && s.pointer <= |s.log| <= |Recover(s.log, s.pointer).log|
    ensures Replay(Base(s), Recover(s.log, s.pointer).log[s.pointer..])
         == Replay(map[], Recover(s.log, s.pointer).log)
  {
    hide Volatile, SerialOk, CheckpointOk, Replay, RecoverAll;
    var log := Recover(s.log, s.pointer).log;
    RecoverExtends(s.log, s.pointer, Listed(s.log, s.pointer));
    CheckpointIsTransparent(s.log, log, s.pointer);
  }
}
