/** No value that a client can set has a blank in it, and blanks are what the snapshot file cannot carry:
    in every run all values in the log, in the table and in the snapshots are free of them. */
module PlainValues {
  import opened Table
  import opened LogRecord
  import opened LogProtocol
  import opened RecoverySpec
  import opened Locks
  import opened Serial
  import opened Protocol
  import opened ProtocolInvariant
  import opened ProtocolSteps
  import opened ProtocolTheorems
  import opened LogCodec
  import LogFile
  import opened Snapshot

  predicate Plain(r: Record) {
    r.Update? || r.Clr? ==> ' ' !in r.before && ' ' !in r.after
  }

  predicate AllPlain(log: Log) {
    forall r <- log :: Plain(r)
  }

  predicate PlainTable(t: Table) {
    forall k <- t :: ' ' !in t[k]
  }

  lemma {:induction false} ReplayIsPlain(log: Log)
    requires AllPlain(log)
    ensures PlainTable(Replay(map[], log))
    decreases |log|
  {
    if log != [] {
      assert log[|log| - 1] in log;
      ReplayIsPlain(log[..|log| - 1]);
    }
  }

  // ---------- recovery ----------

  lemma {:induction false} WalkIsPlain(log: Log, cur: Lsn, last: Lsn, t: TxId)
    requires AllPlain(log)
    ensures AllPlain(UndoWalk(log, cur, last, t).log)
    decreases cur
  {
    if Has(log, cur) {
      var r := At(log, cur);
      assert r in log;
      if !r.Begin? && PrevOf(r) < cur {
        if r.Update? {
          WalkIsPlain(log + [Clr(last, t, r.prev, r.key, r.after, r.before)], r.prev, |log| + 1, t);
        } else {
          WalkIsPlain(log, PrevOf(r), last, t);
        }
      }
    }
  }

  lemma RecoverTxIsPlain(log: Log, c: Lsn, e: Ongoing)
    requires AllPlain(log)
    ensures AllPlain(RecoverTx(log, c, e).log)
  {
    hide Analyse, UndoWalk;
    var a := AnalyseEntry(log, c, e);
    if !a.abortSeen {
      WalkIsPlain(log + [Abort(a.last, e.tx)], |log| + 1, a.last, e.tx);
    } else if Has(log, a.last) {
      var r := At(log, a.last);
      WalkIsPlain(log, if r.Abort? then r.prev else if r.Clr? then r.undoNext else 0, a.last, e.tx);
    }
  }

  lemma {:induction false} RecoverAllIsPlain(log: Log, c: Lsn, list: seq<Ongoing>)
    requires AllPlain(log)
    ensures AllPlain(RecoverAll(log, c, list).log)
    decreases |list|
  {
    hide AllPlain, RecoverTx;
    if list != [] {
      RecoverTxIsPlain(log, c, list[0]);
      var o := RecoverTx(log, c, list[0]);
      if o.ok {
        RecoverAllIsPlain(o.log, c, list[1..]);
      }
    }
  }

  // ---------- the running server ----------

  lemma WriteIsPlain(s: State, th: Thread, k: Key, v: Value, op: Op)
    requires AllPlain(s.log) && PlainTable(s.table) && th in s.active && ' ' !in v
    ensures AllPlain(Write(Touch(s, th, k), th, k, v, op).log)
  {
    hide LockKey, Put;
  }

  lemma UndoIsPlain(s: State, th: Thread)
    requires AllPlain(s.log) && th in s.active && s.active[th].stage.Undoing? && Has(s.log, s.active[th].stage.next)
    ensures AllPlain(Undo(s, th).log)
  {
    hide Put;
    assert At(s.log, s.active[th].stage.next) in s.log;
  }

  lemma OtherIsPlain(s: State, step: Step)
    requires AllPlain(s.log) && Enabled(s, step)
    requires !step.SetKey? && !step.DelKey? && !step.UndoOne? && !step.TryRecover? && !step.Restart?
    ensures AllPlain(Do(s, step).log)
  {
    hide LockKey, UnlockKey, Without, OngoingList;
  }

  lemma RecoveryIsPlain(s: State, step: Step)
    requires AllPlain(s.log) && Enabled(s, step) && (step.TryRecover? || step.Restart?)
    ensures AllPlain(Do(s, step).log)
  {
    hide RecoverAll, CleanAt, Committed, Replay;
    RecoverAllIsPlain(s.log, s.pointer, Listed(s.log, s.pointer));
  }

  lemma StepIsPlain(s: State, step: Step)
    requires AllPlain(s.log) && Enabled(s, step) && (s.up ==> PlainTable(s.table))
    ensures AllPlain(Do(s, step).log)
  {
    hide AllPlain, PlainTable;
    match step
    case SetKey(th, k, v) => WriteIsPlain(s, th, k, v, SetOp(k, v));
    case DelKey(th, k) =>
      if Look(s.table, k) != ABSENT {
        WriteIsPlain(s, th, k, ABSENT, DelOp(k, true));
      }
    case UndoOne(th) => UndoIsPlain(s, th);
    case TryRecover(n) => RecoveryIsPlain(s, step);
    case Restart => RecoveryIsPlain(s, step);
    case _ => OtherIsPlain(s, step);
  }

  /** Theorem: in every run no value in the log has a blank. */
  lemma {:induction false} ReachableIsPlain(states: seq<State>, steps: seq<Step>, n: nat)
    requires IsRun(states, steps) && n < |states|
    ensures AllPlain(states[n].log)
    decreases n
  {
    hide Do, Enabled, Inv, PlainTable;
    if n > 0 {
      var s := states[n - 1];
      ReachableIsPlain(states, steps, n - 1);
      ReachableOk(states, steps, n - 1);
      assert states[n - 1 + 1] == Do(s, steps[n - 1]);
      ReplayIsPlain(s.log);
      assert s.up ==> s.table == Replay(map[], s.log) by { TableIsReplay(s); }
      StepIsPlain(s, steps[n - 1]);
    }
  }

  lemma TableIsReplay(s: State)
    requires Inv(s)
    ensures s.up ==> s.table == Replay(map[], s.log)
  {
  }

  // ---------- snapshots ----------

  lemma PrintablePrefix(log: Log, n: nat)
    requires LogFile.AllPrintable(log) && n <= |log|
    ensures LogFile.AllPrintable(log[..n])
  {
    hide Printable;
    forall l | 1 <= l <= n ensures Printable(l, At(log[..n], l)) {
      assert At(log[..n], l) == At(log, l);
    }
  }

  lemma {:induction false} ReplayFits(log: Log)
    requires LogFile.AllPrintable(log)
    ensures AllFit(Replay(map[], log))
    decreases |log|
  {
    hide Print;
    if log != [] {
      assert Printable(|log|, At(log, |log|));
      PrintablePrefix(log, |log| - 1);
      ReplayFits(log[..|log| - 1]);
    }
  }

  /** Theorem: when the records of a run fit their lines, every snapshot of it fits its file and is
      reloaded as it was written. */
  lemma SnapshotIsStorable(states: seq<State>, steps: seq<Step>, n: nat, c: Lsn)
    requires IsRun(states, steps) && n < |states| && c in states[n].snapshots && LogFile.AllPrintable(states[n].log)
    ensures AllFit(states[n].snapshots[c]) && PlainTable(states[n].snapshots[c])
  {
    ReachableOk(states, steps, n);
    ReachableIsPlain(states, steps, n);
    SnapshotIsReplay(states[n], c);
    var pre := states[n].log[..c];
    assert AllPlain(pre) by { assert forall r <- pre :: r in states[n].log; }
    ReplayIsPlain(pre);
    PrintablePrefix(states[n].log, c);
    ReplayFits(pre);
  }

  lemma SnapshotIsReplay(s: State, c: Lsn)
    requires Inv(s) && c in s.snapshots
    ensures c <= |s.log| && s.snapshots[c] == Replay(map[], s.log[..c])
  {
  }
}
