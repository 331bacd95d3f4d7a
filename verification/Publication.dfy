/** How a checkpoint comes to be published: the CHECK record, the snapshot of the forked child, and the
    last-LSN file, which then names this checkpoint until the next one is published. */
module Publication {
  import opened Table
  import opened LogRecord
  import opened LogProtocol
  import opened RecoverySpec
  import opened RecoveryProof
  import opened RecoveryTheorems
  import opened Locks
  import opened Serial
  import opened Protocol
  import opened ProtocolInvariant
  import opened ProtocolSteps
  import opened ProtocolTheorems
  import opened KvCommand

  /** What is published, or about to be, stays. */
  predicate SamePublished(s: State, s': State) {
    s'.fork == s.fork && s'.pointer == s.pointer && s'.snapshots == s.snapshots
  }

  /** Only the checkpointer and its child publish anything; a crash kills the child. */
  lemma OthersPublishNothing(s: State, step: Step)
    requires Enabled(s, step)
    requires !step.TakeCheckpoint? && !step.FinishSnapshot? && !step.PublishPointer? && !step.Crash?
    ensures SamePublished(s, Do(s, step))
  {
    hide LockKey, UnlockKey, Without, OngoingList, CleanAt, Recover, CanTouch, Undo, Write;
    match step
    case SetKey(th, k, v) => WriteStays(s, th, k, v, SetOp(k, v));
    case DelKey(th, k) => WriteStays(s, th, k, ABSENT, DelOp(k, true));
    case UndoOne(th) => UndoTouches(s, th);
    case _ =>
  }

  /** The CHECK record at `c` was written when the table was `t`, and its child is at work; its snapshot is
      written once `done`. */
  predicate UnderWay(s: State, c: Lsn, t: Table, done: bool) {
    s.fork == Fork(c, t) && (c in s.snapshots <==> done) && (done ==> s.snapshots[c] == t)
  }

  lemma StepUnderWay(s: State, step: Step, c: Lsn, t: Table, done: bool)
    requires Enabled(s, step) && UnderWay(s, c, t, done)
    requires !step.TakeCheckpoint? && !step.PublishPointer? && !step.Crash?
    ensures UnderWay(Do(s, step), c, t, done || step.FinishSnapshot?)
  {
    if !step.FinishSnapshot? {
      hide Do, Enabled;
      OthersPublishNothing(s, step);
    }
  }

  /** Nothing but steps of other threads and of the child between `i` and `j`. */
  ghost predicate OneCheckpoint(states: seq<State>, steps: seq<Step>, i: nat, j: nat) {
    && IsRun(states, steps) && i < j <= |steps| && steps[i].TakeCheckpoint?
    && forall n | i < n < j :: !steps[n].TakeCheckpoint? && !steps[n].PublishPointer? && !steps[n].Crash?
  }

  lemma TakeStarts(s: State, step: Step)
    requires Inv(s) && Enabled(s, step) && step.TakeCheckpoint?
    ensures UnderWay(Do(s, step), |s.log| + 1, s.table, false)
  {
  }

  lemma {:induction false} StaysUnderWay(states: seq<State>, steps: seq<Step>, i: nat, j: nat) returns (done: bool)
    requires OneCheckpoint(states, steps, i, j)
    ensures UnderWay(states[j], |states[i].log| + 1, states[i].table, done)
    decreases j
  {
    hide Do, Enabled, UnderWay, Inv;
    assert states[j - 1 + 1] == Do(states[j - 1], steps[j - 1]);
    if j == i + 1 {
      ReachableOk(states, steps, i);
      TakeStarts(states[i], steps[i]);
      done := false;
    } else {
      done := StaysUnderWay(states, steps, i, j - 1);
      StepUnderWay(states[j - 1], steps[j - 1], |states[i].log| + 1, states[i].table, done);
      done := done || steps[j - 1].FinishSnapshot?;
    }
  }

  lemma {:induction false} StaysPublished(states: seq<State>, steps: seq<Step>, p: nat, m: nat)
    requires IsRun(states, steps) && p < m <= |steps| && forall n | p < n < m :: !steps[n].PublishPointer?
    ensures states[m].pointer == states[p + 1].pointer
    decreases m
  {
    hide Do, Enabled;
    if m > p + 1 {
      StaysPublished(states, steps, p, m - 1);
      PointerStays(states[m - 1], steps[m - 1]);
      assert states[m - 1 + 1] == Do(states[m - 1], steps[m - 1]);
    }
  }

  lemma PointerStays(s: State, step: Step)
    requires Enabled(s, step) && !step.PublishPointer?
    ensures Do(s, step).pointer == s.pointer
  {
    if !step.TakeCheckpoint? && !step.FinishSnapshot? && !step.Crash? {
      hide Do, Enabled;
      OthersPublishNothing(s, step);
    }
  }

  /** Of state `z` the last-LSN file names the checkpoint taken in state `s`. */
  ghost predicate Names(z: State, s: State) {
    && (forall th <- s.order :: th in s.active)
    && z.pointer == |s.log| + 1 <= |z.log| && At(z.log, z.pointer) == Check(OngoingList(s, s.order))
    && z.pointer in z.snapshots && z.snapshots[z.pointer] == s.table
  }

  lemma PublishNames(s: State, step: Step, c: Lsn, t: Table, done: bool)
    requires Enabled(s, step) && step.PublishPointer? && UnderWay(s, c, t, done)
    ensures Do(s, step).pointer == c
  {
  }

  lemma TakeLogs(s: State, step: Step)
    requires Inv(s) && Enabled(s, step) && step.TakeCheckpoint?
    ensures (forall th <- s.order :: th in s.active) && Do(s, step).log == s.log + [Check(OngoingList(s, s.order))]
    ensures Replay(map[], Do(s, step).log) == s.table
  {
    hide OngoingList;
    ReplayAppend(map[], s.log, Check(OngoingList(s, s.order)));
  }

  lemma NamedIsThere(z: State, log: Log, t: Table)
    requires Inv(z) && z.pointer == |log| > 0 && log <= z.log && Replay(map[], log) == t
    ensures z.pointer in z.snapshots && z.snapshots[z.pointer] == t
  {
    hide Volatile, SerialOk, ValidLog;
    assert z.log[..|log|] == log;
  }

  /** Theorem: a checkpoint taken at step `i`, when the log had `n` records, and published at step `p` is the
      one that the last-LSN file names from then on, as `n + 1`, across crashes and restarts, until another
      one is published. Its CHECK record lists the transactions of the moment, and its snapshot is of the
      table of the moment. */
  lemma PublishingPublishes(states: seq<State>, steps: seq<Step>, i: nat, p: nat, m: nat)
    requires OneCheckpoint(states, steps, i, p) && p < m <= |steps| && steps[p].PublishPointer?
    requires forall n | p < n < m :: !steps[n].PublishPointer?
    ensures Names(states[m], states[i])
  {
    hide Do, Enabled, UnderWay, Inv, Replay;
    var s, z := states[i], states[m];
    var done := StaysUnderWay(states, steps, i, p);
    PublishNames(states[p], steps[p], |s.log| + 1, s.table, done);
    assert states[p + 1] == Do(states[p], steps[p]) && states[i + 1] == Do(s, steps[i]);
    StaysPublished(states, steps, p, m);
    ReachableOk(states, steps, i);
    ReachableOk(states, steps, m);
    TakeLogs(s, steps[i]);
    IdsNeverRepeat(states, steps, i + 1, m);
    NamedIsThere(z, states[i + 1].log, s.table);
    assert At(z.log, z.pointer) == At(states[i + 1].log, z.pointer);
  }

  lemma TakeRuns(s: State)
    requires Inv(s) && s.up && s.fork.NoFork?
    ensures Enabled(s, TakeCheckpoint)
    ensures var s1 := Do(s, TakeCheckpoint);
            && s1.up && UnderWay(s1, |s.log| + 1, s.table, false) && |s1.log| == |s.log| + 1
            && s1.table == s.table && s1.active == s.active && s1.order == s.order && s1.locks == s.locks
  {
    hide OngoingList, Replay, ThreadsOk, NoOrphans, IdsOk, ValidLog, SerialOk, PointerOk;
  }

  /** A snapshot that is under way can be written and published. */
  lemma ChildRuns(s1: State, c: Lsn, t: Table)
    requires s1.up && UnderWay(s1, c, t, false)
    ensures Enabled(s1, FinishSnapshot) && Enabled(Do(s1, FinishSnapshot), PublishPointer)
    ensures var s3 := Do(Do(s1, FinishSnapshot), PublishPointer);
            && s3 == s1.(snapshots := s1.snapshots[c := t], pointer := c, fork := NoFork)
  {
  }

  lemma NamedNow(s: State, s1: State, s3: State)
    requires Inv(s) && Enabled(s, TakeCheckpoint) && s1 == Do(s, TakeCheckpoint)
    requires s3 == s1.(snapshots := s3.snapshots, pointer := |s.log| + 1, fork := NoFork)
    requires |s.log| + 1 in s3.snapshots && s3.snapshots[|s.log| + 1] == s.table
    ensures Names(s3, s)
  {
    hide OngoingList;
  }

  /** Theorem: from any reachable state in which no child is at work a checkpoint can be taken, written and
      published, and changes nothing else. */
  lemma CheckpointRuns(s: State)
    requires Inv(s) && s.up && s.fork.NoFork?
    ensures CanRun(s, [TakeCheckpoint, FinishSnapshot, PublishPointer])
    ensures Names(RunAll(s, [TakeCheckpoint, FinishSnapshot, PublishPointer]), s)
    ensures var s' := RunAll(s, [TakeCheckpoint, FinishSnapshot, PublishPointer]);
            && s'.fork == NoFork && |s'.log| == |s.log| + 1 && s'.table == s.table
            && s'.active == s.active && s'.order == s.order && s'.locks == s.locks
  {
    hide Inv, Do, Enabled, CanRun, RunAll, UnderWay, Names;
    TakeRuns(s);
    var s1 := Do(s, TakeCheckpoint);
    ChildRuns(s1, |s.log| + 1, s.table);
    var s2 := Do(s1, FinishSnapshot);
    var s3 := Do(s2, PublishPointer);
    NamedNow(s, s1, s3);
    RunNone(s3);
    RunOne(s2, PublishPointer, [], [PublishPointer]);
    RunOne(s1, FinishSnapshot, [PublishPointer], [FinishSnapshot, PublishPointer]);
    RunOne(s, TakeCheckpoint, [FinishSnapshot, PublishPointer], [TakeCheckpoint, FinishSnapshot, PublishPointer]);
  }
}
