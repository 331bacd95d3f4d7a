/** What a request does from its first step to its last: the steps of `run_command` for one thread, in each
    of its branches, and what the steps of other threads in between can change. */
module Requests {
  import opened Table
  import opened LogRecord
  import opened LogProtocol
  import opened Coherence
  import opened Chains
  import opened Locks
  import opened Serial
  import opened Protocol
  import opened ProtocolInvariant
  import opened ProtocolProof
  import opened ProtocolSteps
  import opened ProtocolTheorems
  import opened ServerStart
  import opened Framing
  import opened KvCommand

  /** The thread that takes the step; the checkpointer, a crash and recovery are nobody's. */
  function Actor(step: Step): Thread {
    match step
    case BeginTx(th) => th
    case GetKey(th, _) => th
    case SetKey(th, _, _) => th
    case DelKey(th, _) => th
    case CommitTx(th) => th
    case AbortTx(th) => th
    case UndoOne(th) => th
    case ReleaseOne(th) => th
    case Leave(th) => th
    case ExtraUnlock(th, _) => th
    case _ => 0
  }

  // ---------- scripts ----------

  /** `steps`, all of thread `th`, lead from `s` to `s'`. */
  ghost predicate Script(s: State, th: Thread, steps: seq<Step>, s': State) {
    CanRun(s, steps) && RunAll(s, steps) == s' && forall x <- steps :: Actor(x) == th
  }

  lemma NoSteps(s: State, th: Thread)
    ensures Script(s, th, [], s)
  {
  }

  lemma {:induction false} ThenMore(s: State, th: Thread, a: seq<Step>, m: State, b: seq<Step>, s': State)
    requires Script(s, th, a, m) && Script(m, th, b, s')
    ensures Script(s, th, a + b, s')
    decreases |a|
  {
    hide Enabled, Do;
    if a == [] {
      assert a + b == b;
    } else {
      assert forall x <- a[1..] :: x in a;
      ThenMore(Do(s, a[0]), th, a[1..], m, b, s');
      assert a + b == [a[0]] + (a[1..] + b);
      RunOne(s, a[0], a[1..] + b, a + b);
    }
  }

  lemma OneStep(s: State, th: Thread, step: Step)
    requires Enabled(s, step) && Actor(step) == th
    ensures Script(s, th, [step], Do(s, step))
  {
    hide Enabled, Do;
    RunNone(Do(s, step));
    RunOne(s, step, [], [step]);
  }

  lemma StepThen(s: State, th: Thread, step: Step, rest: seq<Step>, s': State)
    requires Enabled(s, step) && Actor(step) == th && Script(Do(s, step), th, rest, s')
    ensures Script(s, th, [step] + rest, s')
  {
    hide Enabled, Do, Script;
    OneStep(s, th, step);
    ThenMore(s, th, [step], Do(s, step), rest, s');
  }

  lemma {:induction false} ScriptIsSafe(s: State, th: Thread, steps: seq<Step>, s': State)
    requires Inv(s) && Script(s, th, steps, s')
    ensures Inv(s')
    decreases |steps|
  {
    hide Inv, Enabled, Do;
    if steps != [] {
      assert forall x <- steps[1..] :: x in steps;
      StepKeeps(s, steps[0]);
      ScriptIsSafe(Do(s, steps[0]), th, steps[1..], s');
    }
  }

  // ---------- the end of a transaction ----------

  /** All releases of `th`, one after another. */
  function ReleasedAll(s: State, th: Thread): (s': State)
    requires th in s.active
    ensures th in s'.active
    decreases |s.active[th].locks|
  {
    if s.active[th].locks == [] then s else ReleasedAll(Releases(s, th), th)
  }

  lemma {:induction false} ReleasedAllIs(s: State, th: Thread)
    requires th in s.active
    ensures ReleasedAll(s, th) == s.(locks := UnlockAll(s.locks, s.active[th].locks, th),
                                     active := s.active[th := s.active[th].(locks := [])])
    decreases |s.active[th].locks|
  {
    hide UnlockKey;
    if s.active[th].locks != [] {
      ReleasedAllIs(Releases(s, th), th);
    } else {
      assert s.active[th := s.active[th]] == s.active;
    }
  }

  /** The state after `kv_txm_end_transaction`. */
  function Ended(s: State, th: Thread): State
    requires th in s.active
  {
    Leaves(ReleasedAll(s, th), th)
  }

  lemma EndedIs(s: State, th: Thread)
    requires th in s.active
    ensures Ended(s, th).locks == UnlockAll(s.locks, s.active[th].locks, th)
    ensures Ended(s, th).order == Without(s.order, th) && Ended(s, th).active == s.active - {th}
    ensures Ended(s, th).lastId == s.lastId
  {
    hide UnlockAll, Without;
    ReleasedAllIs(s, th);
  }


  lemma {:induction false} ReleaseScript(s: State, th: Thread) returns (steps: seq<Step>)
    requires InStage(s, th, Releasing)
    ensures Script(s, th, steps, ReleasedAll(s, th)) && Enabled(ReleasedAll(s, th), Leave(th))
    decreases |s.active[th].locks|
  {
    hide UnlockKey, Script;
    if s.active[th].locks == [] {
      steps := [];
      NoSteps(s, th);
    } else {
      var rest := ReleaseScript(Releases(s, th), th);
      steps := [ReleaseOne(th)] + rest;
      StepThen(s, th, ReleaseOne(th), rest, ReleasedAll(s, th));
    }
  }

  /** The thread is gone with its locks; nothing else has changed. */
  ghost predicate GoneFrom(s: State, s': State, th: Thread) {
    && s'.up && s'.active == s.active - {th} && s'.epoch == s.epoch
    && s'.table == s.table && s'.log == s.log && s'.history == s.history
    && forall n | 0 <= n < STRIPES :: s'.locks[n] == if s.locks[n].owner == th then UNLOCKED else s.locks[n]
  }

  lemma EndScript(s: State, th: Thread) returns (steps: seq<Step>)
    requires Inv(s) && InStage(s, th, Releasing)
    ensures Script(s, th, steps, Ended(s, th)) && GoneFrom(s, Ended(s, th), th)
  {
    hide Inv, Script, ReleasedAll, Without, UnlockAll, Enabled, GoneFrom;
    var rest := ReleaseScript(s, th);
    OneStep(ReleasedAll(s, th), th, Leave(th));
    steps := rest + [Leave(th)];
    ThenMore(s, th, rest, ReleasedAll(s, th), [Leave(th)], Ended(s, th));
    EndIsGone(s, th);
  }

  lemma EndIsGone(s: State, th: Thread)
    requires Inv(s) && InStage(s, th, Releasing)
    ensures GoneFrom(s, Ended(s, th), th)
  {
    hide Inv, ReleasedAll, Without, UnlockAll;
    ReleasedAllIs(s, th);
    EndFrees(s, th);
  }

  lemma EndFrees(s: State, th: Thread)
    requires Inv(s) && InStage(s, th, Releasing)
    ensures forall n | 0 <= n < STRIPES ::
              UnlockAll(s.locks, s.active[th].locks, th)[n] == if s.locks[n].owner == th then UNLOCKED else s.locks[n]
  {
    hide Durable, ThreadsOk, NoOrphans, IdsOk, OrderOk, OnlineLinked, Replay;
    UnlockAllFrees(s.locks, Held(s.active), th);
  }

  // ---------- rollback ----------

  /** The state after ABORT and the whole rollback. */
  function FullyAborted(s: State, th: Thread): State
    requires th in s.active
  {
    RolledBack(Aborts(s, th), th)
  }

  /** What a rollback leaves alone. */
  ghost predicate Within(s: State, s': State, th: Thread) {
    && s'.up && Alike(s, s', th)
    && Committed(s'.epoch, s'.log) == Committed(s.epoch, s.log)
    && forall k: Key :: !Owns(s.locks, th, k) ==> Look(s'.table, k) == Look(s.table, k)
  }

  lemma UndoWithin(s: State, th: Thread)
    requires Inv(s) && InRollback(s, th)
    ensures Within(s, Undo(s, th), th)
  {
    hide Inv;
    RollbackStaysInside(s, th);
    UndoTouches(s, th);
  }

  lemma {:induction false} RollbackScript(s: State, th: Thread) returns (steps: seq<Step>)
    requires Inv(s) && s.up && th in s.active && s.active[th].stage.Undoing?
    ensures Script(s, th, steps, RolledBack(s, th)) && Within(s, RolledBack(s, th), th)
    ensures InStage(RolledBack(s, th), th, Releasing)
    decreases s.active[th].stage.next
  {
    hide Inv, Undo, Script, Committed, Replay;
    RollbackProgresses(s, th);
    StepKeeps(s, UndoOne(th));
    UndoWithin(s, th);
    var s' := Undo(s, th);
    var rest: seq<Step>;
    if s'.active[th].stage.Undoing? {
      rest := RollbackScript(s', th);
    } else {
      rest := [];
      NoSteps(s', th);
    }
    StepThen(s, th, UndoOne(th), rest, RolledBack(s, th));
    steps := [UndoOne(th)] + rest;
  }

  // ---------- requests ----------

  predicate HasKey(r: Request) {
    r.GetReq? || r.SetReq? || r.DelReq?
  }

  function KeyIn(r: Request): Key {
    if HasKey(r) then r.key else ""
  }

  /** A SET has a value, and, as `AcceptedSet` shows of every line that is one, no blank in it. */
  predicate Handled(r: Request) {
    r.SetReq? ==> r.value != ABSENT && ' ' !in r.value
  }

  /** A request for a key need not wait if the client's transaction has its stripe, or nobody has it. */
  predicate Granted(s: State, th: Thread, r: Request) {
    HasKey(r) && !Owns(s.locks, th, r.key) ==> s.locks[Stripe(r.key)].owner == 0
  }

  /** Theorem: what a working transaction may do to a key is decided by who has its stripe: it itself, and
      then it never waits, or nobody. */
  lemma WaitsIff(s: State, th: Thread, k: Key, v: Value)
    requires InStage(s, th, Working) && v != ABSENT && ' ' !in v
    ensures Enabled(s, GetKey(th, k)) <==> Owns(s.locks, th, k) || s.locks[Stripe(k)].owner == 0
    ensures Enabled(s, SetKey(th, k, v)) <==> Owns(s.locks, th, k) || s.locks[Stripe(k)].owner == 0
    ensures Enabled(s, DelKey(th, k)) <==> Owns(s.locks, th, k) || s.locks[Stripe(k)].owner == 0
  {
    hide Stripe;
  }

  /** `s'` is `s` with one more operation in the open transaction of `th`. */
  ghost predicate Asks(s: State, s': State, th: Thread, k: Key, op: Op)
    requires th in s.active
  {
    && s'.up && s'.table == Effect(s.table, op) && s'.history == s.history && s'.locks == LockKey(s.locks, k, th)
    && th in s'.active && s'.active == s.active[th := s'.active[th]]
    && s'.active[th].stage == Working && s'.active[th].ops == s.active[th].ops + [op]
  }

  ghost predicate Frees(s: State, s': State, th: Thread) {
    && s'.up && s'.active == s.active - {th}
    && forall n | 0 <= n < STRIPES :: s'.locks[n] == if s.locks[n].owner == th then UNLOCKED else s.locks[n]
  }

  /** What a request does inside a transaction. */
  ghost predicate DoneInside(s: State, s': State, th: Thread, r: Request)
    requires th in s.active
  {
    match r
    case GetReq(k) => Asks(s, s', th, k, Answer(s.table, r))
    case SetReq(k, _) => Asks(s, s', th, k, Answer(s.table, r))
    case DelReq(k) => Asks(s, s', th, k, Answer(s.table, r))
    case CommitReq =>
      Frees(s, s', th) && s'.history == s.history + [s.active[th].ops] && s'.table == s.table
    case AbortReq =>
      && Frees(s, s', th) && s'.history == s.history
      && Committed(s'.epoch, s'.log) == Committed(s.epoch, s.log)
      && forall k: Key :: Look(s'.table, k) == if Owns(s.locks, th, k) then Look(Committed(s.epoch, s.log), k)
                                               else Look(s.table, k)
    case _ => s' == s
  }

  /** What a request does outside: a command with a key is a transaction of its own. */
  ghost predicate DoneOutside(s: State, s': State, th: Thread, r: Request) {
    if HasKey(r) then
      && s'.table == Effect(s.table, Answer(s.table, r)) && s'.history == s.history + [[Answer(s.table, r)]]
      && s'.locks == s.locks && s'.active == s.active
    else if r.BeginReq? then Joined(s, s', th, [], []) && s'.locks == s.locks && s'.table == s.table
    else s' == s
  }

  lemma KeyInside(s: State, th: Thread, r: Request)
    requires InStage(s, th, Working) && HasKey(r) && Handled(r) && Granted(s, th, r)
    ensures Enabled(s, MainStep(r, th)) && Actor(MainStep(r, th)) == th
    ensures Asks(s, Do(s, MainStep(r, th)), th, r.key, Answer(s.table, r))
  {
    hide Stripe, Write, Touch, Note, Put, LockKey;
    match r
    case GetReq(k) => NoteAsks(s, th, k, GetOp(k, Look(s.table, k)));
    case SetReq(k, v) => WriteAsks(s, th, k, v, SetOp(k, v));
    case DelReq(k) =>
      if Look(s.table, k) == ABSENT {
        PutNothing(s.table, k);
        NoteAsks(s, th, k, DelOp(k, false));
      } else {
        WriteAsks(s, th, k, ABSENT, DelOp(k, true));
      }
  }

  lemma NoteAsks(s: State, th: Thread, k: Key, op: Op)
    requires InStage(s, th, Working) && Effect(s.table, op) == s.table
    ensures Asks(s, Note(Touch(s, th, k), th, op), th, k, op)
  {
    hide LockKey, Effect;
  }

  lemma WriteAsks(s: State, th: Thread, k: Key, v: Value, op: Op)
    requires InStage(s, th, Working) && Effect(s.table, op) == Put(s.table, k, v)
    ensures Asks(s, Write(Touch(s, th, k), th, k, v, op), th, k, op)
  {
    hide LockKey, Effect, Put;
  }

  lemma CommitShows(s: State, th: Thread)
    requires InStage(s, th, Working)
    ensures Enabled(s, CommitTx(th)) && InStage(Do(s, CommitTx(th)), th, Releasing)
    ensures var s1 := Do(s, CommitTx(th));
            && s1.history == s.history + [s.active[th].ops] && s1.table == s.table && s1.locks == s.locks
            && s1.active - {th} == s.active - {th}
  {
  }

  lemma CommitScript(s: State, th: Thread) returns (steps: seq<Step>, s': State)
    requires Inv(s) && InStage(s, th, Working)
    ensures Script(s, th, steps, s') && DoneInside(s, s', th, CommitReq)
  {
    hide Inv, Script, Do, Enabled, Ended;
    CommitShows(s, th);
    StepKeeps(s, CommitTx(th));
    var s1 := Do(s, CommitTx(th));
    var rest := EndScript(s1, th);
    s' := Ended(s1, th);
    StepThen(s, th, CommitTx(th), rest, s');
    steps := [CommitTx(th)] + rest;
  }

  lemma AbortWithin(s: State, th: Thread)
    requires Inv(s) && InStage(s, th, Working)
    ensures Enabled(s, AbortTx(th)) && Within(s, Do(s, AbortTx(th)), th)
    ensures Do(s, AbortTx(th)).active[th].stage.Undoing?
  {
    hide Inv, Committed;
    assert s.epoch <= |s.log| by { EpochInside(s); }
    CommittedAppend(s.epoch, s.log, Abort(s.active[th].last, s.active[th].id));
  }

  lemma EpochInside(s: State)
    requires Inv(s)
    ensures s.epoch <= |s.log|
  {
  }

  lemma AbortScript(s: State, th: Thread) returns (steps: seq<Step>, s': State)
    requires Inv(s) && InStage(s, th, Working)
    ensures Script(s, th, steps, s') && DoneInside(s, s', th, AbortReq)
  {
    hide Inv, Script, Do, Enabled, Ended, RolledBack, Committed, Stripe;
    AbortWithin(s, th);
    StepKeeps(s, AbortTx(th));
    var s1 := Do(s, AbortTx(th));
    var s2 := RolledBack(s1, th);
    var back := RollbackScript(s1, th);
    ScriptIsSafe(s1, th, back, s2);
    var rest := EndScript(s2, th);
    s' := Ended(s2, th);
    ThenMore(s1, th, back, s2, rest, s');
    StepThen(s, th, AbortTx(th), back + rest, s');
    steps := [AbortTx(th)] + (back + rest);
    forall k: Key | Owns(s.locks, th, k) ensures Look(s'.table, k) == Look(Committed(s.epoch, s.log), k) {
      EndedIsCommitted(s2, th, k);
    }
    assert s.active[th := s2.active[th]] - {th} == s.active - {th};
  }

  lemma InsideRuns(s: State, th: Thread, r: Request) returns (steps: seq<Step>, s': State)
    requires Inv(s) && InStage(s, th, Working) && Handled(r) && Granted(s, th, r)
    ensures Script(s, th, steps, s') && DoneInside(s, s', th, r)
  {
    hide Inv, Script, Do, Enabled, Answer, Asks, Granted, Handled, Frees, Committed;
    if HasKey(r) {
      KeyInside(s, th, r);
      OneStep(s, th, MainStep(r, th));
      steps, s' := [MainStep(r, th)], Do(s, MainStep(r, th));
    } else if r.CommitReq? {
      steps, s' := CommitScript(s, th);
    } else if r.AbortReq? {
      steps, s' := AbortScript(s, th);
    } else {
      NoSteps(s, th);
      steps, s' := [], s;
    }
  }

  lemma StripeIsFree(s: State, th: Thread, k: Key)
    requires Inv(s) && s.up && th !in s.active && CanLock(s.locks[Stripe(k)], th)
    ensures s.locks[Stripe(k)] == UNLOCKED
  {
    hide Durable, ThreadsOk, NoOrphans, IdsOk, OrderOk, OnlineLinked, Replay;
    assert th !in Held(s.active);
  }

  lemma OutsideRuns(s: State, th: Thread, r: Request) returns (steps: seq<Step>, s': State)
    requires Inv(s) && s.up && th != 0 && th !in s.active && Handled(r) && Granted(s, th, r)
    ensures Script(s, th, steps, s') && DoneOutside(s, s', th, r)
  {
    hide Inv, Do, Enabled, Answer, CanRun, RunAll, Stripe, Effect, Joined;
    if HasKey(r) {
      StripeIsFree(s, th, r.key);
      SingleCommandCommits(s, r, th);
      steps := Wrapped(MainStep(r, th), r.key, th);
      s' := RunAll(s, steps);
      assert Actor(MainStep(r, th)) == th;
    } else if r.BeginReq? {
      Opened(s, th);
      OneStep(s, th, BeginTx(th));
      steps, s' := [BeginTx(th)], Do(s, BeginTx(th));
    } else {
      NoSteps(s, th);
      steps, s' := [], s;
    }
  }

  /** Theorem: every request that need not wait runs through in steps of its thread, in every branch of
      `run_command`: inside a transaction or outside, BEGIN in an open one and COMMIT or ABORT without one
      included. */
  lemma RequestRuns(s: State, th: Thread, r: Request) returns (steps: seq<Step>, s': State)
    requires Inv(s) && s.up && th != 0 && (th in s.active ==> s.active[th].stage == Working)
    requires Handled(r) && Granted(s, th, r)
    ensures Script(s, th, steps, s') && Inv(s')
    ensures if th in s.active then DoneInside(s, s', th, r) else DoneOutside(s, s', th, r)
  {
    hide Inv, Script, DoneInside, DoneOutside, Handled, Granted;
    if th in s.active {
      steps, s' := InsideRuns(s, th, r);
    } else {
      steps, s' := OutsideRuns(s, th, r);
    }
    ScriptIsSafe(s, th, steps, s');
  }

  ghost predicate Done(s: State, s': State, th: Thread, r: Request) {
    if th in s.active then DoneInside(s, s', th, r) else DoneOutside(s, s', th, r)
  }

  /** What the lines without a key do. */
  ghost predicate WordLineDone(s: State, s': State, th: Thread, c: string) {
    && (c == "commit\r\n" ==>
          if th !in s.active then s' == s
          else Frees(s, s', th) && s'.history == s.history + [s.active[th].ops] && s'.table == s.table)
    && (c == "abort\r\n" ==>
          if th !in s.active then s' == s
          else Frees(s, s', th) && s'.history == s.history
               && forall k: Key :: Look(s'.table, k) == if Owns(s.locks, th, k) then Look(Committed(s.epoch, s.log), k)
                                                        else Look(s.table, k))
    && (c == "begin\r\n" ==>
          if th in s.active then s' == s
          else Joined(s, s', th, [], []) && s'.locks == s.locks && s'.table == s.table)
    && (c == "\r\n" || Unknown(c) ==> s' == s)
  }

  /** What the lines with a key do. */
  ghost predicate KeyLineDone(s: State, s': State, th: Thread, c: string) {
    && (forall k: Key :: c == "get " + k + "\r\n" ==> Done(s, s', th, GetReq(k)))
    && (forall k: Key :: c == "del " + k + "\r\n" ==> Done(s, s', th, DelReq(k)))
    && (forall k: Key, v: Value :: k != "" && ' ' !in k && ' ' !in v && c == "set " + k + " " + v + "\r\n" ==>
                                     Done(s, s', th, SetReq(k, v)))
  }

  /** Theorem: so does every command line that comes in, but a SET of nothing. */
  lemma LineRuns(s: State, th: Thread, c: string) returns (steps: seq<Step>, s': State)
    requires IsCommand(c) && (IsSet(c) ==> c[4] != ' ') && Parse(c) != SetReq(KeyIn(Parse(c)), ABSENT)
    requires Inv(s) && s.up && th != 0 && (th in s.active ==> s.active[th].stage == Working)
    requires Granted(s, th, Parse(c))
    ensures Script(s, th, steps, s') && Inv(s')
    ensures WordLineDone(s, s', th, c) && KeyLineDone(s, s', th, c)
  {
    hide Inv, Script, DoneInside, DoneOutside, Granted, Parse, IsSet, IsCommand, WordLineDone, KeyLineDone, Done;
    if Parse(c).SetReq? {
      AcceptedSet(c);
    }
    steps, s' := RequestRuns(s, th, Parse(c));
    assert Done(s, s', th, Parse(c)) by { DoneIs(s, s', th, Parse(c)); }
    WordLineRuns(s, s', th, c);
    KeyLineRuns(s, s', th, c);
  }

  lemma DoneIs(s: State, s': State, th: Thread, r: Request)
    requires if th in s.active then DoneInside(s, s', th, r) else DoneOutside(s, s', th, r)
    ensures Done(s, s', th, r)
  {
  }

  lemma WordLineRuns(s: State, s': State, th: Thread, c: string)
    requires IsCommand(c) && (IsSet(c) ==> c[4] != ' ') && Done(s, s', th, Parse(c))
    ensures WordLineDone(s, s', th, c)
  {
    WordLines(c);
    InvalidLines(c);
    hide Parse, IsSet, IsCommand, Unknown, Committed, Joined, Frees, Asks, Effect, Answer, Blanks;
  }

  lemma KeyLineRuns(s: State, s': State, th: Thread, c: string)
    requires IsCommand(c) && (IsSet(c) ==> c[4] != ' ') && Done(s, s', th, Parse(c))
    ensures KeyLineDone(s, s', th, c)
  {
    hide Parse, IsSet, IsCommand, Done;
    forall k: Key | c == "get " + k + "\r\n" ensures Done(s, s', th, GetReq(k)) {
      KeyLines(c, k);
    }
    forall k: Key | c == "del " + k + "\r\n" ensures Done(s, s', th, DelReq(k)) {
      KeyLines(c, k);
    }
    forall k: Key, v: Value | k != "" && ' ' !in k && ' ' !in v && c == "set " + k + " " + v + "\r\n"
      ensures Done(s, s', th, SetReq(k, v))
    {
      SetLines(c, k, v);
    }
  }

  // ---------- other threads in between ----------

  /** The transaction of `th`, its stripes, and the values on them. */
  ghost predicate Untroubled(s: State, s': State, th: Thread) {
    && th in s.active && th in s'.active && s'.active[th] == s.active[th]
    && forall k: Key :: Owns(s.locks, th, k) ==> Owns(s'.locks, th, k) && Look(s'.table, k) == Look(s.table, k)
  }

  lemma NotNobody(s: State, th: Thread)
    requires Inv(s) && th in s.active
    ensures s.up && th != 0
  {
    assert s.up ==> 0 !in Held(s.active);
  }

  lemma LocksElsewhere(locks: LockTable, k: Key, x: Thread, th: Thread, j: Key)
    requires CanLock(locks[Stripe(k)], x) && x != th && th != 0 && Owns(locks, th, j)
    ensures Owns(LockKey(locks, k, x), th, j) && j != k
  {
    hide Stripe;
  }

  lemma UnlocksElsewhere(locks: LockTable, k: Key, x: Thread, th: Thread, j: Key)
    requires x != th && Owns(locks, th, j)
    ensures Owns(UnlockKey(locks, k, x), th, j)
  {
    hide Stripe;
  }

  /** Theorem: a step of anyone else, short of a crash, leaves the transaction of a thread, its stripes and
      the values on them alone. */
  lemma OthersLeaveAlone(s: State, step: Step, th: Thread)
    requires Inv(s) && Enabled(s, step) && Actor(step) != th && !step.Crash? && th in s.active
    ensures Untroubled(s, Do(s, step), th)
  {
    hide Inv, Untroubled, CanTouch, Owns;
    NotNobody(s, th);
    match step
    case UndoOne(x) =>
      assert InRollback(s, x);
      UndoWithin(s, x);
      WithinIsUntroubled(s, Undo(s, x), x, th);
    case GetKey(x, k) => KeyStepElsewhere(s, step, x, k, th);
    case SetKey(x, k, _) => KeyStepElsewhere(s, step, x, k, th);
    case DelKey(x, k) => KeyStepElsewhere(s, step, x, k, th);
    case _ => OtherStepElsewhere(s, step, th);
  }

  lemma WithinIsUntroubled(s: State, s': State, x: Thread, th: Thread)
    requires Within(s, s', x) && x != th && th != 0 && th in s.active
    ensures Untroubled(s, s', th)
  {
    hide Committed;
  }

  lemma KeyStepElsewhere(s: State, step: Step, x: Thread, k: Key, th: Thread)
    requires Enabled(s, step) && Actor(step) == x && x != th && th != 0 && th in s.active
    requires (step.GetKey? || step.SetKey? || step.DelKey?) && step.key == k
    ensures Untroubled(s, Do(s, step), th)
  {
    hide Stripe, LockKey, Owns, Put;
    forall j: Key | Owns(s.locks, th, j) ensures Owns(LockKey(s.locks, k, x), th, j) && j != k {
      LocksElsewhere(s.locks, k, x, th, j);
    }
  }

  lemma OtherStepElsewhere(s: State, step: Step, th: Thread)
    requires Enabled(s, step) && Actor(step) != th && s.up && th in s.active && !step.Crash?
    requires !step.GetKey? && !step.SetKey? && !step.DelKey? && !step.UndoOne?
    ensures Untroubled(s, Do(s, step), th)
  {
    hide UnlockKey, Owns, Without, OngoingList;
    if step.ExtraUnlock? {
      forall j: Key | Owns(s.locks, th, j) ensures Owns(UnlockKey(s.locks, step.key, step.th), th, j) {
        UnlocksElsewhere(s.locks, step.key, step.th, th, j);
      }
    } else if step.ReleaseOne? {
      var keys := s.active[step.th].locks;
      forall j: Key | Owns(s.locks, th, j) ensures Owns(UnlockKey(s.locks, keys[|keys| - 1], step.th), th, j) {
        UnlocksElsewhere(s.locks, keys[|keys| - 1], step.th, th, j);
      }
    }
  }

  /** Theorem: so what one step of a request has left is what its next step finds, whatever the other
      threads, the checkpointer and the forked child do in between. */
  lemma {:induction false} UntilItsNextStep(states: seq<State>, steps: seq<Step>, th: Thread, i: nat, j: nat)
    requires IsRun(states, steps) && i <= j <= |steps| && th in states[i].active
    requires forall n | i <= n < j :: Actor(steps[n]) != th && !steps[n].Crash?
    ensures Untroubled(states[i], states[j], th)
    decreases j
  {
    hide Inv, Do, Enabled, Owns;
    if i < j {
      UntilItsNextStep(states, steps, th, i, j - 1);
      ReachableOk(states, steps, j - 1);
      OthersLeaveAlone(states[j - 1], steps[j - 1], th);
      assert states[j - 1 + 1] == Do(states[j - 1], steps[j - 1]);
    }
  }

  // ---------- re-entrancy ----------

  /** The open transaction of `th` has the stripe of `k`. */
  ghost predicate HasKeyOf(s: State, th: Thread, k: Key) {
    InStage(s, th, Working) && Owns(s.locks, th, k)
  }

  predicate IsKeyStep(step: Step) {
    step.GetKey? || step.SetKey? || step.DelKey?
  }

  lemma KeyStepTakes(s: State, step: Step)
    requires Enabled(s, step) && IsKeyStep(step)
    ensures InStage(Do(s, step), step.th, Working) && Do(s, step).locks == LockKey(s.locks, step.key, step.th)
  {
    hide LockKey, Put, Stripe;
  }

  lemma LockKeeps(locks: LockTable, k: Key, th: Thread, j: Key)
    ensures Owns(LockKey(locks, k, th), th, k)
    ensures Owns(locks, th, j) ==> Owns(LockKey(locks, k, th), th, j)
  {
    hide Stripe;
  }

  lemma StillHas(s: State, step: Step, th: Thread, k: Key)
    requires Inv(s) && Enabled(s, step) && HasKeyOf(s, th, k) && !step.Crash?
    requires Actor(step) == th ==> !step.CommitTx? && !step.AbortTx?
    ensures HasKeyOf(Do(s, step), th, k)
  {
    hide Inv, Owns, LockKey;
    NotNobody(s, th);
    if Actor(step) != th {
      hide Do, Enabled;
      OthersLeaveAlone(s, step, th);
      StepKeeps(s, step);
      NotNobody(Do(s, step), th);
    } else {
      assert IsKeyStep(step);
      KeyStepTakes(s, step);
      LockKeeps(s.locks, step.key, th, k);
    }
  }

  lemma {:induction false} HasUntilItsEnd(states: seq<State>, steps: seq<Step>, th: Thread, i: nat, j: nat, k: Key)
    requires IsRun(states, steps) && i < j <= |steps| && IsKeyStep(steps[i]) && steps[i].th == th && steps[i].key == k
    requires forall n | i < n < j :: !steps[n].Crash? && steps[n] != CommitTx(th) && steps[n] != AbortTx(th)
    ensures HasKeyOf(states[j], th, k)
    decreases j
  {
    hide Inv, Do, Enabled, HasKeyOf;
    assert states[j - 1 + 1] == Do(states[j - 1], steps[j - 1]);
    if j == i + 1 {
      KeyStepTakes(states[i], steps[i]);
      LockKeeps(states[i].locks, k, th, k);
      TakenIsHad(states[j], th, k);
    } else {
      HasUntilItsEnd(states, steps, th, i, j - 1, k);
      ReachableOk(states, steps, j - 1);
      StillHas(states[j - 1], steps[j - 1], th, k);
    }
  }

  lemma TakenIsHad(s: State, th: Thread, k: Key)
    requires InStage(s, th, Working) && Owns(s.locks, th, k)
    ensures HasKeyOf(s, th, k)
  {
  }

  /** Theorem: once a command has taken the stripe of a key, no command of the same transaction on that key
      waits again, whatever the others do. */
  lemma NeverWaitsAgain(states: seq<State>, steps: seq<Step>, th: Thread, i: nat, j: nat, k: Key, v: Value)
    requires IsRun(states, steps) && i < j <= |steps| && IsKeyStep(steps[i]) && steps[i].th == th && steps[i].key == k
    requires forall n | i < n < j :: !steps[n].Crash? && steps[n] != CommitTx(th) && steps[n] != AbortTx(th)
    requires v != ABSENT && ' ' !in v
    ensures Enabled(states[j], GetKey(th, k)) && Enabled(states[j], SetKey(th, k, v))
    ensures Enabled(states[j], DelKey(th, k))
  {
    HasUntilItsEnd(states, steps, th, i, j, k);
    WaitsIff(states[j], th, k, v);
  }
}
