/** Every valid log: replaying it gives the committed table overlaid, on the keys of each
    unfinished transaction, with the updates that transaction has not yet undone. */
module Coherence {
  import opened Table
  import opened LogRecord
  import opened LogProtocol

  /** Each update on the stack saw the value left by the ones below it over the committed table. */
  ghost predicate StackOk(c: Table, stack: seq<Record>, t: TxId) {
    stack != [] ==>
      && Top(stack).Update? && Top(stack).tx == t
      && StackOk(c, Below(stack), t)
      && Top(stack).before == Look(Replay(c, Below(stack)), Top(stack).key)
  }

  ghost predicate Overlaid(b: nat, log: Log, t: TxId) {
    var i := Info(b, log, t);
    && StackOk(Committed(b, log), i.stack, t)
    && (forall u <- i.stack :: u.Update? ==> u.key in i.keys)
    && (forall k <- i.keys :: Look(Replay(map[], log), k) == Look(Replay(Committed(b, log), i.stack), k))
  }

  ghost predicate AllOverlaid(b: nat, log: Log) {
    forall t: TxId :: Live(b, log, t) ==> Overlaid(b, log, t)
  }

  ghost predicate Exclusive(b: nat, log: Log) {
    forall t: TxId, k: Key :: Live(b, log, t) && k in Info(b, log, t).keys ==> Free(b, log, t, k)
  }

  /** A key that no live transaction has updated holds its committed value. */
  ghost predicate Settled(b: nat, log: Log) {
    forall k: Key :: Free(b, log, 0, k) ==> Look(Replay(map[], log), k) == Look(Committed(b, log), k)
  }

  ghost predicate NoZero(b: nat, log: Log) {
    !Live(b, log, 0)
  }

  /** A transaction that has not begun to abort has undone nothing. */
  ghost predicate RunningStack(b: nat, log: Log) {
    forall t: TxId :: Info(b, log, t).phase == Running ==> Info(b, log, t).stack == UpdatesOf(b, log, t)
  }

  ghost predicate Idle(b: nat, log: Log) {
    forall t: TxId :: !Live(b, log, t) ==>
      && Info(b, log, t).keys == {} && Info(b, log, t).stack == []
      && (Info(b, log, t).phase == Unborn ==> UpdatesOf(b, log, t) == [])
  }

  ghost predicate Coherent(b: nat, log: Log) {
    && AllOverlaid(b, log) && Exclusive(b, log) && Settled(b, log)
    && NoZero(b, log) && RunningStack(b, log) && Idle(b, log)
  }

  // ---------- replay over different tables ----------

  lemma {:induction false} ReplayLocal(a: Table, c: Table, log: Log, k: Key)
    requires Look(a, k) == Look(c, k)
    ensures Look(Replay(a, log), k) == Look(Replay(c, log), k)
    decreases |log|
  {
    if log != [] {
      ReplayLocal(a, c, log[..|log| - 1], k);
    }
  }

  lemma {:induction false} ReplayElsewhere(t: Table, log: Log, k: Key)
    requires forall r <- log :: (r.Update? || r.Clr?) ==> r.key != k
    ensures Look(Replay(t, log), k) == Look(t, k)
    decreases |log|
  {
    if log != [] {
      var init := log[..|log| - 1];
      assert forall r <- init :: r in log;
      ReplayElsewhere(t, init, k);
      assert log[|log| - 1] in log;
    }
  }

  lemma {:induction false} StackLocal(a: Table, c: Table, stack: seq<Record>, t: TxId)
    requires StackOk(a, stack, t)
    requires forall u <- stack :: u.Update? ==> Look(a, u.key) == Look(c, u.key)
    ensures StackOk(c, stack, t)
    decreases |stack|
  {
    if stack != [] {
      assert forall u <- Below(stack) :: u in stack;
      assert Top(stack) in stack;
      StackLocal(a, c, Below(stack), t);
      ReplayLocal(a, c, Below(stack), Top(stack).key);
    }
  }

  lemma {:induction false} StackUpdates(c: Table, stack: seq<Record>, t: TxId)
    requires StackOk(c, stack, t)
    ensures forall u <- stack :: u.Update? && u.tx == t
    decreases |stack|
  {
    if stack != [] {
      StackUpdates(c, Below(stack), t);
      forall u | u in stack ensures u.Update? && u.tx == t {
        assert u in Below(stack) || u == Top(stack);
      }
    }
  }

  // ---------- one record at a time ----------

  /** Overlaying is kept for `t` when its own description and the values of its keys do not change. */
  lemma OverlaidKept(b: nat, log: Log, r: Record, t: TxId)
    requires b <= |log| && Live(b, log, t) && Overlaid(b, log, t)
    requires Info(b, log + [r], t).stack == Info(b, log, t).stack
    requires Info(b, log + [r], t).keys == Info(b, log, t).keys
    requires forall k <- Info(b, log, t).keys ::
      && Look(Replay(map[], log + [r]), k) == Look(Replay(map[], log), k)
      && Look(Committed(b, log + [r]), k) == Look(Committed(b, log), k)
    ensures Overlaid(b, log + [r], t)
  {
    var i := Info(b, log, t);
    var c, c' := Committed(b, log), Committed(b, log + [r]);
    StackLocal(c, c', i.stack, t);
    forall k | k in i.keys ensures Look(Replay(map[], log + [r]), k) == Look(Replay(c', i.stack), k) {
      ReplayLocal(c, c', i.stack, k);
    }
  }

  /** Where the table and the committed table may change: only at keys of the record's own
      transaction. */
  lemma OthersUntouched(b: nat, log: Log, r: Record, k: Key)
    requires Coherent(b, log) && b <= |log| && CanAppend(b, log, r)
    requires k !in Info(b, log, TxOf(r)).keys
    requires r.Update? ==> r.key != k
    ensures Look(Replay(map[], log + [r]), k) == Look(Replay(map[], log), k)
    ensures Look(Committed(b, log + [r]), k) == Look(Committed(b, log), k)
  {
    ReplayAppend(map[], log, r);
    CommittedAppend(b, log, r);
    var i := Info(b, log, TxOf(r));
    if r.Commit? {
      assert Overlaid(b, log, r.tx);
      StackUpdates(Committed(b, log), i.stack, r.tx);
      ReplayElsewhere(Committed(b, log), i.stack, k);
    } else if r.Clr? {
      assert Overlaid(b, log, r.tx);
      assert Top(i.stack) in i.stack;
    }
  }

  lemma OverlaidOther(b: nat, log: Log, r: Record, t: TxId)
    requires Coherent(b, log) && b <= |log| && CanAppend(b, log, r)
    requires t != TxOf(r) && Live(b, log, t)
    ensures Overlaid(b, log + [r], t)
  {
    InfoAppend(b, log, r, t);
    forall k | k in Info(b, log, t).keys
      ensures Look(Replay(map[], log + [r]), k) == Look(Replay(map[], log), k)
      ensures Look(Committed(b, log + [r]), k) == Look(Committed(b, log), k)
    {
      assert Free(b, log, t, k);
      assert k !in Info(b, log, TxOf(r)).keys;
      OthersUntouched(b, log, r, k);
    }
    OverlaidKept(b, log, r, t);
  }


  /** The transaction that the record belongs to. */
  lemma OverlaidSelf(b: nat, log: Log, r: Record)
    requires Coherent(b, log) && b <= |log| && CanAppend(b, log, r)
    requires Live(b, log + [r], TxOf(r))
    ensures Overlaid(b, log + [r], TxOf(r))
  {
    var t := TxOf(r);
    InfoAppend(b, log, r, t);
    ReplayAppend(map[], log, r);
    CommittedAppend(b, log, r);
    var i := Info(b, log, t);
    var c := Committed(b, log);
    match r
    case Update(_, _, k, before, after) => OverlaidUpdate(b, log, r);
    case Clr(_, _, _, k, _, _) => OverlaidClr(b, log, r);
    case _ =>
  }

  /** An update that saw the present value goes on top of the stack. */
  lemma Push(c: Table, now: Table, i: TxInfo, r: Record, t: TxId)
    requires r.Update? && r.tx == t && StackOk(c, i.stack, t) && r.before == Look(now, r.key)
    requires forall u <- i.stack :: u.Update? ==> u.key in i.keys
    requires forall k <- i.keys :: Look(now, k) == Look(Replay(c, i.stack), k)
    requires r.key !in i.keys ==> Look(now, r.key) == Look(c, r.key)
    ensures StackOk(c, i.stack + [r], t)
    ensures forall u <- i.stack + [r] :: u.Update? ==> u.key in i.keys + {r.key}
    ensures forall k <- i.keys + {r.key} :: Look(Redo(now, r), k) == Look(Replay(c, i.stack + [r]), k)
  {
    StackUpdates(c, i.stack, t);
    assert Below(i.stack + [r]) == i.stack;
    ReplayAppend(c, i.stack, r);
    if r.key !in i.keys {
      ReplayElsewhere(c, i.stack, r.key);
    }
  }

  lemma OverlaidUpdate(b: nat, log: Log, r: Record)
    requires Coherent(b, log) && b <= |log| && CanAppend(b, log, r) && r.Update?
    ensures Overlaid(b, log + [r], r.tx)
  {
    hide Exclusive, RunningStack, Idle, NoZero, UpdatesOf, Replay, Redo, StackOk;
    var t := r.tx;
    InfoAppend(b, log, r, t);
    ReplayAppend(map[], log, r);
    CommittedAppend(b, log, r);
    var i := Info(b, log, t);
    assert Overlaid(b, log, t);
    if r.key !in i.keys {
      assert Free(b, log, 0, r.key);
    }
    Push(Committed(b, log), Replay(map[], log), i, r, t);
  }

  /** A compensation takes the newest update off the stack. */
  lemma Pop(c: Table, now: Table, i: TxInfo, r: Record, t: TxId)
    requires i.stack != [] && StackOk(c, i.stack, t) && r.Clr? && r == Compensation(Top(i.stack), r.prev)
    requires forall u <- i.stack :: u.Update? ==> u.key in i.keys
    requires forall k <- i.keys :: Look(now, k) == Look(Replay(c, i.stack), k)
    ensures StackOk(c, Below(i.stack), t)
    ensures forall u <- Below(i.stack) :: u.Update? ==> u.key in i.keys
    ensures forall k <- i.keys :: Look(Redo(now, r), k) == Look(Replay(c, Below(i.stack)), k)
  {
    var u := Top(i.stack);
    assert i.stack == Below(i.stack) + [u];
    ReplayAppend(c, Below(i.stack), u);
    assert u in i.stack;
  }

  lemma OverlaidClr(b: nat, log: Log, r: Record)
    requires Coherent(b, log) && b <= |log| && CanAppend(b, log, r) && r.Clr?
    ensures Overlaid(b, log + [r], r.tx)
  {
    hide Exclusive, Settled, RunningStack, Idle, NoZero, UpdatesOf, Replay, Redo, StackOk;
    var t := r.tx;
    InfoAppend(b, log, r, t);
    ReplayAppend(map[], log, r);
    CommittedAppend(b, log, r);
    assert Overlaid(b, log, t);
    Pop(Committed(b, log), Replay(map[], log), Info(b, log, t), r, t);
  }

  lemma SettledStep(b: nat, log: Log, r: Record)
    requires Coherent(b, log) && b <= |log| && CanAppend(b, log, r)
    ensures Settled(b, log + [r])
  {
    var t := TxOf(r);
    forall k: Key | Free(b, log + [r], 0, k)
      ensures Look(Replay(map[], log + [r]), k) == Look(Committed(b, log + [r]), k)
    {
      InfoAppend(b, log, r, t);
      forall u: TxId | u != 0 && u != t && Live(b, log, u) ensures k !in Info(b, log, u).keys {
        InfoAppend(b, log, r, u);
        assert Live(b, log + [r], u);
      }
      if k in Info(b, log, t).keys {
        SettledOwn(b, log, r, k);
      } else {
        assert Free(b, log, 0, k);
        assert r.Update? ==> Live(b, log + [r], t);
        OthersUntouched(b, log, r, k);
      }
    }
  }

  /** When a transaction ends, its keys hold their (new) committed values. */
  lemma SettledOwn(b: nat, log: Log, r: Record, k: Key)
    requires Coherent(b, log) && b <= |log| && CanAppend(b, log, r)
    requires k in Info(b, log, TxOf(r)).keys && !Live(b, log + [r], TxOf(r))
    ensures Look(Replay(map[], log + [r]), k) == Look(Committed(b, log + [r]), k)
  {
    InfoAppend(b, log, r, TxOf(r));
    ReplayAppend(map[], log, r);
    CommittedAppend(b, log, r);
    assert Overlaid(b, log, TxOf(r));
  }

  lemma BooksStep(b: nat, log: Log, r: Record)
    requires Coherent(b, log) && b <= |log| && CanAppend(b, log, r)
    ensures RunningStack(b, log + [r]) && Idle(b, log + [r]) && NoZero(b, log + [r])
  {
    forall t: TxId
      ensures Info(b, log + [r], t).phase == Running ==> Info(b, log + [r], t).stack == UpdatesOf(b, log + [r], t)
      ensures !Live(b, log + [r], t) ==>
        && Info(b, log + [r], t).keys == {} && Info(b, log + [r], t).stack == []
        && (Info(b, log + [r], t).phase == Unborn ==> UpdatesOf(b, log + [r], t) == [])
      ensures !Live(b, log + [r], 0)
    {
      InfoAppend(b, log, r, t);
      InfoAppend(b, log, r, 0);
      UpdatesAppend(b, log, r, t);
    }
  }

  lemma ExclusiveStep(b: nat, log: Log, r: Record)
    requires Coherent(b, log) && b <= |log| && CanAppend(b, log, r)
    ensures Exclusive(b, log + [r])
  {
    var ext := log + [r];
    forall t: TxId, k: Key, u: TxId
      | Live(b, ext, t) && k in Info(b, ext, t).keys && u != t && Live(b, ext, u)
      ensures k !in Info(b, ext, u).keys
    {
      InfoAppend(b, log, r, t);
      InfoAppend(b, log, r, u);
      if r.Update? && r.key == k {
        assert Free(b, log, r.tx, k);
      } else {
        assert k in Info(b, log, t).keys;
        assert Live(b, log, t);
        assert Free(b, log, t, k);
      }
    }
    forall t: TxId, k: Key | Live(b, ext, t) && k in Info(b, ext, t).keys ensures Free(b, ext, t, k) {
    }
  }

  lemma CoherentStep(b: nat, log: Log, r: Record)
    requires Coherent(b, log) && b <= |log| && CanAppend(b, log, r)
    ensures Coherent(b, log + [r])
  {
    forall t: TxId | Live(b, log + [r], t) ensures Overlaid(b, log + [r], t) {
      if t == TxOf(r) {
        OverlaidSelf(b, log, r);
      } else {
        InfoAppend(b, log, r, t);
        OverlaidOther(b, log, r, t);
      }
    }
    ExclusiveStep(b, log, r);
    SettledStep(b, log, r);
    BooksStep(b, log, r);
  }

  /** Theorem: every valid log is coherent. */
  lemma {:induction false} ValidIsCoherent(b: nat, log: Log)
    requires ValidLog(b, log)
    ensures Coherent(b, log)
    decreases |log|
  {
    if |log| == b {
    } else {
      ValidLast(b, log);
      ValidIsCoherent(b, log[..|log| - 1]);
      CoherentStep(b, log[..|log| - 1], log[|log| - 1]);
    }
  }
}
