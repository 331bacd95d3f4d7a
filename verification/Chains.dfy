/** The `prev_lsn` and `undo_next_lsn` chains of a valid log, and the balance of updates against
    compensations. */
module Chains {
  import opened Table
  import opened LogRecord
  import opened LogProtocol
  import opened Coherence

  /** From `cur`, the `prev` links visit exactly the updates of `stack`, newest first, each link
      leading strictly down, and end at the BEGIN of `t`. */
  ghost predicate Linked(log: Log, cur: Lsn, stack: seq<Record>, t: TxId)
    decreases |stack|
  {
    && Has(log, cur) && !At(log, cur).Check?
    && At(log, cur).tx == t
    && if stack == [] then At(log, cur).Begin?
       else At(log, cur) == Top(stack) && Top(stack).Update? && Top(stack).prev < cur
            && Linked(log, Top(stack).prev, Below(stack), t)
  }

  /** Where undo resumes after a record of a transaction already rolling back. */
  function ResumeAt(r: Record): Lsn {
    match r
    case Abort(prev, _) => prev
    case Clr(_, _, next, _, _, _) => next
    case _ => 0
  }

  ghost predicate ChainOk(b: nat, log: Log, t: TxId) {
    var i := Info(b, log, t);
    && Has(log, i.last) && TxOf(At(log, i.last)) == t && i.cursor <= i.last
    && Linked(log, i.cursor, i.stack, t)
    && (i.phase == Running ==> i.cursor == i.last)
    && (i.phase == Aborting ==> ResumeAt(At(log, i.last)) == i.cursor && i.cursor < i.last)
  }

  ghost predicate Chained(b: nat, log: Log) {
    forall t: TxId :: Live(b, log, t) ==> ChainOk(b, log, t)
  }

  /** Every link of the record leads strictly down, and `prev` stays within the transaction. */
  predicate LinksDown(log: Log, l: Lsn)
    requires Has(log, l)
  {
    var r := At(log, l);
    && PrevOf(r) < l
    && (r.Clr? ==> r.undoNext < l && Has(log, r.undoNext) && TxOf(At(log, r.undoNext)) == TxOf(r))
    && (r.Begin? ==> r.prev == 0)
    && (!r.Begin? && !r.Check? ==> Has(log, r.prev) && TxOf(At(log, r.prev)) == TxOf(r))
  }

  /** Every record of the present run links to the newest record of its transaction, as a server that
      is up writes them. Recovery itself does not: its END links to the BEGIN. */
  ghost predicate OnlineLinked(b: nat, log: Log) {
    forall n | b <= n < |log| && !log[n].Begin? && !log[n].Check? ::
      PrevOf(log[n]) == Info(b, log[..n], TxOf(log[n])).last
  }

  lemma {:induction false} LinkedAppend(log: Log, ext: Log, cur: Lsn, stack: seq<Record>, t: TxId)
    requires Linked(log, cur, stack, t) && log <= ext
    ensures Linked(ext, cur, stack, t)
    decreases |stack|
  {
    if stack != [] {
      LinkedAppend(log, ext, Top(stack).prev, Below(stack), t);
    }
  }

  lemma ChainKept(b: nat, log: Log, r: Record, t: TxId)
    requires Coherent(b, log) && Chained(b, log) && b <= |log| && CanAppend(b, log, r)
    requires Live(b, log + [r], t)
    ensures ChainOk(b, log + [r], t)
  {
    hide AllOverlaid, Exclusive, Settled, RunningStack, Free, Replay;
    InfoAppend(b, log, r, t);
    if t != TxOf(r) || !r.Begin? {
      var i := Info(b, log, t);
      assert Live(b, log, t) && ChainOk(b, log, t);
      LinkedAppend(log, log + [r], i.cursor, i.stack, t);
      if t == TxOf(r) && r.Update? {
        assert Below(i.stack + [r]) == i.stack;
      }
    }
  }

  lemma NewLinkDown(b: nat, log: Log, r: Record)
    requires Coherent(b, log) && Chained(b, log) && b <= |log| && CanAppend(b, log, r)
    ensures LinksDown(log + [r], |log| + 1)
  {
    hide AllOverlaid, Exclusive, Settled, RunningStack, Free, Replay;
    if !r.Begin? && !r.Check? {
      var i := Info(b, log, r.tx);
      assert ChainOk(b, log, r.tx);
      if r.Clr? {
        assert Linked(log, r.undoNext, Below(i.stack), r.tx);
      }
    }
  }

  lemma ChainedStep(b: nat, log: Log, r: Record)
    requires Coherent(b, log) && Chained(b, log) && b <= |log| && CanAppend(b, log, r)
    ensures Chained(b, log + [r]) && LinksDown(log + [r], |log| + 1)
  {
    hide Coherent, CanAppend, ChainOk, LinksDown, Info;
    NewLinkDown(b, log, r);
    forall t: TxId | Live(b, log + [r], t) ensures ChainOk(b, log + [r], t) {
      ChainKept(b, log, r, t);
    }
  }

  /** Theorem: in a valid log every unfinished transaction's chain leads strictly down through
      exactly its undoable updates to its BEGIN, and every record links down within its own
      transaction. So both undo loops end. */
  lemma {:induction false} ValidIsChained(b: nat, log: Log)
    requires ValidLog(b, log)
    ensures Chained(b, log)
    ensures forall l | b < l <= |log| :: LinksDown(log, l)
    decreases |log|
  {
    hide ChainOk, Coherent, CanAppend;
    if |log| > b {
      ValidLast(b, log);
      var init := log[..|log| - 1];
      ValidIsChained(b, init);
      ValidIsCoherent(b, init);
      ChainedStep(b, init, log[|log| - 1]);
      forall l | b < l <= |log| ensures LinksDown(log, l) {
        assert l < |log| ==> LinksDown(init, l);
      }
    }
  }

  // ---------- updates against compensations ----------

  predicate HasAbort(b: nat, log: Log, t: TxId) {
    exists n | b <= n < |log| :: log[n].Abort? && log[n].tx == t
  }

  ghost predicate Undoes(c: Record, u: Record) {
    u.Update? && c.Clr? && c == Compensation(u, c.prev)
  }

  /** The compensations `cs` undo the newest of the updates `us`, newest first, one each; the stack
      holds the rest. */
  ghost predicate Balance(i: TxInfo, us: Log, cs: Log, aborted: bool) {
    if aborted then
      && i.phase in {Aborting, Done}
      && |cs| + |i.stack| == |us| && i.stack == us[..|i.stack|]
      && forall n | 0 <= n < |cs| :: Undoes(cs[n], us[|us| - 1 - n])
    else
      cs == [] && i.phase != Aborting && (i.phase == Running ==> i.stack == us)
               && (i.phase == Unborn ==> us == [])
  }

  ghost predicate Balanced(b: nat, log: Log, t: TxId) {
    Balance(Info(b, log, t), UpdatesOf(b, log, t), ClrsOf(b, log, t), HasAbort(b, log, t))
  }

  lemma HasAbortAppend(b: nat, log: Log, r: Record, t: TxId)
    requires b <= |log|
    ensures HasAbort(b, log + [r], t) <==> HasAbort(b, log, t) || (r.Abort? && r.tx == t)
  {
    var ext := log + [r];
    if HasAbort(b, log, t) {
      var n :| b <= n < |log| && log[n].Abort? && log[n].tx == t;
      assert ext[n].Abort? && ext[n].tx == t;
    }
    if r.Abort? && r.tx == t {
      assert ext[|log|].Abort? && ext[|log|].tx == t;
    }
    if HasAbort(b, ext, t) {
      var n :| b <= n < |ext| && ext[n].Abort? && ext[n].tx == t;
      assert n < |log| ==> log[n].Abort? && log[n].tx == t;
    }
  }

  lemma BalanceClr(i: TxInfo, us: Log, cs: Log, r: Record, l: Lsn)
    requires Balance(i, us, cs, true) && i.phase == Aborting && i.stack != [] && Top(i.stack).Update?
    requires r.Clr? && r == Compensation(Top(i.stack), r.prev)
    ensures Balance(Advance(i, r, l), us, cs + [r], true)
  {
    assert Top(i.stack) == us[|i.stack| - 1];
    assert Below(i.stack) == us[..|i.stack| - 1];
  }

  lemma BalancedStep(b: nat, log: Log, r: Record, t: TxId)
    requires b <= |log| && CanAppend(b, log, r) && Balanced(b, log, t)
    requires !Live(b, log, t) ==> Info(b, log, t).stack == []
    ensures Balanced(b, log + [r], t)
  {
    InfoAppend(b, log, r, t);
    UpdatesAppend(b, log, r, t);
    HasAbortAppend(b, log, r, t);
    if TxOf(r) == t && r.Clr? {
      BalanceClr(Info(b, log, t), UpdatesOf(b, log, t), ClrsOf(b, log, t), r, |log| + 1);
    }
  }

  lemma {:induction false} ValidIsBalanced(b: nat, log: Log, t: TxId)
    requires ValidLog(b, log)
    ensures Balanced(b, log, t)
    decreases |log|
  {
    if |log| > b {
      ValidLast(b, log);
      var init := log[..|log| - 1];
      ValidIsBalanced(b, init, t);
      ValidIsCoherent(b, init);
      BalancedStep(b, init, log[|log| - 1], t);
    }
  }

  /** Theorem: however often rollback or recovery was cut short and resumed, a transaction that was
      aborted and is finished has exactly one compensation for each of its updates, in reverse. */
  lemma OneCompensationPerUpdate(b: nat, log: Log, t: TxId)
    requires ValidLog(b, log) && HasAbort(b, log, t) && !Live(b, log, t)
    ensures |ClrsOf(b, log, t)| == |UpdatesOf(b, log, t)|
    ensures forall n | 0 <= n < |UpdatesOf(b, log, t)| ::
              Undoes(ClrsOf(b, log, t)[n], UpdatesOf(b, log, t)[|UpdatesOf(b, log, t)| - 1 - n])
  {
    ValidIsBalanced(b, log, t);
    ValidIsCoherent(b, log);
  }
}
