/** Crash recovery over any valid log. */
module RecoveryProof {
  import opened Table
  import opened LogRecord
  import opened LogProtocol
  import opened Coherence
  import opened Chains
  import opened RecoverySpec

  // ---------- analysis ----------

  /** The list entry told the truth: where the scan starts, the transaction was running and the
      entry named its newest record. */
  ghost predicate EntryOk(b: nat, log: Log, c: Lsn, e: Ongoing) {
    var s := ScanStart(c, e);
    && b <= s <= |log|
    && Info(b, log[..s], e.tx).phase == Running
    && Info(b, log[..s], e.tx).last == e.last
  }

  /** The entry of a CHECK record that ends the log `pre`: it names the newest record of its
      transaction, or the one before when the transaction has logged its COMMIT or ABORT and the
      checkpoint came before `last_lsn` was moved on. */
  ghost predicate Truthful(b: nat, pre: Log, e: Ongoing) {
    var i := Info(b, pre, e.tx);
    && i.phase != Unborn && Has(pre, i.last)
    && (e.last == i.last || (i.phase != Running && e.last == PrevOf(At(pre, i.last))))
  }

  /** Every transaction that was unfinished then is listed, with its newest record. */
  ghost predicate Complete(b: nat, pre: Log, list: seq<Ongoing>) {
    forall t: TxId :: Live(b, pre, t) ==> Ongoing(t, Info(b, pre, t).last) in list
  }

  predicate DistinctTxs(list: seq<Ongoing>) {
    forall i, j | 0 <= i < j < |list| :: list[i].tx != list[j].tx
  }

  /** The scan has kept up with the transaction. */
  ghost predicate Agrees(a: Analysis, i: TxInfo) {
    && !a.finished
    && a.last == i.last
    && i.phase == if a.abortSeen then Aborting else Running
  }

  lemma InfoAt(b: nat, log: Log, n: nat, t: TxId)
    requires b <= n < |log|
    ensures Info(b, log[..n + 1], t)
         == if TxOf(log[n]) == t then Advance(Info(b, log[..n], t), log[n], n + 1) else Info(b, log[..n], t)
  {
    assert log[..n + 1] == log[..n] + [log[n]];
    InfoAppend(b, log[..n], log[n], t);
  }

  lemma ValidAt(b: nat, log: Log, m: nat)
    requires ValidLog(b, log) && b <= m < |log|
    ensures CanAppend(b, log[..m], log[m])
  {
  }

  /** Once finished, a transaction writes no more. */
  lemma {:induction false} DoneStays(b: nat, log: Log, n: nat, t: TxId)
    requires ValidLog(b, log) && b <= n <= |log| && Info(b, log[..n], t).phase == Done && t != 0
    ensures Info(b, log, t).phase == Done
    decreases |log| - n
  {
    if n == |log| {
      assert log[..n] == log;
    } else {
      assert CanAppend(b, log[..n], log[n]);
      InfoAt(b, log, n, t);
      DoneStays(b, log, n + 1, t);
    }
  }

  lemma {:induction false} LastInside(b: nat, log: Log, t: TxId)
    ensures Info(b, log, t).last <= |log|
    decreases |log|
  {
    if |log| > b {
      LastInside(b, log[..|log| - 1], t);
    }
  }

  /** The newest record of a transaction that has begun is in the log and links back. */
  lemma {:induction false} LastLinksBack(b: nat, log: Log, t: TxId)
    requires ValidLog(b, log) && Info(b, log, t).phase != Unborn
    ensures Has(log, Info(b, log, t).last) && TxOf(At(log, Info(b, log, t).last)) == t
    ensures PrevOf(At(log, Info(b, log, t).last)) <= |log|
    decreases |log|
  {
    if |log| > b {
      hide Info, ValidLog, Free, Replay, Look;
      ValidLast(b, log);
      var init, r := log[..|log| - 1], log[|log| - 1];
      InfoAppend(b, init, r, t);
      if TxOf(r) == t && !r.Check? {
        LastInside(b, init, t);
      } else {
        LastLinksBack(b, init, t);
      }
    }
  }

  /** The scan ends up knowing the transaction's true state. */
  lemma {:induction false} AnalyseFollows(b: nat, log: Log, from: Lsn, t: TxId, a: Analysis)
    requires ValidLog(b, log) && b <= from <= |log| && t != 0
    requires Agrees(a, Info(b, log[..from], t))
    ensures var z := Analyse(log, from, t, a);
            if z.finished then Info(b, log, t).phase == Done else Agrees(z, Info(b, log, t))
    decreases |log| - from
  {
    if from == |log| {
      assert log[..from] == log;
    } else {
      assert CanAppend(b, log[..from], log[from]);
      InfoAt(b, log, from, t);
      var a' := Observe(a, At(log, from + 1), from + 1, t);
      if a'.finished {
        DoneStays(b, log, from + 1, t);
      } else {
        AnalyseFollows(b, log, from + 1, t, a');
      }
    }
  }

  lemma LiveNotZero(b: nat, log: Log, t: TxId)
    requires ValidLog(b, log) && Live(b, log, t)
    ensures t != 0
  {
    ValidIsCoherent(b, log);
  }

  lemma EntryFollows(b: nat, log: Log, c: Lsn, e: Ongoing)
    requires ValidLog(b, log) && EntryOk(b, log, c, e)
    ensures e.tx != 0
    ensures var z := AnalyseEntry(log, c, e);
            if z.finished then Info(b, log, e.tx).phase == Done else Agrees(z, Info(b, log, e.tx))
  {
    var s := ScanStart(c, e);
    ValidPrefix(b, log, s);
    LiveNotZero(b, log[..s], e.tx);
    AnalyseFollows(b, log, s, e.tx, Analysis(e.last, false, false));
  }

  /** A scan that saw the end sees it in every longer log. */
  lemma {:induction false} FinishedStays(log: Log, ext: Log, from: Lsn, t: TxId, a: Analysis)
    requires log <= ext && !a.finished && Analyse(log, from, t, a).finished
    ensures Analyse(ext, from, t, a).finished
    decreases |log| - from
  {
    if Has(log, from + 1) {
      var a' := Observe(a, At(log, from + 1), from + 1, t);
      if !a'.finished {
        FinishedStays(log, ext, from + 1, t, a');
      }
    }
  }

  // ---------- undoing one transaction ----------

  /** `ext` is `log` with rollback records of the transactions in `ts` appended. */
  ghost predicate RollsBack(log: Log, ext: Log, ts: set<TxId>) {
    && log <= ext
    && forall n | |log| <= n < |ext| :: (ext[n].Abort? || ext[n].Clr? || ext[n].End?) && ext[n].tx in ts
  }

  /** Rollback records change neither the other transactions nor the committed table. */
  lemma {:induction false} RollsBackKeeps(b: nat, log: Log, ext: Log, ts: set<TxId>)
    requires b <= |log| && RollsBack(log, ext, ts)
    ensures Committed(b, ext) == Committed(b, log)
    ensures forall t: TxId | t !in ts :: Info(b, ext, t) == Info(b, log, t)
    decreases |ext|
  {
    if |ext| > |log| {
      var init := ext[..|ext| - 1];
      assert ext == init + [ext[|ext| - 1]];
      RollsBackKeeps(b, log, init, ts);
      CommittedAppend(b, init, ext[|ext| - 1]);
      forall t: TxId | t !in ts ensures Info(b, ext, t) == Info(b, log, t) {
        InfoAppend(b, init, ext[|ext| - 1], t);
      }
    } else {
      assert ext == log;
    }
  }

  lemma RollsBackMore(log: Log, mid: Log, ext: Log, ts: set<TxId>)
    requires RollsBack(log, mid, ts) && RollsBack(mid, ext, ts)
    ensures RollsBack(log, ext, ts)
  {
    forall n | |log| <= n < |ext| ensures (ext[n].Abort? || ext[n].Clr? || ext[n].End?) && ext[n].tx in ts {
      if n < |mid| {
        assert ext[n] == mid[n];
      }
    }
  }

  lemma RollsBackOne(log: Log, r: Record)
    requires r.Abort? || r.Clr? || r.End?
    ensures RollsBack(log, log + [r], {r.tx})
  {
  }

  /** A transaction in the middle of its rollback, with `cur` the next record to undo. */
  ghost predicate MidRollback(b: nat, log: Log, cur: Lsn, last: Lsn, t: TxId) {
    var i := Info(b, log, t);
    && ValidLog(b, log) && t != 0
    && i.phase == Aborting && cur == i.cursor && Linked(log, cur, i.stack, t)
    && Has(log, last) && TxOf(At(log, last)) == t
  }

  /** `o` is `log` with `t` rolled back to its END. */
  ghost predicate Finishes(b: nat, log: Log, o: Outcome, t: TxId) {
    o.ok && RollsBack(log, o.log, {t}) && ValidLog(b, o.log) && Info(b, o.log, t).phase == Done
  }

  lemma UndoWalkEnd(b: nat, log: Log, cur: Lsn, last: Lsn, t: TxId)
    requires MidRollback(b, log, cur, last, t) && Info(b, log, t).stack == []
    ensures UndoWalk(log, cur, last, t) == Outcome(log + [End(cur, t)], true)
    ensures ValidLog(b, log + [End(cur, t)]) && Info(b, log + [End(cur, t)], t).phase == Done
  {
    ValidAppend(b, log, End(cur, t));
    InfoAppend(b, log, End(cur, t), t);
  }

  lemma UndoWalkStep(b: nat, log: Log, cur: Lsn, last: Lsn, t: TxId)
    requires MidRollback(b, log, cur, last, t) && Info(b, log, t).stack != []
    ensures Top(Info(b, log, t).stack).Update? && Top(Info(b, log, t).stack).tx == t
    ensures var u := Top(Info(b, log, t).stack);
            var l1 := log + [Compensation(u, last)];
            && UndoWalk(log, cur, last, t) == UndoWalk(l1, u.prev, |log| + 1, t)
            && MidRollback(b, l1, u.prev, |log| + 1, t)
            && Info(b, l1, t).stack == Below(Info(b, log, t).stack)
  {
    var i := Info(b, log, t);
    var u := Top(i.stack);
    var r := Compensation(u, last);
    ValidAppend(b, log, r);
    InfoAppend(b, log, r, t);
    LinkedAppend(log, log + [r], u.prev, Below(i.stack), t);
  }

  lemma {:induction false} UndoWalkOk(b: nat, log: Log, cur: Lsn, last: Lsn, t: TxId)
    requires MidRollback(b, log, cur, last, t)
    ensures Finishes(b, log, UndoWalk(log, cur, last, t), t)
    decreases |Info(b, log, t).stack|
  {
    hide MidRollback, UndoWalk, Info, ValidLog, Linked, RollsBack;
    var i := Info(b, log, t);
    if i.stack == [] {
      UndoWalkEnd(b, log, cur, last, t);
      RollsBackOne(log, End(cur, t));
    } else {
      UndoWalkStep(b, log, cur, last, t);
      var u := Top(i.stack);
      var l1 := log + [Compensation(u, last)];
      UndoWalkOk(b, l1, u.prev, |log| + 1, t);
      RollsBackOne(log, Compensation(u, last));
      RollsBackMore(log, l1, UndoWalk(l1, u.prev, |log| + 1, t).log, {t});
    }
  }

  /** The analysis has the transaction's true last LSN, abort flag and end flag. */
  ghost predicate Right(a: Analysis, i: TxInfo) {
    if a.finished then i.phase == Done else Agrees(a, i)
  }

  /** Undo goes on where it was interrupted. */
  lemma ResumeFinishes(b: nat, log: Log, t: TxId)
    requires ValidLog(b, log) && t != 0 && Info(b, log, t).phase == Aborting
    ensures var last := Info(b, log, t).last;
            Has(log, last) && ResumeAt(At(log, last)) == Info(b, log, t).cursor
    ensures Finishes(b, log, UndoWalk(log, Info(b, log, t).cursor, Info(b, log, t).last, t), t)
  {
    ValidIsChained(b, log);
    assert ChainOk(b, log, t);
    hide ValidLog, UndoWalk;
    UndoWalkOk(b, log, Info(b, log, t).cursor, Info(b, log, t).last, t);
  }

  /** Undo starts with an ABORT of its own. */
  lemma AbortFinishes(b: nat, log: Log, t: TxId)
    requires ValidLog(b, log) && t != 0 && Info(b, log, t).phase == Running
    ensures var last := Info(b, log, t).last;
            Finishes(b, log, UndoWalk(log + [Abort(last, t)], |log| + 1, last, t), t)
  {
    var i := Info(b, log, t);
    var r := Abort(i.last, t);
    var l1 := log + [r];
    ValidIsChained(b, log);
    assert ChainOk(b, log, t);
    ValidAppend(b, log, r);
    InfoAppend(b, log, r, t);
    LinkedAppend(log, l1, i.cursor, i.stack, t);
    assert UndoWalk(l1, |log| + 1, i.last, t) == UndoWalk(l1, i.last, i.last, t);
    hide ValidLog, UndoWalk, Linked;
    UndoWalkOk(b, l1, i.cursor, i.last, t);
    RollsBackOne(log, r);
    RollsBackMore(log, l1, UndoWalk(l1, i.cursor, i.last, t).log, {t});
  }

  /** A transaction whose analysis is right is finished by recovery. */
  lemma RightIsRecovered(b: nat, log: Log, c: Lsn, e: Ongoing)
    requires ValidLog(b, log) && e.tx != 0 && Right(AnalyseEntry(log, c, e), Info(b, log, e.tx))
    ensures Finishes(b, log, RecoverTx(log, c, e), e.tx)
  {
    hide ValidLog, Info, UndoWalk, RollsBack;
    var a := AnalyseEntry(log, c, e);
    if !a.finished {
      if a.abortSeen {
        ResumeFinishes(b, log, e.tx);
      } else {
        AbortFinishes(b, log, e.tx);
      }
    } else {
      RollsBackNothing(log, {e.tx});
    }
  }

  lemma RollsBackNothing(log: Log, ts: set<TxId>)
    ensures RollsBack(log, log, ts)
  {
  }

  lemma RecoverTxOk(b: nat, log: Log, c: Lsn, e: Ongoing)
    requires ValidLog(b, log) && EntryOk(b, log, c, e)
    ensures Finishes(b, log, RecoverTx(log, c, e), e.tx)
  {
    EntryFollows(b, log, c, e);
    RightIsRecovered(b, log, c, e);
  }

  // ---------- undoing the whole list ----------

  /** The entry either told the truth or belongs to a transaction that the scan sees finished. */
  ghost predicate Known(b: nat, log: Log, c: Lsn, e: Ongoing) {
    ScanStart(c, e) <= |log| && (EntryOk(b, log, c, e) || AnalyseEntry(log, c, e).finished)
  }

  ghost predicate ListOk(b: nat, log: Log, c: Lsn, list: seq<Ongoing>) {
    forall e <- list :: Known(b, log, c, e)
  }

  lemma KnownStays(b: nat, log: Log, ext: Log, c: Lsn, e: Ongoing)
    requires Known(b, log, c, e) && log <= ext
    ensures Known(b, ext, c, e)
    ensures EntryOk(b, ext, c, e) <==> EntryOk(b, log, c, e)
  {
    var s := ScanStart(c, e);
    assert ext[..s] == log[..s];
    if !EntryOk(b, log, c, e) {
      FinishedStays(log, ext, s, e.tx, Analysis(e.last, false, false));
    }
  }

  lemma ListOkStays(b: nat, log: Log, ext: Log, c: Lsn, list: seq<Ongoing>)
    requires ListOk(b, log, c, list) && log <= ext
    ensures ListOk(b, ext, c, list)
    ensures Covered(b, ext, c, list) == Covered(b, log, c, list)
  {
    forall e | e in list ensures Known(b, ext, c, e) && (EntryOk(b, ext, c, e) <==> EntryOk(b, log, c, e)) {
      KnownStays(b, log, ext, c, e);
    }
  }

  /** The listed transactions that recovery is responsible for. */
  ghost function Covered(b: nat, log: Log, c: Lsn, list: seq<Ongoing>): set<TxId> {
    set e | e in list && EntryOk(b, log, c, e) :: e.tx
  }

  lemma CoveredRest(b: nat, log: Log, c: Lsn, list: seq<Ongoing>)
    requires list != []
    ensures Covered(b, log, c, list)
         == Covered(b, log, c, list[1..]) + if EntryOk(b, log, c, list[0]) then {list[0].tx} else {}
  {
    var rest := list[1..];
    assert forall e :: e in list <==> e == list[0] || e in rest;
  }

  lemma {:induction false} RecoverAllOk(b: nat, log: Log, c: Lsn, list: seq<Ongoing>)
    requires ValidLog(b, log) && ListOk(b, log, c, list)
    ensures var o := RecoverAll(log, c, list);
            && o.ok && RollsBack(log, o.log, Covered(b, log, c, list)) && ValidLog(b, o.log)
            && forall t <- Covered(b, log, c, list) :: Info(b, o.log, t).phase == Done
    decreases |list|
  {
    if list != [] {
      var e, rest := list[0], list[1..];
      assert Known(b, log, c, e);
      CoveredRest(b, log, c, list);
      var o := RecoverTx(log, c, e);
      if EntryOk(b, log, c, e) {
        RecoverTxOk(b, log, c, e);
        EntryFollows(b, log, c, e);
      }
      assert ListOk(b, log, c, rest) by { assert forall x <- rest :: x in list; }
      ListOkStays(b, log, o.log, c, rest);
      RecoverAllOk(b, o.log, c, rest);
      var z := RecoverAll(o.log, c, rest).log;
      RollsBackWider(log, o.log, if EntryOk(b, log, c, e) then {e.tx} else {}, Covered(b, log, c, list));
      RollsBackWider(o.log, z, Covered(b, log, c, rest), Covered(b, log, c, list));
      RollsBackMore(log, o.log, z, Covered(b, log, c, list));
      if EntryOk(b, log, c, e) {
        assert z[..|o.log|] == o.log;
        DoneStays(b, z, |o.log|, e.tx);
      }
    }
  }

  lemma RollsBackWider(log: Log, ext: Log, ts: set<TxId>, us: set<TxId>)
    requires RollsBack(log, ext, ts) && ts <= us
    ensures RollsBack(log, ext, us)
  {
  }
}
