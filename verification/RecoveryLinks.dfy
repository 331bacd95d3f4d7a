/** Which record every record that recovery writes links to, in terms of what the log before it says of its
    transaction. */
module RecoveryLinks {
  import opened Table
  import opened LogRecord
  import opened LogProtocol
  import opened Chains
  import opened RecoverySpec
  import opened RecoveryProof
  import opened UncleanCheckpoint
  import opened UncleanRecovery

  /** The record before index `n` is an ABORT of `t` that this recovery, which started at length `base`,
      has written. */
  predicate OwnAbort(base: nat, ext: Log, n: nat, t: TxId)
    requires n <= |ext|
  {
    n > base && ext[n - 1] == Abort(PrevOf(ext[n - 1]), t)
  }

  /** The newest record of `t` before index `n`; but the first compensation after recovery's own ABORT
      links past it, to the record that the ABORT links to. */
  function NewestBut(b: nat, base: nat, ext: Log, n: nat, t: TxId): Lsn
    requires n <= |ext|
  {
    if OwnAbort(base, ext, n, t) then PrevOf(ext[n - 1]) else Info(b, ext[..n], t).last
  }

  /** The record at index `n` is one that recovery writes, with the right link: an ABORT to the newest
      record, a CLR to the newest but for recovery's own ABORT, an END to the BEGIN. */
  ghost predicate LinkedRight(b: nat, base: nat, ext: Log, n: nat)
    requires n < |ext|
  {
    match ext[n]
    case Abort(prev, t) => prev == Info(b, ext[..n], t).last
    case Clr(prev, t, _, _, _, _) => prev == NewestBut(b, base, ext, n, t)
    case End(prev, t) => Has(ext[..n], prev) && At(ext, prev).Begin?
    case _ => false
  }

  ghost predicate AllLinkedRight(b: nat, base: nat, log: Log, ext: Log) {
    log <= ext && forall n | |log| <= n < |ext| :: LinkedRight(b, base, ext, n)
  }

  lemma LinkedRightStays(b: nat, base: nat, ext: Log, more: Log, n: nat)
    requires n < |ext| && ext <= more && LinkedRight(b, base, ext, n)
    ensures LinkedRight(b, base, more, n)
  {
    hide Info;
    assert more[..n] == ext[..n];
  }

  lemma LinksMore(b: nat, base: nat, log: Log, mid: Log, ext: Log)
    requires AllLinkedRight(b, base, log, mid) && AllLinkedRight(b, base, mid, ext)
    ensures AllLinkedRight(b, base, log, ext)
  {
    hide LinkedRight;
    forall n | |log| <= n < |ext| ensures LinkedRight(b, base, ext, n) {
      if n < |mid| {
        LinkedRightStays(b, base, mid, ext, n);
      }
    }
  }

  lemma LinksOne(b: nat, base: nat, log: Log, r: Record)
    requires LinkedRight(b, base, log + [r], |log|)
    ensures AllLinkedRight(b, base, log, log + [r])
  {
  }

  /** `last` is what the next compensation of `t` has to link to. */
  predicate NextLink(b: nat, base: nat, log: Log, last: Lsn, t: TxId) {
    last == NewestBut(b, base, log, |log|, t)
  }

  lemma ClrLinks(b: nat, base: nat, log: Log, clr: Record)
    requires b <= base <= |log| && clr.Clr? && NextLink(b, base, log, clr.prev, clr.tx)
    ensures AllLinkedRight(b, base, log, log + [clr]) && NextLink(b, base, log + [clr], |log| + 1, clr.tx)
  {
    hide Info;
    var l1 := log + [clr];
    assert l1[..|log|] == log && l1[..|l1|] == l1 && log[..|log|] == log;
    InfoAppend(b, log, clr, clr.tx);
    LinksOne(b, base, log, clr);
  }

  lemma EndLinks(b: nat, base: nat, log: Log, cur: Lsn, t: TxId)
    requires Has(log, cur) && At(log, cur).Begin?
    ensures AllLinkedRight(b, base, log, log + [End(cur, t)])
  {
    hide Info;
    var l1 := log + [End(cur, t)];
    assert l1[..|log|] == log && At(l1, cur) == At(log, cur);
    LinksOne(b, base, log, End(cur, t));
  }

  /** A log that recovery of one transaction has left: no ABORT of its own is the last record. */
  predicate Rests(base: nat, log: Log) {
    |log| > base ==> log[|log| - 1].End?
  }

  lemma {:induction false} WalkLinks(b: nat, base: nat, log: Log, cur: Lsn, last: Lsn, t: TxId)
    requires b <= base <= |log| && NextLink(b, base, log, last, t)
    ensures var o := UndoWalk(log, cur, last, t);
            AllLinkedRight(b, base, log, o.log) && (o.ok ==> Rests(base, o.log))
    decreases cur
  {
    hide AllLinkedRight, NextLink;
    if Has(log, cur) {
      var r := At(log, cur);
      if r.Begin? {
        EndLinks(b, base, log, cur, t);
      } else if PrevOf(r) < cur {
        if r.Update? {
          var clr := Clr(last, t, r.prev, r.key, r.after, r.before);
          ClrLinks(b, base, log, clr);
          WalkLinks(b, base, log + [clr], r.prev, |log| + 1, t);
          LinksMore(b, base, log, log + [clr], UndoWalk(log, cur, last, t).log);
        } else {
          WalkLinks(b, base, log, PrevOf(r), last, t);
        }
      } else {
        LinksNone(b, base, log);
      }
    } else {
      LinksNone(b, base, log);
    }
  }

  lemma LinksNone(b: nat, base: nat, log: Log)
    ensures AllLinkedRight(b, base, log, log)
  {
  }

  /** A scan that starts from the newest record and sees no end of the transaction finds its newest
      record. */
  lemma {:induction false} ScanFindsNewest(b: nat, log: Log, from: Lsn, t: TxId, a: Analysis)
    requires b <= from <= |log| && t != 0 && a.last == Info(b, log[..from], t).last
    ensures var z := Analyse(log, from, t, a); z.finished || z.last == Info(b, log, t).last
    decreases |log| - from
  {
    if from == |log| {
      assert log[..from] == log;
    } else {
      InfoAt(b, log, from, t);
      hide Info;
      var a' := Observe(a, At(log, from + 1), from + 1, t);
      if !a'.finished {
        ScanFindsNewest(b, log, from + 1, t, a');
      }
    }
  }

  /** The entry names the newest record of its transaction at the place where the scan starts. */
  predicate Newest(b: nat, log: Log, c: Lsn, e: Ongoing) {
    var s := ScanStart(c, e);
    b <= s <= |log| && e.tx != 0 && e.last == Info(b, log[..s], e.tx).last
  }

  lemma AbortLinks(b: nat, base: nat, log: Log, last: Lsn, t: TxId)
    requires b <= base <= |log| && last == Info(b, log, t).last
    ensures AllLinkedRight(b, base, log, log + [Abort(last, t)])
    ensures NextLink(b, base, log + [Abort(last, t)], last, t)
  {
    hide Info;
    var l1 := log + [Abort(last, t)];
    assert l1[..|log|] == log;
    LinksOne(b, base, log, Abort(last, t));
  }

  lemma RecoverTxLinks(b: nat, base: nat, log: Log, c: Lsn, e: Ongoing)
    requires b <= base <= |log| && Rests(base, log)
    requires Newest(b, log, c, e) || AnalyseEntry(log, c, e).finished
    ensures var o := RecoverTx(log, c, e);
            AllLinkedRight(b, base, log, o.log) && (o.ok ==> Rests(base, o.log))
  {
    hide AllLinkedRight, UndoWalk, Info;
    var a := AnalyseEntry(log, c, e);
    LinksNone(b, base, log);
    if !a.finished {
      ScanFindsNewest(b, log, ScanStart(c, e), e.tx, Analysis(e.last, false, false));
      if !a.abortSeen {
        var l1 := log + [Abort(a.last, e.tx)];
        AbortLinks(b, base, log, a.last, e.tx);
        WalkLinks(b, base, l1, |log| + 1, a.last, e.tx);
        LinksMore(b, base, log, l1, UndoWalk(l1, |log| + 1, a.last, e.tx).log);
      } else if Has(log, a.last) {
        var r := At(log, a.last);
        assert log[..|log|] == log;
        WalkLinks(b, base, log, if r.Abort? then r.prev else if r.Clr? then r.undoNext else 0, a.last, e.tx);
      }
    }
  }

  lemma {:induction false} RecoverAllLinks(b: nat, base: nat, log: Log, c: Lsn, list: seq<Ongoing>)
    requires b <= base <= |log| && Rests(base, log)
    requires forall e <- list :: Newest(b, log, c, e) || AnalyseEntry(log, c, e).finished
    ensures AllLinkedRight(b, base, log, RecoverAll(log, c, list).log)
    decreases |list|
  {
    hide AllLinkedRight, RecoverTx, Newest, Rests;
    LinksNone(b, base, log);
    if list != [] {
      assert list[0] in list;
      RecoverTxLinks(b, base, log, c, list[0]);
      var o := RecoverTx(log, c, list[0]);
      RecoverTxExtends(log, c, list[0]);
      if o.ok {
        forall e | e in list[1..] ensures Newest(b, o.log, c, e) || AnalyseEntry(o.log, c, e).finished {
          assert e in list;
          NewestStays(b, log, o.log, c, e);
        }
        RecoverAllLinks(b, base, o.log, c, list[1..]);
        LinksMore(b, base, log, o.log, RecoverAll(o.log, c, list[1..]).log);
      }
    }
  }

  lemma NewestStays(b: nat, log: Log, ext: Log, c: Lsn, e: Ongoing)
    requires log <= ext && (Newest(b, log, c, e) || AnalyseEntry(log, c, e).finished)
    ensures Newest(b, ext, c, e) || AnalyseEntry(ext, c, e).finished
  {
    if Newest(b, log, c, e) {
      assert ext[..ScanStart(c, e)] == log[..ScanStart(c, e)];
    } else {
      FinishedStays(log, ext, ScanStart(c, e), e.tx, Analysis(e.last, false, false));
    }
  }

  /** The entries of a CHECK record that the running server writes. */
  ghost predicate NewestList(b: nat, log: Log, c: Lsn, list: seq<Ongoing>) {
    AccurateList(b, log, c, list) && forall e <- list :: e.last == Info(b, log[..c], e.tx).last
  }

  /** Theorem: every record that recovery writes, by a list of running transactions or by any list that the
      running server writes, links as the log before it says: each ABORT and CLR to the newest record of its
      transaction, also where undo goes on after an interruption, but for the CLR that follows recovery's own
      ABORT; each END to a BEGIN. */
  lemma RecoveryLinksNewest(b: nat, log: Log, c: Lsn, list: seq<Ongoing>)
    requires ValidLog(b, log) && (ListOk(b, log, c, list) || NewestList(b, log, c, list))
    ensures AllLinkedRight(b, |log|, log, RecoverAll(log, c, list).log)
  {
    hide AllLinkedRight, RecoverAll;
    forall e | e in list ensures Newest(b, log, c, e) || AnalyseEntry(log, c, e).finished {
      if ListOk(b, log, c, list) {
        KnownIsNewest(b, log, c, e);
      } else {
        AccurateFacts(b, log, c, e);
      }
    }
    RecoverAllLinks(b, |log|, log, c, list);
  }

  lemma KnownIsNewest(b: nat, log: Log, c: Lsn, e: Ongoing)
    requires ValidLog(b, log) && Known(b, log, c, e)
    ensures Newest(b, log, c, e) || AnalyseEntry(log, c, e).finished
  {
    if EntryOk(b, log, c, e) {
      EntryFollows(b, log, c, e);
    }
  }

  /** What recovery has to write at index `n` for the transaction that it rolls back there: nothing but the
      log before it decides. */
  ghost predicate RecoveryRecord(b: nat, base: nat, ext: Log, n: nat)
    requires n < |ext|
  {
    var t := TxOf(ext[n]);
    var i := Info(b, ext[..n], t);
    match i.phase
    case Running => ext[n] == Abort(i.last, t)
    case Aborting =>
      if i.stack == [] then
        && ext[n] == End(PrevOf(ext[n]), t) && Has(ext[..n], PrevOf(ext[n]))
        && At(ext, PrevOf(ext[n])).Begin? && At(ext, PrevOf(ext[n])).tx == t
      else Top(i.stack).Update? && ext[n] == Compensation(Top(i.stack), NewestBut(b, base, ext, n, t))
    case _ => false
  }

  /** Theorem: recovery by a list of running transactions writes exactly these records. */
  lemma RecoveryWrites(b: nat, log: Log, c: Lsn, list: seq<Ongoing>)
    requires ValidLog(b, log) && ListOk(b, log, c, list)
    ensures var ext := RecoverAll(log, c, list).log;
            log <= ext && forall n | |log| <= n < |ext| :: RecoveryRecord(b, |log|, ext, n)
  {
    RecoverAllOk(b, log, c, list);
    RecoveryLinksNewest(b, log, c, list);
    var ext := RecoverAll(log, c, list).log;
    assert b <= |log|;
    hide RecoverAll, ListOk, ValidLog, LinkedRight, RecoveryRecord, RollsBack;
    forall n | |log| <= n < |ext| ensures RecoveryRecord(b, |log|, ext, n) {
      ValidAt(b, ext, n);
      RecordIs(b, |log|, ext, n);
    }
  }

  lemma RecordIs(b: nat, base: nat, ext: Log, n: nat)
    requires n < |ext| && CanAppend(b, ext[..n], ext[n]) && LinkedRight(b, base, ext, n)
    ensures RecoveryRecord(b, base, ext, n)
  {
    hide Info, NewestBut, Free, Replay, Look;
  }
}
