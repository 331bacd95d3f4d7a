/** What holds of every log, also of the part that earlier runs of the server have left: links lead
    back, and every change changes something. */
module LogShape {
  import opened Table
  import opened LogRecord
  import opened RecoverySpec

  predicate PointsBack(r: Record, l: Lsn) {
    && PrevOf(r) < l
    && (r.Check? ==> forall e <- r.ongoing :: 0 < e.last < l)
  }

  predicate NotIdle(r: Record) {
    r.Update? || r.Clr? ==> r.before != ABSENT || r.after != ABSENT
  }

  predicate Shaped(log: Log) {
    forall l | 1 <= l <= |log| :: PointsBack(At(log, l), l) && NotIdle(At(log, l))
  }

  lemma ShapedAppend(log: Log, r: Record)
    requires Shaped(log) && PointsBack(r, |log| + 1) && NotIdle(r)
    ensures Shaped(log + [r])
  {
    hide PointsBack, NotIdle;
    forall l | 1 <= l <= |log + [r]| ensures PointsBack(At(log + [r], l), l) && NotIdle(At(log + [r], l)) {
      assert l <= |log| ==> At(log + [r], l) == At(log, l);
    }
  }

  lemma ShapedPrefix(log: Log, n: nat)
    requires Shaped(log) && n <= |log|
    ensures Shaped(log[..n])
  {
    hide PointsBack, NotIdle;
    forall l | 1 <= l <= n ensures PointsBack(At(log[..n], l), l) && NotIdle(At(log[..n], l)) {
      assert At(log[..n], l) == At(log, l);
    }
  }

  lemma {:induction false} WalkShaped(log: Log, cur: Lsn, last: Lsn, t: TxId)
    requires Shaped(log) && last <= |log|
    ensures Shaped(UndoWalk(log, cur, last, t).log)
    decreases cur
  {
    hide Shaped;
    if Has(log, cur) {
      var r := At(log, cur);
      ShapedAt(log, cur);
      if r.Begin? {
        ShapedAppend(log, End(cur, t));
      } else if r.Update? {
        var clr := Clr(last, t, r.prev, r.key, r.after, r.before);
        ShapedAppend(log, clr);
        WalkShaped(log + [clr], r.prev, |log| + 1, t);
      } else {
        WalkShaped(log, PrevOf(r), last, t);
      }
    }
  }

  lemma ShapedAt(log: Log, l: Lsn)
    requires Shaped(log) && Has(log, l)
    ensures PointsBack(At(log, l), l) && NotIdle(At(log, l))
  {
  }

  lemma {:induction false} AnalyseBounds(log: Log, from: Lsn, t: TxId, a: Analysis)
    requires a.last <= |log|
    ensures Analyse(log, from, t, a).last <= |log|
    decreases |log| - from
  {
    if Has(log, from + 1) {
      var a' := Observe(a, At(log, from + 1), from + 1, t);
      if !a'.finished {
        AnalyseBounds(log, from + 1, t, a');
      }
    }
  }

  lemma RecoverTxShaped(log: Log, c: Lsn, e: Ongoing)
    requires Shaped(log) && e.last <= |log|
    ensures Shaped(RecoverTx(log, c, e).log)
  {
    hide Shaped, Analyse, UndoWalk;
    AnalyseBounds(log, ScanStart(c, e), e.tx, Analysis(e.last, false, false));
    var a := AnalyseEntry(log, c, e);
    if !a.abortSeen {
      ShapedAppend(log, Abort(a.last, e.tx));
      WalkShaped(log + [Abort(a.last, e.tx)], |log| + 1, a.last, e.tx);
    } else if Has(log, a.last) {
      var r := At(log, a.last);
      WalkShaped(log, if r.Abort? then r.prev else if r.Clr? then r.undoNext else 0, a.last, e.tx);
    }
  }

  lemma {:induction false} RecoverAllShaped(log: Log, c: Lsn, list: seq<Ongoing>)
    requires Shaped(log) && forall e <- list :: e.last <= |log|
    ensures Shaped(RecoverAll(log, c, list).log)
    decreases |list|
  {
    hide Shaped, RecoverTx;
    if list != [] {
      assert list[0] in list && forall e <- list[1..] :: e in list;
      RecoverTxShaped(log, c, list[0]);
      var o := RecoverTx(log, c, list[0]);
      RecoverTxExtends(log, c, list[0]);
      if o.ok {
        RecoverAllShaped(o.log, c, list[1..]);
      }
    }
  }

  /** Recovery keeps the shape: `list` is that of a CHECK record of the log. */
  lemma RecoverShaped(log: Log, c: Lsn)
    requires Shaped(log)
    ensures Shaped(Recover(log, c).log)
  {
    RecoverAllShaped(log, c, Listed(log, c));
  }

  /** A log of one record lists nobody. */
  lemma OneListsNobody(log: Log, c: Lsn)
    requires Shaped(log) && |log| == 1
    ensures Listed(log, c) == []
  {
    FirstIsListed(Listed(log, c));
    if Has(log, c) {
      ShapedAt(log, c);
    }
  }

  lemma FirstIsListed(list: seq<Ongoing>)
    ensures list == [] || list[0] in list
  {
  }

  // ---------- online against offline ----------

  /** What `kv_tx_rollback` appends: the same walk, but its END links to the newest record. */
  function OnlineWalk(log: Log, cur: Lsn, last: Lsn, t: TxId): Outcome
    decreases cur
  {
    if !Has(log, cur) then Outcome(log, false)
    else
      var r := At(log, cur);
      if r.Begin? then Outcome(log + [End(last, t)], true)
      else if PrevOf(r) >= cur then Outcome(log, false) // a link that does not lead down
      else if r.Update? then
        OnlineWalk(log + [Clr(last, t, r.prev, r.key, r.after, r.before)], r.prev, |log| + 1, t)
      else OnlineWalk(log, PrevOf(r), last, t)
  }

  lemma {:induction false} OnlineExtends(log: Log, cur: Lsn, last: Lsn, t: TxId)
    ensures log <= OnlineWalk(log, cur, last, t).log
    decreases cur
  {
    if Has(log, cur) {
      var r := At(log, cur);
      if !r.Begin? && PrevOf(r) < cur {
        if r.Update? {
          OnlineExtends(log + [Clr(last, t, r.prev, r.key, r.after, r.before)], r.prev, |log| + 1, t);
        } else {
          OnlineExtends(log, PrevOf(r), last, t);
        }
      }
    }
  }

  /** One turn of the online walk. */
  lemma OnlineTurn(log: Log, cur: Lsn, last: Lsn, t: TxId)
    requires Shaped(log)
    ensures var walk := OnlineWalk(log, cur, last, t);
            if !Has(log, cur) then walk == Outcome(log, false)
            else
              var r := At(log, cur);
              if r.Begin? then walk == Outcome(log + [End(last, t)], true)
              else if r.Update? then
                walk == OnlineWalk(log + [Clr(last, t, r.prev, r.key, r.after, r.before)], r.prev, |log| + 1, t)
              else walk == OnlineWalk(log, PrevOf(r), last, t)
  {
    hide Shaped;
    if Has(log, cur) {
      ShapedAt(log, cur);
    }
  }

  /** Theorem: rolling back online and undoing offline append the same records, up to the link of
      the END; so redo rebuilds the same table from either. */
  lemma {:induction false} OnlineMeetsOffline(table: Table, log: Log, cur: Lsn, last: Lsn, t: TxId)
    ensures var on, off := OnlineWalk(log, cur, last, t), UndoWalk(log, cur, last, t);
            && on.ok == off.ok && |on.log| == |off.log|
            && (on.ok ==> on.log != [] && on.log[..|on.log| - 1] == off.log[..|off.log| - 1]
                          && on.log[|on.log| - 1].End? && off.log[|off.log| - 1].End?)
            && Replay(table, on.log) == Replay(table, off.log)
    decreases cur
  {
    hide Replay;
    if Has(log, cur) {
      var r := At(log, cur);
      if r.Begin? {
        ReplayAppend(table, log, End(last, t));
        ReplayAppend(table, log, End(cur, t));
      } else if PrevOf(r) < cur {
        if r.Update? {
          OnlineMeetsOffline(table, log + [Clr(last, t, r.prev, r.key, r.after, r.before)], r.prev, |log| + 1, t);
        } else {
          OnlineMeetsOffline(table, log, PrevOf(r), last, t);
        }
      }
    }
  }
}
