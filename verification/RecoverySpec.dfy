/** What `kv_recovery_recover` does to a log, as functions. */
module RecoverySpec {
  import opened LogRecord
  import opened Table

  /** `ok` is false when the program dereferences the NULL that a missing record gives. */
  datatype Outcome = Outcome(log: Log, ok: bool)

  /** The analysis of one listed transaction. */
  datatype Analysis = Analysis(last: Lsn, abortSeen: bool, finished: bool)

  /** One record of the scan, read at LSN `l`. */
  function Observe(a: Analysis, r: Record, l: Lsn, t: TxId): Analysis {
    if TxOf(r) != t then a
    else
      var seen := a.abortSeen || r.Abort?;
      Analysis(l, seen, r.Commit? || (seen && r.End?))
  }

  /** The scan reads the records after `from` and stops at the one that finishes `t`. */
  function Analyse(log: Log, from: Lsn, t: TxId, a: Analysis): Analysis
    decreases |log| - from
  {
    if !Has(log, from + 1) then a
    else
      var a' := Observe(a, At(log, from + 1), from + 1, t);
      if a'.finished then a' else Analyse(log, from + 1, t, a')
  }

  /** Follow `prev` from `cur`, writing a compensation for each update, up to the BEGIN. */
  function UndoWalk(log: Log, cur: Lsn, last: Lsn, t: TxId): Outcome
    decreases cur
  {
    if !Has(log, cur) then Outcome(log, false)
    else
      var r := At(log, cur);
      if r.Begin? then Outcome(log + [End(cur, t)], true)
      else if PrevOf(r) >= cur then Outcome(log, false) // a link that does not lead down
      else if r.Update? then
        UndoWalk(log + [Clr(last, t, r.prev, r.key, r.after, r.before)], r.prev, |log| + 1, t)
      else UndoWalk(log, PrevOf(r), last, t)
  }

  /** The scan starts behind both the CHECK record and the record that the entry names. */
  function ScanStart(c: Lsn, e: Ongoing): (s: Lsn)
    ensures s >= c && s >= e.last && (s == c || s == e.last)
  {
    if c > e.last then c else e.last
  }

  function AnalyseEntry(log: Log, c: Lsn, e: Ongoing): Analysis {
    Analyse(log, ScanStart(c, e), e.tx, Analysis(e.last, false, false))
  }

  function RecoverTx(log: Log, c: Lsn, e: Ongoing): Outcome {
    var a := AnalyseEntry(log, c, e);
    if a.finished then Outcome(log, true)
    else if !a.abortSeen then
      UndoWalk(log + [Abort(a.last, e.tx)], |log| + 1, a.last, e.tx)
    else if !Has(log, a.last) then Outcome(log, false)
    else
      var r := At(log, a.last);
      UndoWalk(log, if r.Abort? then r.prev else if r.Clr? then r.undoNext else 0, a.last, e.tx)
  }

  function RecoverAll(log: Log, c: Lsn, list: seq<Ongoing>): Outcome
    decreases |list|
  {
    if list == [] then Outcome(log, true)
    else
      var o := RecoverTx(log, c, list[0]);
      if o.ok then RecoverAll(o.log, c, list[1..]) else o
  }

  /** The transactions that recovery looks at: those of the CHECK record that the last-LSN file
      names. No such file reads as 0. */
  function Listed(log: Log, c: Lsn): seq<Ongoing> {
    if Has(log, c) && At(log, c).Check? then At(log, c).ongoing else []
  }

  function Recover(log: Log, c: Lsn): Outcome {
    RecoverAll(log, c, Listed(log, c))
  }

  // ---------- recovery only appends ----------

  lemma RecoverTxExtends(log: Log, c: Lsn, e: Ongoing)
    ensures log <= RecoverTx(log, c, e).log
  {
    hide Analyse, UndoWalk;
    var a := AnalyseEntry(log, c, e);
    WalkExtends(log + [Abort(a.last, e.tx)], |log| + 1, a.last, e.tx);
    if Has(log, a.last) {
      var r := At(log, a.last);
      WalkExtends(log, if r.Abort? then r.prev else if r.Clr? then r.undoNext else 0, a.last, e.tx);
    }
  }

  /** The listed transactions are recovered one after another, in the order of the list, and the first that
      fails ends it all. */
  lemma {:induction false} RecoverInOrder(log: Log, c: Lsn, a: seq<Ongoing>, b: seq<Ongoing>)
    ensures var o := RecoverAll(log, c, a); RecoverAll(log, c, a + b) == if o.ok then RecoverAll(o.log, c, b) else o
    decreases |a|
  {
    hide RecoverTx;
    if a == [] {
      assert a + b == b;
    } else {
      assert (a + b)[1..] == a[1..] + b;
      var o := RecoverTx(log, c, a[0]);
      if o.ok {
        RecoverInOrder(o.log, c, a[1..], b);
      }
    }
  }

  lemma {:induction false} RecoverExtends(log: Log, c: Lsn, list: seq<Ongoing>)
    ensures log <= RecoverAll(log, c, list).log
    decreases |list|
  {
    hide RecoverTx;
    if list != [] {
      RecoverTxExtends(log, c, list[0]);
      RecoverExtends(RecoverTx(log, c, list[0]).log, c, list[1..]);
    }
  }

  lemma {:induction false} WalkExtends(log: Log, cur: Lsn, last: Lsn, t: TxId)
    ensures log <= UndoWalk(log, cur, last, t).log
    decreases cur
  {
    if Has(log, cur) {
      var r := At(log, cur);
      if !r.Begin? && PrevOf(r) < cur {
        if r.Update? {
          WalkExtends(log + [Clr(last, t, r.prev, r.key, r.after, r.before)], r.prev, |log| + 1, t);
        } else {
          WalkExtends(log, PrevOf(r), last, t);
        }
      }
    }
  }
}
