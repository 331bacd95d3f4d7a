/** Checkpoints that list a transaction which has already logged COMMIT or ABORT. The locks of the
    program do not exclude them: a transaction leaves the ongoing list only after its last record,
    under a mutex that the checkpointer does not take. Here: the analysis and the undoing of one such
    entry; `UncleanRecovery` has the whole list. */
module UncleanCheckpoint {
  import opened Table
  import opened LogRecord
  import opened LogProtocol
  import opened Coherence
  import opened Chains
  import opened RecoverySpec
  import opened RecoveryProof
  import opened RecoveryTheorems

  /** The CHECK record at `c` lists `e` truthfully. */
  ghost predicate Accurate(b: nat, log: Log, c: Lsn, e: Ongoing) {
    b <= c <= |log| && Truthful(b, log[..c], e)
  }

  /** The transaction had logged COMMIT or ABORT when the checkpoint was taken. */
  ghost predicate Settling(b: nat, log: Log, c: Lsn, t: TxId)
    requires c <= |log|
  {
    Info(b, log[..c], t).phase in {Aborting, Done}
  }

  // ---------- the analysis ----------

  /** A scan that starts after the ABORT or the COMMIT never sees the end of the transaction. */
  lemma {:induction false} ScanIsBlind(b: nat, log: Log, from: Lsn, t: TxId, a: Analysis)
    requires ValidLog(b, log) && b <= from <= |log| && t != 0
    requires Info(b, log[..from], t).phase in {Aborting, Done} && !a.finished && !a.abortSeen
    ensures var z := Analyse(log, from, t, a); !z.finished && !z.abortSeen
    decreases |log| - from
  {
    if from < |log| {
      assert CanAppend(b, log[..from], log[from]);
      InfoAt(b, log, from, t);
      ScanIsBlind(b, log, from + 1, t, Observe(a, At(log, from + 1), from + 1, t));
    }
  }

  /** CHECK records carry no transaction, so id 0 never begins. */
  lemma {:induction false} ZeroIsUnborn(b: nat, log: Log)
    requires ValidLog(b, log)
    ensures Info(b, log, 0) == FRESH
    decreases |log|
  {
    if |log| > b {
      ValidLast(b, log);
      ZeroIsUnborn(b, log[..|log| - 1]);
      ValidIsCoherent(b, log[..|log| - 1]);
    }
  }

  /** The scan starts right after the checkpoint. */
  lemma AccurateFacts(b: nat, log: Log, c: Lsn, e: Ongoing)
    requires ValidLog(b, log) && Accurate(b, log, c, e)
    ensures e.tx != 0 && ScanStart(c, e) == c && e.last <= c
    ensures Info(b, log[..c], e.tx).phase == Running ==> EntryOk(b, log, c, e)
    ensures Info(b, log[..c], e.tx).phase == Running || Settling(b, log, c, e.tx)
  {
    var pre := log[..c];
    ValidPrefix(b, log, c);
    ZeroIsUnborn(b, pre);
    LastInside(b, pre, e.tx);
    LastLinksBack(b, pre, e.tx);
  }

  /** The analysis of an accurate entry is right if and only if the transaction had logged neither
      COMMIT nor ABORT when the checkpoint was taken. */
  lemma AnalysisIsRightIff(b: nat, log: Log, c: Lsn, e: Ongoing)
    requires ValidLog(b, log) && Accurate(b, log, c, e)
    ensures Right(AnalyseEntry(log, c, e), Info(b, log, e.tx)) <==> Info(b, log[..c], e.tx).phase == Running
  {
    AccurateFacts(b, log, c, e);
    if Info(b, log[..c], e.tx).phase == Running {
      EntryFollows(b, log, c, e);
    } else {
      ScanIsBlind(b, log, c, e.tx, Analysis(e.last, false, false));
      DoneUntil(b, log, c, |log|, e.tx);
      assert log[..|log|] == log;
    }
  }

  /** The scan for a transaction that had not begun. */
  lemma {:induction false} BareScan(b: nat, log: Log, from: Lsn, t: TxId)
    requires ValidLog(b, log) && b <= from <= |log| && t != 0 && Info(b, log[..from], t).phase == Unborn
    ensures var z := Analyse(log, from, t, Analysis(0, false, false));
            if Info(b, log, t).phase == Unborn then z == Analysis(0, false, false) else Right(z, Info(b, log, t))
    decreases |log| - from
  {
    if from == |log| {
      assert log[..from] == log;
    } else {
      assert CanAppend(b, log[..from], log[from]);
      InfoAt(b, log, from, t);
      if TxOf(log[from]) == t {
        NeverUnborn(b, log, from + 1, |log|, t);
        assert log[..|log|] == log;
        AnalyseFollows(b, log, from + 1, t, Analysis(from + 1, false, false));
      } else {
        BareScan(b, log, from + 1, t);
      }
    }
  }

  /** A transaction gets its id and its place on the list before it logs BEGIN. If the checkpoint comes in
      between, the entry is `(t, 0)`; recovery then succeeds if and only if the BEGIN was logged before
      the crash. Otherwise it looks for record 0 and dereferences NULL. */
  lemma BareEntryIff(b: nat, log: Log, c: Lsn, t: TxId)
    requires ValidLog(b, log) && b <= c <= |log| && t != 0 && Info(b, log[..c], t).phase == Unborn
    ensures RecoverTx(log, c, Ongoing(t, 0)).ok <==> Info(b, log, t).phase != Unborn
  {
    var e := Ongoing(t, 0);
    BareScan(b, log, c, t);
    if Info(b, log, t).phase == Unborn {
      var l1 := log + [Abort(0, t)];
      assert At(l1, |log| + 1) == Abort(0, t);
      assert !UndoWalk(l1, 0, 0, t).ok;
      assert UndoWalk(l1, |log| + 1, 0, t) == UndoWalk(l1, 0, 0, t);
    } else {
      RightIsRecovered(b, log, c, e);
    }
  }

  const BARE: Log := [Check([Ongoing(1, 0)])]

  /** An instance: the checkpoint fell between the id and the BEGIN, and the server crashed at once. Recovery
      dereferences NULL. */
  lemma BareEntryExample()
    ensures ValidLog(0, BARE) && !Recover(BARE, 1).ok
  {
    assert BARE[..0] == [] && BARE[..1] == BARE;
    assert ValidLog(0, BARE) by { assert CanAppend(0, BARE[..0], BARE[0]); }
    assert Info(0, BARE, 1).phase == Unborn by { InfoAppend(0, [], BARE[0], 1); assert [] + [BARE[0]] == BARE; }
    BareEntryIff(0, BARE, 1, 1);
    hide RecoverTx;
    assert Listed(BARE, 1) == [Ongoing(1, 0)];
    assert RecoverAll(BARE, 1, [Ongoing(1, 0)]) == RecoverTx(BARE, 1, Ongoing(1, 0));
  }

  // ---------- what undoing does to the table ----------

  /** The updates of `stack` undone, newest first. */
  function Undone(t: Table, stack: seq<Record>): Table
    decreases |stack|
  {
    if stack == [] then t
    else if Top(stack).Update? then Undone(Put(t, Top(stack).key, Top(stack).before), Below(stack))
    else Undone(t, Below(stack))
  }

  /** Redoing the compensations that the walk writes undoes the stack. */
  lemma {:induction false} UndoWalkEffect(log: Log, cur: Lsn, last: Lsn, t: TxId, stack: seq<Record>)
    requires Linked(log, cur, stack, t)
    ensures var o := UndoWalk(log, cur, last, t);
            o.ok && Replay(map[], o.log) == Undone(Replay(map[], log), stack)
    decreases |stack|
  {
    if stack == [] {
      ReplayAppend(map[], log, End(cur, t));
    } else {
      var u := Top(stack);
      var l1 := log + [Clr(last, t, u.prev, u.key, u.after, u.before)];
      ReplayAppend(map[], log, Clr(last, t, u.prev, u.key, u.after, u.before));
      LinkedAppend(log, l1, u.prev, Below(stack), t);
      UndoWalkEffect(l1, u.prev, |log| + 1, t, Below(stack));
    }
  }

  predicate Touches(stack: seq<Record>, k: Key) {
    exists u <- stack :: u.Update? && u.key == k
  }

  lemma TouchesTop(stack: seq<Record>, k: Key)
    requires stack != []
    ensures Touches(stack, k) <==> Touches(Below(stack), k) || (Top(stack).Update? && Top(stack).key == k)
  {
    assert forall u :: u in stack <==> u in Below(stack) || u == Top(stack);
  }

  /** What the oldest of the updates found at `k`. */
  function OldestBefore(stack: seq<Record>, k: Key): Value
    requires Touches(stack, k)
    decreases |stack|
  {
    TouchesTop(stack, k);
    if Touches(Below(stack), k) then OldestBefore(Below(stack), k) else Top(stack).before
  }

  /** Undoing a stack puts back what its oldest updates found, whatever has been written since, and
      leaves every other key alone. */
  lemma {:induction false} UndoneAt(t: Table, stack: seq<Record>, k: Key)
    ensures Look(Undone(t, stack), k) == if Touches(stack, k) then OldestBefore(stack, k) else Look(t, k)
    decreases |stack|
  {
    if stack != [] {
      TouchesTop(stack, k);
      UndoneAt(if Top(stack).Update? then Put(t, Top(stack).key, Top(stack).before) else t, Below(stack), k);
    }
  }

  /** In a good stack the oldest updates found the table that the stack stands on. */
  lemma {:induction false} OldestIsBase(c: Table, stack: seq<Record>, tx: TxId, k: Key)
    requires StackOk(c, stack, tx) && Touches(stack, k)
    ensures OldestBefore(stack, k) == Look(c, k)
    decreases |stack|
  {
    TouchesTop(stack, k);
    var rest := Below(stack);
    if Touches(rest, k) {
      OldestIsBase(c, rest, tx, k);
    } else {
      StackUpdates(c, rest, tx);
      ReplayElsewhere(c, rest, k);
    }
  }

  // ---------- where the links of a settled transaction lead ----------

  lemma {:induction false} DoneUntil(b: nat, log: Log, n: nat, c: nat, t: TxId)
    requires ValidLog(b, log) && b <= n <= c <= |log| && t != 0
    requires Info(b, log[..n], t).phase in {Aborting, Done}
    ensures Info(b, log[..c], t).phase in {Aborting, Done}
    decreases c
  {
    hide Info, ValidLog, Free, Replay, Look;
    if n < c {
      DoneUntil(b, log, n, c - 1, t);
      assert CanAppend(b, log[..c - 1], log[c - 1]) by { ValidAt(b, log, c - 1); }
      InfoAt(b, log, c - 1, t);
    }
  }

  /** Following `prev` from `l` through records that are neither UPDATE nor BEGIN leads to `cur`. */
  ghost predicate Leads(log: Log, l: Lsn, cur: Lsn)
    decreases l
  {
    l == cur
    || (Has(log, l) && !At(log, l).Begin? && !At(log, l).Update?
        && PrevOf(At(log, l)) < l && Leads(log, PrevOf(At(log, l)), cur))
  }

  lemma {:induction false} WalkLeads(log: Log, ext: Log, l: Lsn, cur: Lsn, last: Lsn, t: TxId)
    requires Leads(log, l, cur) && log <= ext
    ensures UndoWalk(ext, l, last, t) == UndoWalk(ext, cur, last, t)
    decreases l
  {
    if l != cur {
      WalkLeads(log, ext, PrevOf(At(log, l)), cur, last, t);
    }
  }

  lemma {:induction false} LeadsAppend(log: Log, ext: Log, l: Lsn, cur: Lsn)
    requires Leads(log, l, cur) && log <= ext
    ensures Leads(ext, l, cur)
    decreases l
  {
    if l != cur {
      LeadsAppend(log, ext, PrevOf(At(log, l)), cur);
    }
  }

  lemma {:induction false} LeadsBelow(log: Log, l: Lsn, cur: Lsn)
    requires Leads(log, l, cur) && Has(log, cur)
    ensures Has(log, l)
    decreases l
  {
  }

  lemma AbortLeads(log: Log, last: Lsn, cur: Lsn, t: TxId)
    requires Leads(log, last, cur) && Has(log, cur)
    ensures Leads(log + [Abort(last, t)], |log| + 1, cur)
  {
    LeadsBelow(log, last, cur);
    LeadsAppend(log, log + [Abort(last, t)], last, cur);
    assert At(log + [Abort(last, t)], |log| + 1) == Abort(last, t);
  }

  /** Index `m` holds the COMMIT or ABORT of `t`. */
  ghost predicate Settles(b: nat, log: Log, m: nat, t: TxId) {
    b <= m < |log| && (log[m].Commit? || log[m].Abort?) && log[m].tx == t
  }

  /** A settled transaction has its COMMIT or ABORT in the log. */
  lemma {:induction false} SettlePoint(b: nat, log: Log, c: nat, t: TxId) returns (m: nat)
    requires ValidLog(b, log) && b <= c <= |log| && Settling(b, log, c, t) && t != 0
    ensures m < c && Settles(b, log, m, t)
    decreases c
  {
    assert c > b;
    InfoAt(b, log, c - 1, t);
    assert CanAppend(b, log[..c - 1], log[c - 1]);
    if Settling(b, log, c - 1, t) {
      m := SettlePoint(b, log, c - 1, t);
    } else {
      m := c - 1;
    }
  }

  lemma SettledAfter(b: nat, log: Log, m: nat, n: nat, t: TxId)
    requires ValidLog(b, log) && Settles(b, log, m, t) && m < n <= |log| && t != 0
    ensures Info(b, log[..n], t).phase in {Aborting, Done}
  {
    assert CanAppend(b, log[..m], log[m]);
    InfoAt(b, log, m, t);
    DoneUntil(b, log, m + 1, n, t);
  }

  lemma {:induction false} LastSince(b: nat, log: Log, m: nat, n: nat, t: TxId)
    requires b <= m < n <= |log| && TxOf(log[m]) == t && !log[m].Check?
    ensures Info(b, log[..n], t).last > m
    decreases n
  {
    InfoAt(b, log, n - 1, t);
    if m < n - 1 {
      LastSince(b, log, m, n - 1, t);
    }
  }

  lemma SettledKind(b: nat, log: Log, m: nat, l: Lsn, t: TxId)
    requires ValidLog(b, log) && Settles(b, log, m, t) && t != 0
    requires m + 1 < l <= |log| && TxOf(At(log, l)) == t
    ensures At(log, l).Clr? || At(log, l).End?
  {
    hide Info;
    SettledAfter(b, log, m, l - 1, t);
    assert CanAppend(b, log[..l - 1], log[l - 1]);
  }

  /** One link: a record after the COMMIT or ABORT is an END or a compensation, and links to a record
      of its transaction that is not older than the COMMIT or ABORT. */
  lemma SettledLink(b: nat, log: Log, m: nat, l: Lsn, t: TxId)
    requires ValidLog(b, log) && OnlineLinked(b, log) && Settles(b, log, m, t) && t != 0
    requires m + 1 < l <= |log| && TxOf(At(log, l)) == t
    ensures At(log, l).Clr? || At(log, l).End?
    ensures m < PrevOf(At(log, l)) < l && TxOf(At(log, PrevOf(At(log, l)))) == t
  {
    hide Info, CanAppend, ValidLog;
    var n := l - 1;
    var pre := log[..n];
    SettledKind(b, log, m, l, t);
    assert PrevOf(log[n]) == Info(b, pre, TxOf(log[n])).last;
    SettledAfter(b, log, m, n, t);
    LastInside(b, pre, t);
    ValidPrefix(b, log, n);
    LastLinksBack(b, pre, t);
    LastSince(b, log, m, n, t);
  }

  lemma SettlingLinksBack(b: nat, log: Log, m: nat, t: TxId)
    requires ValidLog(b, log) && Settles(b, log, m, t)
    ensures log[m].prev <= m
  {
    assert CanAppend(b, log[..m], log[m]);
    LastInside(b, log[..m], t);
  }

  /** In a log that the running server wrote, the links from any record of a settled transaction lead
      through its later records to the last update, or the BEGIN, before its COMMIT or ABORT. */
  lemma {:induction false} SettledRecordLeads(b: nat, log: Log, m: nat, l: Lsn, t: TxId)
    requires ValidLog(b, log) && OnlineLinked(b, log) && Settles(b, log, m, t) && t != 0
    requires m < l <= |log| && TxOf(At(log, l)) == t
    ensures Leads(log, l, log[m].prev)
    decreases l
  {
    hide ValidLog, OnlineLinked;
    if m < l - 1 {
      SettledLink(b, log, m, l, t);
      SettledRecordLeads(b, log, m, PrevOf(At(log, l)), t);
    } else {
      SettlingLinksBack(b, log, m, t);
    }
  }

  /** The last LSN of an analysis is the entry's or that of a later record of the transaction. */
  lemma {:induction false} ScanLast(log: Log, from: Lsn, t: TxId, a: Analysis)
    ensures var z := Analyse(log, from, t, a);
            z.last == a.last || (from < z.last <= |log| && TxOf(At(log, z.last)) == t)
    decreases |log| - from
  {
    if Has(log, from + 1) {
      var a' := Observe(a, At(log, from + 1), from + 1, t);
      if !a'.finished {
        ScanLast(log, from + 1, t, a');
      }
    }
  }

  /** So do the links from where undoing starts. */
  lemma SettledLeads(b: nat, log: Log, c: Lsn, e: Ongoing) returns (m: nat)
    requires ValidLog(b, log) && OnlineLinked(b, log) && Accurate(b, log, c, e) && Settling(b, log, c, e.tx)
    ensures m < c && Settles(b, log, m, e.tx)
    ensures Leads(log, AnalyseEntry(log, c, e).last, log[m].prev)
  {
    var t, pre := e.tx, log[..c];
    AccurateFacts(b, log, c, e);
    m := SettlePoint(b, log, c, t);
    ScanLast(log, c, t, Analysis(e.last, false, false));
    var l := AnalyseEntry(log, c, e).last;
    if l == e.last {
      var p := Info(b, pre, t).last;
      ValidPrefix(b, log, c);
      LastLinksBack(b, pre, t);
      LastSince(b, log, m, c, t);
      assert At(log, p) == At(pre, p);
      SettledRecordLeads(b, log, m, p, t);
      SettlingLinksBack(b, log, m, t);
    } else {
      SettledRecordLeads(b, log, m, l, t);
    }
  }

  /** A settled transaction updates no more. */
  lemma {:induction false} NoUpdatesLater(b: nat, log: Log, m: nat, n: nat, t: TxId)
    requires ValidLog(b, log) && Settles(b, log, m, t) && m < n <= |log| && t != 0
    ensures UpdatesOf(b, log[..n], t) == UpdatesOf(b, log[..m], t)
    decreases n
  {
    hide UpdatesOf, ValidLog;
    var pre, r := log[..n - 1], log[n - 1];
    assert log[..n] == pre + [r];
    UpdatesAppend(b, pre, r, t);
    if m < n - 1 {
      NoUpdatesLater(b, log, m, n - 1, t);
      if TxOf(r) == t {
        SettledKind(b, log, m, n, t);
      }
    }
  }

  lemma SettledChain(b: nat, log: Log, m: nat, t: TxId)
    requires ValidLog(b, log) && Settles(b, log, m, t)
    ensures t != 0 && Has(log, log[m].prev)
    ensures Linked(log, log[m].prev, UpdatesOf(b, log, t), t)
  {
    var pre := log[..m];
    assert CanAppend(b, pre, log[m]);
    ValidPrefix(b, log, m);
    ValidIsCoherent(b, pre);
    ValidIsChained(b, pre);
    assert ChainOk(b, pre, t);
    LinkedAppend(pre, log, log[m].prev, UpdatesOf(b, pre, t), t);
    LiveNotZero(b, pre, t);
    NoUpdatesLater(b, log, m, |log|, t);
    assert log[..|log|] == log;
  }

  // ---------- recovering one accurate entry ----------

  /** The updates that recovery undoes for an accurate entry: those not yet undone if the transaction
      was running at the checkpoint; all of them, whatever has become of it, if it had settled. */
  function ToUndo(b: nat, log: Log, c: Lsn, t: TxId): seq<Record>
    requires c <= |log|
  {
    if Info(b, log[..c], t).phase == Running then Info(b, log, t).stack else UpdatesOf(b, log, t)
  }

  /** `ext` is `log` and records of transactions other than `t`. */
  ghost predicate NoneOf(log: Log, ext: Log, t: TxId) {
    log <= ext && forall n | |log| <= n < |ext| :: TxOf(ext[n]) != t
  }

  lemma {:induction false} AnalyseNoneOf(log: Log, ext: Log, from: Lsn, t: TxId, a: Analysis)
    requires NoneOf(log, ext, t) && !a.finished
    ensures Analyse(ext, from, t, a) == Analyse(log, from, t, a)
    decreases |ext| - from
  {
    if Has(ext, from + 1) {
      var a' := Observe(a, At(ext, from + 1), from + 1, t);
      if !a'.finished {
        AnalyseNoneOf(log, ext, from + 1, t, a');
      }
    }
  }

  /** The walk writes records of its own transaction only. */
  lemma {:induction false} WalkWrites(log: Log, cur: Lsn, last: Lsn, t: TxId)
    ensures var z := UndoWalk(log, cur, last, t).log;
            log <= z && forall n | |log| <= n < |z| :: TxOf(z[n]) == t
    decreases cur
  {
    if Has(log, cur) {
      var r := At(log, cur);
      if !r.Begin? && PrevOf(r) < cur {
        if r.Update? {
          WalkWrites(log + [Clr(last, t, r.prev, r.key, r.after, r.before)], r.prev, |log| + 1, t);
        } else {
          WalkWrites(log, PrevOf(r), last, t);
        }
      }
    }
  }

  /** Recovering `t` on `log` succeeds, writes its own records only, and undoes `stack`. */
  ghost predicate Undoing(log: Log, o: Outcome, t: TxId, stack: seq<Record>) {
    && o.ok && log <= o.log && (forall n | |log| <= n < |o.log| :: TxOf(o.log[n]) == t)
    && Replay(map[], o.log) == Undone(Replay(map[], log), stack)
  }

  lemma WalkUndoes(log: Log, cur: Lsn, last: Lsn, t: TxId, stack: seq<Record>)
    requires Linked(log, cur, stack, t)
    ensures Undoing(log, UndoWalk(log, cur, last, t), t, stack)
  {
    UndoWalkEffect(log, cur, last, t, stack);
    WalkWrites(log, cur, last, t);
  }

  /** Writing ABORT first changes no table. */
  lemma AbortUndoes(log: Log, last: Lsn, cur: Lsn, t: TxId, stack: seq<Record>)
    requires Leads(log, last, cur) && Linked(log, cur, stack, t)
    ensures Undoing(log, UndoWalk(log + [Abort(last, t)], |log| + 1, last, t), t, stack)
  {
    var l1 := log + [Abort(last, t)];
    LinkedAppend(log, l1, cur, stack, t);
    AbortLeads(log, last, cur, t);
    WalkLeads(l1, l1, |log| + 1, cur, last, t);
    WalkUndoes(l1, cur, last, t, stack);
    ReplayAppend(map[], log, Abort(last, t));
    var z := UndoWalk(l1, cur, last, t).log;
    forall n | |log| <= n < |z| ensures TxOf(z[n]) == t {
      assert n == |log| ==> z[n] == l1[n];
    }
  }

  lemma RunningUndoes(b: nat, log: Log, c: Lsn, e: Ongoing, ext: Log)
    requires ValidLog(b, log) && Accurate(b, log, c, e) && NoneOf(log, ext, e.tx)
    requires Info(b, log[..c], e.tx).phase == Running
    ensures Undoing(ext, RecoverTx(ext, c, e), e.tx, Info(b, log, e.tx).stack)
  {
    var t, i := e.tx, Info(b, log, e.tx);
    AccurateFacts(b, log, c, e);
    EntryFollows(b, log, c, e);
    AnalyseNoneOf(log, ext, c, t, Analysis(e.last, false, false));
    ValidIsChained(b, log);
    ValidIsCoherent(b, log);
    var a := AnalyseEntry(log, c, e);
    if !a.finished {
      assert ChainOk(b, log, t);
      LinkedAppend(log, ext, i.cursor, i.stack, t);
      if a.abortSeen {
        assert At(ext, a.last) == At(log, a.last);
        WalkUndoes(ext, i.cursor, a.last, t, i.stack);
      } else {
        AbortUndoes(ext, a.last, i.cursor, t, i.stack);
      }
    }
  }

  lemma SettledUndoes(b: nat, log: Log, c: Lsn, e: Ongoing, ext: Log)
    requires ValidLog(b, log) && OnlineLinked(b, log) && Accurate(b, log, c, e) && NoneOf(log, ext, e.tx)
    requires Settling(b, log, c, e.tx)
    ensures Undoing(ext, RecoverTx(ext, c, e), e.tx, UpdatesOf(b, log, e.tx))
  {
    var t := e.tx;
    var m := SettledLeads(b, log, c, e);
    SettledChain(b, log, m, t);
    AccurateFacts(b, log, c, e);
    ScanIsBlind(b, log, c, t, Analysis(e.last, false, false));
    AnalyseNoneOf(log, ext, c, t, Analysis(e.last, false, false));
    LeadsAppend(log, ext, AnalyseEntry(log, c, e).last, log[m].prev);
    LinkedAppend(log, ext, log[m].prev, UpdatesOf(b, log, t), t);
    AbortUndoes(ext, AnalyseEntry(log, c, e).last, log[m].prev, t, UpdatesOf(b, log, t));
  }

  /** Theorem: recovering an accurate entry, on the log of the crash or after other transactions have
      been recovered, always succeeds, and redo then undoes exactly `ToUndo`. */
  lemma EntryUndoes(b: nat, log: Log, c: Lsn, e: Ongoing, ext: Log)
    requires ValidLog(b, log) && OnlineLinked(b, log) && Accurate(b, log, c, e) && NoneOf(log, ext, e.tx)
    ensures Undoing(ext, RecoverTx(ext, c, e), e.tx, ToUndo(b, log, c, e.tx))
  {
    AccurateFacts(b, log, c, e);
    if Info(b, log[..c], e.tx).phase == Running {
      RunningUndoes(b, log, c, e, ext);
    } else {
      SettledUndoes(b, log, c, e, ext);
    }
  }

  const LOST: Log := [Begin(0, 1), Update(1, 1, "k", "", "v"), Commit(2, 1), Check([Ongoing(1, 3)])]

  const LOST_UPDATE := Update(1, 1, "k", "", "v")

  lemma LostBegins(one: Log)
    requires one == [Begin(0, 1)]
    ensures UpdatesOf(0, one, 1) == []
  {
    assert one[..|one| - 1] == [];
  }

  lemma LostUpdates(one: Log, u: Record)
    requires UpdatesOf(0, one, 1) == [] && u.Update? && u.tx == 1
    ensures UpdatesOf(0, one + [u], 1) == [u]
  {
    hide UpdatesOf;
    UpdatesAppend(0, one, u, 1);
  }

  lemma LostWasCommitted()
    ensures Look(Committed(0, LOST), "k") == "v"
  {
    hide UpdatesOf, Committed, Replay;
    var one: Log, two := [Begin(0, 1)], [Begin(0, 1), LOST_UPDATE];
    LostBegins(one);
    LostUpdates(one, LOST_UPDATE);
    assert one + [LOST_UPDATE] == two;
    CommittedAppend(0, two, Commit(2, 1));
    CommittedAppend(0, two + [Commit(2, 1)], Check([Ongoing(1, 3)]));
    assert LOST == two + [Commit(2, 1)] + [Check([Ongoing(1, 3)])];
    ReplayOne(Committed(0, two), LOST_UPDATE);
    assert Redo(Committed(0, two), LOST_UPDATE) == Put(Committed(0, two), LOST_UPDATE.key, LOST_UPDATE.after);
  }

  /** What recovery appends to it. */
  lemma LostIsUndone()
    ensures Recover(LOST, 4)
         == Outcome(LOST + [Abort(3, 1)] + [Clr(3, 1, 1, "k", "v", "")] + [End(1, 1)], true)
  {
    var e := Ongoing(1, 3);
    var l1 := LOST + [Abort(3, 1)];
    var l2 := l1 + [Clr(3, 1, 1, "k", "v", "")];
    assert AnalyseEntry(LOST, 4, e) == Analysis(3, false, false);
    assert UndoWalk(l2, 1, 6, 1) == Outcome(l2 + [End(1, 1)], true);
    assert UndoWalk(l1, 2, 3, 1) == UndoWalk(l2, 1, 6, 1);
    assert UndoWalk(l1, 3, 3, 1) == UndoWalk(l1, 2, 3, 1);
    assert UndoWalk(l1, 5, 3, 1) == UndoWalk(l1, 3, 3, 1);
    assert [e][1..] == [];
  }

  /** An instance: the transaction has committed, the checkpoint still lists it, and recovery deletes
      what it had inserted. */
  lemma CommitIsLostExample()
    ensures Look(Committed(0, LOST), "k") == "v"
    ensures Recover(LOST, 4).ok && Look(Replay(map[], Recover(LOST, 4).log), "k") == ABSENT
  {
    LostWasCommitted();
    LostIsUndone();
    hide Recover, Committed;
    var l1, clr := LOST + [Abort(3, 1)], Clr(3, 1, 1, "k", "v", "");
    ReplayAppend(map[], l1, clr);
    ReplayAppend(map[], l1 + [clr], End(1, 1));
    assert Redo(Replay(map[], l1), clr) == Put(Replay(map[], l1), clr.key, clr.after);
  }
}
