/** What the log alone says about every transaction, which records may be appended to it, and the
    table that the committed transactions have built. `b` is the length the log had when the server
    last started; only records after `b` belong to transactions of the present run. */
module LogProtocol {
  import opened Table
  import opened LogRecord

  datatype Phase = Unborn | Running | Aborting | Done

  /** A transaction as its records describe it.
      `last`: its newest record; `cursor`: the next record to look at when undoing;
      `stack`: its updates not yet undone, oldest first; `keys`: every key it has updated. */
  datatype TxInfo = TxInfo(phase: Phase, last: Lsn, cursor: Lsn, stack: seq<Record>, keys: set<Key>)

  const FRESH := TxInfo(Unborn, 0, 0, [], {})

  function Advance(i: TxInfo, r: Record, l: Lsn): TxInfo {
    match r
    case Begin(_, _) => TxInfo(Running, l, l, [], {})
    case Update(_, _, k, _, _) => TxInfo(i.phase, l, l, i.stack + [r], i.keys + {k})
    case Commit(_, _) => TxInfo(Done, l, i.cursor, [], {})
    case Abort(_, _) => TxInfo(Aborting, l, i.cursor, i.stack, i.keys)
    case Clr(_, _, next, _, _, _) => TxInfo(i.phase, l, next, Below(i.stack), i.keys)
    case End(_, _) => TxInfo(Done, l, i.cursor, [], {})
    case Check(_) => i
  }

  function Below(stack: seq<Record>): seq<Record> {
    if stack == [] then [] else stack[..|stack| - 1]
  }

  function Top(stack: seq<Record>): Record
    requires stack != []
  {
    stack[|stack| - 1]
  }

  function Info(b: nat, log: Log, t: TxId): TxInfo {
    if |log| <= b then FRESH
    else
      var i := Info(b, log[..|log| - 1], t);
      if TxOf(log[|log| - 1]) == t then Advance(i, log[|log| - 1], |log|) else i
  }

  predicate Live(b: nat, log: Log, t: TxId) {
    Info(b, log, t).phase in {Running, Aborting}
  }

  /** The updates of `t`, in log order. */
  function UpdatesOf(b: nat, log: Log, t: TxId): Log {
    if |log| <= b then []
    else
      var us := UpdatesOf(b, log[..|log| - 1], t);
      var r := log[|log| - 1];
      if r.Update? && r.tx == t then us + [r] else us
  }

  /** The compensations of `t`, in log order. */
  function ClrsOf(b: nat, log: Log, t: TxId): Log {
    if |log| <= b then []
    else
      var cs := ClrsOf(b, log[..|log| - 1], t);
      var r := log[|log| - 1];
      if r.Clr? && r.tx == t then cs + [r] else cs
  }

  /** The reference: start from the table of the last restart and, at each COMMIT, apply the
      updates of the committing transaction. Nothing else ever counts. */
  function Committed(b: nat, log: Log): Table {
    if |log| <= b then Replay(map[], log)
    else
      var c := Committed(b, log[..|log| - 1]);
      var r := log[|log| - 1];
      if r.Commit? then Replay(c, UpdatesOf(b, log[..|log| - 1], r.tx)) else c
  }

  /** No live transaction other than `t` has updated `k`. */
  ghost predicate Free(b: nat, log: Log, t: TxId, k: Key) {
    forall u: TxId :: u != t && Live(b, log, u) ==> k !in Info(b, log, u).keys
  }

  /** The records that running transactions, rollback, recovery and the checkpointer may append. */
  ghost predicate CanAppend(b: nat, log: Log, r: Record) {
    var i := Info(b, log, TxOf(r));
    match r
    case Begin(prev, t) => t > 0 && prev == 0 && i.phase == Unborn
    case Update(prev, t, k, before, _) =>
      && i.phase == Running && prev == i.last && Free(b, log, t, k)
      && before == Look(Replay(map[], log), k)
    case Commit(prev, _) => i.phase == Running && prev == i.last
    case Abort(prev, _) => i.phase == Running && prev == i.last
    case Clr(prev, t, _, _, _, _) =>
      && i.phase == Aborting && i.stack != [] && Top(i.stack).Update?
      && Has(log, prev) && TxOf(At(log, prev)) == t
      && r == Compensation(Top(i.stack), prev)
    case End(prev, t) =>
      && i.phase == Aborting && i.stack == []
      && Has(log, prev) && TxOf(At(log, prev)) == t
    case Check(_) => true
  }

  ghost predicate ValidLog(b: nat, log: Log) {
    && b <= |log|
    && forall n :: b <= n < |log| ==> CanAppend(b, log[..n], log[n])
  }

  // ---------- appending one record ----------

  lemma InfoAppend(b: nat, log: Log, r: Record, t: TxId)
    requires b <= |log|
    ensures Info(b, log + [r], t)
         == if TxOf(r) == t then Advance(Info(b, log, t), r, |log| + 1) else Info(b, log, t)
  {
    assert (log + [r])[..|log|] == log;
  }

  lemma CommittedAppend(b: nat, log: Log, r: Record)
    requires b <= |log|
    ensures Committed(b, log + [r])
         == if r.Commit? then Replay(Committed(b, log), UpdatesOf(b, log, r.tx)) else Committed(b, log)
  {
    assert (log + [r])[..|log|] == log;
  }

  lemma UpdatesAppend(b: nat, log: Log, r: Record, t: TxId)
    requires b <= |log|
    ensures UpdatesOf(b, log + [r], t)
         == if r.Update? && r.tx == t then UpdatesOf(b, log, t) + [r] else UpdatesOf(b, log, t)
    ensures ClrsOf(b, log + [r], t)
         == if r.Clr? && r.tx == t then ClrsOf(b, log, t) + [r] else ClrsOf(b, log, t)
  {
    assert (log + [r])[..|log|] == log;
  }

  lemma ValidAppend(b: nat, log: Log, r: Record)
    requires ValidLog(b, log) && CanAppend(b, log, r)
    ensures ValidLog(b, log + [r])
  {
    var ext := log + [r];
    forall n | b <= n < |ext| ensures CanAppend(b, ext[..n], ext[n]) {
      if n < |log| {
        assert ext[..n] == log[..n];
      } else {
        assert ext[..n] == log;
      }
    }
  }

  lemma ValidPrefix(b: nat, log: Log, n: nat)
    requires ValidLog(b, log) && b <= n <= |log|
    ensures ValidLog(b, log[..n])
  {
    forall m | b <= m < n ensures CanAppend(b, log[..n][..m], log[..n][m]) {
      assert log[..n][..m] == log[..m];
    }
  }

  /** The last record of a valid log was allowed. */
  lemma ValidLast(b: nat, log: Log)
    requires ValidLog(b, log) && b < |log|
    ensures ValidLog(b, log[..|log| - 1]) && CanAppend(b, log[..|log| - 1], log[|log| - 1])
    ensures log == log[..|log| - 1] + [log[|log| - 1]]
  {
    ValidPrefix(b, log, |log| - 1);
  }
}
