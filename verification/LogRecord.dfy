/** The records of the write-ahead log and what redo makes of them. */
module LogRecord {
  import opened Table

  type Lsn = nat
  type TxId = nat

  /** One entry of a CHECK record: a transaction still running and its last LSN. */
  datatype Ongoing = Ongoing(tx: TxId, last: Lsn)

  datatype Record =
    | Begin(prev: Lsn, tx: TxId)
    | Update(prev: Lsn, tx: TxId, key: Key, before: Value, after: Value)
    | Commit(prev: Lsn, tx: TxId)
    | Abort(prev: Lsn, tx: TxId)
    | Clr(prev: Lsn, tx: TxId, undoNext: Lsn, key: Key, before: Value, after: Value)
    | Check(ongoing: seq<Ongoing>)
    | End(prev: Lsn, tx: TxId)

  /** A log holds its record with LSN `l` at index `l - 1`. */
  type Log = seq<Record>

  /** The transaction of a record; CHECK records carry id 0, which no transaction has. */
  function TxOf(r: Record): TxId {
    if r.Check? then 0 else r.tx
  }

  function PrevOf(r: Record): Lsn {
    if r.Check? then 0 else r.prev
  }

  /** `kv_recovery_get_log`: the record with LSN `l`, if the log has it. */
  predicate Has(log: Log, l: Lsn) {
    0 < l <= |log|
  }

  function At(log: Log, l: Lsn): Record
    requires Has(log, l)
  {
    log[l - 1]
  }

  /** The effect of redoing one record. */
  function Redo(t: Table, r: Record): Table {
    if r.Update? || r.Clr? then Put(t, r.key, r.after) else t
  }

  /** The effect of redoing a stretch of the log, in order. */
  function Replay(t: Table, log: Log): Table {
    if log == [] then t else Redo(Replay(t, log[..|log| - 1]), log[|log| - 1])
  }

  lemma ReplayAppend(t: Table, log: Log, r: Record)
    ensures Replay(t, log + [r]) == Redo(Replay(t, log), r)
  {
    assert (log + [r])[..|log|] == log;
  }

  lemma ReplayNothing(t: Table, none: Log)
    requires none == []
    ensures Replay(t, none) == t
  {
  }

  lemma ReplayOne(t: Table, r: Record)
    ensures Replay(t, [r]) == Redo(t, r)
  {
    ReplayNothing(t, []);
    assert [] + [r] == [r];
    ReplayAppend(t, [], r);
  }

  lemma {:induction false} ReplaySplit(t: Table, a: Log, b: Log)
    ensures Replay(t, a + b) == Replay(Replay(t, a), b)
    decreases |b|
  {
    if b == [] {
      assert a + b == a;
    } else {
      var init := b[..|b| - 1];
      assert a + b == (a + init) + [b[|b| - 1]];
      ReplayAppend(t, a + init, b[|b| - 1]);
      ReplaySplit(t, a, init);
    }
  }

  /** The compensation record that undoes update `u`: the same record online and offline. */
  function Compensation(u: Record, prev: Lsn): Record
    requires u.Update?
  {
    Clr(prev, u.tx, u.prev, u.key, u.after, u.before)
  }
}
