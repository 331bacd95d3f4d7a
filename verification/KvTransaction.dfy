/** `kv_tx_rollback` of `src/transaction.c`, on the log file and the hash table. */
module KvTransaction {
  import opened Table
  import opened LogRecord
  import opened RecoverySpec
  import opened LogShape
  import opened LogCodec
  import LogFile
  import opened KvHash
  import opened KvRecovery

  /** What undoing update `u` does to the table: nothing if the update changed nothing. */
  function UndoEffect(t: Table, u: Record): Table
    requires u.Update?
  {
    if u.before == ABSENT && u.after == ABSENT then t else Put(t, u.key, u.before)
  }

  /** The change made directly is the change that redo makes of the compensation record. */
  lemma UndoIsRedo(t: Table, u: Record, last: Lsn, id: TxId)
    requires u.Update? && NotIdle(u)
    ensures UndoEffect(t, u) == Redo(t, Clr(last, id, u.prev, u.key, u.after, u.before))
  {
  }

  /** The three cases of an update: restore, delete, nothing to do. */
  method UndoTable(ht: HashTable, u: Record, ghost t: Table)
    requires ht.Means(t) && u.Update?
    modifies ht.Repr()
    ensures ht.Means(UndoEffect(t, u)) && fresh(ht.Repr() - old(ht.Repr()))
  {
    hide HashTable.Means;
    if |u.before| != 0 {
      Assign(ht, u.key, u.before, t);
    } else if |u.after| != 0 {
      Erase(ht, u.key, t);
    }
  }

  class Transaction {
    const id: TxId
    var lastLsn: Lsn

    constructor (id: TxId)
      ensures this.id == id && lastLsn == 0
    {
      this.id, lastLsn := id, 0;
    }

    /** The log is there, and the table holds `t`; they are apart from each other and from the
        transaction. */
    ghost predicate Ready(log: LogWriter, ht: HashTable, t: Table)
      reads this, log, ht, ht.table, ht.nodes
    {
      && log.Valid() && ht.Means(t) && log !in ht.Repr() && this !in ht.Repr()
      && log.records != [] && Shaped(log.records) && lastLsn <= |log.records| && Word(id)
    }

    /** Undoes one update: the compensation first, then the table. */
    method UndoUpdate(log: LogWriter, ht: HashTable, cur: Lsn, u: Record, ghost t: Table)
      requires Ready(log, ht, t)
      requires Has(log.records, cur) && u == At(log.records, cur) && u.Update?
      requires Word(|log.records| + 1)
      modifies this, log, ht.Repr()
      ensures Ready(log, ht, UndoEffect(t, u)) && fresh(ht.Repr() - old(ht.Repr()))
      ensures lastLsn == |log.records|
      ensures log.records == old(log.records) + [Clr(old(lastLsn), id, u.prev, u.key, u.after, u.before)]
    {
      hide HashTable.Means, LogWriter.Valid, Shaped, UndoEffect;
      lastLsn := log.Compensate(cur, lastLsn, id, u);
      UndoTable(ht, u, t);
    }

    /** Whether the walk goes on after the record it has read. */
    static predicate GoesOn(line: LogFile.Found) {
      line.Found? && !line.record.Begin?
    }

    /** One turn of the loop: undoes the record at `next` if it is an update. `added` is what it has
        appended to the log. */
    method Turn(log: LogWriter, ht: HashTable, next: Lsn, ghost t: Table)
      returns (line: LogFile.Found, further: Lsn, ghost added: Log)
      requires Ready(log, ht, t)
      requires Word(|OnlineWalk(log.records, next, lastLsn, id).log|)
      modifies this, log, ht.Repr()
      ensures Ready(log, ht, Replay(t, added)) && fresh(ht.Repr() - old(ht.Repr()))
      ensures line == if Has(old(log.records), next) then LogFile.Found(At(old(log.records), next))
                      else LogFile.NotFound
      ensures log.records == old(log.records) + added
      ensures GoesOn(line) ==> further < next
      ensures GoesOn(line) ==>
                OnlineWalk(log.records, further, lastLsn, id) == OnlineWalk(old(log.records), next, old(lastLsn), id)
      ensures !GoesOn(line) ==> added == [] && lastLsn == old(lastLsn)
    {
      hide HashTable.Means, LogFile.AllPrintable, LogFile.FileText, Shaped;
      hide Replay, Redo, UndoEffect, OnlineWalk;
      ghost var here := log.records;
      OnlineTurn(here, next, lastLsn, id);
      ReplayNothing(t, []);
      line := log.GetLog(next);
      further, added := 0, [];
      if !GoesOn(line) {
        return;
      }
      var r := line.record;
      ShapedAt(here, next);
      if r.Update? {
        ghost var clr := Clr(lastLsn, id, r.prev, r.key, r.after, r.before);
        OnlineExtends(here + [clr], r.prev, |here| + 1, id);
        ReplayOne(t, clr);
        UndoIsRedo(t, r, lastLsn, id);
        UndoUpdate(log, ht, next, r, t);
        added := [clr];
      }
      further := PrevOf(r);
    }

    /** The loop: reads back along the transaction's links and undoes each update, down to the BEGIN. */
    method UndoAll(log: LogWriter, ht: HashTable, ghost t: Table)
      returns (line: LogFile.Found, ghost begin: Lsn, ghost more: Log)
      requires Ready(log, ht, t)
      requires Word(|OnlineWalk(log.records, lastLsn, lastLsn, id).log|)
      modifies this, log, ht.Repr()
      ensures Ready(log, ht, Replay(t, more)) && fresh(ht.Repr() - old(ht.Repr()))
      ensures log.records == old(log.records) + more
      ensures line == if Has(log.records, begin) then LogFile.Found(At(log.records, begin)) else LogFile.NotFound
      ensures !GoesOn(line)
      ensures OnlineWalk(log.records, begin, lastLsn, id)
           == OnlineWalk(old(log.records), old(lastLsn), old(lastLsn), id)
    {
      hide HashTable.Means, LogFile.AllPrintable, LogFile.FileText, Shaped;
      hide Replay, Redo, OnlineWalk, Transaction.Ready, HashTable.Means, LogWriter.Valid;
      ghost var start := log.records;
      ReplayNothing(t, []);
      var next := lastLsn;
      more := [];
      while true
        invariant Ready(log, ht, Replay(t, more)) && fresh(ht.Repr() - old(ht.Repr()))
        invariant log.records == start + more
        invariant OnlineWalk(log.records, next, lastLsn, id) == OnlineWalk(start, old(lastLsn), old(lastLsn), id)
        decreases next
      {
        ghost var added;
        var further;
        line, further, added := Turn(log, ht, next, Replay(t, more));
        if !GoesOn(line) {
          assert log.records == start + more && Replay(Replay(t, more), added) == Replay(t, more) by {
            ReplayNothing(Replay(t, more), added);
          }
          begin := next;
          return;
        }
        ReplaySplit(t, more, added);
        assert start + more + added == start + (more + added);
        more := more + added;
        next := further;
      }
    }

    lemma ReadyIsShaped(log: LogWriter, ht: HashTable, t: Table)
      requires Ready(log, ht, t)
      ensures Shaped(log.records)
    {
      hide Shaped;
    }

    /** Logs the END. */
    method Finish(log: LogWriter, ht: HashTable, ghost t: Table)
      requires Ready(log, ht, t) && Word(|log.records| + 1)
      modifies this, log
      ensures Ready(log, ht, t) && log.records == old(log.records) + [End(old(lastLsn), id)]
      ensures lastLsn == |log.records|
    {
      hide HashTable.Means, LogFile.AllPrintable, LogFile.FileText, Shaped;
      ShapedAppend(log.records, End(lastLsn, id));
      lastLsn := log.EndLog(lastLsn, id);
    }

    /** `kv_tx_rollback`: undoes all, then logs the END. The answer is false where the program exits
        because a record is missing. The table stays what replaying the log gives. */
    method Rollback(log: LogWriter, ht: HashTable, ghost t: Table) returns (ok: bool)
      requires Ready(log, ht, t)
      requires Word(|OnlineWalk(log.records, lastLsn, lastLsn, id).log|)
      modifies this, log, ht.Repr()
      ensures fresh(ht.Repr() - old(ht.Repr())) && old(log.records) <= log.records
      ensures Ready(log, ht, Replay(t, log.records[|old(log.records)|..]))
      ensures Outcome(log.records, ok) == OnlineWalk(old(log.records), old(lastLsn), old(lastLsn), id)
      ensures ok ==> lastLsn == |log.records|
    {
      hide Shaped, Replay, Redo, OnlineWalk, HashTable.Means, LogWriter.Valid, Transaction.Ready;
      ghost var start := log.records;
      ghost var begin, more;
      var line;
      line, begin, more := UndoAll(log, ht, t);
      ghost var all := log.records;
      ReadyIsShaped(log, ht, Replay(t, more));
      OnlineTurn(all, begin, lastLsn, id);
      assert all[|start|..] == more;
      if line.NotFound? {
        return false;
      }
      ghost var end := End(lastLsn, id);
      ReplayAppend(t, more, end);
      RedoOfMark(Replay(t, more), end);
      assert (all + [end])[|start|..] == more + [end];
      Finish(log, ht, Replay(t, more));
      ok := true;
    }
  }

  lemma RedoOfMark(t: Table, r: Record)
    requires r.End?
    ensures Redo(t, r) == t
  {
  }
}
