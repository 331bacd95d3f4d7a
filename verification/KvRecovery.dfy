/** `src/kv_recovery.c` and `kv_tx_rollback` of `src/transaction.c` as the program runs them: on the
    text of the log file, a counter, and the hash table. */
module KvRecovery {
  import opened Table
  import opened LogRecord
  import opened RecoverySpec
  import opened LogShape
  import opened Utils
  import opened TextFile
  import opened LogCodec
  import LogFile
  import opened Snapshot
  import opened SnapshotFiles
  import opened KvHash

  /** A compensation, an ABORT and an END fit the line buffer whenever the update did. */
  lemma ClrPrintable(l: Lsn, u: Record, cur: Lsn, prev: Lsn, t: TxId)
    requires LogCodec.Printable(cur, u) && u.Update? && Word(l) && Word(prev) && Word(t)
    ensures Printable(l, Clr(prev, t, u.prev, u.key, u.after, u.before))
  {
    hide Hex;
  }

  lemma MarkPrintable(l: Lsn, prev: Lsn, t: TxId)
    requires Word(l) && Word(prev) && Word(t)
    ensures Printable(l, Begin(prev, t)) && Printable(l, Commit(prev, t))
    ensures Printable(l, Abort(prev, t)) && Printable(l, End(prev, t))
  {
    hide Hex;
  }

  /** The file-scope state of `src/kv_recovery.c`: the LSN counter and the log file. */
  class LogWriter {
    var lsn: Lsn
    var text: string
    ghost var records: Log

    /** The file holds the records; the counter may be stale. */
    ghost predicate Readable()
      reads this
    {
      LogFile.AllPrintable(records) && text == LogFile.FileText(records)
    }

    ghost predicate Valid()
      reads this
    {
      lsn == |records| && Readable()
    }

    /** The start of `kv_recovery_recover`: opens the file and finds the last LSN in it, unless the file
        has exactly one line, which leaves the counter at 0. */
    constructor (text: string, ghost records: Log)
      requires LogFile.AllPrintable(records) && text == LogFile.FileText(records)
      ensures Readable() && this.records == records
      ensures Valid() <==> |records| != 1
      ensures |records| == 1 ==> lsn == 0
    {
      var last := LogFile.RestoreLsn(text, records);
      this.lsn, this.text, this.records := last, text, records;
    }

    method GetLog(l: Lsn) returns (found: LogFile.Found)
      requires Readable() && (l >= 1 || records != [])
      ensures found == if Has(records, l) then LogFile.Found(At(records, l)) else LogFile.NotFound
    {
      found := LogFile.GetLog(text, l, records);
    }

    /** Counts one LSN up and adds its line to the file. */
    method Append(line: string, ghost r: Record) returns (newLsn: Lsn)
      requires Valid() && Printable(lsn + 1, r) && line == Print(lsn + 1, r)
      modifies this
      ensures Valid() && records == old(records) + [r] && newLsn == |records|
    {
      hide LogFile.AllPrintable, LogFile.FileText, Print, Printable;
      LogFile.FileTextAppend(records, r);
      LogFile.PrintableAppend(records, r);
      lsn := lsn + 1;
      text := text + line;
      records := records + [r];
      newLsn := lsn;
    }

    method BeginLog(prev: Lsn, t: TxId) returns (newLsn: Lsn)
      requires Valid() && Word(lsn + 1) && Word(prev) && Word(t)
      modifies this
      ensures Valid() && records == old(records) + [Begin(prev, t)] && newLsn == |records|
    {
      MarkPrintable(lsn + 1, prev, t);
      newLsn := Append(Print(lsn + 1, Begin(prev, t)), Begin(prev, t));
    }

    method CommitLog(prev: Lsn, t: TxId) returns (newLsn: Lsn)
      requires Valid() && Word(lsn + 1) && Word(prev) && Word(t)
      modifies this
      ensures Valid() && records == old(records) + [Commit(prev, t)] && newLsn == |records|
    {
      MarkPrintable(lsn + 1, prev, t);
      newLsn := Append(Print(lsn + 1, Commit(prev, t)), Commit(prev, t));
    }

    method UpdateLog(prev: Lsn, t: TxId, key: Key, before: Value, after: Value) returns (newLsn: Lsn)
      requires Valid() && Printable(lsn + 1, Update(prev, t, key, before, after))
      modifies this
      ensures Valid() && records == old(records) + [Update(prev, t, key, before, after)] && newLsn == |records|
    {
      hide LogFile.AllPrintable, LogFile.FileText, Print, Printable;
      var line := FormatDataChange(prev, t, key, before, after, false, 0, lsn + 1);
      newLsn := Append(line, Update(prev, t, key, before, after));
    }

    /** The caller holds the lock on the log. The list names the transactions of the checkpoint. */
    method CheckLog(list: seq<Ongoing>) returns (newLsn: Lsn)
      requires Valid() && Printable(lsn + 1, Check(list))
      modifies this
      ensures Valid() && records == old(records) + [Check(list)] && newLsn == |records|
    {
      hide LogFile.AllPrintable, LogFile.FileText, Print, Printable;
      var line := FormatCheck(list, lsn + 1);
      newLsn := Append(line, Check(list));
    }

    method AbortLog(prev: Lsn, t: TxId) returns (newLsn: Lsn)
      requires Valid() && Word(lsn + 1) && Word(prev) && Word(t)
      modifies this
      ensures Valid() && records == old(records) + [Abort(prev, t)] && newLsn == |records|
    {
      MarkPrintable(lsn + 1, prev, t);
      newLsn := Append(Print(lsn + 1, Abort(prev, t)), Abort(prev, t));
    }

    method EndLog(prev: Lsn, t: TxId) returns (newLsn: Lsn)
      requires Valid() && Word(lsn + 1) && Word(prev) && Word(t)
      modifies this
      ensures Valid() && records == old(records) + [End(prev, t)] && newLsn == |records|
    {
      MarkPrintable(lsn + 1, prev, t);
      newLsn := Append(Print(lsn + 1, End(prev, t)), End(prev, t));
    }

    method ClrLog(prev: Lsn, t: TxId, next: Lsn, key: Key, now: Value, before: Value) returns (newLsn: Lsn)
      requires Valid() && Printable(lsn + 1, Clr(prev, t, next, key, now, before))
      modifies this
      ensures Valid() && records == old(records) + [Clr(prev, t, next, key, now, before)] && newLsn == |records|
    {
      hide LogFile.AllPrintable, LogFile.FileText, Print, Printable;
      var line := FormatDataChange(prev, t, key, now, before, true, next, lsn + 1);
      newLsn := Append(line, Clr(prev, t, next, key, now, before));
    }

    // ---------- kv_recovery_recover ----------

    /** The analysis loop for one listed transaction. */
    method Scan(c: Lsn, e: Ongoing) returns (last: Lsn, abortStarted: bool, finished: bool)
      requires Valid()
      ensures Analysis(last, abortStarted, finished) == AnalyseEntry(records, c, e)
    {
      hide LogFile.AllPrintable, LogFile.FileText;
      last, abortStarted, finished := e.last, false, false;
      var abortEnd, committed := false, false;
      var temp := if c > e.last then c else e.last;
      while true
        invariant !abortEnd && !committed
        invariant AnalyseEntry(records, c, e) == Analyse(records, temp, e.tx, Analysis(last, abortStarted, false))
        decreases |records| - temp
      {
        temp := temp + 1;
        var line := GetLog(temp);
        if line.NotFound? {
          break;
        }
        var r := line.record;
        if TxOf(r) == e.tx {
          last := temp;
          if !abortStarted && r.Abort? {
            abortStarted := true;
            abortEnd := false;
          }
          if r.Commit? {
            committed := true;
            break;
          }
          if abortStarted && r.End? {
            abortEnd := true;
            break;
          }
        }
      }
      finished := committed || abortEnd;
    }

    /** The undo loop for one transaction. */
    method UndoChain(start: Lsn, newest: Lsn, t: TxId) returns (ok: bool)
      requires Valid() && records != [] && Shaped(records) && newest <= |records|
      requires Word(t) && Word(|UndoWalk(records, start, newest, t).log|)
      modifies this
      ensures Valid() && Outcome(records, ok) == UndoWalk(old(records), start, newest, t)
    {
      hide LogFile.AllPrintable, LogFile.FileText, Print, Printable, Shaped;
      var temp: Lsn, last: Lsn := start, newest;
      while true
        invariant Valid() && records != [] && Shaped(records) && last <= |records|
        invariant UndoWalk(records, temp, last, t) == UndoWalk(old(records), start, newest, t)
        decreases temp
      {
        WalkExtends(records, temp, last, t);
        var line := GetLog(temp);
        if line.NotFound? {
          return false;
        }
        var r := line.record;
        ShapedAt(records, temp);
        if r.Begin? {
          var _ := EndLog(temp, t);
          return true;
        }
        if r.Update? {
          WalkExtends(records + [Clr(last, t, r.prev, r.key, r.after, r.before)], r.prev, |records| + 1, t);
          last := Compensate(temp, last, t, r);
        }
        temp := PrevOf(r);
      }
    }

    /** Writes the compensation of the update at `cur`. */
    method Compensate(cur: Lsn, last: Lsn, t: TxId, u: Record) returns (newLsn: Lsn)
      requires Valid() && Has(records, cur) && u == At(records, cur) && u.Update?
      requires Shaped(records) && last <= |records| && Word(|records| + 1) && Word(t)
      modifies this
      ensures Valid() && Shaped(records) && newLsn == |records|
      ensures records == old(records) + [Clr(last, t, u.prev, u.key, u.after, u.before)]
    {
      assert Printable(cur, u);
      hide LogFile.AllPrintable, LogFile.FileText, Print, Printable, Shaped;
      ClrPrintable(lsn + 1, u, cur, last, t);
      ShapedAt(records, cur);
      ShapedAppend(records, Clr(last, t, u.prev, u.key, u.after, u.before));
      newLsn := ClrLog(last, t, u.prev, u.key, u.after, u.before);
    }

    /** One turn of the loop over the listed transactions. */
    method RecoverOne(c: Lsn, e: Ongoing) returns (ok: bool)
      requires Valid() && records != [] && Shaped(records) && e.last <= |records|
      requires Word(e.tx) && Word(|RecoverTx(records, c, e).log|)
      modifies this
      ensures Valid() && Outcome(records, ok) == RecoverTx(old(records), c, e)
    {
      hide LogFile.AllPrintable, LogFile.FileText, Shaped, UndoWalk, Analyse;
      RecoverTxExtends(records, c, e);
      AnalyseBounds(records, ScanStart(c, e), e.tx, Analysis(e.last, false, false));
      var last, abortStarted, finished := Scan(c, e);
      if finished {
        return true;
      }
      var temp: Lsn;
      if !abortStarted {
        WalkExtends(records + [Abort(last, e.tx)], |records| + 1, last, e.tx);
        ShapedAppend(records, Abort(last, e.tx));
        temp := AbortLog(last, e.tx);
      } else {
        var line := GetLog(last);
        if line.NotFound? {
          return false;
        }
        temp := if line.record.Abort? then line.record.prev
                else if line.record.Clr? then line.record.undoNext
                else 0;
      }
      ok := UndoChain(temp, last, e.tx);
    }

    /** The loop over the transactions that the CHECK record at `c` lists. */
    method RecoverListed(c: Lsn, list: seq<Ongoing>) returns (ok: bool)
      requires Readable() && (Valid() || list == []) && Shaped(records) && records != []
      requires forall e <- list :: e.last <= |records| && Word(e.tx)
      requires Word(|RecoverAll(records, c, list).log|)
      modifies this
      ensures Readable() && Outcome(records, ok) == RecoverAll(old(records), c, list)
      ensures if old(Valid()) then Valid() else records == old(records) && lsn == old(lsn)
    {
      hide LogFile.AllPrintable, LogFile.FileText, RecoverTx, Shaped;
      ok := true;
      ghost var was := records;
      for i := 0 to |list|
        invariant Readable() && (if old(Valid()) then Valid() else list == [] && lsn == old(lsn))
        invariant Shaped(records) && was <= records
        invariant ok && RecoverAll(records, c, list[i..]) == RecoverAll(was, c, list)
      {
        RecoverExtends(records, c, list[i..]);
        assert list[i..][1..] == list[i + 1..] && list[i] in list;
        RecoverTxShaped(records, c, list[i]);
        RecoverTxExtends(records, c, list[i]);
        RecoverExtends(RecoverTx(records, c, list[i]).log, c, list[i + 1..]);
        ok := RecoverOne(c, list[i]);
        if !ok {
          return;
        }
      }
    }

    /** The rest of `kv_recovery_recover`; `c` is what the last-LSN file says, 0 without one. With a stale
        counter, after a file of one line, it writes nothing. */
    method Recover(c: Lsn) returns (ok: bool)
      requires Readable() && (Valid() || |records| == 1)
      requires Shaped(records) && Word(|RecoverySpec.Recover(records, c).log|)
      modifies this
      ensures Readable() && Outcome(records, ok) == RecoverySpec.Recover(old(records), c)
      ensures if old(Valid()) then Valid() else records == old(records) && lsn == old(lsn)
    {
      if !Valid() {
        OneListsNobody(records, c);
      }
      ok := true;
      if c == 0 {
        return;
      }
      var line := GetLog(c);
      if line.NotFound? || !line.record.Check? {
        return;
      }
      assert Printable(c, At(records, c));
      hide LogFile.AllPrintable, LogFile.FileText;
      ShapedAt(records, c);
      ok := RecoverListed(c, line.record.ongoing);
    }
  }

  // ---------- kv_recovery_redo ----------

  /** `snapshot` is the file of CHECK record `c` for the table `base`; without a checkpoint there is no
      file, and the table was empty. */
  ghost predicate SnapshotAt(c: Lsn, snapshot: string, base: Table) {
    if c == 0 then base == map[] else SnapshotOf(snapshot, base) && Storable(base)
  }

  /** A table that its snapshot file can carry. */
  ghost predicate Storable(base: Table) {
    AllFit(base) && forall k <- base :: ' ' !in base[k]
  }

  /** The first half of `kv_recovery_redo`. */
  method LoadSnapshot(ht: HashTable, c: Lsn, snapshot: string, ghost base: Table) returns (ok: bool)
    requires ht.Means(map[]) && SnapshotAt(c, snapshot, base)
    modifies ht.Repr()
    ensures ok && ht.Means(base) && fresh(ht.Repr() - old(ht.Repr()))
  {
    hide Filed, Complete, AllLinked, Keyed, LinksOf, SnapshotOf, AllFit;
    ok := true;
    if c > 0 {
      SnapshotRoundTripIff(snapshot, base);
      ok := Load(ht, snapshot);
    }
  }

  method Assign(ht: HashTable, k: Key, v: Value, ghost t: Table)
    requires ht.Means(t) && v != ABSENT
    modifies ht.Repr()
    ensures ht.Means(Put(t, k, v)) && fresh(ht.Repr() - old(ht.Repr()))
  {
    hide Filed, Complete, AllLinked, Keyed, LinksOf;
    var _ := ht.Set(k, v);
  }

  method Erase(ht: HashTable, k: Key, ghost t: Table)
    requires ht.Means(t)
    modifies ht.Repr()
    ensures ht.Means(Put(t, k, ABSENT)) && fresh(ht.Repr() - old(ht.Repr()))
  {
    hide Filed, Complete, AllLinked, Keyed, LinksOf;
    var _ := ht.Del(k);
  }

  /** Redoes one record. */
  method RedoRecord(ht: HashTable, r: Record, ghost t: Table)
    requires ht.Means(t)
    modifies ht.Repr()
    ensures ht.Means(Redo(t, r)) && fresh(ht.Repr() - old(ht.Repr()))
  {
    hide HashTable.Means;
    if r.Update? || r.Clr? {
      if |r.after| == 0 {
        Erase(ht, r.key, t);
      } else {
        Assign(ht, r.key, r.after, t);
      }
    }
  }

  /** One turn of the redo loop: reads the next record and redoes it; no more when there is none. */
  method RedoNext(ht: HashTable, text: string, lsn: Lsn, ghost log: Log, ghost t: Table) returns (more: bool)
    requires LogFile.AllPrintable(log) && text == LogFile.FileText(log)
    requires ht.Means(t)
    modifies ht.Repr()
    ensures fresh(ht.Repr() - old(ht.Repr()))
    ensures more == Has(log, lsn + 1)
    ensures ht.Means(if more then Redo(t, At(log, lsn + 1)) else t)
  {
    hide HashTable.Means, LogFile.AllPrintable, LogFile.FileText, Redo;
    var line := LogFile.GetLog(text, lsn + 1, log);
    more := line.Found?;
    if more {
      RedoRecord(ht, line.record, t);
    }
  }

  /** The second half: redoes the records after `c`. */
  method RedoFrom(ht: HashTable, text: string, c: Lsn, ghost log: Log, ghost base: Table)
    requires LogFile.AllPrintable(log) && text == LogFile.FileText(log) && c <= |log|
    requires ht.Means(base)
    modifies ht.Repr()
    ensures ht.Means(Replay(base, log[c..])) && fresh(ht.Repr() - old(ht.Repr()))
  {
    hide HashTable.Means, LogFile.AllPrintable, LogFile.FileText, Replay, Redo;
    var lsn := c;
    ReplayNothing(base, log[c..c]);
    var more := true;
    while more
      invariant c <= lsn <= |log| && (!more ==> lsn == |log|)
      invariant ht.Means(Replay(base, log[c..lsn])) && fresh(ht.Repr() - old(ht.Repr()))
      decreases |log| - lsn, more
    {
      more := RedoNext(ht, text, lsn, log, Replay(base, log[c..lsn]));
      if more {
        ReplayNext(base, log, c, lsn);
        lsn := lsn + 1;
      }
    }
    assert log[c..lsn] == log[c..];
  }

  lemma ReplayNext(t: Table, log: Log, c: Lsn, lsn: Lsn)
    requires c <= lsn < |log|
    ensures Replay(t, log[c..lsn + 1]) == Redo(Replay(t, log[c..lsn]), At(log, lsn + 1))
  {
    assert log[c..lsn + 1] == log[c..lsn] + [log[lsn]];
    ReplayAppend(t, log[c..lsn], log[lsn]);
  }

  /** `kv_recovery_redo` on the text of the log file: loads the snapshot of CHECK record `c`, if there
      is one, and redoes what follows. `base` is the table that the snapshot was taken of. */
  method RedoLog(ht: HashTable, text: string, c: Lsn, snapshot: string, ghost log: Log, ghost base: Table)
    returns (ok: bool)
    requires LogFile.AllPrintable(log) && text == LogFile.FileText(log) && c <= |log|
    requires ht.Means(map[]) && SnapshotAt(c, snapshot, base)
    modifies ht.Repr()
    ensures ok && ht.Means(Replay(base, log[c..])) && fresh(ht.Repr() - old(ht.Repr()))
  {
    hide HashTable.Means, LogFile.AllPrintable, LogFile.FileText, SnapshotAt;
    ok := LoadSnapshot(ht, c, snapshot, base);
    if ok {
      RedoFrom(ht, text, c, log, base);
    }
  }

  method NewTable() returns (ht: HashTable)
    ensures ht.Means(map[]) && ht.size == 2 && fresh(ht.Repr())
  {
    hide Filed, Complete, AllLinked, Keyed, LinksOf;
    ht := new HashTable(2);
  }

  /** `kv_recovery_redo`: finds the checkpoint to start from and its snapshot file. */
  method RedoDisk(ht: HashTable, text: string, disk: SnapshotDisk, ghost log: Log, ghost c: Lsn, ghost base: Table)
    returns (ok: bool)
    requires LogFile.AllPrintable(log) && text == LogFile.FileText(log) && c <= |log|
    requires ht.Means(map[]) && LeftBehind(disk.lastLsn, disk.files, c, base) && Storable(base)
    modifies ht.Repr()
    ensures ok && ht.Means(Replay(base, log[c..])) && fresh(ht.Repr() - old(ht.Repr()))
  {
    hide HashTable.Means, LogFile.AllPrintable, LogFile.FileText, Storable, Replay, SnapshotOf, AllFit;
    LeftHex(disk.lastLsn, disk.files, c, base);
    var hex := disk.HexToRedo();
    if hex.None? {
      return false;
    }
    var lsn := HexToUint32(hex.value);
    var snapshot := "";
    if lsn > 0 {
      var found := disk.Open(hex.value);
      if found.None? {
        return false;
      }
      snapshot := found.value;
    }
    ok := RedoLog(ht, text, lsn, snapshot, log, base);
  }

  lemma LeftHex(lastLsn: Option<string>, files: map<string, string>, c: Lsn, base: Table)
    requires LeftBehind(lastLsn, files, c, base)
    ensures lastLsn.Some? ==> |lastLsn.value| == 9 && '\n' !in lastLsn.value[..8]
    ensures if lastLsn.None? then c == 0 && HexVal("00000000") == 0
            else c > 0 && lastLsn.value[..8] == Hex(c, 8) && HexVal(lastLsn.value[..8]) == c
  {
    ZerosAreZero();
    if c != 0 {
      PublishedIsRead(c);
    }
  }

  /** The start of the server (`kv_server.c`): a fresh table of size 2, then recovery, then redo. `c` is the
      CHECK record that the last-LSN file names, 0 for none, and `base` the table of its snapshot. */
  method StartServer(text: string, disk: SnapshotDisk, ghost records: Log, ghost c: Lsn, ghost base: Table)
    returns (log: LogWriter, ht: HashTable, ok: bool)
    requires LogFile.AllPrintable(records) && text == LogFile.FileText(records)
    requires Shaped(records) && c <= |records| && Word(|Recover(records, c).log|)
    requires LeftBehind(disk.lastLsn, disk.files, c, base) && Storable(base)
    ensures fresh(log) && log.Readable() && (log.Valid() <==> |log.records| != 1) && fresh(ht.Repr())
    ensures Outcome(log.records, ok) == Recover(records, c) && records <= log.records
    ensures ok ==> ht.Means(Replay(base, log.records[c..]))
  {
    hide HashTable.Means, LogFile.AllPrintable, LogFile.FileText, Storable;
    hide Shaped, Recover, Replay, LogWriter.Valid;
    LeftHex(disk.lastLsn, disk.files, c, base);
    hide LeftBehind;
    ht := NewTable();
    ghost var repr := ht.Repr();
    var last := disk.LsnToRecover();
    log, ok := OpenAndRecover(text, if last < 0 then 0 else last, records);
    assert log !in repr;
    if ok {
      ghost var all := log.records;
      ok := RedoDisk(ht, log.text, disk, all, c, base);
    }
  }

  /** `kv_recovery_recover` from its first line. */
  method OpenAndRecover(text: string, c: Lsn, ghost records: Log) returns (log: LogWriter, ok: bool)
    requires LogFile.AllPrintable(records) && text == LogFile.FileText(records)
    requires Shaped(records) && Word(|Recover(records, c).log|)
    ensures fresh(log) && log.Readable() && (log.Valid() <==> |log.records| != 1)
    ensures Outcome(log.records, ok) == Recover(records, c) && records <= log.records
  {
    hide LogFile.AllPrintable, LogFile.FileText, Shaped;
    RecoverExtends(records, c, Listed(records, c));
    log := new LogWriter(text, records);
    ok := log.Recover(c);
  }
}
