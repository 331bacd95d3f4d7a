/** `src/tx_manager.c`: transaction ids, which go on over restarts, and the list of ongoing
    transactions. */
module TxManager {
  import opened LogRecord
  import opened TextFile
  import opened LogCodec
  import LogFile
  import opened KvTransaction

  function OthersThan(list: seq<Transaction>, id: TxId): seq<Transaction> {
    if list == [] then []
    else OthersThan(list[..|list| - 1], id) + if list[|list| - 1].id == id then [] else [list[|list| - 1]]
  }

  class TxManager {
    var transactionId: TxId
    var txList: seq<Transaction>
    var idFile: string
    ghost var ids: seq<TxId>

    /** The file lists every id ever issued, 1 to `transactionId`; the list holds each transaction once. */
    ghost predicate Valid()
      reads this
    {
      && Word(transactionId) && |ids| == transactionId && (forall i | 0 <= i < |ids| :: ids[i] == i + 1)
      && idFile == Join(LogFile.IdLines(ids))
      && (forall tx <- txList :: 1 <= tx.id <= transactionId)
      && (forall i, j | 0 <= i < j < |txList| :: txList[i].id != txList[j].id)
    }

    /** `kv_txm_init`: goes on from the last id in the file. */
    constructor (idFile: string, ghost ids: seq<TxId>)
      requires (forall i | 0 <= i < |ids| :: ids[i] == i + 1) && Word(|ids|)
      requires idFile == Join(LogFile.IdLines(ids))
      ensures Valid() && txList == [] && this.ids == ids
    {
      var last := LogFile.RestoreTxId(idFile, ids);
      transactionId, txList := last, [];
      this.idFile, this.ids := idFile, ids;
    }

    /** `kv_txm_start_new_transaction`: an id that was never issued before. */
    method StartNewTransaction() returns (tx: Transaction)
      requires Valid() && Word(transactionId + 1)
      modifies this
      ensures Valid() && fresh(tx) && tx.lastLsn == 0 && tx.id !in old(ids)
      ensures transactionId == tx.id == old(transactionId) + 1
      ensures txList == old(txList) + [tx] && ids == old(ids) + [tx.id]
    {
      hide Hex, Join, LogFile.IdLines;
      transactionId := transactionId + 1;
      tx := new Transaction(transactionId);
      txList := txList + [tx];
      var hex := new char[8];
      Uint32ToHex(transactionId, hex);
      LogFile.IdLinesAppend(ids, transactionId);
      idFile := idFile + hex[..] + "\n";
      ids := ids + [transactionId];
    }

    /** `kv_txm_end_transaction` takes the transaction off the list; `kv_tx_unlock_all` has run. */
    method EndTransaction(tx: Transaction)
      requires Valid()
      modifies this
      ensures Valid() && txList == OthersThan(old(txList), tx.id)
      ensures transactionId == old(transactionId) && ids == old(ids)
    {
      OthersThanKeeps(txList, tx.id);
      txList := OthersThan(txList, tx.id);
    }

    /** `kv_txm_ongoing_transaction_ids`: every ongoing transaction with its last LSN, in list order. */
    method OngoingTransactions() returns (list: seq<Ongoing>)
      requires Valid()
      ensures |list| == |txList|
      ensures forall i | 0 <= i < |list| :: list[i] == Ongoing(txList[i].id, txList[i].lastLsn)
    {
      hide TxManager.Valid;
      list := [];
      for idx := 0 to |txList|
        invariant |list| == idx
        invariant forall i | 0 <= i < idx :: list[i] == Ongoing(txList[i].id, txList[i].lastLsn)
      {
        list := list + [Ongoing(txList[idx].id, txList[idx].lastLsn)];
      }
    }
  }

  /** The others keep their order. */
  lemma {:induction false} OthersInOrder(a: seq<Transaction>, b: seq<Transaction>, id: TxId)
    ensures OthersThan(a + b, id) == OthersThan(a, id) + OthersThan(b, id)
    ensures |b| == 1 ==> OthersThan(b, id) == if b[0].id == id then [] else b
    decreases |b|
  {
    if b == [] {
      assert a + b == a;
    } else {
      assert (a + b)[..|a + b| - 1] == a + b[..|b| - 1];
      OthersInOrder(a, b[..|b| - 1], id);
    }
  }

  /** Exactly the other transactions stay on the list, each once. */
  lemma {:induction false} OthersThanKeeps(list: seq<Transaction>, id: TxId)
    requires forall i, j | 0 <= i < j < |list| :: list[i].id != list[j].id
    ensures forall tx <- OthersThan(list, id) :: tx in list && tx.id != id
    ensures forall tx <- list :: tx.id != id ==> tx in OthersThan(list, id)
    ensures forall i, j | 0 <= i < j < |OthersThan(list, id)| ::
              OthersThan(list, id)[i].id != OthersThan(list, id)[j].id
    decreases |list|
  {
    if list != [] {
      var n := |list| - 1;
      OthersThanKeeps(list[..n], id);
      var rest := OthersThan(list[..n], id);
      forall i | 0 <= i < |rest| ensures rest[i].id != list[n].id {
        assert rest[i] in rest;
      }
    }
  }
}
