/** What the operations of a transaction would see and do when it runs alone. */
module Serial {
  import opened Table

  /** An operation together with the reply the client got. */
  datatype Op =
    | GetOp(key: Key, found: Value)
    | SetOp(key: Key, value: Value)
    | DelOp(key: Key, existed: bool)

  function Effect(t: Table, op: Op): Table {
    match op
    case GetOp(_, _) => t
    case SetOp(k, v) => Put(t, k, v)
    case DelOp(k, _) => Put(t, k, ABSENT)
  }

  /** The reply is the one a run on table `t` gives. */
  predicate Honest(t: Table, op: Op) {
    match op
    case GetOp(k, v) => Look(t, k) == v
    case SetOp(_, _) => true
    case DelOp(k, existed) => existed <==> Look(t, k) != ABSENT
  }

  function Run(t: Table, ops: seq<Op>): Table {
    if ops == [] then t else Effect(Run(t, ops[..|ops| - 1]), ops[|ops| - 1])
  }

  predicate Faithful(t: Table, ops: seq<Op>) {
    ops == [] || (Faithful(t, ops[..|ops| - 1]) && Honest(Run(t, ops[..|ops| - 1]), ops[|ops| - 1]))
  }

  /** One whole transaction after another. */
  function RunSerially(t: Table, history: seq<seq<Op>>): Table {
    if history == [] then t else Run(RunSerially(t, history[..|history| - 1]), history[|history| - 1])
  }

  predicate FaithfulSerially(t: Table, history: seq<seq<Op>>) {
    history == []
    || (FaithfulSerially(t, history[..|history| - 1])
        && Faithful(RunSerially(t, history[..|history| - 1]), history[|history| - 1]))
  }

  lemma RunAppend(t: Table, ops: seq<Op>, op: Op)
    ensures Run(t, ops + [op]) == Effect(Run(t, ops), op)
    ensures Faithful(t, ops + [op]) <==> Faithful(t, ops) && Honest(Run(t, ops), op)
  {
    assert (ops + [op])[..|ops|] == ops;
  }

  lemma RunSeriallyAppend(t: Table, history: seq<seq<Op>>, ops: seq<Op>)
    ensures RunSerially(t, history + [ops]) == Run(RunSerially(t, history), ops)
    ensures FaithfulSerially(t, history + [ops])
       <==> FaithfulSerially(t, history) && Faithful(RunSerially(t, history), ops)
  {
    assert (history + [ops])[..|history|] == history;
  }

  /** Keys that no operation names are left alone. */
  lemma {:induction false} RunElsewhere(t: Table, ops: seq<Op>, k: Key)
    requires forall op <- ops :: op.key != k
    ensures Look(Run(t, ops), k) == Look(t, k)
    decreases |ops|
  {
    if ops != [] {
      assert ops[|ops| - 1] in ops;
      assert forall op <- ops[..|ops| - 1] :: op in ops;
      RunElsewhere(t, ops[..|ops| - 1], k);
    }
  }

  /** Tables that agree on a key stay in agreement on it. */
  lemma {:induction false} RunAgrees(a: Table, c: Table, ops: seq<Op>, k: Key)
    requires Look(a, k) == Look(c, k)
    ensures Look(Run(a, ops), k) == Look(Run(c, ops), k)
    decreases |ops|
  {
    if ops != [] {
      RunAgrees(a, c, ops[..|ops| - 1], k);
    }
  }

  lemma {:induction false} FaithfulAgrees(a: Table, c: Table, ops: seq<Op>)
    requires forall op <- ops :: Look(a, op.key) == Look(c, op.key)
    requires Faithful(a, ops)
    ensures Faithful(c, ops)
    decreases |ops|
  {
    if ops != [] {
      var init, op := ops[..|ops| - 1], ops[|ops| - 1];
      assert op in ops;
      assert forall o <- init :: o in ops;
      FaithfulAgrees(a, c, init);
      RunAgrees(a, c, init, op.key);
    }
  }
}
