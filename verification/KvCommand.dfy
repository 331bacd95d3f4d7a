/** What `run_command` of `src/kv_command.c` makes of a command line, and the steps it takes. */
module KvCommand {
  import opened Table
  import opened Locks
  import opened Framing
  import opened Serial
  import opened Protocol
  import opened ProtocolInvariant
  import opened ProtocolSteps

  datatype Request =
    | Empty
    | BeginReq
    | GetReq(key: Key)
    | SetReq(key: Key, value: Value)
    | DelReq(key: Key)
    | CommitReq
    | AbortReq
    | Invalid

  // ---------- parsing ----------

  function Blanks(s: string): nat {
    if s == "" then 0 else Blanks(s[..|s| - 1]) + if s[|s| - 1] == ' ' then 1 else 0
  }

  /** `space_count`. */
  method SpaceCount(command: string) returns (count: nat)
    ensures count == Blanks(command)
  {
    count := 0;
    for i := 0 to |command|
      invariant count == Blanks(command[..i])
    {
      assert command[..i + 1][..i] == command[..i];
      if command[i] == ' ' {
        count := count + 1;
      }
    }
    assert command[..|command|] == command;
  }

  predicate Starts(c: string, word: string) {
    word <= c
  }

  predicate IsSet(c: string) {
    |c| > 4 && Starts(c, "set ") && Blanks(c) == 2
  }

  /** The position of the first blank at or after `n`. */
  function NextBlank(c: string, n: nat): (b: nat)
    requires n <= |c| && ' ' in c[n..]
    ensures n <= b < |c| && c[b] == ' ' && ' ' !in c[n..b]
    decreases |c| - n
  {
    if c[n] == ' ' then n
    else
      assert c[n..] == [c[n]] + c[n + 1..];
      var b := NextBlank(c, n + 1);
      assert c[n..b] == [c[n]] + c[n + 1..b];
      b
  }

  /** `get_key_len_of_set`, which starts behind the first character of the key: an empty key would send
      it past the end. */
  method KeyLenOfSet(command: string) returns (len: nat)
    requires |command| > 5 && ' ' in command[5..]
    ensures len == NextBlank(command, 5) - 4
  {
    var cur := 5;
    while command[cur] != ' '
      invariant 5 <= cur < |command| && ' ' in command[cur..]
      invariant NextBlank(command, cur) == NextBlank(command, 5)
      decreases |command| - cur
    {
      assert command[cur..] == [command[cur]] + command[cur + 1..];
      cur := cur + 1;
    }
    len := cur - 4;
  }

  lemma {:induction false} BlanksConcat(a: string, b: string)
    ensures Blanks(a + b) == Blanks(a) + Blanks(b)
    decreases |b|
  {
    if b == "" {
      assert a + b == a;
    } else {
      assert (a + b)[..|a + b| - 1] == a + b[..|b| - 1];
      BlanksConcat(a, b[..|b| - 1]);
    }
  }

  lemma {:induction false} NoBlanks(s: string)
    ensures Blanks(s) == 0 <==> ' ' !in s
    decreases |s|
  {
    if s != "" {
      NoBlanks(s[..|s| - 1]);
      assert s == s[..|s| - 1] + [s[|s| - 1]];
    }
  }

  lemma OneBlank(x: char)
    ensures Blanks([x]) == if x == ' ' then 1 else 0
  {
    assert [x][..0] == "";
  }

  lemma SetBlanks(t: string)
    ensures Blanks("set " + t) == 1 + Blanks(t)
  {
    assert "set " == "set" + [' '];
    BlanksConcat("set", [' ']);
    BlanksConcat("set ", t);
    NoBlanks("set");
    OneBlank(' ');
  }

  lemma Behind(x: char, t: string)
    requires x != ' '
    ensures Blanks([x] + t) == Blanks(t)
  {
    OneBlank(x);
    BlanksConcat([x], t);
  }

  lemma Around(a: string, b: string)
    ensures Blanks(a + [' '] + b) == Blanks(a) + 1 + Blanks(b)
  {
    OneBlank(' ');
    BlanksConcat(a, [' ']);
    BlanksConcat(a + [' '], b);
  }

  /** A SET line has its second blank behind the first character of the key, unless the key is empty;
      neither the key nor the value has a blank. */
  lemma SecondBlank(c: string)
    requires IsCommand(c) && IsSet(c) && c[4] != ' '
    ensures |c| > 5 && ' ' in c[5..]
    ensures var b := NextBlank(c, 5);
            b + 2 < |c| && ' ' !in c[4..b] && ' ' !in c[b + 1..|c| - 2]
  {
    hide Blanks, IsCommand;
    var x, t := c[4], c[5..];
    assert c == "set " + ([x] + t);
    SetBlanks([x] + t);
    Behind(x, t);
    NoBlanks(t);
    var b := NextBlank(c, 5);
    var u, v := c[5..b], c[b + 1..];
    assert t == u + [' '] + v;
    Around(u, v);
    NoBlanks(v);
    assert c[4..b] == [x] + u;
    LineEnd(c, b);
    assert v[..|v| - 2] == c[b + 1..|c| - 2];
  }

  lemma LineEnd(c: string, b: nat)
    requires IsCommand(c) && b < |c| && c[b] == ' '
    ensures b + 2 < |c|
  {
    assert EndsAt(c, |c| - 2);
  }

  /** The order of the tests is the program's. A SET with an empty key is not covered. */
  function Parse(c: string): Request
    requires IsCommand(c) && (IsSet(c) ==> c[4] != ' ')
  {
    if |c| == 2 then Empty
    else if |c| == 7 && Starts(c, "begin") then BeginReq
    else if |c| > 4 && Starts(c, "get ") then GetReq(c[4..|c| - 2])
    else if IsSet(c) then
      SecondBlank(c);
      var b := NextBlank(c, 5);
      SetReq(c[4..b], c[b + 1..|c| - 2])
    else if |c| > 4 && Starts(c, "del ") then DelReq(c[4..|c| - 2])
    else if |c| == 8 && Starts(c, "commit") then CommitReq
    else if |c| == 7 && Starts(c, "abort") then AbortReq
    else Invalid
  }

  // ---------- requests as clients write them ----------

  /** A set that is accepted has a key, and no blank in key or value: what snapshots need. */
  lemma AcceptedSet(c: string)
    requires IsCommand(c) && (IsSet(c) ==> c[4] != ' ') && Parse(c).SetReq?
    ensures Parse(c).key != "" && ' ' !in Parse(c).key && ' ' !in Parse(c).value
    ensures c == "set " + Parse(c).key + " " + Parse(c).value + "\r\n"
  {
    assert |c| > 2 && EndsAt(c, |c| - 2);
    hide Blanks, IsCommand;
    SecondBlank(c);
    var b := NextBlank(c, 5);
    hide NextBlank;
    SetParts(c, b);
  }

  lemma SetParts(c: string, b: nat)
    requires 4 < b && b + 2 < |c| && Starts(c, "set ") && c[b] == ' ' && c[|c| - 2] == '\r' && c[|c| - 1] == '\n'
    ensures c == "set " + c[4..b] + " " + c[b + 1..|c| - 2] + "\r\n"
  {
    assert c == c[..4] + c[4..b] + [c[b]] + c[b + 1..|c| - 2] + c[|c| - 2..];
  }

  /** The line of a set, cut where it was put together. */
  lemma SetCuts(k: Key, v: Value)
    requires k != ""
    ensures var c := "set " + k + " " + v + "\r\n";
            && |c| == 7 + |k| + |v| && c[0] == 's' && Starts(c, "set ") && c[4] == k[0]
            && c[4..4 + |k|] == k && c[4 + |k|] == ' ' && c[5 + |k|..|c| - 2] == v
  {
    var c := "set " + k + " " + v + "\r\n";
    assert c[4..4 + |k|] == k;
    assert c[5 + |k|..|c| - 2] == v;
  }

  /** The blank that is found ends the key if and only if the key has none. */
  lemma BlankAfterKey(c: string, k: Key)
    requires k != "" && 4 + |k| < |c| && c[4..4 + |k|] == k && c[4 + |k|] == ' ' && c[4] != ' '
    ensures ' ' in c[5..] && NextBlank(c, 5) <= 4 + |k|
    ensures ' ' !in k ==> NextBlank(c, 5) == 4 + |k|
  {
    var e := 4 + |k|;
    assert c[5..][e - 5] == ' ';
    var b := NextBlank(c, 5);
    hide NextBlank;
    forall i | 5 <= i < b ensures c[i] != ' ' {
      assert c[5..b][i - 5] in c[5..b];
    }
    if ' ' !in k {
      forall i | 5 <= i < e ensures c[i] != ' ' {
        assert c[i] == k[i - 4] && k[i - 4] in k;
      }
    }
  }

  /** A set is understood as it was meant if and only if neither key nor value has a blank. */
  lemma SetRoundTripIff(k: Key, v: Value)
    requires k != "" && IsCommand("set " + k + " " + v + "\r\n")
    ensures var c := "set " + k + " " + v + "\r\n";
            && (IsSet(c) ==> c[4] != ' ')
            && (Parse(c) == SetReq(k, v) <==> ' ' !in k && ' ' !in v)
  {
    hide Blanks, IsCommand, NextBlank;
    var c := "set " + k + " " + v + "\r\n";
    SetCuts(k, v);
    SetBlanksOf(k, v);
    NoBlanks(k);
    NoBlanks(v);
    if k[0] == ' ' {
      FirstIsBlank(k);
    }
    if IsSet(c) {
      SecondBlank(c);
      BlankAfterKey(c, k);
    }
  }

  lemma FirstIsBlank(k: Key)
    requires k != "" && k[0] == ' '
    ensures Blanks(k) > 0
  {
    NoBlanks(k);
  }

  lemma SetBlanksOf(k: Key, v: Value)
    ensures Blanks("set " + k + " " + v + "\r\n") == 2 + Blanks(k) + Blanks(v)
  {
    hide Blanks;
    var t := k + [' '] + (v + "\r\n");
    assert "set " + k + " " + v + "\r\n" == "set " + t;
    SetBlanks(t);
    Around(k, v + "\r\n");
    BlanksConcat(v, "\r\n");
    NoBlanks("\r\n");
  }

  /** Gets and deletes take any key, even one with blanks. */
  lemma GetAndDelRoundTrip(k: Key)
    requires IsCommand("get " + k + "\r\n") && IsCommand("del " + k + "\r\n")
    ensures !IsSet("get " + k + "\r\n") && Parse("get " + k + "\r\n") == GetReq(k)
    ensures !IsSet("del " + k + "\r\n") && Parse("del " + k + "\r\n") == DelReq(k)
  {
    hide Blanks, IsCommand;
    var g, d := "get " + k + "\r\n", "del " + k + "\r\n";
    assert g[0] == 'g' && g[4..|g| - 2] == k && Starts(g, "get ");
    assert d[0] == 'd' && d[4..|d| - 2] == k && Starts(d, "del ");
  }

  // ---------- what every line means ----------

  /** No line that a client should send. */
  predicate Unknown(c: string) {
    && c != "\r\n" && c != "begin\r\n" && c != "commit\r\n" && c != "abort\r\n"
    && !Starts(c, "get ") && !Starts(c, "del ") && !(Starts(c, "set ") && Blanks(c) == 2)
  }

  lemma Ends(c: string)
    requires IsCommand(c)
    ensures |c| >= 2 && c == c[..|c| - 2] + "\r\n" && c[|c| - 2] == '\r' && c[|c| - 1] == '\n'
  {
    assert EndsAt(c, |c| - 2);
  }

  /** A line that starts with a word of letters is longer than the word by its CR LF at least. */
  lemma LongerThan(c: string, word: string)
    requires IsCommand(c) && Starts(c, word) && '\r' !in word && '\n' !in word
    ensures |c| >= |word| + 2 && c == word + c[|word|..|c| - 2] + "\r\n"
  {
    Ends(c);
    assert forall i | 0 <= i < |word| :: c[i] == word[i] && word[i] in word;
    assert c == c[..|word|] + c[|word|..|c| - 2] + c[|c| - 2..];
  }

  /** The lines without a key: each of these requests has exactly one. */
  lemma WordLines(c: string)
    requires IsCommand(c) && (IsSet(c) ==> c[4] != ' ')
    ensures Parse(c) == Empty <==> c == "\r\n"
    ensures Parse(c) == BeginReq <==> c == "begin\r\n"
    ensures Parse(c) == CommitReq <==> c == "commit\r\n"
    ensures Parse(c) == AbortReq <==> c == "abort\r\n"
  {
    hide Blanks, IsCommand;
    WordIs(c, "");
    WordIs(c, "begin");
    WordIs(c, "commit");
    WordIs(c, "abort");
    assert "" + "\r\n" == "\r\n" && "begin" + "\r\n" == "begin\r\n";
    assert "commit" + "\r\n" == "commit\r\n" && "abort" + "\r\n" == "abort\r\n";
    FirstLetters(c);
    hide Starts;
  }

  /** The length and the letters that the program compares make up the line. */
  lemma WordIs(c: string, word: string)
    requires IsCommand(c) && '\r' !in word && '\n' !in word
    ensures |c| == |word| + 2 && Starts(c, word) <==> c == word + "\r\n"
  {
    Ends(c);
    hide IsCommand;
    if Starts(c, word) {
      LongerThan(c, word);
    }
  }

  lemma FirstLetters(c: string)
    ensures Starts(c, "begin") ==> c[0] == 'b'
    ensures Starts(c, "commit") ==> c[0] == 'c'
    ensures Starts(c, "abort") ==> c[0] == 'a'
    ensures Starts(c, "get ") ==> c[0] == 'g'
    ensures Starts(c, "set ") ==> c[0] == 's'
    ensures Starts(c, "del ") ==> c[0] == 'd'
  {
  }

  /** Every line that starts with `get ` or `del ` names the key that follows, whatever it is. */
  lemma KeyLines(c: string, k: Key)
    requires IsCommand(c) && (IsSet(c) ==> c[4] != ' ')
    ensures Parse(c) == GetReq(k) <==> c == "get " + k + "\r\n"
    ensures Parse(c) == DelReq(k) <==> c == "del " + k + "\r\n"
  {
    hide Blanks;
    if c == "get " + k + "\r\n" || c == "del " + k + "\r\n" {
      assert c[4..|c| - 2] == k;
    }
    Ends(c);
    hide IsCommand;
    if Starts(c, "get ") {
      LongerThan(c, "get ");
    }
    if Starts(c, "del ") {
      LongerThan(c, "del ");
    }
  }

  /** A set names key and value, without blanks, or it is none. */
  lemma SetLines(c: string, k: Key, v: Value)
    requires IsCommand(c) && (IsSet(c) ==> c[4] != ' ')
    ensures Parse(c) == SetReq(k, v)
       <==> k != "" && ' ' !in k && ' ' !in v && c == "set " + k + " " + v + "\r\n"
  {
    hide Blanks, IsCommand;
    if Parse(c).SetReq? {
      AcceptedSet(c);
    }
    if k != "" && c == "set " + k + " " + v + "\r\n" {
      SetRoundTripIff(k, v);
    }
  }

  /** Every other line is invalid. */
  lemma InvalidLines(c: string)
    requires IsCommand(c) && (IsSet(c) ==> c[4] != ' ')
    ensures Parse(c) == Invalid <==> Unknown(c)
  {
    hide Blanks;
    Ends(c);
    hide IsCommand;
  }

  // ---------- running a request ----------

  /** The steps of a single command: it is wrapped into a transaction of its own. */
  function Wrapped(step: Step, k: Key, th: Thread): seq<Step> {
    [BeginTx(th), step, CommitTx(th), ReleaseOne(th), Leave(th), ExtraUnlock(th, k)]
  }

  predicate CanRun(s: State, steps: seq<Step>)
    decreases |steps|
  {
    steps == [] || (Enabled(s, steps[0]) && CanRun(Do(s, steps[0]), steps[1..]))
  }

  function RunAll(s: State, steps: seq<Step>): State
    requires CanRun(s, steps)
    decreases |steps|
  {
    if steps == [] then s else RunAll(Do(s, steps[0]), steps[1..])
  }

  /** What a single request asks and is answered on table `t`. */
  function Answer(t: Table, r: Request): Op
    requires r.GetReq? || r.SetReq? || r.DelReq?
  {
    match r
    case GetReq(k) => GetOp(k, Look(t, k))
    case SetReq(k, v) => SetOp(k, v)
    case DelReq(k) => DelOp(k, Look(t, k) != ABSENT)
  }

  lemma RunOne(s: State, step: Step, rest: seq<Step>, all: seq<Step>)
    requires Enabled(s, step) && CanRun(Do(s, step), rest) && all == [step] + rest
    ensures CanRun(s, all) && RunAll(s, all) == RunAll(Do(s, step), rest)
  {
    hide Enabled, Do;
    assert all[1..] == rest;
  }

  /** The step of a single request. */
  function MainStep(r: Request, th: Thread): Step
    requires r.GetReq? || r.SetReq? || r.DelReq?
  {
    match r
    case GetReq(k) => GetKey(th, k)
    case SetReq(k, v) => SetKey(th, k, v)
    case DelReq(k) => DelKey(th, k)
  }

  predicate Single(r: Request) {
    r.GetReq? || r.DelReq? || (r.SetReq? && r.value != ABSENT && ' ' !in r.value)
  }

  /** `s'` is `s` with one more transaction, of thread `th`. */
  predicate Joined(s: State, s': State, th: Thread, ops: seq<Op>, locks: seq<Key>) {
    && s'.up && th in s'.active && s'.active == s.active[th := s'.active[th]] && s'.history == s.history
    && s'.active[th].stage == Working && s'.active[th].locks == locks && s'.active[th].ops == ops
  }

  /** After BEGIN. */
  lemma Opened(s: State, th: Thread)
    requires s.up && th != 0 && th !in s.active
    ensures Enabled(s, BeginTx(th))
    ensures var s1 := Do(s, BeginTx(th));
            Joined(s, s1, th, [], []) && s1.locks == s.locks && s1.table == s.table
  {
  }

  /** The state after the step itself. */
  ghost predicate Performed(s: State, s2: State, th: Thread, k: Key, op: Op) {
    && Joined(s, s2, th, [op], [k])
    && s2.table == Effect(s.table, op)
    && s2.locks == s.locks[Stripe(k) := Lock(th, 1)]
  }

  predicate CanAsk(s: State, s1: State, th: Thread, k: Key) {
    && Joined(s, s1, th, [], []) && s1.locks == s.locks && s1.table == s.table && th != 0
    && s.locks[Stripe(k)] == UNLOCKED
  }

  lemma AskedOnly(s: State, s1: State, k: Key, th: Thread, op: Op)
    requires CanAsk(s, s1, th, k) && Effect(s.table, op) == s.table
    ensures CanTouch(s1, th, k) && Performed(s, Note(Touch(s1, th, k), th, op), th, k, op)
  {
    hide Stripe, Effect;
    var s2 := Note(Touch(s1, th, k), th, op);
    assert s2.locks == LockKey(s.locks, k, th);
    assert s2.active == s1.active[th := s2.active[th]];
  }

  lemma AskedSet(s: State, s1: State, k: Key, v: Value, th: Thread, op: Op)
    requires CanAsk(s, s1, th, k) && op.key == k && Effect(s.table, op) == Put(s.table, k, v)
    ensures CanTouch(s1, th, k) && Performed(s, Write(Touch(s1, th, k), th, k, v, op), th, k, op)
  {
    hide Stripe, Effect, Put;
    var s2 := Write(Touch(s1, th, k), th, k, v, op);
    assert s2.locks == LockKey(s.locks, k, th);
    assert s2.active[th].ops == [op] && s2.active[th].locks == [k];
    assert s2.active == s1.active[th := s2.active[th]];
  }

  /** After the step itself. */
  lemma Asked(s: State, s1: State, r: Request, th: Thread)
    requires Single(r) && CanAsk(s, s1, th, r.key)
    ensures Enabled(s1, MainStep(r, th))
    ensures Performed(s, Do(s1, MainStep(r, th)), th, r.key, Answer(s.table, r))
  {
    hide Performed, CanAsk, CanTouch, Write, Touch, Note, Stripe, Put;
    assert s1.table == s.table && th in s1.active by { AskedFrom(s, s1, r.key, th); }
    match r
    case GetReq(k) => AskedOnly(s, s1, k, th, GetOp(k, Look(s.table, k)));
    case SetReq(k, v) => AskedSet(s, s1, k, v, th, SetOp(k, v));
    case DelReq(k) =>
      if Look(s.table, k) == ABSENT {
        PutNothing(s.table, k);
        AskedOnly(s, s1, k, th, DelOp(k, false));
      } else {
        AskedSet(s, s1, k, ABSENT, th, DelOp(k, true));
      }
  }

  lemma AskedFrom(s: State, s1: State, k: Key, th: Thread)
    requires CanAsk(s, s1, th, k)
    ensures s1.table == s.table && th in s1.active
  {
  }

  lemma PutNothing(t: Table, k: Key)
    requires Look(t, k) == ABSENT
    ensures Put(t, k, ABSENT) == t
  {
    SameLookups(Put(t, k, ABSENT), t);
  }

  /** After COMMIT. */
  lemma Sealed(s: State, s2: State, k: Key, th: Thread, ops: seq<Op>)
    requires Joined(s, s2, th, ops, [k])
    ensures Enabled(s2, CommitTx(th))
    ensures var s3 := Do(s2, CommitTx(th));
            && s3.up && th in s3.active && s3.active == s.active[th := s3.active[th]]
            && s3.active[th].stage == Releasing && s3.active[th].locks == [k]
            && s3.history == s.history + [ops] && s3.locks == s2.locks && s3.table == s2.table
  {
  }

  /** After the release. */
  lemma Freed(s: State, s3: State, k: Key, th: Thread)
    requires s3.up && th in s3.active && s3.active == s.active[th := s3.active[th]]
    requires s3.active[th].locks == [k] && s3.active[th].stage == Releasing
    requires s.locks[Stripe(k)] == UNLOCKED && s3.locks == s.locks[Stripe(k) := Lock(th, 1)]
    ensures Enabled(s3, ReleaseOne(th))
    ensures var s4 := Do(s3, ReleaseOne(th));
            && s4.locks == s.locks && s4.history == s3.history && s4.table == s3.table && s4.up
            && th in s4.active && s4.active == s.active[th := s4.active[th]]
            && s4.active[th].locks == [] && s4.active[th].stage == Releasing
  {
    hide Stripe;
  }

  /** After leaving; the extra unlock does nothing. */
  lemma Gone(s: State, s4: State, k: Key, th: Thread)
    requires th !in s.active && th in s4.active && s4.active == s.active[th := s4.active[th]] && th != 0
    requires s4.locks == s.locks && s.locks[Stripe(k)] == UNLOCKED && s4.up
    requires s4.active[th].locks == [] && s4.active[th].stage == Releasing
    ensures Enabled(s4, Leave(th))
    ensures var s5 := Do(s4, Leave(th));
            && s5.active == s.active && s5.locks == s.locks && s5.table == s4.table && s5.history == s4.history
            && Enabled(s5, ExtraUnlock(th, k)) && Do(s5, ExtraUnlock(th, k)) == s5
  {
    hide Stripe, Without;
    assert UnlockKey(s.locks, k, th) == s.locks;
  }

  /** Theorem: outside a transaction a get, set or delete whose stripe is free runs through, commits as
      a transaction of its own, and leaves no lock and no transaction behind. */
  lemma SingleCommandCommits(s: State, r: Request, th: Thread)
    requires Inv(s) && s.up && th != 0 && th !in s.active && Single(r)
    requires s.locks[Stripe(r.key)] == UNLOCKED
    ensures CanRun(s, Wrapped(MainStep(r, th), r.key, th))
    ensures var s' := RunAll(s, Wrapped(MainStep(r, th), r.key, th));
            && Inv(s') && s'.table == Effect(s.table, Answer(s.table, r))
            && s'.history == s.history + [[Answer(s.table, r)]]
            && s'.locks == s.locks && s'.active == s.active
  {
    var k, main, ops := r.key, MainStep(r, th), [Answer(s.table, r)];
    hide Inv, Answer, Effect, Stripe, CanRun, RunAll, Enabled, Do, Joined;
    Opened(s, th);
    var s1 := Do(s, BeginTx(th));
    Asked(s, s1, r, th);
    var s2 := Do(s1, main);
    Sealed(s, s2, k, th, ops);
    var s3 := Do(s2, CommitTx(th));
    Freed(s, s3, k, th);
    var s4 := Do(s3, ReleaseOne(th));
    Gone(s, s4, k, th);
    var s5 := Do(s4, Leave(th));
    ScriptRuns(s, s1, s2, s3, s4, s5, main, k, th);
    ScriptKeeps(s, s1, s2, s3, s4, main, th);
  }

  lemma ScriptKeeps(s: State, s1: State, s2: State, s3: State, s4: State, main: Step, th: Thread)
    requires Inv(s) && Enabled(s, BeginTx(th)) && s1 == Do(s, BeginTx(th))
    requires Enabled(s1, main) && s2 == Do(s1, main) && Enabled(s2, CommitTx(th)) && s3 == Do(s2, CommitTx(th))
    requires Enabled(s3, ReleaseOne(th)) && s4 == Do(s3, ReleaseOne(th)) && Enabled(s4, Leave(th))
    ensures Inv(Do(s4, Leave(th)))
  {
    hide Inv, Enabled, Do;
    StepKeeps(s, BeginTx(th));
    StepKeeps(s1, main);
    StepKeeps(s2, CommitTx(th));
    StepKeeps(s3, ReleaseOne(th));
    StepKeeps(s4, Leave(th));
  }

  lemma ScriptRuns(s: State, s1: State, s2: State, s3: State, s4: State, s5: State, main: Step, k: Key, th: Thread)
    requires Enabled(s, BeginTx(th)) && s1 == Do(s, BeginTx(th))
    requires Enabled(s1, main) && s2 == Do(s1, main) && Enabled(s2, CommitTx(th)) && s3 == Do(s2, CommitTx(th))
    requires Enabled(s3, ReleaseOne(th)) && s4 == Do(s3, ReleaseOne(th))
    requires Enabled(s4, Leave(th)) && s5 == Do(s4, Leave(th))
    requires Enabled(s5, ExtraUnlock(th, k)) && Do(s5, ExtraUnlock(th, k)) == s5
    ensures CanRun(s, Wrapped(main, k, th)) && RunAll(s, Wrapped(main, k, th)) == s5
  {
    hide Enabled, Do, CanRun, RunAll;
    var all := Wrapped(main, k, th);
    RunNone(s5);
    assert all[6..] == [];
    RunOne(s5, all[5], all[6..], all[5..]);
    RunOne(s4, all[4], all[5..], all[4..]);
    RunOne(s3, all[3], all[4..], all[3..]);
    RunOne(s2, all[2], all[3..], all[2..]);
    RunOne(s1, all[1], all[2..], all[1..]);
    RunOne(s, all[0], all[1..], all);
  }

  lemma RunNone(s: State)
    ensures CanRun(s, []) && RunAll(s, []) == s
  {
  }
}
