/** Reassembling commands from packets: `src/kv_client_handler.c`, and `find_end_of_command` and
    `consume_command` of `src/kv_command.c`. */
module Framing {
  import opened TextFile

  const COMMAND_SIZE: nat := 128
  const NUL: char := '\0'

  // ---------- the stream as a whole ----------

  predicate EndsAt(s: string, i: nat) {
    i + 1 < |s| && s[i] == '\r' && s[i + 1] == '\n'
  }

  /** A command: it ends with CR LF and has no other. */
  predicate IsCommand(c: string) {
    |c| >= 2 && EndsAt(c, |c| - 2) && forall i: nat | i < |c| - 2 :: !EndsAt(c, i)
  }

  predicate Unfinished(s: string) {
    forall i: nat | i < |s| :: !EndsAt(s, i)
  }

  /** The length of the first command of `s`, 0 if there is none. */
  function FirstCommand(s: string, from: nat): (n: nat)
    requires from <= |s|
    ensures n <= |s| && (n > 0 ==> n >= 2)
    decreases |s| - from
  {
    if from + 1 >= |s| then 0
    else if EndsAt(s, from) then from + 2
    else FirstCommand(s, from + 1)
  }

  function Commands(s: string): seq<string>
    decreases |s|
  {
    var n := FirstCommand(s, 0);
    if n == 0 then [] else [s[..n]] + Commands(s[n..])
  }

  function Leftover(s: string): string
    decreases |s|
  {
    var n := FirstCommand(s, 0);
    if n == 0 then s else Leftover(s[n..])
  }

  lemma {:induction false} FirstCommandIs(s: string, from: nat)
    requires from <= |s| && forall i: nat | i < from :: !EndsAt(s, i)
    ensures var n := FirstCommand(s, from); if n == 0 then Unfinished(s) else IsCommand(s[..n])
    decreases |s| - from
  {
    if from + 1 < |s| && !EndsAt(s, from) {
      FirstCommandIs(s, from + 1);
    }
    var n := FirstCommand(s, from);
    if from + 1 < |s| && EndsAt(s, from) {
      assert forall i: nat | i < |s[..n]| - 2 :: EndsAt(s[..n], i) ==> EndsAt(s, i);
    }
  }

  lemma {:induction false} FirstCommandOf(c: string, rest: string, from: nat)
    requires IsCommand(c) && from <= |c| - 2
    ensures FirstCommand(c + rest, from) == |c|
    decreases |c| - from
  {
    var s := c + rest;
    assert EndsAt(s, from) <==> EndsAt(c, from);
    if from < |c| - 2 {
      FirstCommandOf(c, rest, from + 1);
    }
  }

  /** Cutting the stream loses nothing: the commands and the leftover make it up again. */
  lemma {:induction false} SplitIsComplete(s: string)
    ensures Join(Commands(s)) + Leftover(s) == s
    ensures (forall c <- Commands(s) :: IsCommand(c)) && Unfinished(Leftover(s))
    decreases |s|
  {
    hide IsCommand, Unfinished, FirstCommand, Commands, Leftover, Join;
    var n := FirstCommand(s, 0);
    FirstCommandIs(s, 0);
    SplitFirst(s);
    if n > 0 {
      var first, rest := s[..n], s[n..];
      SplitIsComplete(rest);
      JoinFirst(first, Commands(rest), Leftover(rest));
      assert s == first + rest;
    } else {
      JoinNothing(s);
    }
  }

  lemma SplitFirst(s: string)
    ensures var n := FirstCommand(s, 0);
            if n == 0 then Commands(s) == [] && Leftover(s) == s
            else Commands(s) == [s[..n]] + Commands(s[n..]) && Leftover(s) == Leftover(s[n..])
  {
    hide FirstCommand;
  }

  lemma JoinNothing(s: string)
    ensures Join([]) + s == s
  {
  }

  lemma JoinFirst(c: string, cs: seq<string>, rest: string)
    ensures Join([c] + cs) + rest == c + (Join(cs) + rest)
  {
    assert ([c] + cs)[1..] == cs;
  }

  lemma UnfinishedHasNone(s: string)
    requires Unfinished(s)
    ensures FirstCommand(s, 0) == 0
  {
    FirstCommandIs(s, 0);
    var n := FirstCommand(s, 0);
    if n > 0 {
      assert EndsAt(s[..n], n - 2) && EndsAt(s, n - 2);
    }
  }

  /** There is only one way to cut a stream into commands and an unfinished rest. */
  lemma {:induction false} SplitIsUnique(cs: seq<string>, rest: string)
    requires (forall c <- cs :: IsCommand(c)) && Unfinished(rest)
    ensures Commands(Join(cs) + rest) == cs && Leftover(Join(cs) + rest) == rest
    decreases |cs|
  {
    var s := Join(cs) + rest;
    if cs == [] {
      assert s == rest;
      UnfinishedHasNone(rest);
    } else {
      var tail := Join(cs[1..]) + rest;
      assert cs == [cs[0]] + cs[1..];
      JoinFirst(cs[0], cs[1..], rest);
      FirstCommandOf(cs[0], tail, 0);
      assert s[..|cs[0]|] == cs[0] && s[|cs[0]|..] == tail;
      SplitIsUnique(cs[1..], rest);
    }
  }

  /** Theorem: what a packet boundary separates does not matter, even between CR and LF. */
  lemma {:induction false} SplitAcross(a: string, b: string)
    ensures Commands(a + b) == Commands(a) + Commands(Leftover(a) + b)
    ensures Leftover(a + b) == Leftover(Leftover(a) + b)
    decreases |a|
  {
    var n := FirstCommand(a, 0);
    if n > 0 {
      FirstCommandIs(a, 0);
      assert a + b == a[..n] + (a[n..] + b);
      FirstCommandOf(a[..n], a[n..] + b, 0);
      assert (a + b)[n..] == a[n..] + b;
      SplitAcross(a[n..], b);
      assert Commands(a) == [a[..n]] + Commands(a[n..]);
    }
  }

  // ---------- the buffer ----------

  /** `strlen`. */
  method StrLen(buffer: array<char>, ghost n: nat) returns (len: nat)
    requires n < buffer.Length && buffer[n] == NUL && forall i | 0 <= i < n :: buffer[i] != NUL
    ensures len == n
  {
    len := 0;
    while buffer[len] != NUL
      invariant len <= n
      decreases n - len
    {
      len := len + 1;
    }
  }

  /** `find_end_of_command`: the index of the LF that ends the first command, -1 without one. */
  method FindEnd(buffer: array<char>, ghost pending: string) returns (end: int)
    requires |pending| < buffer.Length && buffer[..|pending|] == pending && buffer[|pending|] == NUL
    requires NUL !in pending
    ensures end == FirstCommand(pending, 0) - 1
  {
    assert forall i | 0 <= i < |pending| :: buffer[i] == pending[i] && pending[i] in pending;
    var size := StrLen(buffer, |pending|);
    if size < 2 {
      return -1;
    }
    var i := 0;
    while i < size - 1
      invariant 0 <= i <= size - 1 && FirstCommand(pending, i) == FirstCommand(pending, 0)
    {
      if buffer[i] == '\r' && buffer[i + 1] == '\n' {
        return i + 1;
      }
      i := i + 1;
    }
    end := -1;
  }

  /** Copies the buffer away, clears it, and copies back what follows the first `n` characters. */
  method DropFirst(buffer: array<char>, n: nat, ghost pending: string) returns (first: string, rest: nat)
    requires n <= |pending| < COMMAND_SIZE == buffer.Length
    requires forall i | 0 <= i < |pending| :: buffer[i] == pending[i] && pending[i] != NUL
    requires buffer[|pending|] == NUL
    modifies buffer
    ensures first == pending[..n] && rest == |pending| - n
    ensures forall i | 0 <= i < rest :: buffer[i] == pending[n + i] && buffer[i] != NUL
    ensures forall i | rest <= i < COMMAND_SIZE :: buffer[i] == NUL
  {
    var temp := new char[COMMAND_SIZE];
    forall i | 0 <= i < COMMAND_SIZE {
      temp[i] := buffer[i];
    }
    forall i | 0 <= i < COMMAND_SIZE {
      buffer[i] := NUL;
    }
    var len := StrLen(temp, |pending|);
    rest := len - n;
    forall i | 0 <= i < rest {
      buffer[i] := temp[n + i];
    }
    first := temp[..n];
  }

  lemma NulFree(s: string, n: nat)
    requires NUL !in s && n <= |s|
    ensures NUL !in s[n..] && forall i | 0 <= i < |s| :: s[i] != NUL
  {
    assert forall i | 0 <= i < |s| :: s[i] in s;
  }

  /** The per-client buffer of `kv_handle_client`. It starts all zero: the program forgets that. */
  class CommandBuffer {
    const command: array<char>
    var cur: nat
    ghost var pending: string

    ghost predicate Valid()
      reads this, command
    {
      && command.Length == COMMAND_SIZE && cur == |pending| < COMMAND_SIZE && NUL !in pending
      && command[..cur] == pending && forall i | cur <= i < COMMAND_SIZE :: command[i] == NUL
    }

    constructor ()
      ensures Valid() && pending == "" && fresh(command)
    {
      command := new char[COMMAND_SIZE](_ => NUL);
      cur, pending := 0, "";
    }

    /** `consume_command`: takes the first command out of the buffer and hands it on to be run. */
    method Consume() returns (consumed: bool, run: string)
      requires Valid()
      modifies this, command
      ensures Valid()
      ensures var n := FirstCommand(old(pending), 0);
              consumed == (n > 0) && run == old(pending)[..n] && pending == old(pending)[n..]
    {
      hide FirstCommand, EndsAt;
      var end := FindEnd(command, pending);
      if end == -1 {
        return false, "";
      }
      ghost var all := pending;
      NulFree(all, end + 1);
      assert forall i | 0 <= i < |all| :: command[i] == all[i];
      var rest: nat;
      run, rest := DropFirst(command, end + 1, all);
      consumed, pending := true, all[end + 1..];
      assert forall i | 0 <= i < rest :: command[i] == pending[i];
      assert command[..rest] == pending;
      cur := StrLen(command, rest);
    }

    /** One packet: appended to the buffer, then all complete commands are run. */
    method Receive(packet: string) returns (ran: seq<string>)
      requires Valid() && NUL !in packet && |pending| + |packet| < COMMAND_SIZE
      modifies this, command
      ensures Valid()
      ensures ran == Commands(old(pending) + packet) && pending == Leftover(old(pending) + packet)
    {
      forall i | 0 <= i < |packet| {
        command[cur + i] := packet[i];
      }
      cur := cur + |packet|;
      pending := pending + packet;
      ghost var all := pending;
      ran := [];
      while true
        invariant Valid()
        invariant Commands(all) == ran + Commands(pending) && Leftover(all) == Leftover(pending)
        decreases |pending|
      {
        var consumed, run := Consume();
        if !consumed {
          break;
        }
        ran := ran + [run];
      }
    }
  }

  // ---------- the connection ----------

  /** The pending data always fits the buffer. */
  ghost predicate Fit(packets: seq<string>) {
    forall n | 0 <= n < |packets| ::
      && NUL !in packets[n]
      && |Leftover(Join(packets[..n]))| + |packets[n]| < COMMAND_SIZE
  }

  /** Theorem: however the byte stream is cut into packets, the commands run and the bytes left over
      are those of the whole stream. */
  method HandleClient(packets: seq<string>) returns (ran: seq<string>, buffer: CommandBuffer)
    requires Fit(packets)
    ensures ran == Commands(Join(packets))
    ensures buffer.Valid() && buffer.pending == Leftover(Join(packets))
  {
    buffer := new CommandBuffer();
    ran := [];
    for n := 0 to |packets|
      invariant buffer.Valid() && fresh(buffer) && fresh(buffer.command)
      invariant ran == Commands(Join(packets[..n])) && buffer.pending == Leftover(Join(packets[..n]))
    {
      var more := buffer.Receive(packets[n]);
      assert packets[..n + 1] == packets[..n] + [packets[n]];
      JoinAppend(packets[..n], packets[n]);
      SplitAcross(Join(packets[..n]), packets[n]);
      ran := ran + more;
    }
    assert packets[..|packets|] == packets;
  }
}
