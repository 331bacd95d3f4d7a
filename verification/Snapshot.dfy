/** Snapshot files: the writer of `src/kv_recovery_snapshot.c` and the loader in
    `kv_recovery_redo`. */
module Snapshot {
  import opened Table
  import opened Utils
  import opened TextFile
  import opened KvHash

  type Pair = (Key, Value)

  /** The line that the callback writes for one pair. */
  function PrintPair(p: Pair): string {
    p.0 + " " + p.1 + "\n"
  }

  function PrintPairs(pairs: seq<Pair>): seq<string> {
    seq(|pairs|, i requires 0 <= i < |pairs| => PrintPair(pairs[i]))
  }

  /** Data that the line buffer and the line structure can carry. */
  predicate Fits(p: Pair) {
    '\n' !in p.0 && '\n' !in p.1 && |p.0| + |p.1| + 2 < MAX_LINE_LEN
  }

  ghost predicate AllFit(contents: map<Key, Value>) {
    forall k <- contents :: Fits((k, contents[k]))
  }

  /** `text` is a snapshot file of `contents`: its pairs in some order. */
  ghost predicate SnapshotOf(text: string, contents: map<Key, Value>) {
    exists pairs: seq<Pair> :: HashTable.Lists(pairs, contents) && text == Join(PrintPairs(pairs))
  }

  // ---------- writing ----------

  lemma PrintMore(pairs: seq<Pair>, n: nat)
    requires n < |pairs|
    ensures Join(PrintPairs(pairs[..n + 1])) == Join(PrintPairs(pairs[..n])) + PrintPair(pairs[n])
  {
    assert PrintPairs(pairs[..n + 1]) == PrintPairs(pairs[..n]) + [PrintPair(pairs[n])];
    JoinAppend(PrintPairs(pairs[..n]), PrintPair(pairs[n]));
  }

  /** The forked child writes every pair of its copy of the table. */
  method WriteSnapshot(ht: HashTable) returns (text: string)
    requires ht.Valid()
    ensures SnapshotOf(text, ht.Contents())
  {
    hide Filed, Complete, AllLinked, Keyed, HashTable.Lists;
    var pairs := ht.Foreach();
    text := "";
    for n := 0 to |pairs|
      invariant text == Join(PrintPairs(pairs[..n]))
    {
      PrintMore(pairs, n);
      text := text + pairs[n].0;
      text := text + " ";
      text := text + pairs[n].1;
      text := text + "\n";
    }
    assert pairs[..|pairs|] == pairs;
  }

  // ---------- reading ----------

  /** The position of the last blank, 0 if there is none. */
  function LastBlank(s: string): (n: nat)
    ensures n <= |s|
    ensures s != "" ==> n < |s|
  {
    if s == "" then 0
    else if s[|s| - 1] == ' ' then |s| - 1
    else LastBlank(s[..|s| - 1])
  }

  lemma {:induction false} LastBlankIs(s: string)
    ensures ' ' !in s ==> LastBlank(s) == 0
    ensures ' ' in s ==> s[LastBlank(s)] == ' '
    ensures forall i | LastBlank(s) < i < |s| :: s[i] != ' '
    decreases |s|
  {
    if s != "" {
      var init := s[..|s| - 1];
      LastBlankIs(init);
      assert s == init + [s[|s| - 1]];
      forall i | LastBlank(s) < i < |s| ensures s[i] != ' ' {
        assert i < |init| ==> s[i] == init[i];
      }
    }
  }

  /** What the loader makes of one line: the key ends at the last blank. */
  function ParsePair(line: string): Pair
    requires IsLine(line) && |line| >= 2
  {
    var body := line[..|line| - 1];
    (body[..LastBlank(body)], body[LastBlank(body) + 1..])
  }

  /** The scan of one line: remembers the last blank seen and stops at the newline. */
  method SplitLine(line: string) returns (pair: Pair)
    requires IsLine(line) && |line| >= 2
    ensures pair == ParsePair(line)
  {
    var keyLen, valLen, i := 0, 0, 0;
    while i < |line|
      invariant i < |line| && keyLen == LastBlank(line[..i])
      decreases |line| - i
    {
      assert line[..i + 1][..i] == line[..i];
      if line[i] == ' ' {
        keyLen := i;
      } else if line[i] == '\n' {
        valLen := i - keyLen - 1;
        break;
      }
      i := i + 1;
    }
    pair := (line[..keyLen], line[keyLen + 1..keyLen + 1 + valLen]);
    assert i == |line| - 1;
    assert pair.0 == line[..i][..keyLen] && pair.1 == line[..i][keyLen + 1..];
  }

  lemma PairIsLine(p: Pair)
    requires Fits(p)
    ensures IsLine(PrintPair(p)) && |PrintPair(p)| >= 2
  {
    var body := p.0 + " " + p.1;
    assert PrintPair(p) == body + "\n" && '\n' !in body;
    forall i | 0 <= i < |body| ensures PrintPair(p)[i] != '\n' {
      assert body[i] in body;
    }
  }

  /** A loaded value never holds a blank. */
  lemma ParsedValueHasNoBlank(line: string)
    requires IsLine(line) && |line| >= 2
    ensures ' ' !in ParsePair(line).1
  {
    LastBlankIs(line[..|line| - 1]);
  }

  /** A pair comes back as it was written if and only if its value has no blank. */
  lemma PairRoundTripIff(p: Pair)
    requires Fits(p)
    ensures IsLine(PrintPair(p)) && |PrintPair(p)| >= 2
    ensures ParsePair(PrintPair(p)) == p <==> ' ' !in p.1
  {
    PairIsLine(p);
    ParsedValueHasNoBlank(PrintPair(p));
    if ' ' !in p.1 {
      var body := PrintPair(p)[..|PrintPair(p)| - 1];
      assert body == p.0 + " " + p.1;
      LastBlankIs(body);
      var n := LastBlank(body);
      assert body[|p.0|] == ' ';
      assert body[|p.0| + 1..] == p.1;
      forall i | |p.0| < i < |body| ensures body[i] != ' ' {
        assert body[i] == p.1[i - |p.0| - 1] && body[i] in p.1;
      }
      assert body[..|p.0|] == p.0;
    }
  }

  /** The loader as a function: `None` is its exit on a key it has already loaded. */
  function LoadAll(t: map<Key, Value>, lines: seq<string>): Option<map<Key, Value>>
    requires forall l <- lines :: IsLine(l) && |l| >= 2
    decreases |lines|
  {
    if lines == [] then Some(t)
    else
      assert lines[0] in lines;
      var p := ParsePair(lines[0]);
      if p.0 in t then None else LoadAll(t[p.0 := p.1], lines[1..])
  }

  /** One turn of the loading loop of `kv_recovery_redo`. */
  method LoadLine(ht: HashTable, line: string) returns (ok: bool)
    requires ht.Valid() && IsLine(line) && |line| >= 2
    modifies ht.Repr()
    ensures ht.Valid() && fresh(ht.Repr() - old(ht.Repr()))
    ensures var p := ParsePair(line);
            ok == (p.0 !in old(ht.Contents())) && ht.Contents() == old(ht.Contents())[p.0 := p.1]
  {
    hide ParsePair, IsLine, Filed, Complete, AllLinked, Keyed, LinksOf;
    var pair := SplitLine(line);
    var before := ht.Set(pair.0, pair.1);
    ok := before.None?;
  }

  /** The loading loop: it ends early on a key that it has loaded before. */
  method Load(ht: HashTable, text: string) returns (ok: bool)
    requires ht.Valid() && forall l <- Lines(text) :: IsLine(l) && |l| >= 2
    modifies ht.Repr()
    ensures ht.Valid() && fresh(ht.Repr() - old(ht.Repr()))
    ensures var loaded := LoadAll(old(ht.Contents()), Lines(text));
            if ok then loaded == Some(ht.Contents()) else loaded == None
  {
    hide ParsePair, IsLine, Gets, Filed, Complete, AllLinked, Keyed, LinksOf;
    var rest := text;
    ok := true;
    while ok && rest != ""
      invariant ht.Valid() && fresh(ht.Repr() - old(ht.Repr()))
      invariant forall l <- Lines(rest) :: IsLine(l) && |l| >= 2
      invariant LoadAll(old(ht.Contents()), Lines(text)) == if ok then LoadAll(ht.Contents(), Lines(rest)) else None
      decreases |rest|
    {
      var line := Gets(rest);
      assert Lines(rest)[0] == line && Lines(rest)[1..] == Lines(rest[|line|..]);
      ok := LoadLine(ht, line);
      rest := rest[|line|..];
    }
  }

  // ---------- round trip ----------

  lemma LinesOfPairs(pairs: seq<Pair>)
    requires forall i | 0 <= i < |pairs| :: Fits(pairs[i])
    ensures Lines(Join(PrintPairs(pairs))) == PrintPairs(pairs)
    ensures forall l <- PrintPairs(pairs) :: IsLine(l) && |l| >= 2
  {
    forall l | l in PrintPairs(pairs) ensures IsLine(l) && |l| >= 2 {
      var i :| 0 <= i < |pairs| && l == PrintPair(pairs[i]);
      PairIsLine(pairs[i]);
    }
    LinesOfJoin(PrintPairs(pairs));
  }

  lemma {:induction false} LoadRest(t: map<Key, Value>, rest: seq<Pair>, contents: map<Key, Value>)
    requires forall i | 0 <= i < |rest| :: Fits(rest[i]) && ' ' !in rest[i].1 && rest[i].0 !in t
    requires forall i, j | 0 <= i < j < |rest| :: rest[i].0 != rest[j].0
    requires forall k <- t :: k in contents && contents[k] == t[k]
    requires forall i | 0 <= i < |rest| :: rest[i].0 in contents && contents[rest[i].0] == rest[i].1
    requires forall k <- contents :: k in t || (k, contents[k]) in rest
    requires forall l <- PrintPairs(rest) :: IsLine(l) && |l| >= 2
    ensures LoadAll(t, PrintPairs(rest)) == Some(contents)
    decreases |rest|
  {
    hide Fits, IsLine, ParsePair, PrintPair;
    if rest == [] {
      assert t == contents;
    } else {
      var p := rest[0];
      assert PrintPairs(rest)[1..] == PrintPairs(rest[1..]);
      PairRoundTripIff(p);
      forall k | k in contents ensures k in t[p.0 := p.1] || (k, contents[k]) in rest[1..] {
        if k !in t {
          var i :| 0 <= i < |rest| && rest[i] == (k, contents[k]);
          assert i > 0 ==> rest[1..][i - 1] == rest[i];
        }
      }
      LoadRest(t[p.0 := p.1], rest[1..], contents);
    }
  }

  lemma {:induction false} LoadedHasNoBlank(t: map<Key, Value>, lines: seq<string>)
    requires forall l <- lines :: IsLine(l) && |l| >= 2
    requires (forall k <- t :: ' ' !in t[k]) && LoadAll(t, lines).Some?
    ensures forall k <- LoadAll(t, lines).value :: ' ' !in LoadAll(t, lines).value[k]
    decreases |lines|
  {
    hide IsLine, ParsePair;
    if lines != [] {
      assert lines[0] in lines;
      ParsedValueHasNoBlank(lines[0]);
      var p := ParsePair(lines[0]);
      LoadedHasNoBlank(t[p.0 := p.1], lines[1..]);
    }
  }

  /** Theorem: reloading a snapshot file into an empty table rebuilds the table, without ever meeting
      a key twice, if and only if no value has a blank. */
  lemma SnapshotRoundTripIff(text: string, contents: map<Key, Value>)
    requires AllFit(contents) && SnapshotOf(text, contents)
    ensures forall l <- Lines(text) :: IsLine(l) && |l| >= 2
    ensures LoadAll(map[], Lines(text)) == Some(contents) <==> forall k <- contents :: ' ' !in contents[k]
  {
    var pairs: seq<Pair> :| HashTable.Lists(pairs, contents) && text == Join(PrintPairs(pairs));
    forall i | 0 <= i < |pairs| ensures Fits(pairs[i]) {
      assert pairs[i] == (pairs[i].0, contents[pairs[i].0]);
    }
    hide Fits, IsLine, ParsePair, PrintPair;
    LinesOfPairs(pairs);
    if forall k <- contents :: ' ' !in contents[k] {
      LoadRest(map[], pairs, contents);
    }
    if LoadAll(map[], Lines(text)) == Some(contents) {
      LoadedHasNoBlank(map[], Lines(text));
    }
  }
}
