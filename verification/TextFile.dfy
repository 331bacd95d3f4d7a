/** Text files as the program reads them, with `fgets` into a buffer of 128 characters. */
module TextFile {
  const MAX_LINE_LEN: nat := 128 // KV_RECOVERY_MAX_LINE_LEN

  /** How many characters one `fgets` takes: up to and including a newline, at most 127. */
  function Taken(text: string, n: nat): (t: nat)
    requires n <= |text| && n < MAX_LINE_LEN
    ensures n <= t <= |text| && t < MAX_LINE_LEN
    decreases |text| - n
  {
    if n == |text| || n == MAX_LINE_LEN - 1 then n
    else if text[n] == '\n' then n + 1
    else Taken(text, n + 1)
  }

  function Gets(text: string): (line: string)
    ensures line <= text && |line| < MAX_LINE_LEN
    ensures text != "" ==> line != ""
  {
    text[..Taken(text, 0)]
  }

  /** The lines that repeated `fgets` calls return. */
  function Lines(text: string): seq<string>
    decreases |text|
  {
    if text == "" then [] else [Gets(text)] + Lines(text[|Gets(text)|..])
  }

  function Join(lines: seq<string>): string {
    if lines == [] then "" else lines[0] + Join(lines[1..])
  }

  predicate IsLine(l: string) {
    && 0 < |l| < MAX_LINE_LEN && l[|l| - 1] == '\n'
    && forall i | 0 <= i < |l| - 1 :: l[i] != '\n'
  }

  lemma {:induction false} TakenIsLine(l: string, rest: string, n: nat)
    requires IsLine(l) && n < |l|
    ensures Taken(l + rest, n) == |l|
    decreases |l| - n
  {
    if n < |l| - 1 {
      TakenIsLine(l, rest, n + 1);
    }
  }

  /** A file written line by line is read back line by line. */
  lemma {:induction false} LinesOfJoin(lines: seq<string>)
    requires forall l <- lines :: IsLine(l)
    ensures Lines(Join(lines)) == lines
    decreases |lines|
  {
    if lines != [] {
      TakenIsLine(lines[0], Join(lines[1..]), 0);
      assert Join(lines)[|lines[0]|..] == Join(lines[1..]);
      LinesOfJoin(lines[1..]);
    }
  }

  /** A piece of a line: a newline stands only at its end. */
  predicate Piece(l: string) {
    0 < |l| <= 127 && forall i | 0 <= i < |l| - 1 :: l[i] != '\n'
  }

  /** A piece that is not the last ends with a newline or fills the buffer. */
  predicate Pieces(ls: seq<string>) {
    && (forall l <- ls :: Piece(l))
    && forall j | 0 <= j < |ls| - 1 :: Piece(ls[j]) && (ls[j][|ls[j]| - 1] == '\n' || |ls[j]| == 127)
  }

  lemma PiecesMore(l: string, ls: seq<string>)
    requires Piece(l) && Pieces(ls) && (ls != [] ==> l[|l| - 1] == '\n' || |l| == 127)
    ensures Pieces([l] + ls)
  {
    var all := [l] + ls;
    forall j | 0 <= j < |all| - 1 ensures Piece(all[j]) && (all[j][|all[j]| - 1] == '\n' || |all[j]| == 127) {
      assert j > 0 ==> all[j] == ls[j - 1];
    }
  }

  /** Whatever the file holds, `fgets` loses nothing of it, and cuts only behind a newline, after 127
      characters, or at the end. */
  lemma {:induction false} LinesAreWhole(text: string)
    ensures Join(Lines(text)) == text && Pieces(Lines(text))
    decreases |text|
  {
    if text != "" {
      var line := Gets(text);
      var rest := text[|line|..];
      GetsPiece(text);
      LinesAreWhole(rest);
      assert Lines(text) == [line] + Lines(rest) && (rest == "" ==> Lines(rest) == []);
      hide Lines, Gets, Pieces, Piece;
      PiecesMore(line, Lines(rest));
      assert ([line] + Lines(rest))[1..] == Lines(rest);
      assert text == line + rest;
    }
  }

  lemma GetsPiece(text: string)
    requires text != ""
    ensures Piece(Gets(text))
    ensures |Gets(text)| < |text| ==> Gets(text)[|Gets(text)| - 1] == '\n' || |Gets(text)| == 127
  {
    hide Taken;
    TakenStops(text, 0);
  }

  lemma {:induction false} TakenStops(text: string, n: nat)
    requires n < |text| && n < MAX_LINE_LEN - 1
    ensures var t := Taken(text, n);
            && n < t && (forall i | n <= i < t - 1 :: text[i] != '\n')
            && (t == |text| || t == MAX_LINE_LEN - 1 || text[t - 1] == '\n')
    decreases |text| - n
  {
    if text[n] != '\n' && n + 1 < |text| && n + 1 < MAX_LINE_LEN - 1 {
      TakenStops(text, n + 1);
    }
  }

  lemma {:induction false} JoinAppend(lines: seq<string>, l: string)
    ensures Join(lines + [l]) == Join(lines) + l
    decreases |lines|
  {
    if lines == [] {
      assert [l][1..] == [];
    } else {
      assert (lines + [l])[1..] == lines[1..] + [l];
      JoinAppend(lines[1..], l);
    }
  }
}
