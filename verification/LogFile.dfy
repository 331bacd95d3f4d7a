/** The log file as text: looking a record up by scanning, and finding the counters after a restart. */
module LogFile {
  import opened Table
  import opened LogRecord
  import opened Utils
  import opened TextFile
  import opened LogCodec

  datatype Found = NotFound | Found(record: Record)

  predicate AllPrintable(log: Log) {
    forall l | 1 <= l <= |log| :: Printable(l, At(log, l))
  }

  /** The lines of the file after the records have been written in order. */
  function LinesOf(log: Log): seq<string> {
    seq(|log|, i requires 0 <= i < |log| => Print(i + 1, log[i]))
  }

  function FileText(log: Log): string {
    Join(LinesOf(log))
  }

  lemma Ends(body: string)
    requires '\n' !in body && |body| + 1 < MAX_LINE_LEN
    ensures IsLine(body + "\n")
  {
    var l := body + "\n";
    forall i | 0 <= i < |l| - 1 ensures l[i] != '\n' {
      assert l[i] == body[i] && body[i] in body;
    }
  }

  lemma NoNewline(a: string, b: string)
    requires '\n' !in a && '\n' !in b
    ensures '\n' !in a + b
  {
  }

  lemma {:induction false} EntriesNoNewline(list: seq<Ongoing>)
    ensures '\n' !in EntriesText(list)
    decreases |list|
  {
    if list != [] {
      EntriesNoNewline(list[1..]);
      EntryNoNewline(list[0]);
      NoNewline(EntryText(list[0]), EntriesText(list[1..]));
    }
  }

  lemma EntryNoNewline(e: Ongoing)
    ensures '\n' !in EntryText(e)
  {
    NoNewline(" T", Hex(e.tx, 8));
    NoNewline(" T" + Hex(e.tx, 8), " ");
    NoNewline(" T" + Hex(e.tx, 8) + " ", Hex(e.last, 8));
  }

  lemma HeaderNoNewline(l: Lsn, prev: Lsn, tx: TxId, kind: string)
    requires |kind| == 7 && '\n' !in kind
    ensures '\n' !in Header(l, prev, tx, kind)
  {
    var x, y, z := Hex(l, 8), Hex(prev, 8), Hex(tx, 8);
    NoNewline(x, " ");
    NoNewline(x + " ", y);
    NoNewline(x + " " + y, " T");
    NoNewline(x + " " + y + " T", z);
    NoNewline(x + " " + y + " T" + z, " ");
    NoNewline(x + " " + y + " T" + z + " ", kind);
  }

  lemma DataNoNewline(k: Key, x: Value, y: Value) returns (body: string)
    requires '\n' !in k && '\n' !in x && '\n' !in y
    ensures DataBody(k, x, y) == body + "\n" && '\n' !in body
  {
    var lens := Hex(|k|, 2) + " " + Hex(|x|, 2) + " " + Hex(|y|, 2) + " ";
    body := lens + k + " " + x + " " + y;
    assert DataBody(k, x, y) == body + "\n";
    NoNewline(lens, k);
    NoNewline(lens + k, " ");
    NoNewline(lens + k + " ", x);
    NoNewline(lens + k + " " + x, " ");
    NoNewline(lens + k + " " + x + " ", y);
  }

  /** Every printed record is one line. */
  lemma PrintIsLine(l: Lsn, r: Record)
    requires Printable(l, r)
    ensures IsLine(Print(l, r))
  {
    hide Hex, Header, EntriesText, DataBody, IsLine;
    match r
    case Begin(prev, t) => HeaderNoNewline(l, prev, t, "BEGIN__"); Ends(Header(l, prev, t, "BEGIN__"));
    case Commit(prev, t) => HeaderNoNewline(l, prev, t, "COMMIT_"); Ends(Header(l, prev, t, "COMMIT_"));
    case Abort(prev, t) => HeaderNoNewline(l, prev, t, "ABORT__"); Ends(Header(l, prev, t, "ABORT__"));
    case End(prev, t) => HeaderNoNewline(l, prev, t, "END____"); Ends(Header(l, prev, t, "END____"));
    case Update(prev, t, k, x, y) =>
      var body := DataNoNewline(k, x, y);
      var head := Header(l, prev, t, "UPDATE_");
      HeaderNoNewline(l, prev, t, "UPDATE_");
      NoNewline(head, " ");
      NoNewline(head + " ", body);
      assert Print(l, r) == (head + " " + body) + "\n";
      Ends(head + " " + body);
    case Clr(prev, t, next, k, x, y) =>
      var body := DataNoNewline(k, x, y);
      var head := Header(l, prev, t, "CLR____");
      HeaderNoNewline(l, prev, t, "CLR____");
      NoNewline(head, " ");
      NoNewline(head + " ", Hex(next, 8));
      NoNewline(head + " " + Hex(next, 8), " ");
      NoNewline(head + " " + Hex(next, 8) + " ", body);
      assert Print(l, r) == (head + " " + Hex(next, 8) + " " + body) + "\n";
      Ends(head + " " + Hex(next, 8) + " " + body);
    case Check(list) =>
      var head := Header(l, 0, 0, "CHECK__");
      HeaderNoNewline(l, 0, 0, "CHECK__");
      NoNewline(head, " ");
      NoNewline(head + " ", Hex(|list|, 2));
      EntriesNoNewline(list);
      NoNewline(head + " " + Hex(|list|, 2), EntriesText(list));
      Ends(head + " " + Hex(|list|, 2) + EntriesText(list));
  }

  /** Reading the file line by line gives back the printed records. */
  lemma FileLines(log: Log)
    requires AllPrintable(log)
    ensures Lines(FileText(log)) == LinesOf(log)
    ensures forall i | 0 <= i < |log| :: IsLine(LinesOf(log)[i])
  {
    forall i | 0 <= i < |log| ensures IsLine(LinesOf(log)[i]) {
      assert Printable(i + 1, At(log, i + 1));
      PrintIsLine(i + 1, log[i]);
    }
    LinesOfJoin(LinesOf(log));
  }

  /** Writing one more line at the end of the file. */
  lemma FileTextAppend(log: Log, r: Record)
    ensures FileText(log + [r]) == FileText(log) + Print(|log| + 1, r)
  {
    hide Print;
    assert LinesOf(log + [r]) == LinesOf(log) + [Print(|log| + 1, r)];
    JoinAppend(LinesOf(log), Print(|log| + 1, r));
  }

  lemma PrintableAppend(log: Log, r: Record)
    requires AllPrintable(log) && Printable(|log| + 1, r)
    ensures AllPrintable(log + [r])
  {
    hide Printable;
    forall l | 1 <= l <= |log + [r]| ensures Printable(l, At(log + [r], l)) {
      assert l <= |log| ==> At(log + [r], l) == At(log, l);
    }
  }

  /** `kv_recovery_get_log`: scans the whole file for the LSN. For a file that the program has
      written, it finds record `lsn` if and only if there is one. (Asked for LSN 0 of an empty file,
      the program reads an uninitialised line.) */
  method GetLog(text: string, lsn: Lsn, ghost log: Log) returns (found: Found)
    requires AllPrintable(log) && text == FileText(log) && (lsn >= 1 || log != [])
    ensures found == if Has(log, lsn) then Found(At(log, lsn)) else NotFound
  {
    FileLines(log);
    hide Print, Printable, ParseRecord, ParseLsn, IsLine, FileText, Gets, AllPrintable, LinesOf;
    var rest, line, lineLsn := text, "", 0;
    ghost var n := 0;
    while rest != ""
      invariant 0 <= n <= |log| && Lines(rest) == LinesOf(log)[n..]
      invariant lineLsn == n && (n < lsn || lsn == 0)
      decreases |rest|
    {
      NextLine(rest, log, n);
      line := Gets(rest);
      rest := rest[|line|..];
      LookupLine(log, n + 1);
      lineLsn := ParseLsn(line);
      n := n + 1;
      if lineLsn == lsn {
        break;
      }
    }
    if lineLsn != lsn {
      return NotFound;
    }
    found := Found(ParseRecord(line));
  }

  /** One `fgets` in the middle of the file. */
  lemma NextLine(rest: string, log: Log, n: nat)
    requires n <= |log| && rest != "" && Lines(rest) == LinesOf(log)[n..]
    ensures n < |log| && Gets(rest) == LinesOf(log)[n] && 0 < |Gets(rest)| <= |rest|
    ensures Lines(rest[|Gets(rest)|..]) == LinesOf(log)[n + 1..]
  {
    hide Gets, Print;
    assert Lines(rest)[0] == Gets(rest);
    assert Lines(rest)[1..] == Lines(rest[|Gets(rest)|..]);
  }

  lemma LookupLine(log: Log, l: Lsn)
    requires AllPrintable(log) && Has(log, l)
    ensures |LinesOf(log)[l - 1]| >= 30
    ensures ParseLsn(LinesOf(log)[l - 1]) == l && ParseRecord(LinesOf(log)[l - 1]) == At(log, l)
  {
    hide Print, Printable, ParseLsn, ParseRecord;
    assert Printable(l, At(log, l));
    RecordRoundTrip(l, At(log, l));
  }

  // ---------- counters after a restart ----------

  lemma {:induction false} JoinEnds(lines: seq<string>)
    requires lines != [] && forall i | 0 <= i < |lines| :: IsLine(lines[i])
    ensures Join(lines) != "" && Join(lines)[|Join(lines)| - 1] == '\n'
  {
    var n := |lines| - 1;
    assert lines == lines[..n] + [lines[n]];
    JoinAppend(lines[..n], lines[n]);
  }

  /** The backward scan of `kv_recovery_recover` for the start of the last line. */
  method LastLine(text: string, ghost before: string, ghost last: string) returns (pos: nat)
    requires text == before + last && IsLine(last)
    requires before != "" ==> before[|before| - 1] == '\n'
    ensures pos == |before|
  {
    assert text[|before|..] == last;
    pos := |text| - 1;
    while pos > 0
      invariant |before| <= pos < |text|
    {
      if text[pos - 1] == '\n' {
        break;
      }
      pos := pos - 1;
    }
  }

  /** A file of some lines is its lines but the last, then the last. */
  lemma SplitLast(log: Log) returns (before: string, last: string)
    requires AllPrintable(log) && log != []
    ensures FileText(log) == before + last && last == LinesOf(log)[|log| - 1] && IsLine(last)
    ensures before != "" ==> before[|before| - 1] == '\n'
    ensures before == "" <==> |log| == 1
  {
    hide Print, Printable, IsLine;
    FileLines(log);
    var lines, n := LinesOf(log), |log| - 1;
    assert lines == lines[..n] + [lines[n]];
    JoinAppend(lines[..n], lines[n]);
    before, last := Join(lines[..n]), lines[n];
    if n > 0 {
      JoinEnds(lines[..n]);
    }
  }

  lemma EmptyFile(log: Log)
    requires log == []
    ensures FileText(log) == ""
  {
  }

  /** The LSN counter after a restart is the number of records in the file if and only if the file
      does not hold exactly one; then it is 0. */
  method RestoreLsn(text: string, ghost log: Log) returns (lsn: Lsn)
    requires AllPrintable(log) && text == FileText(log)
    ensures lsn == |log| <==> |log| != 1
    ensures |log| == 1 ==> lsn == 0
  {
    hide Print, Printable, ParseLsn, IsLine, FileText;
    if |text| == 0 {
      assert log == [] by {
        FileLines(log);
        assert |LinesOf(log)| == |Lines(text)|;
      }
      return 0;
    }
    if log == [] {
      EmptyFile(log);
    }
    ghost var before, last := SplitLast(log);
    var pos := LastLine(text, before, last);
    if pos == 0 {
      lsn := 0;
    } else {
      LookupLine(log, |log|);
      assert text[pos..] == last;
      lsn := ParseLsn(text[pos..]);
    }
  }

  /** `kv_txm_init`: the last issued transaction id is in the last 9 characters of its file. */
  method RestoreTxId(text: string, ghost ids: seq<TxId>) returns (id: TxId)
    requires (forall i <- ids :: Word(i)) && text == Join(IdLines(ids))
    ensures id == if ids == [] then 0 else ids[|ids| - 1]
  {
    hide Hex, HexVal;
    if ids != [] {
      ghost var n := |ids| - 1;
      assert IdLines(ids) == IdLines(ids)[..n] + [Hex(ids[n], 8) + "\n"];
      JoinAppend(IdLines(ids)[..n], Hex(ids[n], 8) + "\n");
      assert ids[n] in ids;
      Uint32RoundTrip(ids[n]);
      assert text[|text| - 9..|text| - 1] == Hex(ids[n], 8);
    }
    if |text| == 0 {
      return 0;
    }
    id := HexToUint32(text[|text| - 9..|text| - 1]);
  }

  lemma IdLinesAppend(ids: seq<TxId>, id: TxId)
    ensures Join(IdLines(ids + [id])) == Join(IdLines(ids)) + Hex(id, 8) + "\n"
  {
    hide Hex;
    assert (ids + [id])[..|ids|] == ids;
    JoinAppend(IdLines(ids), Hex(id, 8) + "\n");
    assert Join(IdLines(ids)) + (Hex(id, 8) + "\n") == Join(IdLines(ids)) + Hex(id, 8) + "\n";
  }

  function IdLines(ids: seq<TxId>): (lines: seq<string>)
    ensures |lines| == |ids| && forall i | 0 <= i < |ids| :: lines[i] == Hex(ids[i], 8) + "\n"
  {
    if ids == [] then [] else IdLines(ids[..|ids| - 1]) + [Hex(ids[|ids| - 1], 8) + "\n"]
  }
}
