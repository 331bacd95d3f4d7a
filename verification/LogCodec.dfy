/** The text of log records: the writers and the reader of `src/kv_recovery.c`. */
module LogCodec {
  import opened Table
  import opened LogRecord
  import opened Utils
  import opened TextFile

  // ---------- hexadecimal ----------

  function Pow16(n: nat): nat {
    if n == 0 then 1 else 16 * Pow16(n - 1)
  }

  /** `v >> (4 * i)`. */
  function Shift(v: nat, i: nat): nat {
    if i == 0 then v else Shift(v, i - 1) / 16
  }

  /** The low `n` hexadecimal digits of `v`, most significant first. */
  function Hex(v: nat, n: nat): (s: string)
    ensures |s| == n
    ensures '\n' !in s
  {
    if n == 0 then "" else Hex(v / 16, n - 1) + [HexDigit(v % 16)]
  }

  function HexVal(s: string): nat {
    if s == "" then 0 else 16 * HexVal(s[..|s| - 1]) + DigitValue(s[|s| - 1])
  }

  lemma {:induction false} HexRoundTrip(v: nat, n: nat)
    requires v < Pow16(n)
    ensures HexVal(Hex(v, n)) == v
    decreases n
  {
    if n > 0 {
      HexRoundTrip(v / 16, n - 1);
      DigitRoundTrip(v % 16);
    }
  }

  lemma {:induction false} ShiftInside(v: nat, i: nat)
    ensures Shift(v / 16, i) == Shift(v, i + 1)
    decreases i
  {
    if i > 0 {
      ShiftInside(v, i - 1);
    }
  }

  lemma {:induction false} HexAt(v: nat, n: nat, j: nat)
    requires j < n
    ensures Hex(v, n)[n - 1 - j] == HexDigit(Shift(v, j) % 16)
    decreases n
  {
    if j > 0 {
      HexAt(v / 16, n - 1, j - 1);
      ShiftInside(v, j - 1);
    }
  }

  lemma {:induction false} HexZeros(n: nat)
    ensures Hex(0, n) == seq(n, _ => '0')
    decreases n
  {
    if n > 0 {
      HexZeros(n - 1);
    }
  }

  /** A number of one digit, padded with zeros. */
  lemma OneDigit(v: nat, n: nat)
    requires v < 16 && n > 0
    ensures Hex(v, n) == seq(n - 1, _ => '0') + [HEX_DIGITS[v]]
  {
    HexZeros(n - 1);
  }

  lemma HexMore(v: nat, n: nat, d: nat)
    requires d < 16
    ensures Hex(16 * v + d, n + 1) == Hex(v, n) + [HEX_DIGITS[d]]
  {
    assert (16 * v + d) / 16 == v && (16 * v + d) % 16 == d;
  }

  /** The digits are those of C's `%08X`, in capitals. */
  lemma HexExample()
    ensures Hex(0xDEADBEEF, 8) == "DEADBEEF"
  {
    hide Hex;
    HexMore(0, 0, 0xD);
    HexMore(0xD, 1, 0xE);
    HexMore(0xDE, 2, 0xA);
    HexMore(0xDEA, 3, 0xD);
    HexMore(0xDEAD, 4, 0xB);
    HexMore(0xDEADB, 5, 0xE);
    HexMore(0xDEADBE, 6, 0xE);
    HexMore(0xDEADBEE, 7, 0xF);
    assert Hex(0, 0) == "" by { HexEmpty(); }
  }

  lemma HexEmpty()
    ensures Hex(0, 0) == ""
  {
  }

  /** `uint32_to_hex`: one masked and shifted digit per turn, from the right. */
  method Uint32ToHex(v: nat, hex: array<char>)
    requires hex.Length == 8
    modifies hex
    ensures hex[..] == Hex(v, 8)
  {
    for i := 0 to 8
      invariant forall j | 0 <= j < i :: hex[7 - j] == HexDigit(Shift(v, j) % 16)
    {
      hex[7 - i] := HexDigit(Shift(v, i) % 16);
    }
    forall j | 0 <= j < 8 ensures hex[j] == Hex(v, 8)[j] {
      HexAt(v, 8, 7 - j);
      assert hex[7 - (7 - j)] == HexDigit(Shift(v, 7 - j) % 16);
    }
  }

  lemma AddDigit(a: nat, d: nat, p: nat)
    ensures a * (16 * p) + d * p == (16 * a + d) * p
  {
  }

  /** `hex_to_uint32`: adds each digit, shifted to its place, from the left. */
  method HexToUint32(hex: string) returns (v: nat)
    requires |hex| == 8
    ensures v == HexVal(hex)
  {
    v := 0;
    for i := 0 to 8
      invariant v == HexVal(hex[..i]) * Pow16(8 - i)
    {
      assert hex[..i + 1][..i] == hex[..i];
      AddDigit(HexVal(hex[..i]), DigitValue(hex[i]), Pow16(7 - i));
      v := v + DigitValue(hex[i]) * Pow16(7 - i);
    }
    assert hex[..8] == hex;
  }

  /** Theorem: the two loops are inverses on 32-bit words. */
  lemma Uint32RoundTrip(v: nat)
    requires v < 0x1_0000_0000
    ensures HexVal(Hex(v, 8)) == v
  {
    assert Pow16(8) == 0x1_0000_0000;
    HexRoundTrip(v, 8);
  }

  /** `from_2_digit_hex`, which shifts the high digit by 1 instead of 4. */
  function FromTwoDigits(s: string): nat
    requires |s| == 2
  {
    2 * DigitValue(s[0]) + DigitValue(s[1])
  }

  /** A length survives being written with two digits and read back if and only if it is below 16. */
  lemma TwoDigitsIff(n: nat)
    requires n < 256
    ensures FromTwoDigits(Hex(n, 2)) == n <==> n < 16
  {
    HexAt(n, 2, 0);
    HexAt(n, 2, 1);
    assert Shift(n, 1) == n / 16 && Shift(n, 0) == n;
    DigitRoundTrip(n % 16);
    DigitRoundTrip(n / 16);
  }

  /** What is read back: the high digit counts 2 instead of 16. */
  lemma TwoDigitsRead(high: nat, low: nat)
    requires high < 16 && low < 16
    ensures FromTwoDigits(Hex(16 * high + low, 2)) == 2 * high + low
  {
    hide Hex;
    HexMore(high, 1, low);
    HexMore(0, 0, high);
    HexEmpty();
    DigitRoundTrip(high);
    DigitRoundTrip(low);
  }

  // ---------- writing ----------

  function Header(l: Lsn, prev: Lsn, tx: TxId, kind: string): (s: string)
    requires |kind| == 7
    ensures |s| == 35
  {
    Hex(l, 8) + " " + Hex(prev, 8) + " T" + Hex(tx, 8) + " " + kind
  }

  function DataBody(key: Key, before: Value, after: Value): string {
    Hex(|key|, 2) + " " + Hex(|before|, 2) + " " + Hex(|after|, 2) + " " + key + " " + before + " " + after + "\n"
  }

  /** One entry of a CHECK record, with the blank before it. */
  function EntryText(e: Ongoing): (s: string)
    ensures |s| == 19
  {
    " T" + Hex(e.tx, 8) + " " + Hex(e.last, 8)
  }

  function EntriesText(list: seq<Ongoing>): string {
    if list == [] then "" else EntryText(list[0]) + EntriesText(list[1..])
  }

  /** The line of record `r` with LSN `l`. */
  function Print(l: Lsn, r: Record): string {
    match r
    case Begin(prev, t) => Header(l, prev, t, "BEGIN__") + "\n"
    case Commit(prev, t) => Header(l, prev, t, "COMMIT_") + "\n"
    case Abort(prev, t) => Header(l, prev, t, "ABORT__") + "\n"
    case End(prev, t) => Header(l, prev, t, "END____") + "\n"
    case Update(prev, t, k, x, y) => Header(l, prev, t, "UPDATE_") + " " + DataBody(k, x, y)
    case Clr(prev, t, next, k, x, y) =>
      Header(l, prev, t, "CLR____") + " " + Hex(next, 8) + " " + DataBody(k, x, y)
    case Check(list) =>
      Header(l, 0, 0, "CHECK__") + " " + Hex(|list|, 2) + EntriesText(list) + "\n"
  }

  lemma SmallHex(v: nat)
    requires v < 16
    ensures Hex(v, 8) == "0000000" + [HEX_DIGITS[v]] && Hex(v, 2) == "0" + [HEX_DIGITS[v]]
  {
    OneDigit(v, 8);
    OneDigit(v, 2);
  }

  lemma SmallNumbers()
    ensures Hex(0, 8) == "00000000" && Hex(1, 8) == "00000001" && Hex(2, 8) == "00000002"
    ensures Hex(3, 8) == "00000003" && Hex(4, 8) == "00000004"
    ensures Hex(0, 2) == "00" && Hex(1, 2) == "01" && Hex(2, 2) == "02"
  {
    hide Hex;
    SmallHex(0);
    SmallHex(1);
    SmallHex(2);
    SmallHex(3);
    SmallHex(4);
  }

  /** A line of each kind, piece by piece as it stands in the file. */
  lemma FormatExamples()
    ensures Print(1, Begin(0, 1)) == "00000001" + " " + "00000000" + " T" + "00000001" + " " + "BEGIN__" + "\n"
    ensures Print(3, Commit(2, 1)) == "00000003" + " " + "00000002" + " T" + "00000001" + " " + "COMMIT_" + "\n"
    ensures Print(3, Abort(2, 1)) == "00000003" + " " + "00000002" + " T" + "00000001" + " " + "ABORT__" + "\n"
    ensures Print(4, End(2, 1)) == "00000004" + " " + "00000002" + " T" + "00000001" + " " + "END____" + "\n"
    ensures Print(2, Update(1, 1, "k", "", "v"))
         == "00000002" + " " + "00000001" + " T" + "00000001" + " " + "UPDATE_"
            + " " + ("01" + " " + "00" + " " + "01" + " " + "k" + " " + "" + " " + "v" + "\n")
    ensures Print(4, Clr(3, 1, 1, "k", "v", ""))
         == "00000004" + " " + "00000003" + " T" + "00000001" + " " + "CLR____" + " " + "00000001"
            + " " + ("01" + " " + "01" + " " + "00" + " " + "k" + " " + "v" + " " + "" + "\n")
    ensures Print(4, Check([Ongoing(1, 2), Ongoing(3, 0)]))
         == "00000004" + " " + "00000000" + " T" + "00000000" + " " + "CHECK__" + " " + "02"
            + (" T" + "00000001" + " " + "00000002" + (" T" + "00000003" + " " + "00000000" + "")) + "\n"
  {
    hide Hex;
    SmallNumbers();
    assert [Ongoing(1, 2), Ongoing(3, 0)][1..] == [Ongoing(3, 0)];
  }

  predicate Word(v: nat) {
    v < 0x1_0000_0000
  }

  predicate Short(s: string) {
    |s| < 16 && '\n' !in s
  }

  /** The records that survive the trip through the file: words of 32 bits, data and lists of at most
      15 without newlines, and a line that fits the buffer. */
  predicate Printable(l: Lsn, r: Record) {
    && Word(l) && Word(PrevOf(r)) && Word(TxOf(r))
    && (r.Update? || r.Clr? ==> Short(r.key) && Short(r.before) && Short(r.after))
    && (r.Clr? ==> Word(r.undoNext))
    && (r.Check? ==> |r.ongoing| < 16 && forall e <- r.ongoing :: Word(e.tx) && Word(e.last))
    && |Print(l, r)| < MAX_LINE_LEN
  }

  // ---------- reading ----------

  /** `memcpy` out of the line buffer; past the end of the line the buffer holds nothing known. */
  function Slice(line: string, pos: nat, n: nat): string {
    if pos + n <= |line| then line[pos..pos + n] else ""
  }

  function Rest(line: string, pos: nat): string {
    if pos <= |line| then line[pos..] else ""
  }

  function LengthAt(line: string, pos: nat): nat {
    if pos + 2 <= |line| then FromTwoDigits(line[pos..pos + 2]) else 0
  }

  function ParseData(body: string): (Key, Value, Value) {
    var kl, bl, al := LengthAt(body, 0), LengthAt(body, 3), LengthAt(body, 6);
    (Slice(body, 9, kl), Slice(body, 9 + kl + 1, bl), Slice(body, 9 + kl + 1 + bl + 1, al))
  }

  /** `body` starts at the blank before the first entry. */
  function ParseEntries(body: string, n: nat): seq<Ongoing>
    decreases n
  {
    if n == 0 then []
    else [Ongoing(HexVal(Slice(body, 2, 8)), HexVal(Slice(body, 11, 8)))] + ParseEntries(Rest(body, 19), n - 1)
  }

  function ParseLsn(line: string): Lsn {
    HexVal(Slice(line, 0, 8))
  }

  /** `kv_recovery_get_log` on the line it has found. */
  function ParseRecord(line: string): Record
    requires |line| >= 30
  {
    var prev, tx := HexVal(Slice(line, 9, 8)), HexVal(Slice(line, 19, 8));
    var c0, c1 := line[28], line[29];
    if c0 == 'B' then Begin(prev, tx)
    else if c0 == 'C' && c1 == 'O' then Commit(prev, tx)
    else if c0 == 'C' && c1 == 'L' then
      var d := ParseData(Rest(line, 45));
      Clr(prev, tx, HexVal(Slice(line, 36, 8)), d.0, d.1, d.2)
    else if c0 == 'C' then Check(ParseEntries(Rest(line, 38), LengthAt(line, 36)))
    else if c0 == 'U' then
      var d := ParseData(Rest(line, 36));
      Update(prev, tx, d.0, d.1, d.2)
    else if c0 == 'A' then Abort(prev, tx)
    else End(prev, tx)
  }

  // ---------- round trip ----------

  lemma Field(a: string, f: string, b: string)
    ensures (a + f + b)[|a|..|a| + |f|] == f
    ensures (a + f + b)[|a|..] == f + b
  {
  }

  lemma HeaderFields(l: Lsn, prev: Lsn, tx: TxId, kind: string, rest: string)
    requires |kind| == 7 && Word(l) && Word(prev) && Word(tx)
    ensures var line := Header(l, prev, tx, kind) + rest;
            && ParseLsn(line) == l && HexVal(Slice(line, 9, 8)) == prev && HexVal(Slice(line, 19, 8)) == tx
            && line[28] == kind[0] && line[29] == kind[1] && line[35..] == rest
  {
    var line := Header(l, prev, tx, kind) + rest;
    var x, y, z := Hex(l, 8), Hex(prev, 8), Hex(tx, 8);
    assert line[0..8] == x;
    assert line[9..17] == y;
    assert line[19..27] == z;
    Uint32RoundTrip(l);
    Uint32RoundTrip(prev);
    Uint32RoundTrip(tx);
  }

  lemma LengthsFields(p: string, q: string, r: string, tail: string)
    requires |p| == |q| == |r| == 2
    ensures var body := p + " " + q + " " + r + " " + tail;
            body[0..2] == p && body[3..5] == q && body[6..8] == r && body[9..] == tail
  {
  }

  lemma TextsFields(k: string, x: string, y: string)
    ensures var tail := k + " " + x + " " + y + "\n";
            && Slice(tail, 0, |k|) == k
            && Slice(tail, |k| + 1, |x|) == x
            && Slice(tail, |k| + 1 + |x| + 1, |y|) == y
  {
    var tail := k + " " + x + " " + y + "\n";
    assert tail == k + (" " + x + " " + y + "\n");
    Field(k + " ", x, " " + y + "\n");
    assert tail == (k + " ") + x + (" " + y + "\n");
    Field(k + " " + x + " ", y, "\n");
  }

  lemma SliceLater(line: string, d: nat, pos: nat, n: nat)
    requires d <= |line|
    ensures Slice(line, d + pos, n) == Slice(line[d..], pos, n)
  {
  }

  lemma DataRoundTrip(key: Key, before: Value, after: Value)
    requires |key| < 16 && |before| < 16 && |after| < 16
    ensures ParseData(DataBody(key, before, after)) == (key, before, after)
  {
    hide Hex, FromTwoDigits, Slice;
    var body := DataBody(key, before, after);
    var p, q, r := Hex(|key|, 2), Hex(|before|, 2), Hex(|after|, 2);
    var tail := key + " " + before + " " + after + "\n";
    assert body == p + " " + q + " " + r + " " + tail;
    LengthsFields(p, q, r, tail);
    TwoDigitsIff(|key|);
    TwoDigitsIff(|before|);
    TwoDigitsIff(|after|);
    TextsFields(key, before, after);
    SliceLater(body, 9, 0, |key|);
    SliceLater(body, 9, |key| + 1, |before|);
    SliceLater(body, 9, |key| + 1 + |before| + 1, |after|);
  }

  lemma EntryFields(e: Ongoing, tail: string)
    requires Word(e.tx) && Word(e.last)
    ensures var body := EntryText(e) + tail;
            HexVal(Slice(body, 2, 8)) == e.tx && HexVal(Slice(body, 11, 8)) == e.last && Rest(body, 19) == tail
  {
    var body := EntryText(e) + tail;
    assert body[2..10] == Hex(e.tx, 8) && body[11..19] == Hex(e.last, 8);
    Uint32RoundTrip(e.tx);
    Uint32RoundTrip(e.last);
  }

  lemma EntriesFirst(list: seq<Ongoing>, rest: string)
    requires list != []
    ensures EntriesText(list) + rest == EntryText(list[0]) + (EntriesText(list[1..]) + rest)
  {
    hide EntryText;
  }

  lemma ParseFirst(body: string, n: nat)
    requires n > 0
    ensures ParseEntries(body, n)
         == [Ongoing(HexVal(Slice(body, 2, 8)), HexVal(Slice(body, 11, 8)))] + ParseEntries(Rest(body, 19), n - 1)
  {
  }

  lemma {:induction false} EntriesRoundTrip(list: seq<Ongoing>, rest: string)
    requires forall e <- list :: Word(e.tx) && Word(e.last)
    ensures ParseEntries(EntriesText(list) + rest, |list|) == list
    decreases |list|
  {
    hide EntryText, Hex, HexVal, Slice, Rest;
    if list != [] {
      hide EntriesText, ParseEntries;
      var e, tail := list[0], EntriesText(list[1..]) + rest;
      assert e in list;
      assert forall x <- list[1..] :: x in list;
      EntriesFirst(list, rest);
      EntryFields(e, tail);
      ParseFirst(EntryText(e) + tail, |list|);
      EntriesRoundTrip(list[1..], rest);
      assert [e] + list[1..] == list;
    }
  }

  /** Theorem: every printable record, of every type, is read back as it was written. */
  lemma RecordRoundTrip(l: Lsn, r: Record)
    requires Printable(l, r)
    ensures |Print(l, r)| >= 30 && ParseLsn(Print(l, r)) == l && ParseRecord(Print(l, r)) == r
  {
    hide Hex, HexVal, Header, DataBody, ParseData;
    var line := Print(l, r);
    match r
    case Begin(prev, t) => HeaderFields(l, prev, t, "BEGIN__", "\n");
    case Commit(prev, t) => HeaderFields(l, prev, t, "COMMIT_", "\n");
    case Abort(prev, t) => HeaderFields(l, prev, t, "ABORT__", "\n");
    case End(prev, t) => HeaderFields(l, prev, t, "END____", "\n");
    case Update(prev, t, k, x, y) => UpdateRoundTrip(l, r);
    case Clr(prev, t, next, k, x, y) => ClrRoundTrip(l, r);
    case Check(list) => CheckRoundTrip(l, r);
  }

  lemma UpdateRoundTrip(l: Lsn, r: Record)
    requires Printable(l, r) && r.Update?
    ensures |Print(l, r)| >= 30 && ParseLsn(Print(l, r)) == l && ParseRecord(Print(l, r)) == r
  {
    hide Hex, HexVal, Header, DataBody, ParseData;
    var line, body := Print(l, r), DataBody(r.key, r.before, r.after);
    assert line == Header(l, r.prev, r.tx, "UPDATE_") + (" " + body);
    HeaderFields(l, r.prev, r.tx, "UPDATE_", " " + body);
    assert line[36..] == body;
    DataRoundTrip(r.key, r.before, r.after);
  }

  lemma ClrRoundTrip(l: Lsn, r: Record)
    requires Printable(l, r) && r.Clr?
    ensures |Print(l, r)| >= 30 && ParseLsn(Print(l, r)) == l && ParseRecord(Print(l, r)) == r
  {
    hide Hex, HexVal, Header, DataBody, ParseData;
    var line, body := Print(l, r), DataBody(r.key, r.before, r.after);
    var rest := " " + Hex(r.undoNext, 8) + " " + body;
    assert line == Header(l, r.prev, r.tx, "CLR____") + rest;
    HeaderFields(l, r.prev, r.tx, "CLR____", rest);
    assert line[36..44] == Hex(r.undoNext, 8) && line[45..] == body;
    Uint32RoundTrip(r.undoNext);
    DataRoundTrip(r.key, r.before, r.after);
  }

  lemma CheckRoundTrip(l: Lsn, r: Record)
    requires Printable(l, r) && r.Check?
    ensures |Print(l, r)| >= 30 && ParseLsn(Print(l, r)) == l && ParseRecord(Print(l, r)) == r
  {
    hide Hex, HexVal, EntryText, EntriesText, Header, ParseEntries;
    var list := r.ongoing;
    var tail := EntriesText(list) + "\n";
    var rest := " " + Hex(|list|, 2) + tail;
    assert Print(l, r) == Header(l, 0, 0, "CHECK__") + rest;
    var line := Header(l, 0, 0, "CHECK__") + rest;
    HeaderFields(l, 0, 0, "CHECK__", rest);
    assert line[36..38] == Hex(|list|, 2) && Rest(line, 38) == tail;
    TwoDigitsIff(|list|);
    EntriesRoundTrip(list, "\n");
  }

  // ---------- the writer as the program has it ----------

  /** The first 35 characters, as `data_change_log` leaves them before it has an LSN. */
  function Unnumbered(prev: Lsn, tx: TxId, kind: string): string {
    "????????" + " " + Hex(prev, 8) + " " + "T" + Hex(tx, 8) + " " + kind
  }

  lemma NumberLast(l: Lsn, prev: Lsn, tx: TxId, kind: string, data: string)
    requires |kind| == 7
    ensures |Unnumbered(prev, tx, kind)| == 35
    ensures Hex(l, 8) + (Unnumbered(prev, tx, kind) + data)[8..] == Header(l, prev, tx, kind) + data
  {
    assert (Unnumbered(prev, tx, kind) + data)[8..] == Unnumbered(prev, tx, kind)[8..] + data;
    assert Hex(l, 8) + Unnumbered(prev, tx, kind)[8..] == Header(l, prev, tx, kind);
  }

  lemma {:induction false} EntriesAppend(list: seq<Ongoing>, e: Ongoing)
    ensures EntriesText(list + [e]) == EntriesText(list) + EntryText(e)
    decreases |list|
  {
    hide EntryText;
    if list != [] {
      assert (list + [e])[1..] == list[1..] + [e];
      EntriesAppend(list[1..], e);
    }
  }

  /** `kv_recovery_check_log`: one entry per turn, a blank before each. */
  method FormatCheck(list: seq<Ongoing>, newLsn: Lsn) returns (line: string)
    ensures line == Print(newLsn, Check(list))
  {
    hide Hex, Header;
    var hex := new char[8];
    line := Header(newLsn, 0, 0, "CHECK__") + " " + Hex(|list|, 2);
    ghost var start := line;
    for i := 0 to |list|
      invariant line == start + EntriesText(list[..i])
    {
      assert list[..i + 1] == list[..i] + [list[i]];
      EntriesAppend(list[..i], list[i]);
      Uint32ToHex(list[i].tx, hex);
      var entry := " T" + hex[..];
      Uint32ToHex(list[i].last, hex);
      entry := entry + " " + hex[..];
      line := line + entry;
    }
    assert list[..|list|] == list;
    line := line + "\n";
  }

  /** `size_t_to_2_digit_hex`. */
  method SizeToTwoDigits(n: nat, hex: array<char>)
    requires hex.Length == 2
    modifies hex
    ensures hex[..] == Hex(n, 2)
  {
    for i := 0 to 2
      invariant forall j | 0 <= j < i :: hex[1 - j] == HexDigit(Shift(n, j) % 16)
    {
      hex[1 - i] := HexDigit(Shift(n, i) % 16);
    }
    forall j | 0 <= j < 2 ensures hex[j] == Hex(n, 2)[j] {
      HexAt(n, 2, 1 - j);
      assert hex[1 - (1 - j)] == HexDigit(Shift(n, 1 - j) % 16);
    }
  }

  /** The part of `data_change_log` behind the header: three lengths, then the data they measure. */
  method FormatData(key: Key, before: Value, after: Value) returns (data: string)
    ensures data == DataBody(key, before, after)
  {
    hide Hex;
    var digits := new char[2];
    SizeToTwoDigits(|key|, digits);
    data := digits[..] + " ";
    SizeToTwoDigits(|before|, digits);
    data := data + digits[..] + " ";
    SizeToTwoDigits(|after|, digits);
    data := data + digits[..] + " ";
    assert data == Hex(|key|, 2) + " " + Hex(|before|, 2) + " " + Hex(|after|, 2) + " ";
    data := data + key + " ";
    data := data + before + " ";
    data := data + after + "\n";
  }

  /** The part of the line before the data, with room for the LSN. */
  method FormatHeader(prev: Lsn, tx: TxId, kind: string) returns (line: string)
    ensures line == Unnumbered(prev, tx, kind)
  {
    var hex := new char[8];
    line := "????????" + " ";
    Uint32ToHex(prev, hex);
    line := line + hex[..] + " " + "T";
    Uint32ToHex(tx, hex);
    line := line + hex[..] + " ";
    line := line + kind;
  }

  /** The link that only a CLR has. */
  method FormatLink(isClr: bool, undoNext: Lsn) returns (data: string)
    ensures data == if isClr then " " + Hex(undoNext, 8) + " " else " "
  {
    data := " ";
    if isClr {
      var hex := new char[8];
      Uint32ToHex(undoNext, hex);
      data := data + hex[..] + " ";
    }
  }

  /** `data_change_log`: fills the line from left to right, leaving room for the LSN, which is put in
      last, under the lock. */
  method FormatDataChange(prev: Lsn, tx: TxId, key: Key, before: Value, after: Value,
                          isClr: bool, undoNext: Lsn, newLsn: Lsn) returns (line: string)
    ensures line == Print(newLsn, if isClr then Clr(prev, tx, undoNext, key, before, after)
                                  else Update(prev, tx, key, before, after))
  {
    hide Hex, Header, DataBody, Unnumbered, Print;
    var hex := new char[8];
    var kind := if isClr then "CLR____" else "UPDATE_";
    line := FormatHeader(prev, tx, kind);
    var data := FormatLink(isClr, undoNext);
    var body := FormatData(key, before, after);
    data := data + body;
    Uint32ToHex(newLsn, hex);
    NumberLast(newLsn, prev, tx, kind, data);
    line := hex[..] + (line + data)[8..];
    ChangeLine(newLsn, prev, tx, key, before, after, isClr, undoNext);
  }

  /** Header, link and data make up the line. */
  lemma ChangeLine(l: Lsn, prev: Lsn, tx: TxId, key: Key, before: Value, after: Value, isClr: bool, undoNext: Lsn)
    ensures Header(l, prev, tx, if isClr then "CLR____" else "UPDATE_")
            + ((if isClr then " " + Hex(undoNext, 8) + " " else " ") + DataBody(key, before, after))
         == Print(l, if isClr then Clr(prev, tx, undoNext, key, before, after)
                     else Update(prev, tx, key, before, after))
  {
    hide Hex, Header, DataBody;
  }
}
