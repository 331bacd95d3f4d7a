/** The recovery that README.md describes: the analysis adds to the listed transactions those that began
    after the checkpoint, and rolls back all that are unfinished. */
module IntendedRecovery {
  import opened Table
  import opened LogRecord
  import opened LogProtocol
  import opened Coherence
  import opened RecoverySpec
  import opened RecoveryProof
  import opened RecoveryTheorems

  /** An entry for every BEGIN after position `c`. */
  function LateBegins(log: Log, c: nat): seq<Ongoing> {
    if |log| <= c then []
    else
      var r := log[|log| - 1];
      LateBegins(log[..|log| - 1], c) + if r.Begin? then [Ongoing(r.tx, |log|)] else []
  }

  lemma {:induction false} LateBeginsHas(log: Log, c: nat, e: Ongoing)
    ensures e in LateBegins(log, c)
       <==> c < e.last <= |log| && At(log, e.last).Begin? && At(log, e.last).tx == e.tx
    decreases |log|
  {
    if |log| > c {
      LateBeginsHas(log[..|log| - 1], c, e);
    }
  }

  function ToAnalyse(log: Log, c: Lsn): seq<Ongoing> {
    Listed(log, c) + LateBegins(log, c)
  }

  function Intended(log: Log, c: Lsn): Outcome {
    RecoverAll(log, c, ToAnalyse(log, c))
  }

  /** A CHECK record of the present run with a clean and complete list. */
  ghost predicate GoodCheckpoint(b: nat, log: Log, c: Lsn) {
    && b < c <= |log| && ListOk(b, log, c, Listed(log, c))
    && forall t: TxId :: Live(b, log[..c], t) ==> t in Covered(b, log, c, Listed(log, c))
  }

  /** A checkpoint older than the present run: what was listed, or had begun after it, when this run began
      is finished. */
  ghost predicate OldCheckpoint(b: nat, log: Log, c: Lsn) {
    && c <= b <= |log| && ListOk(b, log, c, Listed(log, c))
    && forall e <- LateBegins(log, c) :: e.last <= b ==> Known(b, log, c, e)
  }

  ghost predicate CanStart(b: nat, log: Log, c: Lsn) {
    ValidLog(b, log) && (GoodCheckpoint(b, log, c) || OldCheckpoint(b, log, c))
  }

  lemma BeginIsKnown(b: nat, log: Log, c: Lsn, e: Ongoing)
    requires ValidLog(b, log) && e in LateBegins(log, c) && b < e.last
    ensures EntryOk(b, log, c, e)
  {
    LateBeginsHas(log, c, e);
    InfoAt(b, log, e.last - 1, e.tx);
  }

  lemma AllKnown(b: nat, log: Log, c: Lsn)
    requires CanStart(b, log, c)
    ensures ListOk(b, log, c, ToAnalyse(log, c))
  {
    forall e | e in ToAnalyse(log, c) ensures Known(b, log, c, e) {
      if e !in Listed(log, c) {
        LateBeginsHas(log, c, e);
        if e.last > b {
          BeginIsKnown(b, log, c, e);
        }
      }
    }
  }

  lemma AllCovered(b: nat, log: Log, c: Lsn, t: TxId)
    requires CanStart(b, log, c) && Live(b, log, t)
    ensures t in Covered(b, log, c, ToAnalyse(log, c))
  {
    LiveNotZero(b, log, t);
    var l := HasBegun(b, log, t);
    var e := Ongoing(t, l);
    if c < l {
      LateBeginsHas(log, c, e);
      BeginIsKnown(b, log, c, e);
      assert e in ToAnalyse(log, c);
    } else {
      LiveInBetween(b, log, c, t, l);
      var x :| x in Listed(log, c) && EntryOk(b, log, c, x) && x.tx == t;
      assert x in ToAnalyse(log, c);
    }
  }

  /** Recovery with the BEGINs after the checkpoint added to the list yields the committed table,
      without assuming that the CHECK record lists everybody. */
  lemma IntendedRecoveryIsExact(b: nat, log: Log, c: Lsn)
    requires CanStart(b, log, c)
    ensures Intended(log, c).ok && Replay(map[], Intended(log, c).log) == Committed(b, log)
  {
    AllKnown(b, log, c);
    forall t: TxId | Live(b, log, t) ensures t in Covered(b, log, c, ToAnalyse(log, c)) {
      AllCovered(b, log, c, t);
    }
    RecoveryIsExact(b, log, c, ToAnalyse(log, c));
  }

  // ---------- interruptions and further crashes ----------

  lemma {:induction false} NoNewBegins(log: Log, ext: Log, c: nat)
    requires c <= |log| && log <= ext && forall n | |log| <= n < |ext| :: !ext[n].Begin?
    ensures LateBegins(ext, c) == LateBegins(log, c)
    decreases |ext|
  {
    if |ext| > |log| {
      NoNewBegins(log, ext[..|ext| - 1], c);
    } else {
      assert ext == log;
    }
  }

  /** A log that recovery has extended, wholly or in part, asks for the same analysis. */
  lemma SameAnalysis(b: nat, log: Log, c: Lsn, mid: Log)
    requires CanStart(b, log, c) && Between(log, mid, Intended(log, c).log)
    ensures ToAnalyse(mid, c) == ToAnalyse(log, c)
  {
    AllKnown(b, log, c);
    CutShort(b, log, c, ToAnalyse(log, c), mid);
    NoNewBegins(log, mid, c);
  }

  /** Recovery cut short after any prefix of its records and started again rebuilds the same table. */
  lemma IntendedIsRestartable(b: nat, log: Log, c: Lsn, mid: Log)
    requires CanStart(b, log, c) && Between(log, mid, Intended(log, c).log)
    ensures Intended(mid, c).ok
    ensures Replay(map[], Intended(mid, c).log) == Replay(map[], Intended(log, c).log)
  {
    AllKnown(b, log, c);
    SameAnalysis(b, log, c, mid);
    RecoveryIsRestartable(b, log, c, ToAnalyse(log, c), mid);
  }

  /** What a crash leaves: the log, its length when the server last started, and the position of the
      published CHECK record. */
  datatype Crash = Crash(b: nat, log: Log, c: Lsn)

  /** Recovery leaves everything it has analysed finished, so the next run can start from the same
      checkpoint, or from a good one of its own. */
  lemma NextCanStart(x: Crash, y: Crash)
    requires CanStart(x.b, x.log, x.c) && y.b == |Intended(x.log, x.c).log|
    requires Intended(x.log, x.c).log <= y.log && ValidLog(y.b, y.log)
    requires y.c == x.c || GoodCheckpoint(y.b, y.log, y.c)
    ensures CanStart(y.b, y.log, y.c)
  {
    if y.c == x.c {
      var z, c := Intended(x.log, x.c).log, x.c;
      AllKnown(x.b, x.log, c);
      AllFinished(x.b, x.log, c, ToAnalyse(x.log, c));
      RecoverExtends(x.log, c, ToAnalyse(x.log, c));
      SameAnalysis(x.b, x.log, c, z);
      forall e | e in ToAnalyse(x.log, c) ensures Known(y.b, y.log, c, e) {
        FinishedIsKnown(x.b, x.log, y.b, y.log, z, c, e);
      }
      StillListed(z, y.log, c);
      assert OldCheckpoint(y.b, y.log, c);
    }
  }

  lemma FinishedIsKnown(b: nat, log: Log, b': nat, log': Log, z: Log, c: Lsn, e: Ongoing)
    requires Known(b, log, c, e) && log <= z <= log' && AnalyseEntry(z, c, e).finished
    ensures Known(b', log', c, e)
  {
    FinishedStays(z, log', ScanStart(c, e), e.tx, Analysis(e.last, false, false));
  }

  lemma StillListed(z: Log, ext: Log, c: Lsn)
    requires z <= ext && c <= |z|
    ensures Listed(ext, c) == Listed(z, c)
    ensures forall e <- LateBegins(ext, c) :: e.last <= |z| ==> e in LateBegins(z, c)
  {
    forall e | e in LateBegins(ext, c) && e.last <= |z| ensures e in LateBegins(z, c) {
      LateBeginsHas(ext, c, e);
      assert At(ext, e.last) == At(z, e.last);
      LateBeginsHas(z, c, e);
    }
  }

  /** Any number of runs, each ended by a crash and followed by a recovery. */
  ghost predicate Runs(crashes: seq<Crash>) {
    && crashes != [] && crashes[0].b == 0 && ValidLog(0, crashes[0].log)
    && (crashes[0].c == 0 || GoodCheckpoint(0, crashes[0].log, crashes[0].c))
    && forall i | 0 < i < |crashes| ::
         var x, y := crashes[i - 1], crashes[i];
         && y.b == |Intended(x.log, x.c).log| && Intended(x.log, x.c).log <= y.log && ValidLog(y.b, y.log)
         && (y.c == x.c || GoodCheckpoint(y.b, y.log, y.c))
  }

  lemma FirstCanStart(x: Crash)
    requires x.b == 0 && ValidLog(0, x.log) && (x.c == 0 || GoodCheckpoint(0, x.log, x.c))
    ensures CanStart(x.b, x.log, x.c)
  {
    if x.c == 0 {
      forall e | e in LateBegins(x.log, 0) ensures e.last > 0 {
        LateBeginsHas(x.log, 0, e);
      }
    }
  }

  lemma {:induction false} EveryRunCanStart(crashes: seq<Crash>, i: nat)
    requires Runs(crashes) && i < |crashes|
    ensures CanStart(crashes[i].b, crashes[i].log, crashes[i].c)
    decreases i
  {
    if i == 0 {
      FirstCanStart(crashes[0]);
    } else {
      EveryRunCanStart(crashes, i - 1);
      NextCanStart(crashes[i - 1], crashes[i]);
    }
  }

  /** Theorem: over any number of crashes and recoveries, even when no checkpoint is ever published, the
      recovered table is always the committed one; and the next run starts from it. */
  lemma IntendedRunsAreExact(crashes: seq<Crash>, i: nat)
    requires Runs(crashes) && i < |crashes|
    ensures var x := crashes[i];
            Intended(x.log, x.c).ok && Replay(map[], Intended(x.log, x.c).log) == Committed(x.b, x.log)
    ensures i > 0 ==>
              var x, y := crashes[i - 1], crashes[i];
              |y.log| >= y.b && Committed(y.b, y.log[..y.b]) == Committed(x.b, x.log)
  {
    EveryRunCanStart(crashes, i);
    IntendedRecoveryIsExact(crashes[i].b, crashes[i].log, crashes[i].c);
    if i > 0 {
      var x, y := crashes[i - 1], crashes[i];
      EveryRunCanStart(crashes, i - 1);
      IntendedRecoveryIsExact(x.b, x.log, x.c);
      assert y.log[..y.b] == Intended(x.log, x.c).log;
    }
  }
}
