/** The files of a checkpoint: a snapshot for each CHECK record, named by its LSN, and the last-LSN file that
    names the one to start from. */
module SnapshotFiles {
  import opened Table
  import opened LogRecord
  import opened Utils
  import opened LogCodec
  import opened Snapshot

  const SNAPSHOT_DIR: string := "snapshots"

  function FileNameOf(hex: string): string {
    SNAPSHOT_DIR + "/snapshot_" + hex + ".kvdb"
  }

  /** The snapshot file of the CHECK record at `c`. */
  function FileName(c: Lsn): string {
    FileNameOf(Hex(c, 8))
  }

  /** The last-LSN file that names the CHECK record at `c`. */
  function LastText(c: Lsn): string {
    Hex(c, 8) + "\n"
  }

  lemma NameExample()
    ensures FileName(1) == "snapshots/snapshot_" + "00000001" + ".kvdb" && LastText(1) == "00000001" + "\n"
  {
    hide Hex;
    SmallNumbers();
    assert SNAPSHOT_DIR + "/snapshot_" == "snapshots/snapshot_";
  }

  /** Different CHECK records have different snapshot files. */
  lemma NamesDiffer(c: Lsn, d: Lsn)
    requires Word(c) && Word(d) && FileName(c) == FileName(d)
    ensures c == d
  {
    var p, q := Hex(c, 8), Hex(d, 8);
    var dir := SNAPSHOT_DIR + "/snapshot_";
    assert FileName(c)[|dir|..|dir| + 8] == p && FileName(d)[|dir|..|dir| + 8] == q;
    Uint32RoundTrip(c);
    Uint32RoundTrip(d);
  }

  /** Every snapshot is in its file. */
  ghost predicate Saved(snapshots: map<Lsn, Table>, files: map<string, string>) {
    forall c <- snapshots :: Word(c) && FileName(c) in files && SnapshotOf(files[FileName(c)], snapshots[c])
  }

  lemma SavedMore(snapshots: map<Lsn, Table>, files: map<string, string>, c: Lsn, t: Table, text: string)
    requires Saved(snapshots, files) && Word(c) && SnapshotOf(text, t)
    ensures Saved(snapshots[c := t], files[FileName(c) := text])
  {
    forall d | d in snapshots && d != c ensures FileName(d) != FileName(c) {
      if FileName(d) == FileName(c) {
        NamesDiffer(d, c);
      }
    }
    hide SnapshotOf, FileName;
  }

  /** What a start finds of the checkpoint at `c` (0: of none) when its snapshot was taken of `base`. */
  ghost predicate LeftBehind(lastLsn: Option<string>, files: map<string, string>, c: Lsn, base: Table) {
    if c == 0 then lastLsn == None && base == map[]
    else Word(c) && lastLsn == Some(LastText(c)) && FileName(c) in files && SnapshotOf(files[FileName(c)], base)
  }

  class SnapshotDisk {
    var lastLsn: Option<string>
    var files: map<string, string>

    constructor ()
      ensures lastLsn == None && files == map[]
    {
      lastLsn, files := None, map[];
    }

    /** The first part of what the forked child does: the snapshot file, created or overwritten. */
    method Save(checkLsn: Lsn, snapshot: string)
      modifies this
      ensures files == old(files)[FileName(checkLsn) := snapshot] && lastLsn == old(lastLsn)
    {
      var hex := new char[8];
      Uint32ToHex(checkLsn, hex);
      files := files[FileNameOf(hex[..]) := snapshot];
    }

    /** The second part: the last-LSN file, created empty if it is not there, then written from its start
        without being cut. */
    method Publish(checkLsn: Lsn)
      modifies this
      ensures files == old(files)
      ensures lastLsn == Some(LastText(checkLsn)
                              + if old(lastLsn).Some? && |old(lastLsn).value| > 9 then old(lastLsn).value[9..] else "")
    {
      if lastLsn.None? {
        lastLsn := Some("");
      }
      var hex := new char[8];
      Uint32ToHex(checkLsn, hex);
      var line := hex[..] + "\n";
      lastLsn := Some(line + if |lastLsn.value| > |line| then lastLsn.value[|line|..] else "");
    }

    /** The start of `kv_recovery_recover`: the LSN in the file, -1 without one or with a shorter one. */
    method LsnToRecover() returns (c: int)
      ensures if lastLsn.None? || |lastLsn.value| < 8 then c == -1 else c == HexVal(lastLsn.value[..8])
    {
      if lastLsn.None? || |lastLsn.value| < 8 {
        return -1;
      }
      c := HexToUint32(lastLsn.value[..8]);
    }

    /** The start of `kv_recovery_redo`: the hexadecimal LSN in the file, zeros without one. An empty file,
        which a child that was killed at once leaves behind, makes the program exit: `None`. */
    method HexToRedo() returns (hex: Option<string>)
      requires lastLsn.Some? && lastLsn.value != "" ==> |lastLsn.value| >= 8 && '\n' !in lastLsn.value[..8]
      ensures lastLsn.None? ==> hex == Some("00000000")
      ensures lastLsn == Some("") ==> hex == None
      ensures lastLsn.Some? && lastLsn.value != "" ==> hex == Some(lastLsn.value[..8])
    {
      if lastLsn.None? {
        return Some("00000000");
      }
      if |lastLsn.value| == 0 {
        return None;
      }
      hex := Some(lastLsn.value[..8]);
    }

    method Open(hex: string) returns (snapshot: Option<string>)
      ensures snapshot == if FileNameOf(hex) in files then Some(files[FileNameOf(hex)]) else None
    {
      snapshot := if FileNameOf(hex) in files then Some(files[FileNameOf(hex)]) else None;
    }
  }

  /** Theorem: what was published is read back, by recovery and by redo. */
  lemma PublishedIsRead(c: Lsn)
    requires Word(c)
    ensures |LastText(c)| == 9 && LastText(c)[..8] == Hex(c, 8) && HexVal(LastText(c)[..8]) == c
    ensures '\n' !in LastText(c)[..8]
  {
    assert LastText(c)[..8] == Hex(c, 8);
    Uint32RoundTrip(c);
  }

  lemma ZerosAreZero()
    ensures HexVal("00000000") == 0
  {
    assert Hex(0, 8) == "00000000" by { HexZeros(8); }
    Uint32RoundTrip(0);
  }
}
