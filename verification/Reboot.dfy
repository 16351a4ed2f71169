/** Crash and restart in bytes: what `Store.Open` finds on the disk that a dying process
    left behind. */
module Reboot {
  import opened LogLine
  import opened LineRoundTrip
  import opened LogFile
  import opened OpLog
  import opened Table
  import opened Instance
  import opened Recovery
  import opened OwnHits
  import opened Store

  /** The process dies while its queued lines are being written: of log and queue only the
      first `cut` bytes are in the file. A new process finds the rows of the first k
      operations, k being the number of newlines in the file; if all was written, the rows the
      dying one had in memory. */
  method AfterTornWrite(s: Store, cut: nat) returns (t: Store)
    requires s.Valid() && |s.log.file| <= cut <= |s.log.file + s.log.buf|
    ensures var disk := (s.log.file + s.log.buf)[..cut];
            CountNL(disk) <= |s.fileOps + s.bufOps| &&
            forall c :: RowIn(t.Idx(), c) == RowAt(s.snapOps + (s.fileOps + s.bufOps)[..CountNL(disk)], c)
    ensures Durable(s.View()) && cut == |s.log.file + s.log.buf| ==> forall c :: RowIn(t.Idx(), c) == RowIn(s.Idx(), c)
  {
    hide Store.Tails, CodeOK, Durable, Replay, RowAt, CountNL, PrintOps, Loggable;
    SoundLogs(s);
    var disk := (s.log.file + s.log.buf)[..cut];
    ghost var ops := s.fileOps + s.bufOps;
    LinesAppend(s.fileOps, s.bufOps);
    ghost var k, torn := TornAt(ops, disk);
    t := new Store.Open(s.instance, s.snap, disk, s.snapOps, ops[..k], torn);
    RowsOfOpen(t, s.snapOps + ops[..k]);
    if cut == |s.log.file + s.log.buf| {
      NothingTorn(ops, disk);
      WholeView(s, ops[..k]);
    }
  }

  lemma SoundLogs(s: Store)
    requires s.Valid()
    ensures AllLoggable(s.snapOps) && AllLoggable(s.fileOps + s.bufOps) && s.snap == PrintOps(s.snapOps)
    ensures s.log.file == PrintOps(s.fileOps) && s.log.buf == PrintOps(s.bufOps)
  {
    hide Store.Tails, CodeOK, PrintOps;
  }

  lemma NothingTorn(ops: seq<LogOp>, disk: string)
    requires AllLoggable(ops) && disk == PrintOps(ops)
    ensures CountNL(disk) == |ops| && ops[..|ops|] == ops
  {
    LinesClean(ops);
    CountPrint(Lines(ops));
  }

  lemma WholeView(s: Store, ops: seq<LogOp>)
    requires ops == s.fileOps + s.bufOps
    ensures Durable(s.View()) ==> forall c :: RowAt(s.snapOps + ops, c) == RowIn(s.Idx(), c)
  {
    assert s.snapOps + ops == s.View().Log();
  }

  /** A cut log is its whole lines and a torn one. */
  lemma TornAt(ops: seq<LogOp>, disk: string) returns (k: nat, torn: string)
    requires AllLoggable(ops) && disk <= PrintOps(ops)
    ensures k == CountNL(disk) <= |ops| && disk == PrintOps(ops[..k]) + torn && NL !in torn
  {
    LinesClean(ops);
    k, torn := CutPrint(Lines(ops), disk);
    assert Lines(ops)[..k] == Lines(ops[..k]);
  }

  /** A cut past the first line. */
  lemma CutHead(line: string, rest: string, disk: string) returns (tail: string)
    requires NL !in line && disk <= line + [NL] + rest && |disk| > |line|
    ensures tail <= rest && disk == line + [NL] + tail && CountNL(disk) == 1 + CountNL(tail)
  {
    var head := line + [NL];
    assert disk[..|head|] == (head + rest)[..|head|] == head;
    tail := disk[|head|..];
    assert disk == line + ([NL] + tail) && ([NL] + tail)[1..] == tail;
    CountPlain(line, [NL] + tail);
  }

  lemma {:induction false} CutPrint(lines: seq<string>, disk: string) returns (k: nat, torn: string)
    requires Clean(lines) && disk <= Print(lines)
    ensures k == CountNL(disk) <= |lines| && disk == Print(lines[..k]) + torn && NL !in torn
    decreases |lines|
  {
    hide CountNL;
    if lines == [] || |disk| <= |lines[0]| {
      CutInFirst(lines, disk);
      k, torn := 0, disk;
    } else {
      var tail := CutHead(lines[0], Print(lines[1..]), disk);
      var m;
      m, torn := CutPrint(lines[1..], tail);
      k := m + 1;
      assert lines[..k][1..] == lines[1..][..m];
    }
  }

  lemma CutInFirst(lines: seq<string>, disk: string)
    requires Clean(lines) && disk <= Print(lines) && (lines == [] || |disk| <= |lines[0]|)
    ensures CountNL(disk) == 0 && disk == Print(lines[..0]) + disk && NL !in disk
  {
    assert lines != [] ==> disk == lines[0][..|disk|];
    CountPlain(disk, "");
    assert disk + "" == disk && lines[..0] == [];
  }

  lemma RowsOfOpen(t: Store, ops: seq<LogOp>)
    requires AllLoggable(ops)
    requires exists victims: seq<string> :: |victims| == |ops| && t.Idx() == Replay(t.instance, EMPTY, ops, victims)
    ensures forall c :: RowIn(t.Idx(), c) == RowAt(ops, c)
  {
    var victims: seq<string> :| |victims| == |ops| && t.Idx() == Replay(t.instance, EMPTY, ops, victims);
    forall c ensures RowIn(t.Idx(), c) == RowAt(ops, c) {
      RecoveredRows(t.instance, ops, victims, c);
    }
  }

  /** A compaction of `n` is cut short after its j-th step on the disk, which then holds
      `snap` and `log`; a new process finds the rows that were in memory. */
  method AfterCompactCrash(me: Id, snap: string, log: string, ghost n: Node,
                           ghost order: seq<string>, ghost rows: seq<string>, ghost j: nat) returns (t: Store)
    requires Durable(n) && n.me == me && j < 3
    requires Lists(order, n.dirty.Keys) && Lists(rows, OwnCodes(n))
    requires PrintOps(DiskStages(n, order, rows)[j].snap) == snap
    requires PrintOps(DiskStages(n, order, rows)[j].file) == log
    ensures t.Valid() && forall c :: RowIn(t.Idx(), c) == RowIn(n.idx, c)
  {
    ghost var d := DiskStages(n, order, rows)[j];
    StagesLoggable(n, order, rows, j);
    assert log + "" == log;
    t := new Store.Open(me, snap, log, d.snap, d.file, "");
    ghost var victims: seq<string> :| |victims| == |d.snap + d.file| &&
      t.Idx() == Replay(me, EMPTY, d.snap + d.file, victims);
    forall c ensures RowIn(t.Idx(), c) == RowIn(n.idx, c) {
      CompactCrashRows(n, order, rows, j, victims, c);
    }
  }

  lemma StagesLoggable(n: Node, order: seq<string>, rows: seq<string>, j: nat)
    requires Durable(n) && j < 3 && Lists(order, n.dirty.Keys) && Lists(rows, OwnCodes(n))
    ensures AllLoggable(DiskStages(n, order, rows)[j].snap) && AllLoggable(DiskStages(n, order, rows)[j].file)
  {
    hide Loggable, RowAt, Settles;
    var f, snap := Flushed(n, order), SnapOps(n.idx.data, rows);
    FlushDurable(n, order);
    SnapCovers(n, rows, "");
    OwnLoggable(n.me, f.Log());
    OwnLoggable(n.me, snap);
    assert forall i :: 0 <= i < |n.snap| ==> n.snap[i] == f.Log()[i];
    assert forall i :: 0 <= i < |f.file| ==> f.file[i] == f.Log()[|n.snap| + i];
  }
}
