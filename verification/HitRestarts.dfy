/** Hit counters across N instances when instances crash and restart: what a replay of the own
    log counts, and what else every step keeps so that a restart finds it. */
module HitRestarts {
  import opened Ints
  import opened LogLine
  import opened LineRoundTrip
  import opened OpLog
  import opened Table
  import opened Instance
  import opened Cluster
  import opened HitSteps

  // ---------- what a replay counts ----------

  lemma {:induction false} TallyDeltas(ops: seq<LogOp>, c: string)
    ensures Get(Tally(ops), c) == Deltas(ops, c)
    decreases |ops|
  {
    if ops != [] {
      TallyDeltas(ops[..|ops| - 1], c);
    }
  }

  lemma GrowthPrefix(ops: seq<LogOp>, r: nat)
    requires Growth(ops) && r <= |ops|
    ensures Growth(ops[..r])
  {}

  /** In a growing log a row line finds its code absent. */
  lemma FreshRow(me: nat, ops: seq<LogOp>, victims: seq<string>, k: nat)
    requires Growth(ops) && AllLoggable(ops) && |victims| == k < |ops| && ops[k].Row?
    ensures ops[k].c !in Replay(me, EMPTY, ops[..k], victims).data
  {
    hide Replay;
    RecoveredRows(me, ops[..k], victims, ops[k].c);
    if RowAt(ops[..k], ops[k].c).Some? {
      RowLogged(ops[..k], ops[k].c);
    }
  }

  lemma LostStep(me: nat, ops: seq<LogOp>, victims: seq<string>, c: string)
    requires |victims| == |ops| && ops != []
    ensures var k := |ops| - 1;
            Get(LostIn(me, ops, victims), c) ==
            Get(LostIn(me, ops[..k], victims[..k]), c) +
            Loss(Replay(me, EMPTY, ops[..k], victims[..k]), ops[k], victims[k], c)
  {
    hide Replay;
  }

  lemma StrayStep(me: nat, s: Index, o: LogOp, v: string, c: string)
    requires o.c != "" && (c in s.stray ==> c !in s.data)
    ensures var s' := ApplyLog(me, s, o, v);
            (c in s'.stray ==> c !in s'.data) && (c in s'.stray ==> c in s.stray || (o.Hit? && o.c == c))
  {
    hide ApplyLog;
    ApplyStray(me, s, o, v, c);
    ApplyRowIn(me, s, o, v, c);
  }

  /** A replay of a log that only grows counts the deltas of every code, less what it evicts. */
  lemma {:induction false} ReplayHits(me: nat, ops: seq<LogOp>, victims: seq<string>, c: string)
    requires Growth(ops) && AllLoggable(ops) && |victims| == |ops|
    ensures var s := Replay(me, EMPTY, ops, victims);
            (c in s.stray ==> c !in s.data) &&
            HitsIn(s, c) == Wrap(Deltas(ops, c) - Get(LostIn(me, ops, victims), c)) &&
            (NoHits(ops, c) ==> c !in s.stray && Get(LostIn(me, ops, victims), c) == 0)
    decreases |ops|
  {
    hide ApplyLog, Growth, Wrap, HitsIn;
    if ops == [] {
      NothingHit(c);
    } else {
      var k := |ops| - 1;
      var o, s := ops[k], Replay(me, EMPTY, ops[..k], victims[..k]);
      GrowthPrefix(ops, k);
      ReplayHits(me, ops[..k], victims[..k], c);
      assert Loggable(o);
      GrowthLine(ops, k);
      if o.Row? {
        FreshRow(me, ops, victims[..k], k);
      }
      AppliedHits(me, s, o, victims[k], c);
      StrayStep(me, s, o, victims[k], c);
      LostStep(me, ops, victims, c);
      WrapAdd(Deltas(ops[..k], c) - Get(LostIn(me, ops[..k], victims[..k]), c), Gain(o, c) - Loss(s, o, victims[k], c));
    }
  }

  lemma GrowthLine(ops: seq<LogOp>, k: nat)
    requires Growth(ops) && k < |ops|
    ensures !ops[k].Del? && (ops[k].Row? ==> ops[k].n == 0)
  {}

  lemma NothingHit(c: string)
    ensures HitsIn(EMPTY, c) == 0 && Wrap(0) == 0
  {}

  // ---------- what a restart needs ----------

  /** The row of `c` is in the file of its owner. */
  ghost predicate Filed(home: Homes, cl: Cluster, c: string) {
    0 <= home(c) < |cl.nodes| && RowAt(cl.nodes[home(c)].file, c).Some?
  }

  /** Instances away from the owner know of hits only of codes whose row is in the file. */
  ghost predicate Known(home: Homes, cl: Cluster, au: Audit, j: nat, c: string)
    requires j < |cl.nodes| && j < |au.lost|
  {
    j != home(c) && !Quiet(cl, au, j, c) ==> Filed(home, cl, c)
  }

  /** A log has the row of `c` before any hit of it. */
  ghost predicate RowFirst(ops: seq<LogOp>, c: string) {
    forall p :: 0 <= p < |ops| && ops[p].Hit? && ops[p].c == c ==> RowAt(ops[..p], c).Some?
  }

  ghost predicate CrashInv(home: Homes, cl: Cluster, au: Audit) {
    HitInv(home, cl, au) &&
    (forall j, c :: 0 <= j < |cl.nodes| ==> Known(home, cl, au, j, c)) &&
    forall j, c :: 0 <= j < |cl.nodes| && home(c) == j ==> RowFirst(LogOf(cl, j), c)
  }

  // ---------- steps without a crash keep it ----------

  lemma FiledStays(home: Homes, cl: Cluster, au: Audit, st: Step, c: string)
    requires HitInv(home, cl, au) && Enabled(home, cl, st) && Logging(st) && Filed(home, cl, c)
    ensures Filed(home, After(home, cl, st), c)
  {
    hide NodeAfter, HitSum, OwnSum, Quiet, RowsConverge;
    ShapeOf(home, cl, au);
    var j, cl' := home(c), After(home, cl, st);
    FileGrows(home, cl, st, j);
    GrowthKept(home, cl, au, st, j);
    FileStays(cl', cl.nodes[j].file, j, c);
  }

  lemma ShapeOf(home: Homes, cl: Cluster, au: Audit)
    requires HitInv(home, cl, au)
    ensures Shaped(cl) && Sized(cl, au)
  {}

  lemma FileStays(cl: Cluster, past: seq<LogOp>, j: nat, c: string)
    requires j < |cl.nodes| && Growth(LogOf(cl, j)) && past <= cl.nodes[j].file && RowAt(past, c).Some?
    ensures RowAt(cl.nodes[j].file, c).Some?
  {
    hide Growth;
    var file := cl.nodes[j].file;
    GrowthPrefix(LogOf(cl, j), |file|);
    assert LogOf(cl, j)[..|file|] == file;
    assert file[..|past|] == past;
    RowStays(file, |past|, c);
  }

  /** A row that instance k holds, of another's code, is in that one's file. */
  lemma HeldFiled(home: Homes, cl: Cluster, au: Audit, k: nat, c: string)
    requires HitInv(home, cl, au) && k < |cl.nodes| && c in cl.nodes[k].idx.data && home(c) != k
    ensures Filed(home, cl, c)
  {
    hide HitSum, OwnSum, Quiet;
    assert Proper1(home, cl, k) && RowKnown(home, cl, k, c);
    var j := home(c);
    var r := cl.read[k][j];
    assert Growth(LogOf(cl, j));
    FileStays(cl, cl.nodes[j].file[..r], j, c);
  }

  /** The row of a code whose hit is in the file of any instance is in the owner's file. */
  lemma HitFiled(home: Homes, cl: Cluster, au: Audit, i: nat, r: nat, c: string)
    requires CrashInv(home, cl, au) && i < |cl.nodes| && r < |cl.nodes[i].file|
    requires cl.nodes[i].file[r].Hit? && cl.nodes[i].file[r].c == c
    ensures Filed(home, cl, c)
  {
    hide HitSum, OwnSum, RowsConverge, Growth;
    var all := LogOf(cl, i);
    assert all[r] == cl.nodes[i].file[r];
    if i == home(c) {
      assert RowFirst(all, c) && all[..r] == cl.nodes[i].file[..r];
      assert Growth(all);
      FileStays(cl, all[..r], i, c);
    } else {
      assert Known(home, cl, au, i, c);
      assert !NoHits(all, c);
    }
  }

  /** Only a counted resolve or a hit line that is read makes an instance know of hits. */
  lemma QuietUnless(home: Homes, cl: Cluster, au: Audit, st: Step, j: nat, c: string)
    requires HitInv(home, cl, au) && Enabled(home, cl, st) && Logging(st) && j < |cl.nodes| && Quiet(cl, au, j, c)
    requires j == st.k && st.Visit? && st.code == c ==> !Live(cl.nodes[j], c, st.now)
    requires j == st.k && st.Tail? ==> !(Next(cl, j, st.j).Hit? && Next(cl, j, st.j).c == c)
    ensures Quiet(After(home, cl, st), AuditAfter(home, cl, st, au), j, c)
  {
    hide Growth, HitSum, OwnSum, RowKnown, Proper1, Live;
    LogAfter(home, cl, st, j);
    if j == st.k && st.Tail? {
      NextProper(home, cl, j, st.j);
      ApplyStray(cl.nodes[j].me, cl.nodes[j].idx, Next(cl, j, st.j), st.victim, c);
    }
  }

  lemma KnownKept(home: Homes, cl: Cluster, au: Audit, st: Step, j: nat, c: string)
    requires CrashInv(home, cl, au) && Enabled(home, cl, st) && Logging(st) && j < |cl.nodes|
    ensures j < |AuditAfter(home, cl, st, au).lost| && j < |After(home, cl, st).nodes|
    ensures Known(home, After(home, cl, st), AuditAfter(home, cl, st, au), j, c)
  {
    hide HitInv, Quiet, RowFirst, NodeAfter, Evicts, Live;
    ShapeOf(home, cl, au);
    assert Known(home, cl, au, j, c);
    if j != home(c) {
      if !Quiet(cl, au, j, c) {
        FiledStays(home, cl, au, st, c);
      } else if j == st.k && st.Visit? && st.code == c && Live(cl.nodes[j], c, st.now) {
        LiveHeld(cl.nodes[j], c, st.now);
        HeldFiled(home, cl, au, j, c);
        FiledStays(home, cl, au, st, c);
      } else if j == st.k && st.Tail? && Next(cl, j, st.j).Hit? && Next(cl, j, st.j).c == c {
        HitFiled(home, cl, au, st.j, cl.read[j][st.j], c);
        FiledStays(home, cl, au, st, c);
      } else {
        QuietUnless(home, cl, au, st, j, c);
      }
    }
  }

  lemma LiveHeld(n: Node, c: string, now: int64)
    requires Live(n, c, now)
    ensures c in n.idx.data
  {}

  lemma RowFirstKept(home: Homes, cl: Cluster, au: Audit, st: Step, j: nat, c: string)
    requires CrashInv(home, cl, au) && Enabled(home, cl, st) && Logging(st) && j < |cl.nodes| && home(c) == j
    ensures j < |After(home, cl, st).nodes| && RowFirst(LogOf(After(home, cl, st), j), c)
  {
    hide HitSum, OwnSum, RowsConverge, Growth, NodeAfter, Known;
    ShapeOf(home, cl, au);
    LogAfter(home, cl, st, j);
    assert RowFirst(LogOf(cl, j), c);
    if j == st.k {
      var ops, more := LogOf(cl, j), Appended(home, cl, st);
      GrowthKept(home, cl, au, st, j);
      forall p | 0 <= p < |more| && more[p].Hit? && more[p].c == c ensures RowAt(ops, c).Some? {
        assert c in cl.nodes[j].dirty;
        assert !Quiet(cl, au, j, c);
      }
      RowFirstMore(ops, more, c);
    }
  }

  lemma RowFirstMore(ops: seq<LogOp>, more: seq<LogOp>, c: string)
    requires RowFirst(ops, c) && Growth(ops + more)
    requires forall p :: 0 <= p < |more| && more[p].Hit? && more[p].c == c ==> RowAt(ops, c).Some?
    ensures RowFirst(ops + more, c)
  {
    hide Growth;
    var all := ops + more;
    forall p | 0 <= p < |all| && all[p].Hit? && all[p].c == c ensures RowAt(all[..p], c).Some? {
      if p < |ops| {
        assert all[..p] == ops[..p];
      } else {
        assert more[p - |ops|] == all[p];
        GrowthPrefix(all, p);
        assert all[..p][..|ops|] == ops;
        RowStays(all[..p], |ops|, c);
      }
    }
  }

  lemma StepKeepsCrashInv(home: Homes, cl: Cluster, au: Audit, st: Step)
    requires CrashInv(home, cl, au) && Enabled(home, cl, st) && Logging(st)
    ensures CrashInv(home, After(home, cl, st), AuditAfter(home, cl, st, au))
  {
    hide HitInv, Known, RowFirst, NodeAfter, AuditAfter;
    ShapeOf(home, cl, au);
    StepCounts(home, cl, au, st);
    ShapeOf(home, After(home, cl, st), AuditAfter(home, cl, st, au));
    var cl', au' := After(home, cl, st), AuditAfter(home, cl, st, au);
    forall j, c | 0 <= j < |cl'.nodes| ensures Known(home, cl', au', j, c) {
      KnownKept(home, cl, au, st, j, c);
    }
    forall j, c | 0 <= j < |cl'.nodes| && home(c) == j ensures RowFirst(LogOf(cl', j), c) {
      RowFirstKept(home, cl, au, st, j, c);
    }
  }

  // ---------- a restart keeps it ----------

  /** What is left of the log of the instance that crashed. */
  function Left(cl: Cluster, st: Step): (ops: seq<LogOp>)
    requires st.Restart? && st.k < |cl.nodes| && st.kept <= |cl.nodes[st.k].buf|
  {
    cl.nodes[st.k].file + cl.nodes[st.k].buf[..st.kept]
  }

  /** The node that comes back, and what it leaves of the others. */
  lemma Restarted(home: Homes, cl: Cluster, au: Audit, st: Step)
    requires HitInv(home, cl, au) && Enabled(home, cl, st) && st.Restart?
    ensures Shaped(cl) && Sized(cl, au) && st.k < |cl.nodes| && st.kept <= |cl.nodes[st.k].buf|
    ensures |Left(cl, st)| == |st.victims| && |cl.read| == |cl.nodes|
    ensures var n', ops := After(home, cl, st).nodes[st.k], Left(cl, st);
            n'.idx == Replay(cl.nodes[st.k].me, EMPTY, ops, st.victims) && n'.file == ops && n'.buf == [] &&
              n'.dirty == map[]
    ensures After(home, cl, st).nodes == cl.nodes[st.k := After(home, cl, st).nodes[st.k]]
    ensures After(home, cl, st).read == cl.read[st.k := Zeros(|cl.nodes|)]
    ensures AuditAfter(home, cl, st, au) ==
            Audit(au.counted[st.k := Tally(Left(cl, st))],
                  au.lost[st.k := LostIn(cl.nodes[st.k].me, Left(cl, st), st.victims)])
  {
    hide Growth, HitSum, OwnSum, Quiet, Replay;
    ShapeOf(home, cl, au);
    assert cl.nodes[st.k].snap == [];
    assert [] + Left(cl, st) == Left(cl, st);
  }

  /** It is a prefix of the log there was. */
  lemma LeftIs(home: Homes, cl: Cluster, au: Audit, st: Step)
    requires HitInv(home, cl, au) && Enabled(home, cl, st) && st.Restart?
    ensures Shaped(cl) && st.k < |cl.nodes| && st.kept <= |cl.nodes[st.k].buf|
    ensures |Left(cl, st)| <= |LogOf(cl, st.k)| && Left(cl, st) == LogOf(cl, st.k)[..|Left(cl, st)|]
    ensures Growth(Left(cl, st)) && AllLoggable(Left(cl, st)) && cl.nodes[st.k].file <= Left(cl, st)
  {
    hide HitSum, OwnSum, Quiet, RowsConverge, RowKnown, Growth;
    ShapeOf(home, cl, au);
    var all, ops := LogOf(cl, st.k), Left(cl, st);
    assert Growth(all);
    assert ops == all[..|ops|];
    GrowthPrefix(all, |ops|);
    LoggableLeft(home, cl, au, st);
  }

  lemma LoggableLeft(home: Homes, cl: Cluster, au: Audit, st: Step)
    requires HitInv(home, cl, au) && Enabled(home, cl, st) && st.Restart? && Shaped(cl)
    ensures AllLoggable(Left(cl, st))
  {
    hide HitSum, OwnSum, Quiet, RowKnown, Growth;
    RestartLog(home, cl, st.k, st.kept, Left(cl, st));
  }

  lemma LeftRowFirst(home: Homes, cl: Cluster, au: Audit, st: Step, c: string)
    requires CrashInv(home, cl, au) && Enabled(home, cl, st) && st.Restart?
    ensures Shaped(cl) && st.k < |cl.nodes| && st.kept <= |cl.nodes[st.k].buf|
    ensures home(c) == st.k ==> RowFirst(Left(cl, st), c)
  {
    hide HitInv, Known;
    LeftIs(home, cl, au, st);
    var all, ops := LogOf(cl, st.k), Left(cl, st);
    if home(c) == st.k {
      assert RowFirst(all, c);
      forall p | 0 <= p < |ops| && ops[p].Hit? && ops[p].c == c ensures RowAt(ops[..p], c).Some? {
        assert all[p] == ops[p] && all[..p] == ops[..p];
      }
    }
  }

  /** The logs after a restart. */
  lemma LogsAfter(home: Homes, cl: Cluster, au: Audit, st: Step, j: nat)
    requires HitInv(home, cl, au) && Enabled(home, cl, st) && st.Restart? && j < |cl.nodes|
    ensures Shaped(cl) && st.kept <= |cl.nodes[st.k].buf|
    ensures j < |After(home, cl, st).nodes|
    ensures LogOf(After(home, cl, st), j) == if j == st.k then Left(cl, st) else LogOf(cl, j)
  {
    hide HitInv, After, AuditAfter, Left, Enabled;
    Restarted(home, cl, au, st);
    var cl' := After(home, cl, st);
    assert j == st.k ==> cl'.nodes[j].file + [] == cl'.nodes[j].file;
  }

  /** What the instance that came back knows of hits it has from its own log. */
  lemma BackQuiet(home: Homes, cl: Cluster, au: Audit, st: Step, c: string)
    requires HitInv(home, cl, au) && Enabled(home, cl, st) && st.Restart?
    requires Shaped(cl) && st.k < |cl.nodes| && st.kept <= |cl.nodes[st.k].buf| && NoHits(Left(cl, st), c)
    ensures st.k < |After(home, cl, st).nodes| && st.k < |AuditAfter(home, cl, st, au).lost|
    ensures Quiet(After(home, cl, st), AuditAfter(home, cl, st, au), st.k, c)
  {
    hide HitInv, After, AuditAfter, Left, Enabled, Replay, NoHits;
    Restarted(home, cl, au, st);
    LeftIs(home, cl, au, st);
    LogsAfter(home, cl, au, st, st.k);
    ReplayHits(cl.nodes[st.k].me, Left(cl, st), st.victims, c);
  }

  lemma OthersQuiet(home: Homes, cl: Cluster, au: Audit, st: Step, j: nat, c: string)
    requires HitInv(home, cl, au) && Enabled(home, cl, st) && st.Restart? && j < |cl.nodes| && j != st.k
    ensures Sized(cl, au) && j < |After(home, cl, st).nodes| && j < |AuditAfter(home, cl, st, au).lost|
    ensures Quiet(After(home, cl, st), AuditAfter(home, cl, st, au), j, c) == Quiet(cl, au, j, c)
  {
    hide HitInv, After, AuditAfter, Left, Enabled, NoHits;
    Restarted(home, cl, au, st);
    LogsAfter(home, cl, au, st, j);
  }

  lemma FiledLeft(home: Homes, cl: Cluster, au: Audit, st: Step, c: string)
    requires HitInv(home, cl, au) && Enabled(home, cl, st) && st.Restart? && Filed(home, cl, c)
    ensures Filed(home, After(home, cl, st), c) && Born(home, After(home, cl, st), c)
  {
    hide HitInv, After, AuditAfter, Left, Enabled, Growth;
    Restarted(home, cl, au, st);
    LeftIs(home, cl, au, st);
    var j, cl' := home(c), After(home, cl, st);
    LogsAfter(home, cl, au, st, j);
    if j == st.k {
      FileStays(cl', cl.nodes[j].file, j, c);
      assert cl'.nodes[j].file == LogOf(cl', j);
    } else {
      FileInLog(home, cl, au, c);
    }
  }

  lemma FileInLog(home: Homes, cl: Cluster, au: Audit, c: string)
    requires HitInv(home, cl, au) && Filed(home, cl, c)
    ensures Born(home, cl, c)
  {
    hide HitSum, OwnSum, Quiet, RowsConverge, Growth;
    var j := home(c);
    var file := cl.nodes[j].file;
    assert Growth(LogOf(cl, j)) && LogOf(cl, j)[..|file|] == file;
    RowStays(LogOf(cl, j), |file|, c);
  }

  lemma NoHitsLeft(home: Homes, cl: Cluster, au: Audit, st: Step, c: string)
    requires CrashInv(home, cl, au) && Enabled(home, cl, st) && st.Restart? && !Born(home, After(home, cl, st), c)
    ensures Shaped(cl) && st.k < |cl.nodes| && st.kept <= |cl.nodes[st.k].buf| && NoHits(Left(cl, st), c)
  {
    hide HitInv, After, Left, Enabled, Growth, Quiet, Known;
    ShapeOf(home, cl, au);
    Restarted(home, cl, au, st);
    LeftIs(home, cl, au, st);
    LeftRowFirst(home, cl, au, st, c);
    LogsAfter(home, cl, au, st, st.k);
    var ops := Left(cl, st);
    if home(c) == st.k {
      forall p | 0 <= p < |ops| ensures !(ops[p].Hit? && ops[p].c == c) {
        if ops[p].Hit? && ops[p].c == c {
          RowStays(ops, p, c);
        }
      }
    } else {
      UnbornBefore(home, cl, au, st, c);
      QuietLog(home, cl, au, st.k, c);
      assert forall p :: 0 <= p < |ops| ==> ops[p] == LogOf(cl, st.k)[p];
    }
  }

  lemma UnbornBefore(home: Homes, cl: Cluster, au: Audit, st: Step, c: string)
    requires HitInv(home, cl, au) && Enabled(home, cl, st) && st.Restart? && home(c) != st.k
    ensures Born(home, After(home, cl, st), c) == Born(home, cl, c)
  {
    hide HitInv, After, AuditAfter, Left, Enabled;
    Restarted(home, cl, au, st);
    if 0 <= home(c) < |cl.nodes| {
      LogsAfter(home, cl, au, st, home(c));
    }
  }

  lemma QuietLog(home: Homes, cl: Cluster, au: Audit, j: nat, c: string)
    requires HitInv(home, cl, au) && !Born(home, cl, c) && j < |cl.nodes|
    ensures NoHits(LogOf(cl, j), c) && Sized(cl, au) && Quiet(cl, au, j, c)
  {}

  lemma RestartQuiet(home: Homes, cl: Cluster, au: Audit, st: Step, j: nat, c: string)
    requires CrashInv(home, cl, au) && Enabled(home, cl, st) && st.Restart? && j < |cl.nodes|
    requires !Born(home, After(home, cl, st), c)
    ensures j < |After(home, cl, st).nodes| && j < |AuditAfter(home, cl, st, au).lost|
    ensures Quiet(After(home, cl, st), AuditAfter(home, cl, st, au), j, c)
  {
    hide HitInv, After, AuditAfter, Left, Enabled, Quiet, Born, RowFirst;
    ShapeOf(home, cl, au);
    if j == st.k {
      NoHitsLeft(home, cl, au, st, c);
      BackQuiet(home, cl, au, st, c);
    } else {
      OthersQuiet(home, cl, au, st, j, c);
      if home(c) == st.k {
        assert Known(home, cl, au, j, c);
        if Filed(home, cl, c) {
          FiledLeft(home, cl, au, st, c);
        }
      } else {
        UnbornBefore(home, cl, au, st, c);
        QuietLog(home, cl, au, j, c);
      }
    }
  }

  lemma RestartKnown(home: Homes, cl: Cluster, au: Audit, st: Step, j: nat, c: string)
    requires CrashInv(home, cl, au) && Enabled(home, cl, st) && st.Restart? && j < |cl.nodes|
    ensures j < |After(home, cl, st).nodes| && j < |AuditAfter(home, cl, st, au).lost|
    ensures Known(home, After(home, cl, st), AuditAfter(home, cl, st, au), j, c)
  {
    hide HitInv, After, AuditAfter, Left, Enabled, Filed, RowFirst, Quiet;
    ShapeOf(home, cl, au);
    Restarted(home, cl, au, st);
    assert Known(home, cl, au, j, c);
    if Filed(home, cl, c) {
      FiledLeft(home, cl, au, st, c);
    } else if j != home(c) {
      if j == st.k {
        LeftIs(home, cl, au, st);
        QuietNoHits(cl, au, j, c, Left(cl, st));
        BackQuiet(home, cl, au, st, c);
      } else {
        OthersQuiet(home, cl, au, st, j, c);
      }
    }
  }

  lemma QuietNoHits(cl: Cluster, au: Audit, j: nat, c: string, ops: seq<LogOp>)
    requires j < |cl.nodes| && j < |au.lost| && Quiet(cl, au, j, c) && ops <= LogOf(cl, j)
    ensures NoHits(ops, c)
  {}

  // ---------- the sums after a restart ----------

  lemma {:induction false} NothingRead(cl: Cluster, k: nat, c: string, m: nat)
    requires Shaped(cl) && k < |cl.nodes| && m <= |cl.nodes| && cl.read[k] == Zeros(|cl.nodes|)
    ensures SumSeen(cl, k, c, m) == if k < m then Deltas(LogOf(cl, k), c) else 0
    decreases m
  {
    hide Shaped, Deltas;
    if m > 0 {
      NothingRead(cl, k, c, m - 1);
      if m - 1 == k {
        assert Seen(cl, k, k) == LogOf(cl, k);
      } else {
        assert Seen(cl, k, m - 1) == [];
        NoDeltas(c);
      }
    }
  }

  lemma NoDeltas(c: string)
    ensures Deltas([], c) == 0
  {}

  lemma BackSums(home: Homes, cl: Cluster, au: Audit, st: Step, c: string)
    requires HitInv(home, cl, au) && Enabled(home, cl, st) && st.Restart? && Shaped(After(home, cl, st))
    ensures var cl', au' := After(home, cl, st), AuditAfter(home, cl, st, au);
            st.k < |cl'.nodes| && st.k < |au'.lost| && st.k < |au'.counted| &&
            HitSum(cl', au', st.k, c) && OwnSum(cl', au', st.k, c)
  {
    hide HitInv, After, AuditAfter, Left, Enabled, Shaped, Deltas, SumSeen, Replay;
    Restarted(home, cl, au, st);
    LeftIs(home, cl, au, st);
    LogsAfter(home, cl, au, st, st.k);
    NothingRead(After(home, cl, st), st.k, c, |cl.nodes|);
    ReplayHits(cl.nodes[st.k].me, Left(cl, st), st.victims, c);
    TallyDeltas(Left(cl, st), c);
  }

  lemma {:induction false} SameSum(cl: Cluster, cl': Cluster, k: nat, c: string, m: nat)
    requires Shaped(cl) && Shaped(cl') && |cl.nodes| == |cl'.nodes| && k < |cl.nodes| && m <= |cl.nodes|
    requires forall i :: 0 <= i < |cl.nodes| ==> Seen(cl', k, i) == Seen(cl, k, i)
    ensures SumSeen(cl', k, c, m) == SumSeen(cl, k, c, m)
    decreases m
  {
    hide Shaped, Deltas, Seen;
    if m > 0 {
      SameSum(cl, cl', k, c, m - 1);
    }
  }

  lemma OthersSums(home: Homes, cl: Cluster, au: Audit, st: Step, m: nat, c: string)
    requires HitInv(home, cl, au) && Enabled(home, cl, st) && st.Restart? && Shaped(After(home, cl, st))
    requires m < |cl.nodes| && m != st.k
    ensures var cl', au' := After(home, cl, st), AuditAfter(home, cl, st, au);
            m < |cl'.nodes| && m < |au'.lost| && m < |au'.counted| &&
            HitSum(cl', au', m, c) && OwnSum(cl', au', m, c)
  {
    hide HitInv, After, AuditAfter, Left, Enabled, Shaped, SumSeen, HitSum, OwnSum;
    Restarted(home, cl, au, st);
    OthersSee(home, cl, au, st, m, c);
    SumsHold(home, cl, au, m, c);
    SumsSame(cl, au, After(home, cl, st), AuditAfter(home, cl, st, au), m, c);
  }

  lemma OthersSee(home: Homes, cl: Cluster, au: Audit, st: Step, m: nat, c: string)
    requires HitInv(home, cl, au) && Enabled(home, cl, st) && st.Restart? && Shaped(cl) && Shaped(After(home, cl, st))
    requires m < |cl.nodes| && m != st.k
    ensures |After(home, cl, st).nodes| == |cl.nodes|
    ensures SumSeen(After(home, cl, st), m, c, |cl.nodes|) == SumSeen(cl, m, c, |cl.nodes|)
  {
    hide HitInv, After, Enabled, Shaped, SumSeen;
    SiblingSees(home, cl, au, st, m, m);
    forall i | 0 <= i < |cl.nodes| ensures Seen(After(home, cl, st), m, i) == Seen(cl, m, i) {
      SiblingSees(home, cl, au, st, m, i);
    }
    SameSum(cl, After(home, cl, st), m, c, |cl.nodes|);
  }

  lemma SumsSame(cl: Cluster, au: Audit, cl': Cluster, au': Audit, m: nat, c: string)
    requires Shaped(cl) && Shaped(cl') && Sized(cl, au) && Sized(cl', au') && |cl.nodes| == |cl'.nodes| &&
             m < |cl.nodes|
    requires cl'.nodes[m] == cl.nodes[m] && au'.lost[m] == au.lost[m] && au'.counted[m] == au.counted[m]
    requires SumSeen(cl', m, c, |cl.nodes|) == SumSeen(cl, m, c, |cl.nodes|)
    requires HitSum(cl, au, m, c) && OwnSum(cl, au, m, c)
    ensures HitSum(cl', au', m, c) && OwnSum(cl', au', m, c)
  {
    hide Shaped, SumSeen, Deltas;
  }

  lemma SumsHold(home: Homes, cl: Cluster, au: Audit, m: nat, c: string)
    requires HitInv(home, cl, au) && m < |cl.nodes|
    ensures Shaped(cl) && Sized(cl, au) && HitSum(cl, au, m, c) && OwnSum(cl, au, m, c)
  {
    hide HitSum, OwnSum, Quiet, Growth;
  }

  lemma SiblingSees(home: Homes, cl: Cluster, au: Audit, st: Step, m: nat, i: nat)
    requires HitInv(home, cl, au) && Enabled(home, cl, st) && st.Restart? && Shaped(cl) && Shaped(After(home, cl, st))
    requires m < |cl.nodes| && m != st.k && i < |cl.nodes|
    ensures |After(home, cl, st).nodes| == |cl.nodes| && Seen(After(home, cl, st), m, i) == Seen(cl, m, i)
  {
    hide HitInv, After, AuditAfter, Left, Enabled, Shaped;
    Restarted(home, cl, au, st);
    LeftIs(home, cl, au, st);
    ReadIn(cl, m, i);
  }

  // ---------- every step ----------

  lemma RestartCounts(home: Homes, cl: Cluster, au: Audit, st: Step)
    requires CrashInv(home, cl, au) && Enabled(home, cl, st) && st.Restart?
    ensures CrashInv(home, After(home, cl, st), AuditAfter(home, cl, st, au))
  {
    hide RowsConverge, Growth, HitSum, OwnSum, Quiet, Born, Known, RowFirst, After, AuditAfter, Left, Enabled, LogOf;
    StepConverges(home, cl, st);
    ShapeOf(home, cl, au);
    ConvergedShape(home, After(home, cl, st));
    Restarted(home, cl, au, st);
    LeftIs(home, cl, au, st);
    var cl', au' := After(home, cl, st), AuditAfter(home, cl, st, au);
    forall j | 0 <= j < |cl'.nodes| ensures Growth(LogOf(cl', j)) {
      LogsAfter(home, cl, au, st, j);
    }
    forall j, c | 0 <= j < |cl'.nodes| && !Born(home, cl', c) ensures Quiet(cl', au', j, c) {
      RestartQuiet(home, cl, au, st, j, c);
    }
    forall j, c | 0 <= j < |cl'.nodes| && c in cl'.nodes[j].idx.stray ensures c !in cl'.nodes[j].idx.data {
      if j == st.k {
        ReplayHits(cl.nodes[st.k].me, Left(cl, st), st.victims, c);
      }
    }
    forall k, c | 0 <= k < |cl'.nodes| ensures HitSum(cl', au', k, c) && OwnSum(cl', au', k, c) {
      if k == st.k {
        BackSums(home, cl, au, st, c);
      } else {
        OthersSums(home, cl, au, st, k, c);
      }
    }
    forall j, c | 0 <= j < |cl'.nodes| ensures Known(home, cl', au', j, c) {
      RestartKnown(home, cl, au, st, j, c);
    }
    forall j, c | 0 <= j < |cl'.nodes| && home(c) == j ensures RowFirst(LogOf(cl', j), c) {
      RestartRowFirst(home, cl, au, st, j, c);
    }
  }

  lemma ConvergedShape(home: Homes, cl: Cluster)
    requires RowsConverge(home, cl)
    ensures Shaped(cl)
  {}

  lemma RestartRowFirst(home: Homes, cl: Cluster, au: Audit, st: Step, j: nat, c: string)
    requires CrashInv(home, cl, au) && Enabled(home, cl, st) && st.Restart? && j < |cl.nodes| && home(c) == j
    ensures j < |After(home, cl, st).nodes| && RowFirst(LogOf(After(home, cl, st), j), c)
  {
    hide HitInv, Known, RowFirst, After, Left, Enabled;
    LogsAfter(home, cl, au, st, j);
    LeftRowFirst(home, cl, au, st, c);
  }

  /** The steps of `HitConvergence`: links are created and resolved, not changed or removed. */
  ghost predicate Counting(st: Step) {
    Logging(st) || st.Restart?
  }

  /** Every step, a crash with its restart included, keeps each counter equal to the deltas seen
      and pending less those evicted, and each log equal to what its instance counted. */
  lemma StepCountsAll(home: Homes, cl: Cluster, au: Audit, st: Step)
    requires CrashInv(home, cl, au) && Enabled(home, cl, st) && Counting(st)
    ensures CrashInv(home, After(home, cl, st), AuditAfter(home, cl, st, au))
  {
    hide CrashInv, Enabled, After, AuditAfter;
    if st.Restart? {
      RestartCounts(home, cl, au, st);
    } else {
      StepKeepsCrashInv(home, cl, au, st);
    }
  }
}
