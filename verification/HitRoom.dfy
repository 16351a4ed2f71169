/** How many links may be made so that no stray table ever overflows, whatever the order in
    which rows and hits are read. */
module HitRoom {
  import opened Ints
  import opened LogLine
  import opened Table
  import opened Instance
  import opened Cluster
  import opened HitSteps
  import opened HitRestarts
  import opened HitConvergence

  /** Only these codes are ever created. */
  ghost predicate CreatesIn(steps: seq<Step>, codes: set<string>) {
    forall i :: 0 <= i < |steps| && steps[i].Create? ==> steps[i].code in codes
  }

  ghost predicate BornIn(home: Homes, cl: Cluster, codes: set<string>) {
    forall c :: Born(home, cl, c) ==> c in codes
  }

  // ---------- only created codes are known ----------

  /** The log of j afterwards is what is left of the old one, and perhaps something more. */
  lemma BornBefore(home: Homes, cl: Cluster, au: Audit, st: Step, c: string)
    requires CrashInv(home, cl, au) && Enabled(home, cl, st) && Counting(st)
    requires Born(home, After(home, cl, st), c) && !(st.Create? && st.code == c)
    ensures Born(home, cl, c)
  {
    hide HitInv, Known, RowFirst, NodeAfter, Growth, Appended;
    ShapeOf(home, cl, au);
    var j := home(c);
    SameNodes(home, cl, st);
    if st.Restart? {
      LogsAfter(home, cl, au, st, j);
      if j == st.k {
        LeftIs(home, cl, au, st);
        GrowingLog(home, cl, au, j);
        RowStays(LogOf(cl, j), |Left(cl, st)|, c);
      }
    } else {
      LogAfter(home, cl, st, j);
      if j == st.k {
        NoRowAppended(home, cl, st, c);
        RowAtAppend(LogOf(cl, j), Appended(home, cl, st), c);
      }
    }
  }

  lemma SameNodes(home: Homes, cl: Cluster, st: Step)
    requires Shaped(cl) && Enabled(home, cl, st)
    ensures |After(home, cl, st).nodes| == |cl.nodes|
  {}

  lemma GrowingLog(home: Homes, cl: Cluster, au: Audit, j: nat)
    requires HitInv(home, cl, au) && j < |cl.nodes|
    ensures Growth(LogOf(cl, j))
  {
    hide Growth, HitSum, OwnSum, Quiet, RowsConverge;
  }

  lemma NoRowAppended(home: Homes, cl: Cluster, st: Step, c: string)
    requires Shaped(cl) && Enabled(home, cl, st) && Logging(st) && !(st.Create? && st.code == c)
    ensures !Settles(Appended(home, cl, st), c)
  {}

  lemma BornInKept(home: Homes, cl: Cluster, au: Audit, st: Step, codes: set<string>)
    requires CrashInv(home, cl, au) && Enabled(home, cl, st) && Counting(st)
    requires BornIn(home, cl, codes) && (st.Create? ==> st.code in codes)
    ensures BornIn(home, After(home, cl, st), codes)
  {
    hide CrashInv, After, Enabled, Born, Counting;
    CrashShape(home, cl, au);
    forall c | Born(home, After(home, cl, st), c) ensures c in codes {
      if !(st.Create? && st.code == c) {
        BornBefore(home, cl, au, st, c);
      }
    }
  }

  // ---------- so few strays fit ----------

  lemma {:induction false} SubsetSize(a: set<string>, b: set<string>)
    requires a <= b
    ensures |a| <= |b|
  {
    if a != {} {
      var x :| x in a;
      SubsetSize(a - {x}, b - {x});
    }
  }

  lemma FewStrays(stray: map<string, Stray>, codes: set<string>)
    requires forall c :: c in stray ==> c in codes
    ensures |stray| <= |codes|
  {
    SubsetSize(stray.Keys, codes);
    assert |stray| == |stray.Keys|;
  }

  lemma StrayBorn(home: Homes, cl: Cluster, au: Audit, k: nat, c: string)
    requires HitInv(home, cl, au) && k < |cl.nodes|
    requires c in cl.nodes[k].idx.stray || !NoHits(LogOf(cl, k), c)
    ensures Born(home, cl, c)
  {
    hide Growth, HitSum, OwnSum, RowsConverge, NoHits, Born;
    assert Born(home, cl, c) || Quiet(cl, au, k, c);
  }

  lemma NoEviction(home: Homes, cl: Cluster, au: Audit, st: Step, codes: set<string>)
    requires HitInv(home, cl, au) && BornIn(home, cl, codes) && |codes| < MAX_STRAY && Enabled(home, cl, st)
    ensures Shaped(cl) && st.k < |cl.nodes| && !Evicts(cl, st)
  {
    hide HitInv, Born, Next;
    ShapeOf(home, cl, au);
    var stray := cl.nodes[st.k].idx.stray;
    forall c | c in stray ensures c in codes {
      StrayBorn(home, cl, au, st.k, c);
    }
    FewStrays(stray, codes);
  }

  lemma NoSpilling(home: Homes, cl: Cluster, au: Audit, st: Step, codes: set<string>)
    requires HitInv(home, cl, au) && BornIn(home, cl, codes) && |codes| < MAX_STRAY
    requires Enabled(home, cl, st) && st.Restart?
    ensures Shaped(cl) && st.k < |cl.nodes| && st.kept <= |cl.nodes[st.k].buf| && |Left(cl, st)| == |st.victims|
    ensures !Spills(cl.nodes[st.k].me, Left(cl, st), st.victims)
  {
    hide HitInv, Born, After, AuditAfter, Left, Enabled, Replay;
    Restarted(home, cl, au, st);
    LeftIs(home, cl, au, st);
    var ops, me := Left(cl, st), cl.nodes[st.k].me;
    forall i | 0 <= i < |ops| ensures |Replay(me, EMPTY, ops[..i], st.victims[..i]).stray| < MAX_STRAY {
      FewReplayed(home, cl, au, st, codes, i);
    }
  }

  lemma FewReplayed(home: Homes, cl: Cluster, au: Audit, st: Step, codes: set<string>, i: nat)
    requires HitInv(home, cl, au) && BornIn(home, cl, codes) && Enabled(home, cl, st) && st.Restart?
    requires Shaped(cl) && st.k < |cl.nodes| && st.kept <= |cl.nodes[st.k].buf| && |Left(cl, st)| == |st.victims|
    requires i <= |Left(cl, st)|
    ensures |Replay(cl.nodes[st.k].me, EMPTY, Left(cl, st)[..i], st.victims[..i]).stray| <= |codes|
  {
    hide HitInv, Born, Left, Enabled, Replay, Growth;
    LeftIs(home, cl, au, st);
    var ops, me := Left(cl, st), cl.nodes[st.k].me;
    GrowthPrefix(ops, i);
    var stray := Replay(me, EMPTY, ops[..i], st.victims[..i]).stray;
    forall c | c in stray ensures c in codes {
      ReplayHits(me, ops[..i], st.victims[..i], c);
      HitsThere(ops[..i], LogOf(cl, st.k), c);
      StrayBorn(home, cl, au, st.k, c);
    }
    FewStrays(stray, codes);
  }

  lemma HitsThere(ops: seq<LogOp>, all: seq<LogOp>, c: string)
    requires ops <= all && !NoHits(ops, c)
    ensures !NoHits(all, c)
  {
    var p :| 0 <= p < |ops| && ops[p].Hit? && ops[p].c == c;
    assert all[p] == ops[p];
  }

  lemma FewFit(home: Homes, cl: Cluster, au: Audit, st: Step, codes: set<string>)
    requires HitInv(home, cl, au) && BornIn(home, cl, codes) && |codes| < MAX_STRAY && Enabled(home, cl, st)
    ensures StepFits(home, cl, st)
  {
    hide HitInv, Enabled, BornIn, Evicts, Spills;
    NoEviction(home, cl, au, st, codes);
    if st.Restart? {
      NoSpilling(home, cl, au, st, codes);
    }
  }

  lemma {:induction false} RunRoomy(home: Homes, cl: Cluster, au: Audit, steps: seq<Step>, codes: set<string>)
    requires CrashInv(home, cl, au) && CountingRun(home, cl, steps) && BornIn(home, cl, codes)
    requires CreatesIn(steps, codes) && |codes| < MAX_STRAY
    ensures Roomy(home, cl, steps)
    decreases |steps|
  {
    hide CrashInv, After, Enabled, AuditAfter, Counting, BornIn, StepFits;
    CrashShape(home, cl, au);
    if steps != [] {
      var st := steps[0];
      FewFit(home, cl, au, st, codes);
      BornInKept(home, cl, au, st, codes);
      StepCountsAll(home, cl, au, st);
      assert forall i :: 0 <= i < |steps[1..]| ==> steps[1..][i] == steps[i + 1];
      RunRoomy(home, After(home, cl, st), AuditAfter(home, cl, st, au), steps[1..], codes);
    }
  }

  /** With fewer links than a stray table holds no table is ever too full, whatever the run. */
  lemma FewLinksRoomy(home: Homes, n: nat, steps: seq<Step>, codes: set<string>)
    requires n <= MAX_INSTANCES && CountingRun(home, Start(n), steps)
    requires CreatesIn(steps, codes) && |codes| < MAX_STRAY
    ensures Roomy(home, Start(n), steps)
  {
    hide CrashInv;
    StartCounts(home, n);
    NoneBorn(home, n);
    RunRoomy(home, Start(n), NoAudit(n), steps, codes);
  }

  lemma NoneBorn(home: Homes, n: nat)
    requires n <= MAX_INSTANCES
    ensures forall c :: !Born(home, Start(n), c)
  {
    forall c ensures !Born(home, Start(n), c) {
      if 0 <= home(c) < n {
        StartNode(n, home(c));
      }
    }
  }

  /** Hit convergence for a caller: when fewer links are made than a stray table holds, all
      instances end up with the total, crashes or not. */
  lemma FewLinksAgree(home: Homes, n: nat, steps: seq<Step>, codes: set<string>, k: nat, c: string)
    requires n <= MAX_INSTANCES && CountingRun(home, Start(n), steps)
    requires CreatesIn(steps, codes) && |codes| < MAX_STRAY
    requires k < |Run(home, Start(n), steps).nodes| && AtRest(Run(home, Start(n), steps))
    ensures var cl, au := Run(home, Start(n), steps), Audited(home, Start(n), steps, NoAudit(n));
            Sized(cl, au) && HitsIn(cl.nodes[k].idx, c) == Wrap(Total(au, c, |cl.nodes|))
  {
    hide Run, Audited, AtRest, Roomy, Total, HitsIn, CountingRun;
    FewLinksRoomy(home, n, steps, codes);
    HitAgreement(home, n, steps, k, c);
  }
}
