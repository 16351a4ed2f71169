/** Hit counters across N instances: a counter that only grows, kept by every instance for
    every code, whatever order rows and deltas arrive in and whoever crashes and restarts. Links
    are created and resolved here, never changed or removed. */
module HitConvergence {
  import opened Ints
  import opened LogLine
  import opened Table
  import opened Instance
  import opened Cluster
  import opened HitSteps
  import opened HitRestarts

  // ---------- runs ----------

  ghost predicate CountingRun(home: Homes, cl: Cluster, steps: seq<Step>) {
    Legal(home, cl, steps) && forall i :: 0 <= i < |steps| ==> Counting(steps[i])
  }

  ghost function Audited(home: Homes, cl: Cluster, steps: seq<Step>, au: Audit): Audit
    requires Legal(home, cl, steps) && Sized(cl, au)
    decreases |steps|
  {
    if steps == [] then au
    else Audited(home, After(home, cl, steps[0]), steps[1..], AuditAfter(home, cl, steps[0], au))
  }

  function NoAudit(n: nat): Audit {
    Audit(seq(n, _ => map[]), seq(n, _ => map[]))
  }

  lemma {:induction false} RunCounts(home: Homes, cl: Cluster, au: Audit, steps: seq<Step>)
    requires CrashInv(home, cl, au) && CountingRun(home, cl, steps)
    ensures Sized(cl, au) && CrashInv(home, Run(home, cl, steps), Audited(home, cl, steps, au))
    decreases |steps|
  {
    hide CrashInv, After, Enabled, AuditAfter, Counting;
    CrashShape(home, cl, au);
    if steps != [] {
      assert Counting(steps[0]);
      StepCountsAll(home, cl, au, steps[0]);
      assert forall i :: 0 <= i < |steps[1..]| ==> steps[1..][i] == steps[i + 1];
      RunCounts(home, After(home, cl, steps[0]), AuditAfter(home, cl, steps[0], au), steps[1..]);
    }
  }

  lemma CrashShape(home: Homes, cl: Cluster, au: Audit)
    requires CrashInv(home, cl, au)
    ensures Shaped(cl) && Sized(cl, au) && HitInv(home, cl, au)
  {
    hide Growth, Quiet, HitSum, OwnSum, Known, RowFirst;
  }

  lemma StartNode(n: nat, k: nat)
    requires n <= MAX_INSTANCES && k < n
    ensures Shaped(Start(n)) && Start(n).nodes[k] == Fresh(k) && LogOf(Start(n), k) == []
  {}

  lemma StartCounts(home: Homes, n: nat)
    requires n <= MAX_INSTANCES
    ensures CrashInv(home, Start(n), NoAudit(n))
  {
    hide RowsConverge, HitSum, OwnSum;
    var cl, au := Start(n), NoAudit(n);
    StartConverges(home, n);
    forall k | 0 <= k < n ensures cl.nodes[k] == Fresh(k) && LogOf(cl, k) == [] {
      StartNode(n, k);
    }
    forall k, c | 0 <= k < n ensures HitSum(cl, au, k, c) && OwnSum(cl, au, k, c) {
      StartSums(n, k, c);
    }
  }

  lemma StartSums(n: nat, k: nat, c: string)
    requires n <= MAX_INSTANCES && k < n
    ensures HitSum(Start(n), NoAudit(n), k, c) && OwnSum(Start(n), NoAudit(n), k, c)
  {
    hide SumSeen;
    forall j | 0 <= j < n ensures LogOf(Start(n), j) == [] {
      StartNode(n, j);
    }
    SumZero(Start(n), k, c, n);
    StartNode(n, k);
    assert Wrap(0) == 0;
  }

  /** Hit convergence, at any time: an instance's counter of a code, or of its strays before
      the row arrives, is all that it counted itself plus all deltas in what it has read of
      its siblings' logs, less what its full stray table dropped. */
  lemma HitsSeen(home: Homes, n: nat, steps: seq<Step>, k: nat, c: string)
    requires n <= MAX_INSTANCES && CountingRun(home, Start(n), steps)
    requires k < |Run(home, Start(n), steps).nodes|
    ensures var cl, au := Run(home, Start(n), steps), Audited(home, Start(n), steps, NoAudit(n));
            Shaped(cl) && Sized(cl, au) &&
            HitsIn(cl.nodes[k].idx, c) ==
              Wrap(OthersSeen(cl, k, c, |cl.nodes|) + Get(au.counted[k], c) - Get(au.lost[k], c))
  {
    hide Run, Audited, Legal, OthersSeen, HitsIn;
    RunInv(home, n, steps);
    HitsSeenIn(home, Run(home, Start(n), steps), Audited(home, Start(n), steps, NoAudit(n)), k, c);
  }

  lemma RunInv(home: Homes, n: nat, steps: seq<Step>)
    requires n <= MAX_INSTANCES && CountingRun(home, Start(n), steps)
    ensures HitInv(home, Run(home, Start(n), steps), Audited(home, Start(n), steps, NoAudit(n)))
  {
    StartCounts(home, n);
    RunCounts(home, Start(n), NoAudit(n), steps);
  }

  lemma HitsSeenIn(home: Homes, cl: Cluster, au: Audit, k: nat, c: string)
    requires HitInv(home, cl, au) && k < |cl.nodes|
    ensures HitsIn(cl.nodes[k].idx, c) ==
            Wrap(OthersSeen(cl, k, c, |cl.nodes|) + Get(au.counted[k], c) - Get(au.lost[k], c))
  {
    hide RowKnown, Proper1, Growth, Quiet, Deltas, SumSeen, OthersSeen;
    assert HitSum(cl, au, k, c) && OwnSum(cl, au, k, c);
    OthersAndOwn(cl, k, c, |cl.nodes|);
    WrapCong(Deltas(LogOf(cl, k), c) + DirtyOf(cl.nodes[k], c), Get(au.counted[k], c),
             OthersSeen(cl, k, c, |cl.nodes|) - Get(au.lost[k], c));
  }

  /** The deltas of `c` in what k has read of the logs of its siblings among the first m. */
  ghost function OthersSeen(cl: Cluster, k: nat, c: string, m: nat): int
    requires Shaped(cl) && k < |cl.nodes| && m <= |cl.nodes|
  {
    if m == 0 then 0
    else OthersSeen(cl, k, c, m - 1) + if m - 1 == k then 0 else Deltas(Seen(cl, k, m - 1), c)
  }

  lemma {:induction false} OthersAndOwn(cl: Cluster, k: nat, c: string, m: nat)
    requires Shaped(cl) && k < |cl.nodes| && m <= |cl.nodes|
    ensures SumSeen(cl, k, c, m) == OthersSeen(cl, k, c, m) + if k < m then Deltas(LogOf(cl, k), c) else 0
    decreases m
  {
    hide Shaped, Deltas;
    if m > 0 {
      OthersAndOwn(cl, k, c, m - 1);
      assert Seen(cl, k, k) == LogOf(cl, k);
    }
  }

  // ---------- at rest ----------

  /** Every instance has flushed and has read all of its siblings' logs. */
  ghost predicate AtRest(cl: Cluster) {
    Shaped(cl) &&
    (forall k :: 0 <= k < |cl.nodes| ==> cl.nodes[k].dirty == map[]) &&
    forall k, j :: 0 <= k < |cl.nodes| && 0 <= j < |cl.nodes| ==> CaughtUp(cl, k, j)
  }

  /** The hits on `c` that the first m instances counted. */
  function Total(au: Audit, c: string, m: nat): int
    requires m <= |au.counted|
  {
    if m == 0 then 0 else Total(au, c, m - 1) + Get(au.counted[m - 1], c)
  }

  lemma {:induction false} RestSum(cl: Cluster, au: Audit, k: nat, c: string, m: nat)
    requires AtRest(cl) && Sized(cl, au) && k < |cl.nodes| && m <= |cl.nodes|
    requires forall j :: 0 <= j < |cl.nodes| ==> OwnSum(cl, au, j, c)
    ensures Wrap(SumSeen(cl, k, c, m)) == Wrap(Total(au, c, m))
    decreases m
  {
    hide Deltas, Seen, OwnSum, CaughtUp;
    if m > 0 {
      var j := m - 1;
      RestSum(cl, au, k, c, j);
      assert OwnSum(cl, au, j, c);
      RestLog(cl, au, k, j, c);
      var d := Deltas(LogOf(cl, j), c);
      WrapCong(SumSeen(cl, k, c, j), Total(au, c, j), d);
      WrapCong(d, Get(au.counted[j], c), Total(au, c, j));
    }
  }

  lemma RestLog(cl: Cluster, au: Audit, k: nat, j: nat, c: string)
    requires AtRest(cl) && Sized(cl, au) && k < |cl.nodes| && j < |cl.nodes| && OwnSum(cl, au, j, c)
    ensures Seen(cl, k, j) == LogOf(cl, j)
    ensures Wrap(Deltas(LogOf(cl, j), c)) == Wrap(Get(au.counted[j], c))
  {
    assert CaughtUp(cl, k, j) && cl.nodes[j].dirty == map[];
  }

  /** Hit convergence: once all have flushed and polled, every instance reports the number
      of hits counted anywhere, if and only if it dropped nothing of that code. */
  lemma HitConvergence(home: Homes, n: nat, steps: seq<Step>, k: nat, c: string)
    requires n <= MAX_INSTANCES && CountingRun(home, Start(n), steps)
    requires k < |Run(home, Start(n), steps).nodes| && AtRest(Run(home, Start(n), steps))
    ensures var cl, au := Run(home, Start(n), steps), Audited(home, Start(n), steps, NoAudit(n));
            Sized(cl, au) &&
            HitsIn(cl.nodes[k].idx, c) == Wrap(Total(au, c, |cl.nodes|) - Get(au.lost[k], c)) &&
            (HitsIn(cl.nodes[k].idx, c) == Wrap(Total(au, c, |cl.nodes|)) <==> Wrap(Get(au.lost[k], c)) == 0)
  {
    hide Run, Audited, Legal, Total, HitsIn;
    RunInv(home, n, steps);
    HitsAtRest(home, Run(home, Start(n), steps), Audited(home, Start(n), steps, NoAudit(n)), k, c);
  }

  lemma HitsAtRest(home: Homes, cl: Cluster, au: Audit, k: nat, c: string)
    requires HitInv(home, cl, au) && k < |cl.nodes| && AtRest(cl)
    ensures HitsIn(cl.nodes[k].idx, c) == Wrap(Total(au, c, |cl.nodes|) - Get(au.lost[k], c))
    ensures HitsIn(cl.nodes[k].idx, c) == Wrap(Total(au, c, |cl.nodes|)) <==> Wrap(Get(au.lost[k], c)) == 0
  {
    hide RowKnown, Proper1, Growth, Quiet, Deltas, SumSeen, Total;
    assert HitSum(cl, au, k, c);
    assert cl.nodes[k].dirty == map[];
    RestSum(cl, au, k, c, |cl.nodes|);
    WrapCong(SumSeen(cl, k, c, |cl.nodes|), Total(au, c, |cl.nodes|), -Get(au.lost[k], c));
    WrapLess(Total(au, c, |cl.nodes|), Get(au.lost[k], c));
  }

  lemma WrapLess(x: int, d: int)
    ensures Wrap(x - d) == Wrap(x) <==> Wrap(d) == 0
  {
    if Wrap(d) == 0 {
      WrapCong(d, 0, x - d);
    }
    if Wrap(x - d) == Wrap(x) {
      WrapCong(x - d, x, d - x);
    }
  }

  // ---------- nothing is dropped below the cap ----------

  /** A replay of the own log makes an instance drop something. */
  ghost predicate Spills(me: nat, ops: seq<LogOp>, victims: seq<string>)
    requires |victims| == |ops|
  {
    exists i :: 0 <= i < |ops| && Drops(Replay(me, EMPTY, ops[..i], victims[..i]), ops[i], victims[i])
  }

  /** No stray table is full when it must take one more. */
  ghost predicate StepFits(home: Homes, cl: Cluster, st: Step)
    requires Shaped(cl) && Enabled(home, cl, st)
  {
    !Evicts(cl, st) && (st.Restart? ==> !Spills(cl.nodes[st.k].me, Left(cl, st), st.victims))
  }

  ghost predicate Roomy(home: Homes, cl: Cluster, steps: seq<Step>)
    requires Legal(home, cl, steps)
    decreases |steps|
  {
    steps != [] ==> StepFits(home, cl, steps[0]) && Roomy(home, After(home, cl, steps[0]), steps[1..])
  }

  lemma {:induction false} RoomyLoses(home: Homes, cl: Cluster, steps: seq<Step>, au: Audit)
    requires Legal(home, cl, steps) && Sized(cl, au) && Roomy(home, cl, steps)
    requires forall k :: 0 <= k < |au.lost| ==> au.lost[k] == map[]
    ensures forall k :: 0 <= k < |Audited(home, cl, steps, au).lost| ==> Audited(home, cl, steps, au).lost[k] == map[]
    decreases |steps|
  {
    hide Shaped, Enabled, NodeAfter, Spills, LostIn, Tally, Evicts, Live;
    if steps != [] {
      var st := steps[0];
      if st.Restart? {
        RestartFits(home, cl, st);
      }
      StepSized(home, cl, au, st);
      RoomyLoses(home, After(home, cl, steps[0]), steps[1..], AuditAfter(home, cl, steps[0], au));
    }
  }

  lemma StepSized(home: Homes, cl: Cluster, au: Audit, st: Step)
    requires Shaped(cl) && Sized(cl, au) && Enabled(home, cl, st)
    ensures Sized(After(home, cl, st), AuditAfter(home, cl, st, au))
  {
    hide NodeAfter, Evicts, Live, Tally, LostIn;
  }

  lemma RestartFits(home: Homes, cl: Cluster, st: Step)
    requires Shaped(cl) && Enabled(home, cl, st) && st.Restart? && StepFits(home, cl, st)
    ensures st.k < |cl.nodes| && st.kept <= |cl.nodes[st.k].buf| && |Left(cl, st)| == |st.victims|
    ensures LostIn(cl.nodes[st.k].me, Left(cl, st), st.victims) == map[]
  {
    hide LostIn, Spills;
    NoSpill(cl.nodes[st.k].me, Left(cl, st), st.victims, |st.victims|);
  }

  lemma {:induction false} NoSpill(me: nat, ops: seq<LogOp>, victims: seq<string>, r: nat)
    requires |victims| == |ops| && !Spills(me, ops, victims) && r <= |ops|
    ensures LostIn(me, ops[..r], victims[..r]) == map[] && (r == |ops| ==> LostIn(me, ops, victims) == map[])
  {
    hide Replay, Drops;
    assert ops[..|ops|] == ops && victims[..|ops|] == victims;
    if r > 0 {
      NoSpill(me, ops, victims, r - 1);
      assert ops[..r][..r - 1] == ops[..r - 1] && victims[..r][..r - 1] == victims[..r - 1];
    }
  }

  /** With the stray tables under their cap all instances end up with the same total. */
  lemma HitAgreement(home: Homes, n: nat, steps: seq<Step>, k: nat, c: string)
    requires n <= MAX_INSTANCES && CountingRun(home, Start(n), steps) && Roomy(home, Start(n), steps)
    requires k < |Run(home, Start(n), steps).nodes| && AtRest(Run(home, Start(n), steps))
    ensures var cl, au := Run(home, Start(n), steps), Audited(home, Start(n), steps, NoAudit(n));
            Sized(cl, au) && HitsIn(cl.nodes[k].idx, c) == Wrap(Total(au, c, |cl.nodes|))
  {
    HitConvergence(home, n, steps, k, c);
    RoomyLoses(home, Start(n), steps, NoAudit(n));
    RunSize(home, Start(n), steps);
    assert Wrap(0) == 0;
  }

  /** ... and a code that is there at its home is there everywhere, with that total. */
  lemma ReportedTotal(home: Homes, n: nat, steps: seq<Step>, k: nat, c: string)
    requires n <= MAX_INSTANCES && CountingRun(home, Start(n), steps) && Roomy(home, Start(n), steps)
    requires var cl := Run(home, Start(n), steps);
             k < |cl.nodes| && 0 <= home(c) < |cl.nodes| && AtRest(cl) && c in cl.nodes[home(c)].idx.data
    ensures var cl, au := Run(home, Start(n), steps), Audited(home, Start(n), steps, NoAudit(n));
            Sized(cl, au) && c in cl.nodes[k].idx.data &&
            cl.nodes[k].idx.data[c].h == Wrap(Total(au, c, |cl.nodes|))
  {
    hide Run, Audited, Legal, Total, Roomy;
    var cl := Run(home, Start(n), steps);
    HitAgreement(home, n, steps, k, c);
    assert CaughtUp(cl, k, home(c));
    RowAgreement(home, n, steps, k, c);
    assert RowIn(cl.nodes[k].idx, c).Some?;
  }

  lemma {:induction false} RunSize(home: Homes, cl: Cluster, steps: seq<Step>)
    requires Legal(home, cl, steps)
    ensures |Run(home, cl, steps).nodes| == |cl.nodes|
    decreases |steps|
  {
    if steps != [] {
      RunSize(home, After(home, cl, steps[0]), steps[1..]);
    }
  }
}
