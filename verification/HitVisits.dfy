/** What the counters count: in a run without crashes every instance ends up reporting the number
    of visits that got an answer anywhere. */
module HitVisits {
  import opened Ints
  import opened Instance
  import opened Cluster
  import opened HitSteps
  import opened HitConvergence

  /** A visit of `c` that is answered: there is a row, and its time is not up. */
  ghost predicate Answered(cl: Cluster, st: Step, c: string)
    requires st.k < |cl.nodes|
  {
    st.Visit? && st.code == c && c in cl.nodes[st.k].idx.data &&
    var e := cl.nodes[st.k].idx.data[c].e;
    e == 0 || st.now < e
  }

  /** How many visits of `c` were answered, by whatever instance. */
  ghost function VisitsIn(home: Homes, cl: Cluster, steps: seq<Step>, c: string): nat
    requires Legal(home, cl, steps)
    decreases |steps|
  {
    if steps == [] then 0
    else (if Answered(cl, steps[0], c) then 1 else 0) + VisitsIn(home, After(home, cl, steps[0]), steps[1..], c)
  }

  ghost predicate NoCrash(steps: seq<Step>) {
    forall i :: 0 <= i < |steps| ==> !steps[i].Restart?
  }

  lemma {:induction false} TotalOf(au: Audit, au': Audit, c: string, m: nat, k: nat, d: int)
    requires m <= |au.counted| == |au'.counted| && k < |au.counted|
    requires Get(au'.counted[k], c) == Get(au.counted[k], c) + d
    requires forall i :: 0 <= i < |au.counted| && i != k ==> au'.counted[i] == au.counted[i]
    ensures Total(au', c, m) == Total(au, c, m) + if k < m then d else 0
  {
    if m > 0 {
      TotalOf(au, au', c, m - 1, k, d);
    }
  }

  /** A step counts just the visit it answers. */
  lemma StepTotal(home: Homes, cl: Cluster, au: Audit, st: Step, c: string)
    requires Shaped(cl) && Enabled(home, cl, st) && Sized(cl, au) && !st.Restart?
    ensures Sized(After(home, cl, st), AuditAfter(home, cl, st, au)) && |After(home, cl, st).nodes| == |cl.nodes|
    ensures Total(AuditAfter(home, cl, st, au), c, |cl.nodes|) ==
            Total(au, c, |cl.nodes|) + if Answered(cl, st, c) then 1 else 0
  {
    hide NodeAfter, Evicts, Total;
    StepSized(home, cl, au, st);
    TotalOf(au, AuditAfter(home, cl, st, au), c, |cl.nodes|, st.k, if Answered(cl, st, c) then 1 else 0);
  }

  lemma {:induction false} RunTotal(home: Homes, cl: Cluster, au: Audit, steps: seq<Step>, c: string)
    requires Legal(home, cl, steps) && Sized(cl, au) && NoCrash(steps)
    ensures |Audited(home, cl, steps, au).counted| == |cl.nodes|
    ensures Total(Audited(home, cl, steps, au), c, |cl.nodes|) ==
            Total(au, c, |cl.nodes|) + VisitsIn(home, cl, steps, c)
    decreases |steps|
  {
    hide After, Enabled, AuditAfter, Total, Answered;
    if steps != [] {
      StepTotal(home, cl, au, steps[0], c);
      RunTotal(home, After(home, cl, steps[0]), AuditAfter(home, cl, steps[0], au), steps[1..], c);
    }
  }

  lemma {:induction false} NothingCounted(n: nat, c: string, m: nat)
    requires m <= n
    ensures Total(NoAudit(n), c, m) == 0
  {
    if m > 0 {
      NothingCounted(n, c, m - 1);
    }
  }

  /** At rest, an instance reports the visits that were answered anywhere, less what its full stray
      table dropped. */
  lemma VisitsReported(home: Homes, n: nat, steps: seq<Step>, k: nat, c: string)
    requires n <= MAX_INSTANCES && CountingRun(home, Start(n), steps) && NoCrash(steps)
    requires k < |Run(home, Start(n), steps).nodes| && AtRest(Run(home, Start(n), steps))
    ensures var cl, au := Run(home, Start(n), steps), Audited(home, Start(n), steps, NoAudit(n));
            Sized(cl, au) &&
            HitsIn(cl.nodes[k].idx, c) == Wrap(VisitsIn(home, Start(n), steps, c) - Get(au.lost[k], c))
    ensures Roomy(home, Start(n), steps) ==>
              HitsIn(Run(home, Start(n), steps).nodes[k].idx, c) == Wrap(VisitsIn(home, Start(n), steps, c))
  {
    hide Run, Audited, Legal, Total, HitsIn, VisitsIn, Roomy, CountingRun, AtRest, Start, Shaped;
    CountedLegal(home, n, steps);
    HitConvergence.HitConvergence(home, n, steps, k, c);
    RunTotal(home, Start(n), NoAudit(n), steps, c);
    RunSize(home, Start(n), steps);
    NothingCounted(n, c, n);
    if Roomy(home, Start(n), steps) {
      HitAgreement(home, n, steps, k, c);
    }
  }

  lemma CountedLegal(home: Homes, n: nat, steps: seq<Step>)
    requires n <= MAX_INSTANCES && CountingRun(home, Start(n), steps)
    ensures Legal(home, Start(n), steps) && |Start(n).nodes| == n
  {}
}
