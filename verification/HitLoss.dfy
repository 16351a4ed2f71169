/** A run in which hit counters do not converge: an instance reads more hits of links it does
    not know yet than its stray table holds. With one link less that cannot happen. */
module HitLoss {
  import opened Ints
  import opened LogLine
  import opened Options
  import opened Table
  import opened Instance
  import opened Cluster
  import opened HitSteps
  import opened HitRestarts
  import opened HitConvergence
  import opened HitRoom

  // ---------- runs of three instances, step by step ----------

  /** What a run has led to, and what was counted on the way. */
  datatype Point = Point(cl: Cluster, au: Audit)

  ghost predicate LeadsTo(home: Homes, steps: seq<Step>, p: Point) {
    CountingRun(home, Start(3), steps) && CreatesIn(steps, Links()) && Run(home, Start(3), steps) == p.cl &&
    Audited(home, Start(3), steps, NoAudit(3)) == p.au
  }

  ghost predicate Reached(home: Homes, p: Point) {
    HitInv(home, p.cl, p.au) && |p.cl.nodes| == 3 && exists steps :: LeadsTo(home, steps, p)
  }

  lemma {:induction false} RunSnoc(home: Homes, cl: Cluster, au: Audit, steps: seq<Step>, st: Step)
    requires Legal(home, cl, steps) && Sized(cl, au)
    requires Shaped(Run(home, cl, steps)) && Enabled(home, Run(home, cl, steps), st)
    requires Shaped(After(home, Run(home, cl, steps), st))
    ensures Legal(home, cl, steps + [st]) && Run(home, cl, steps + [st]) == After(home, Run(home, cl, steps), st)
    ensures Sized(Run(home, cl, steps), Audited(home, cl, steps, au))
    ensures Audited(home, cl, steps + [st], au) ==
            AuditAfter(home, Run(home, cl, steps), st, Audited(home, cl, steps, au))
    decreases |steps|
  {
    hide Shaped, Enabled, After, AuditAfter;
    var all := steps + [st];
    if steps == [] {
      assert all[1..] == [];
    } else {
      assert all[1..] == steps[1..] + [st];
      StepSized(home, cl, au, steps[0]);
      RunSnoc(home, After(home, cl, steps[0]), AuditAfter(home, cl, steps[0], au), steps[1..], st);
    }
  }

  lemma StartReached(home: Homes)
    ensures Reached(home, Point(Start(3), NoAudit(3)))
  {
    hide HitInv, Shaped;
    StartCounts(home, 3);
    StartShaped();
    assert LeadsTo(home, [], Point(Start(3), NoAudit(3)));
  }

  lemma StartShaped()
    ensures Shaped(Start(3))
  {}

  lemma Proceed(home: Homes, p: Point, st: Step) returns (p': Point)
    requires Reached(home, p) && Enabled(home, p.cl, st) && Logging(st) && (st.Create? ==> st.code in Links())
    ensures p' == Point(After(home, p.cl, st), AuditAfter(home, p.cl, st, p.au)) && Reached(home, p')
  {
    hide After, AuditAfter, Enabled, Logging, RowsConverge, Growth, Quiet, HitSum, OwnSum;
    ReachedShape(home, p);
    p' := Point(After(home, p.cl, st), AuditAfter(home, p.cl, st, p.au));
    StepCounts(home, p.cl, p.au, st);
    ReachedShape(home, p');
    SameNodes(home, p.cl, st);
    var steps :| LeadsTo(home, steps, p);
    ExtendRun(home, steps, p, st);
  }

  lemma SameNodes(home: Homes, cl: Cluster, st: Step)
    requires Shaped(cl) && Enabled(home, cl, st)
    ensures |After(home, cl, st).nodes| == |cl.nodes|
  {}

  lemma ReachedShape(home: Homes, p: Point)
    requires HitInv(home, p.cl, p.au)
    ensures Shaped(p.cl) && Sized(p.cl, p.au)
  {}

  lemma ExtendRun(home: Homes, steps: seq<Step>, p: Point, st: Step)
    requires LeadsTo(home, steps, p) && Shaped(p.cl) && Sized(p.cl, p.au) && Enabled(home, p.cl, st) && Logging(st)
    requires st.Create? ==> st.code in Links()
    requires Shaped(After(home, p.cl, st))
    ensures LeadsTo(home, steps + [st], Point(After(home, p.cl, st), AuditAfter(home, p.cl, st, p.au)))
  {
    assert Counting(st);
    hide Links;
    hide Legal, Run, Audited, Shaped, Enabled, After, AuditAfter, Counting;
    StartShaped();
    RunSnoc(home, Start(3), NoAudit(3), steps, st);
  }

  // ---------- many codes ----------

  function Name(i: nat): string {
    Digits(i)
  }

  lemma NameInjective(i: nat, j: nat)
    requires Name(i) == Name(j)
    ensures i == j
  {
    DigitsParse(i);
    DigitsParse(j);
  }

  lemma {:induction false} ShortDigits(n: nat, k: nat)
    requires n < Tens(k) && 0 < k
    ensures |Digits(n)| <= k
    decreases k
  {
    if n >= 10 {
      assert k > 1;
      ShortDigits(n / 10, k - 1);
    }
  }

  function Tens(k: nat): nat {
    if k == 0 then 1 else 10 * Tens(k - 1)
  }

  lemma NameOK(i: nat)
    requires i <= MAX_STRAY
    ensures CodeOK(Name(i))
  {
    assert Tens(5) == 100000;
    ShortDigits(i, 5);
    DigitsParse(i);
    var s := Name(i);
    forall k | 0 <= k < |s| ensures CodeChar(s[k]) {
      assert s[k] in s;
    }
  }

  /** The codes of the run below. */
  function Links(): set<string> {
    set c | c in Names(MAX_STRAY)
  }

  function Names(n: nat): (s: seq<string>)
    ensures |s| == n && forall i :: 0 <= i < n ==> s[i] == Name(i)
  {
    seq(n, i requires 0 <= i < n => Name(i))
  }

  function RowOps(n: nat): (ops: seq<LogOp>)
    ensures |ops| == n && forall i :: 0 <= i < n ==> ops[i] == Row(Name(i), "u", 0, 0, 0, 0)
  {
    seq(n, i requires 0 <= i < n => Row(Name(i), "u", 0, 0, 0, 0))
  }

  lemma {:induction false} RowOfName(n: nat, i: nat)
    ensures RowAt(RowOps(n), Name(i)) == if i < n then Some(RowData("u", 0, 0, 0)) else None
    decreases n
  {
    hide Name;
    if n > 0 {
      var ops := RowOps(n);
      assert ops[..n - 1] == RowOps(n - 1);
      RowOfName(n - 1, i);
      if Name(n - 1) == Name(i) {
        NameInjective(n - 1, i);
      }
    }
  }

  // ---------- instance 0 makes the links ----------

  /** Instance 0 made n links; nobody did anything else. */
  ghost predicate Made(p: Point, n: nat) {
    Shaped(p.cl) && |p.cl.nodes| == 3 && p.au == NoAudit(3) && p.cl.read == [Zeros(3), Zeros(3), Zeros(3)] &&
    p.cl.nodes[0].file == [] && p.cl.nodes[0].buf == RowOps(n) && p.cl.nodes[0].dirty == map[] &&
    p.cl.nodes[1] == Fresh(1) && p.cl.nodes[2] == Fresh(2)
  }

  lemma RowKnownTo(home: Homes, p: Point, k: nat, c: string)
    requires Reached(home, p) && k < 3 && home(c) == 0
    ensures Shaped(p.cl) && RowIn(p.cl.nodes[k].idx, c) == RowAt(Seen(p.cl, k, 0), c)
  {
    hide Growth, Quiet, HitSum, OwnSum, Seen, Proper1;
    assert RowKnown(home, p.cl, k, c);
  }

  lemma {:induction false} MakeLinks(home: Homes, n: nat) returns (p: Point)
    requires n <= MAX_STRAY && forall c :: home(c) == 0
    ensures Reached(home, p) && Made(p, n)
  {
    hide Reached, Shaped, Name;
    if n == 0 {
      StartReached(home);
      p := Point(Start(3), NoAudit(3));
      StartShaped();
      assert RowOps(0) == [];
    } else {
      p := MakeLinks(home, n - 1);
      p := MakeLink(home, p, n - 1);
    }
  }

  lemma MakeLink(home: Homes, p: Point, n: nat) returns (p': Point)
    requires Reached(home, p) && Made(p, n) && n < MAX_STRAY && forall c :: home(c) == 0
    ensures Reached(home, p') && Made(p', n + 1)
  {
    hide Name, Reached, Made, After, AuditAfter, Enabled;
    var st := Create(0, Name(n), "u", 0, 0);
    CanMake(home, p, n);
    assert Names(MAX_STRAY)[n] == Name(n);
    p' := Proceed(home, p, st);
    MadeOne(home, p, n);
  }

  lemma CanMake(home: Homes, p: Point, n: nat)
    requires Reached(home, p) && Made(p, n) && n < MAX_STRAY && forall c :: home(c) == 0
    ensures Shaped(p.cl) && Sized(p.cl, p.au) && Enabled(home, p.cl, Create(0, Name(n), "u", 0, 0))
  {
    hide Name, LeadsTo, HitInv, RowOps;
    NameOK(n);
    ReachedShape(home, p);
    RowKnownTo(home, p, 0, Name(n));
    assert Seen(p.cl, 0, 0) == RowOps(n);
    RowOfName(n, n);
  }

  lemma MadeOne(home: Homes, p: Point, n: nat)
    requires Made(p, n) && Sized(p.cl, p.au) && Enabled(home, p.cl, Create(0, Name(n), "u", 0, 0))
    ensures var st := Create(0, Name(n), "u", 0, 0);
            Made(Point(After(home, p.cl, st), AuditAfter(home, p.cl, st, p.au)), n + 1)
  {
    hide Name;
    assert RowOps(n + 1) == RowOps(n) + [Row(Name(n), "u", 0, 0, 0, 0)];
  }

  // ---------- reading on ----------

  function ReadUntil(read: seq<seq<nat>>, k: nat, j: nat, r: nat): seq<seq<nat>>
    requires k < |read| && j < |read[k]|
  {
    var row: seq<nat> := read[k][j := r];
    read[k := row]
  }

  /** Instance k reads all that is in j's file; all else stays. */
  ghost predicate ReadUp(p: Point, p': Point, k: nat, j: nat) {
    |p.cl.nodes| == |p'.cl.nodes| == |p.cl.read| == 3 && k < 3 && j < 3 && |p.cl.read[k]| == 3 &&
    p'.cl.nodes == p.cl.nodes[k := p'.cl.nodes[k]] &&
    p'.cl.nodes[k] == p.cl.nodes[k].(idx := p'.cl.nodes[k].idx) &&
    p'.cl.read == ReadUntil(p.cl.read, k, j, |p.cl.nodes[j].file|)
  }

  lemma ReadMore(p: Point, p1: Point, p2: Point, k: nat, j: nat, r: nat)
    requires |p.cl.nodes| == |p1.cl.nodes| == |p.cl.read| == 3 && k < 3 && j < 3 && k != j && |p.cl.read[k]| == 3
    requires p1.cl.nodes == p.cl.nodes[k := p.cl.nodes[k].(idx := p1.cl.nodes[k].idx)]
    requires p1.cl.read == ReadUntil(p.cl.read, k, j, r)
    requires ReadUp(p1, p2, k, j)
    ensures ReadUp(p, p2, k, j)
  {
    ReadAgain(p.cl.read, k, j, r, |p.cl.nodes[j].file|);
  }

  lemma ReadAgain(read: seq<seq<nat>>, k: nat, j: nat, r: nat, r': nat)
    requires k < |read| && j < |read[k]|
    ensures ReadUntil(ReadUntil(read, k, j, r), k, j, r') == ReadUntil(read, k, j, r')
    ensures ReadUntil(read, k, j, read[k][j]) == read
  {
    var row: seq<nat> := read[k][j := r];
    assert row[j := r'] == read[k][j := r'];
    assert read[k][j := read[k][j]] == read[k];
  }

  lemma {:induction false} ReadOn(home: Homes, p: Point, k: nat, j: nat) returns (p': Point)
    requires Reached(home, p) && Shaped(p.cl) && k < 3 && j < 3 && k != j && Sized(p.cl, p.au)
    ensures Reached(home, p') && Shaped(p'.cl) && Sized(p'.cl, p'.au) && ReadUp(p, p', k, j)
    ensures forall m :: 0 <= m < 3 && m != k ==> p'.au.lost[m] == p.au.lost[m]
    ensures (forall i :: 0 <= i < |p.cl.nodes[j].file| ==> !p.cl.nodes[j].file[i].Hit?) ==> p'.au == p.au
    decreases |p.cl.nodes[j].file| - p.cl.read[k][j]
  {
    hide HitInv, LeadsTo, ApplyLog;
    if p.cl.read[k][j] == |p.cl.nodes[j].file| {
      p' := p;
      ReadAgain(p.cl.read, k, j, 0, 0);
    } else {
      var p1 := Proceed(home, p, Tail(k, j, ""));
      ReachedShape(home, p1);
      TailReads(home, p, k, j, p1);
      p' := ReadOn(home, p1, k, j);
      ReadMore(p, p1, p', k, j, p.cl.read[k][j] + 1);
    }
  }

  lemma TailReads(home: Homes, p: Point, k: nat, j: nat, p1: Point)
    requires Shaped(p.cl) && Sized(p.cl, p.au) && |p.cl.nodes| == 3 && k < 3 && j < 3 && k != j
    requires Enabled(home, p.cl, Tail(k, j, ""))
    requires p1 == Point(After(home, p.cl, Tail(k, j, "")), AuditAfter(home, p.cl, Tail(k, j, ""), p.au))
    ensures p1.cl.nodes == p.cl.nodes[k := p.cl.nodes[k].(idx := p1.cl.nodes[k].idx)]
    ensures p1.cl.read == ReadUntil(p.cl.read, k, j, p.cl.read[k][j] + 1)
    ensures forall m :: 0 <= m < 3 && m != k ==> p1.au.lost[m] == p.au.lost[m]
    ensures !p.cl.nodes[j].file[p.cl.read[k][j]].Hit? ==> p1.au == p.au
  {
    hide ApplyLog;
  }

  // ---------- instance 1 visits them ----------

  /** The links are in instance 0's file, instance 1 has read them and visited m of them. */
  ghost predicate Visited(p: Point, n: nat, m: nat) {
    Shaped(p.cl) && Sized(p.cl, p.au) && |p.cl.nodes| == 3 && p.au.lost == NoAudit(3).lost &&
    p.cl.read == [Zeros(3), [n, 0, 0], Zeros(3)] &&
    p.cl.nodes[0].file == RowOps(n) && p.cl.nodes[0].buf == [] && p.cl.nodes[0].dirty == map[] &&
    p.cl.nodes[1].file == [] && p.cl.nodes[1].buf == [] && p.cl.nodes[2] == Fresh(2) &&
    (forall c :: c in p.cl.nodes[1].dirty <==> c in Names(m)) &&
    forall c :: c in p.cl.nodes[1].dirty ==> p.cl.nodes[1].dirty[c] == 1
  }

  lemma ReadLinks(home: Homes, n: nat) returns (p: Point)
    requires n <= MAX_STRAY && forall c :: home(c) == 0
    ensures Reached(home, p) && Visited(p, n, 0)
  {
    hide Reached, Shaped, Name, RowOps;
    var p0 := MakeLinks(home, n);
    var p1 := WriteLinks(home, p0, n);
    NoHitRows(n);
    p := ReadOn(home, p1, 1, 0);
    assert Zeros(3) == [0, 0, 0];
    assert p.cl.read[1] == [n, 0, 0];
  }

  lemma NoHitRows(n: nat)
    ensures forall i :: 0 <= i < |RowOps(n)| ==> !RowOps(n)[i].Hit?
  {}

  lemma WriteLinks(home: Homes, p: Point, n: nat) returns (p': Point)
    requires Reached(home, p) && Made(p, n)
    ensures Reached(home, p') && Shaped(p'.cl) && Sized(p'.cl, p'.au) && p'.au == p.au && p'.cl.read == p.cl.read
    ensures |p'.cl.nodes| == 3 && p'.cl.nodes[0] == p.cl.nodes[0].(file := RowOps(n), buf := [])
    ensures p'.cl.nodes[1] == p.cl.nodes[1] && p'.cl.nodes[2] == p.cl.nodes[2]
  {
    hide HitInv, LeadsTo, RowOps;
    p' := Proceed(home, p, Write(0));
    ReachedShape(home, p');
    assert [] + RowOps(n) == RowOps(n);
  }

  lemma {:induction false} VisitLinks(home: Homes, n: nat, m: nat) returns (p: Point)
    requires m <= n <= MAX_STRAY && forall c :: home(c) == 0
    ensures Reached(home, p) && Visited(p, n, m)
    decreases m
  {
    hide Reached, Visited;
    if m == 0 {
      p := ReadLinks(home, n);
    } else {
      p := VisitLinks(home, n, m - 1);
      p := VisitLink(home, p, n, m - 1);
    }
  }

  lemma VisitLink(home: Homes, p: Point, n: nat, m: nat) returns (p': Point)
    requires Reached(home, p) && Visited(p, n, m) && m < n <= MAX_STRAY && forall c :: home(c) == 0
    ensures Reached(home, p') && Visited(p', n, m + 1)
  {
    hide Reached, After, AuditAfter, Enabled, Visited, Live;
    CanVisit(home, p, n, m);
    p' := Proceed(home, p, Visit(1, Name(m), 0));
    ShapeReached(home, p');
    VisitedMore(home, p, n, m);
  }

  lemma CanVisit(home: Homes, p: Point, n: nat, m: nat)
    requires Reached(home, p) && Visited(p, n, m) && m < n && forall c :: home(c) == 0
    ensures Shaped(p.cl) && Sized(p.cl, p.au) && |p.cl.nodes| == 3 && Live(p.cl.nodes[1], Name(m), 0)
    ensures Enabled(home, p.cl, Visit(1, Name(m), 0))
  {
    hide HitInv, LeadsTo, Name, RowOps;
    RowKnownTo(home, p, 1, Name(m));
    assert Seen(p.cl, 1, 0) == RowOps(n);
    RowOfName(n, m);
  }

  lemma VisitedMore(home: Homes, p: Point, n: nat, m: nat)
    requires Visited(p, n, m) && Live(p.cl.nodes[1], Name(m), 0) && Enabled(home, p.cl, Visit(1, Name(m), 0))
    requires Shaped(After(home, p.cl, Visit(1, Name(m), 0)))
    ensures var st := Visit(1, Name(m), 0);
            Visited(Point(After(home, p.cl, st), AuditAfter(home, p.cl, st, p.au)), n, m + 1)
  {
    hide Name, RowOps, Live, Shaped, LostIn, Tally;
    LiveHeld(p.cl.nodes[1], Name(m), 0);
    NewName(m);
    assert Names(m + 1) == Names(m) + [Name(m)];
    assert Wrap(1) == 1;
  }

  lemma NewName(m: nat)
    ensures Name(m) !in Names(m)
  {
    if Name(m) in Names(m) {
      var i :| 0 <= i < m && Names(m)[i] == Name(m);
      NameInjective(i, m);
    }
  }

  // ---------- their hits are logged ----------

  function HitsOf(n: nat): (ops: seq<LogOp>)
    ensures |ops| == n && forall i :: 0 <= i < n ==> ops[i] == Hit(Name(i), 1, 1)
  {
    seq(n, i requires 0 <= i < n => Hit(Name(i), 1, 1))
  }

  /** A hit of each link, and one more of the first. */
  function AllHits(n: nat): (ops: seq<LogOp>)
    ensures |ops| == n + 1 && ops[n] == Hit(Name(0), 1, 1) && forall i :: 0 <= i < n ==> ops[i] == Hit(Name(i), 1, 1)
  {
    HitsOf(n) + [Hit(Name(0), 1, 1)]
  }

  /** All is in the files of instances 0 and 1, and nothing is pending. */
  ghost predicate AllFiled(cl: Cluster, n: nat) {
    Shaped(cl) && |cl.nodes| == 3 &&
    cl.nodes[0].file == RowOps(n) && cl.nodes[1].file == AllHits(n) && cl.nodes[2].file == [] &&
    forall k :: 0 <= k < 3 ==> cl.nodes[k].buf == [] && cl.nodes[k].dirty == map[]
  }

  /** Instance 2 has read m hits of links it does not know. */
  ghost predicate Strayed(p: Point, n: nat, m: nat) {
    AllFiled(p.cl, n) && Sized(p.cl, p.au) && p.au.lost == NoAudit(3).lost &&
    p.cl.read == [Zeros(3), [n, 0, 0], [0, m, 0]] &&
    var stray := p.cl.nodes[2].idx.stray;
    |stray| == m && (forall c :: c in stray <==> c in Names(m)) && forall c :: c in stray ==> stray[c].t == 1
  }

  lemma NamesApart(n: nat)
    ensures forall i, j :: 0 <= i < j < n ==> Names(n)[i] != Names(n)[j]
  {
    forall i, j | 0 <= i < j < n ensures Names(n)[i] != Names(n)[j] {
      if Name(i) == Name(j) {
        NameInjective(i, j);
      }
    }
  }

  lemma QueueAll(home: Homes, p: Point, n: nat) returns (p': Point)
    requires Reached(home, p) && Visited(p, n, n)
    ensures Reached(home, p') && Shaped(p'.cl) && Sized(p'.cl, p'.au) && p'.au == p.au && p'.cl.read == p.cl.read
    ensures |p'.cl.nodes| == 3 && p'.cl.nodes[1] == p.cl.nodes[1].(buf := HitsOf(n), dirty := map[])
    ensures p'.cl.nodes[0] == p.cl.nodes[0] && p'.cl.nodes[2] == p.cl.nodes[2]
  {
    hide Reached, After, AuditAfter, Enabled, Visited;
    CanQueue(home, p, n);
    p' := Proceed(home, p, Queue(1, Names(n)));
    QueuedAll(home, p, n);
    ShapeReached(home, p');
  }

  lemma ShapeReached(home: Homes, p: Point)
    requires Reached(home, p)
    ensures Shaped(p.cl) && Sized(p.cl, p.au) && |p.cl.nodes| == 3
  {
    hide LeadsTo;
    ReachedShape(home, p);
  }

  lemma CanQueue(home: Homes, p: Point, n: nat)
    requires Visited(p, n, n)
    ensures Shaped(p.cl) && Sized(p.cl, p.au) && Enabled(home, p.cl, Queue(1, Names(n))) && |p.cl.nodes| == 3
  {
    hide Name, RowOps;
    NamesApart(n);
  }

  lemma QueuedAll(home: Homes, p: Point, n: nat)
    requires Visited(p, n, n) && Enabled(home, p.cl, Queue(1, Names(n)))
    ensures var p' := Point(After(home, p.cl, Queue(1, Names(n))), AuditAfter(home, p.cl, Queue(1, Names(n)), p.au));
            p'.au == p.au && p'.cl.read == p.cl.read && |p'.cl.nodes| == 3 &&
            p'.cl.nodes[1] == p.cl.nodes[1].(buf := HitsOf(n), dirty := map[]) &&
            p'.cl.nodes[0] == p.cl.nodes[0] && p'.cl.nodes[2] == p.cl.nodes[2]
  {
    hide Name, RowOps, LostIn, Tally, Apply;
    assert HitOps(1, p.cl.nodes[1].dirty, Names(n)) == HitsOf(n);
    assert [] + HitsOf(n) == HitsOf(n);
  }

  /** The first link is visited once more, and that hit is queued behind the others. */
  lemma HitAgain(home: Homes, p: Point, n: nat) returns (p': Point)
    requires Reached(home, p) && Shaped(p.cl) && Sized(p.cl, p.au) && |p.cl.nodes| == 3 && 0 < n
    requires p.cl.nodes[0].file == RowOps(n) && p.cl.read[1] == [n, 0, 0] && forall c :: home(c) == 0
    requires p.cl.nodes[1].buf == HitsOf(n) && p.cl.nodes[1].dirty == map[]
    ensures Reached(home, p') && Shaped(p'.cl) && Sized(p'.cl, p'.au) && Onward(p, p')
    ensures p'.cl.nodes[1] == p.cl.nodes[1].(idx := p'.cl.nodes[1].idx, buf := AllHits(n), dirty := map[])
  {
    hide Reached, After, AuditAfter, Enabled, Live, AllHits, HitsOf, RowOps;
    FirstLive(home, p, n);
    var p1 := Proceed(home, p, Visit(1, Name(0), 0));
    ShapeReached(home, p1);
    VisitedOnce(home, p);
    QueueEnabled(home, p1);
    p' := Proceed(home, p1, Queue(1, [Name(0)]));
    ShapeReached(home, p');
    QueuedOnce(home, p1, n);
  }

  /** The tables of instances 0 and 2, and what was read and lost, are as before. */
  ghost predicate Onward(p: Point, p': Point) {
    |p.cl.nodes| == |p'.cl.nodes| == 3 && p'.cl.nodes[0] == p.cl.nodes[0] && p'.cl.nodes[2] == p.cl.nodes[2] &&
    p'.cl.read == p.cl.read && p'.au.lost == p.au.lost
  }

  lemma FirstLive(home: Homes, p: Point, n: nat)
    requires Reached(home, p) && Shaped(p.cl) && |p.cl.nodes| == 3 && 0 < n
    requires p.cl.nodes[0].file == RowOps(n) && p.cl.read[1] == [n, 0, 0] && forall c :: home(c) == 0
    ensures Live(p.cl.nodes[1], Name(0), 0) && Enabled(home, p.cl, Visit(1, Name(0), 0))
  {
    hide HitInv, LeadsTo, Name, RowOps;
    RowKnownTo(home, p, 1, Name(0));
    assert Seen(p.cl, 1, 0) == RowOps(n);
    RowOfName(n, 0);
  }

  lemma VisitedOnce(home: Homes, p: Point)
    requires Shaped(p.cl) && Sized(p.cl, p.au) && |p.cl.nodes| == 3 && Enabled(home, p.cl, Visit(1, Name(0), 0))
    requires Live(p.cl.nodes[1], Name(0), 0) && p.cl.nodes[1].dirty == map[]
    ensures var st := Visit(1, Name(0), 0);
            var p' := Point(After(home, p.cl, st), AuditAfter(home, p.cl, st, p.au));
            Onward(p, p') &&
            p'.cl.nodes[1] == p.cl.nodes[1].(idx := p'.cl.nodes[1].idx, dirty := map[Name(0) := 1])
  {
    hide Name, Live, Shaped, LostIn, Tally;
    LiveHeld(p.cl.nodes[1], Name(0), 0);
    assert Wrap(1) == 1;
  }

  lemma QueueEnabled(home: Homes, p: Point)
    requires Shaped(p.cl) && |p.cl.nodes| == 3 && p.cl.nodes[1].dirty == map[Name(0) := 1]
    ensures Enabled(home, p.cl, Queue(1, [Name(0)]))
  {
    hide Name, Shaped;
    assert p.cl.nodes[1].dirty.Keys == {Name(0)};
    assert [Name(0)][0] in [Name(0)];
  }

  lemma QueuedOnce(home: Homes, p: Point, n: nat)
    requires Shaped(p.cl) && Sized(p.cl, p.au) && |p.cl.nodes| == 3 && Enabled(home, p.cl, Queue(1, [Name(0)]))
    requires p.cl.nodes[1].dirty == map[Name(0) := 1] && p.cl.nodes[1].buf == HitsOf(n)
    ensures var p' := Point(After(home, p.cl, Queue(1, [Name(0)])), AuditAfter(home, p.cl, Queue(1, [Name(0)]), p.au));
            Onward(p, p') && p'.cl.nodes[1] == p.cl.nodes[1].(buf := AllHits(n), dirty := map[])
  {
    hide Name, LostIn, Tally, HitsOf;
    assert HitOps(1, p.cl.nodes[1].dirty, [Name(0)]) == [Hit(Name(0), 1, 1)];
  }

  lemma WriteHits(home: Homes, p: Point, n: nat) returns (p': Point)
    requires Reached(home, p) && Shaped(p.cl) && Sized(p.cl, p.au) && |p.cl.nodes| == 3
    requires p.cl.nodes[1].file == [] && p.cl.nodes[1].buf == AllHits(n)
    ensures Reached(home, p') && Shaped(p'.cl) && Sized(p'.cl, p'.au) && Onward(p, p')
    ensures p'.cl.nodes[1] == p.cl.nodes[1].(file := AllHits(n), buf := [])
  {
    hide HitInv, LeadsTo, AllHits;
    p' := Proceed(home, p, Write(1));
    ReachedShape(home, p');
    assert [] + AllHits(n) == AllHits(n);
  }

  lemma FileHits(home: Homes, n: nat) returns (p: Point)
    requires 0 < n <= MAX_STRAY && forall c :: home(c) == 0
    ensures Reached(home, p) && Strayed(p, n, 0)
  {
    hide Reached, Shaped, Name, RowOps, HitsOf, AllHits;
    var p0 := VisitLinks(home, n, n);
    var p1 := QueueAll(home, p0, n);
    var p2 := HitAgain(home, p1, n);
    p := WriteHits(home, p2, n);
    assert Zeros(3) == [0, 0, 0];
  }

  // ---------- instance 2 reads hits of links it does not know ----------

  lemma {:induction false} ReadHits(home: Homes, n: nat, m: nat) returns (p: Point)
    requires m <= n <= MAX_STRAY && 0 < n && forall c :: home(c) == 0
    ensures Reached(home, p) && Strayed(p, n, m)
    decreases m
  {
    hide Reached, Strayed;
    if m == 0 {
      p := FileHits(home, n);
    } else {
      p := ReadHits(home, n, m - 1);
      p := ReadHit(home, p, n, m - 1);
    }
  }

  lemma Unknown(home: Homes, p: Point, n: nat, m: nat)
    requires Reached(home, p) && Strayed(p, n, m) && forall c :: home(c) == 0
    ensures p.cl.nodes[2].idx.data == map[] && (m <= n ==> Enabled(home, p.cl, Tail(2, 1, "")))
  {
    hide HitInv, LeadsTo, RowOps, AllHits;
    forall c ensures c !in p.cl.nodes[2].idx.data {
      RowKnownTo(home, p, 2, c);
      assert Seen(p.cl, 2, 0) == [];
    }
  }

  lemma ReadHit(home: Homes, p: Point, n: nat, m: nat) returns (p': Point)
    requires Reached(home, p) && Strayed(p, n, m) && m < n && m < MAX_STRAY && forall c :: home(c) == 0
    ensures Reached(home, p') && Strayed(p', n, m + 1)
  {
    hide Reached, After, AuditAfter, Enabled, Strayed;
    ShapeReached(home, p);
    Unknown(home, p, n, m);
    p' := Proceed(home, p, Tail(2, 1, ""));
    ShapeReached(home, p');
    StrayedMore(home, p, n, m);
  }

  lemma StrayedMore(home: Homes, p: Point, n: nat, m: nat)
    requires Strayed(p, n, m) && m < n && m < MAX_STRAY && p.cl.nodes[2].idx.data == map[]
    requires Shaped(p.cl) && Enabled(home, p.cl, Tail(2, 1, "")) && Shaped(After(home, p.cl, Tail(2, 1, "")))
    ensures Strayed(Point(After(home, p.cl, Tail(2, 1, "")), AuditAfter(home, p.cl, Tail(2, 1, ""), p.au)), n, m + 1)
  {
    hide Name, RowOps, ApplyLog, Shaped, LostIn, Tally;
    NewName(m);
    MeIs(p.cl, 2);
    StrayHit(p.cl.nodes[2], m);
    assert Names(m + 1) == Names(m) + [Name(m)];
    assert After(home, p.cl, Tail(2, 1, "")).read[2] == [0, m + 1, 0];
  }

  lemma MeIs(cl: Cluster, k: nat)
    requires Shaped(cl) && k < |cl.nodes|
    ensures cl.nodes[k].me == k
  {}

  lemma StrayHit(node: Node, m: nat)
    requires node.idx.data == map[] && Name(m) !in node.idx.stray && |node.idx.stray| < MAX_STRAY && node.me == 2
    ensures ApplyLog(2, node.idx, Hit(Name(m), 1, 1), "").stray == node.idx.stray[Name(m) := Stray(1, 0)]
  {
    DigitsParse(m);
    assert Name(m) != "" && Wrap(1) == 1;
  }

  /** The table is full: one more hit line, of a link it has, and the one hit of another is gone. */
  lemma DropHit(home: Homes) returns (p: Point)
    requires forall c :: home(c) == 0
    ensures Reached(home, p) && AllFiled(p.cl, MAX_STRAY) && Sized(p.cl, p.au)
    ensures p.cl.read == [Zeros(3), [MAX_STRAY, 0, 0], [0, MAX_STRAY + 1, 0]]
    ensures p.au.lost[1] == map[] && p.au.lost[2] == map[Name(1) := 1]
  {
    hide Reached, After, AuditAfter, Enabled, Strayed;
    var n := MAX_STRAY;
    var p0 := ReadHits(home, n, n);
    ShapeReached(home, p0);
    Unknown(home, p0, n, n);
    CanDrop(home, p0, n);
    p := Proceed(home, p0, Tail(2, 1, Name(1)));
    ShapeReached(home, p);
    Dropped(home, p0, n);
  }

  lemma CanDrop(home: Homes, p: Point, n: nat)
    requires Shaped(p.cl) && Enabled(home, p.cl, Tail(2, 1, ""))
    ensures Enabled(home, p.cl, Tail(2, 1, Name(1)))
  {}

  lemma Dropped(home: Homes, p: Point, n: nat)
    requires Strayed(p, n, n) && n == MAX_STRAY && p.cl.nodes[2].idx.data == map[]
    requires Shaped(p.cl) && Enabled(home, p.cl, Tail(2, 1, Name(1))) && Shaped(After(home, p.cl, Tail(2, 1, Name(1))))
    ensures var st := Tail(2, 1, Name(1));
            var p' := Point(After(home, p.cl, st), AuditAfter(home, p.cl, st, p.au));
            AllFiled(p'.cl, n) && Sized(p'.cl, p'.au) && p'.cl.read == [Zeros(3), [n, 0, 0], [0, n + 1, 0]] &&
            p'.au.lost[1] == map[] && p'.au.lost[2] == map[Name(1) := 1]
  {
    hide Name, RowOps, ApplyLog, AllHits, Shaped, LostIn, Tally;
    assert Names(n)[1] == Name(1);
    assert After(home, p.cl, Tail(2, 1, Name(1))).read[2] == [0, n + 1, 0];
  }

  /** Afterwards all read on to the end of every file. */
  lemma AllRead(home: Homes) returns (p: Point)
    requires forall c :: home(c) == 0
    ensures Reached(home, p) && AtRest(p.cl) && AllFiled(p.cl, MAX_STRAY) && Sized(p.cl, p.au)
    ensures p.au.lost[1] == map[] && p.au.lost[2] == map[Name(1) := 1]
  {
    hide Reached, Shaped, Name, RowOps, AllHits;
    var n := MAX_STRAY;
    var p0 := DropHit(home);
    NoHitRows(n);
    var p1 := ReadOn(home, p0, 2, 0);
    p := ReadOn(home, p1, 0, 1);
    assert Zeros(3) == [0, 0, 0];
    assert p.cl.read[0] == [0, n + 1, 0] && p.cl.read[1] == [n, 0, 0] && p.cl.read[2] == [n, n + 1, 0];
  }

  /** It does happen: three instances, a run of creations of MAX_STRAY links, resolves, flushes
      and polls alone, all flushed and caught up, and a link that is there at all of them, for
      which one reports the total and another does not. */
  lemma HitsDiverge() returns (home: Homes, steps: seq<Step>, codes: set<string>, c: string)
    ensures CountingRun(home, Start(3), steps) && CreatesIn(steps, codes) && |codes| <= MAX_STRAY
    ensures var cl, au := Run(home, Start(3), steps), Audited(home, Start(3), steps, NoAudit(3));
            AtRest(cl) && |cl.nodes| == 3 && Sized(cl, au) &&
            (forall k :: 0 <= k < 3 ==> c in cl.nodes[k].idx.data) &&
            cl.nodes[1].idx.data[c].h == Wrap(Total(au, c, 3)) &&
            cl.nodes[2].idx.data[c].h != Wrap(Total(au, c, 3))
  {
    hide HitInv, AtRest, Total, Name, Run, Audited, AllFiled, CountingRun, Links, CreatesIn;
    home, c, codes := _ => 0, Name(1), Links();
    LinksSize();
    var p := AllRead(home);
    steps :| LeadsTo(home, steps, p);
    forall k | 0 <= k < 3 ensures c in p.cl.nodes[k].idx.data {
      LinkKnown(home, p, k);
    }
    HitsAtRest(home, p.cl, p.au, 1, c);
    HitsAtRest(home, p.cl, p.au, 2, c);
    assert Wrap(0) == 0 && Wrap(1) == 1;
  }

  lemma LinksSize()
    ensures |Links()| <= MAX_STRAY
  {
    hide Names;
    SetOfSeq(Names(MAX_STRAY));
  }

  lemma {:induction false} SetOfSeq(s: seq<string>)
    ensures |set c | c in s| <= |s|
  {
    if s != [] {
      var k := |s| - 1;
      SetOfSeq(s[..k]);
      assert s == s[..k] + [s[k]];
      assert (set c | c in s) == (set c | c in s[..k]) + {s[k]};
    }
  }

  lemma LinkKnown(home: Homes, p: Point, k: nat)
    requires Reached(home, p) && AtRest(p.cl) && AllFiled(p.cl, MAX_STRAY) && k < 3 && forall c :: home(c) == 0
    ensures Name(1) in p.cl.nodes[k].idx.data
  {
    hide HitInv, LeadsTo, Name, RowOps, AllHits;
    RowKnownTo(home, p, k, Name(1));
    assert CaughtUp(p.cl, k, 0);
    assert Seen(p.cl, k, 0) == RowOps(MAX_STRAY);
    RowOfName(MAX_STRAY, 1);
  }

  // ---------- the threshold ----------

  /** A run that makes at most m links and has come to rest. */
  ghost predicate Rests(home: Homes, n: nat, steps: seq<Step>, codes: set<string>, m: nat) {
    n <= MAX_INSTANCES && CountingRun(home, Start(n), steps) && CreatesIn(steps, codes) && |codes| <= m &&
    AtRest(Run(home, Start(n), steps))
  }

  /** Whoever makes at most m links finds the same counters everywhere in the end. */
  ghost predicate AgreeUpTo(m: nat) {
    forall home: Homes, n: nat, steps: seq<Step>, codes: set<string> ::
      Rests(home, n, steps, codes, m) ==> SameCounters(Run(home, Start(n), steps))
  }

  ghost predicate SameCounters(cl: Cluster) {
    forall k, j, c :: 0 <= k < |cl.nodes| && 0 <= j < |cl.nodes| ==>
      HitsIn(cl.nodes[k].idx, c) == HitsIn(cl.nodes[j].idx, c)
  }

  /** Hit counters are the same everywhere, in all runs with at most m links that have come to
      rest, if and only if m is below the capacity of a stray table. */
  lemma AgreeIff(m: nat)
    ensures AgreeUpTo(m) <==> m < MAX_STRAY
  {
    hide Run, SameCounters, Legal;
    if m < MAX_STRAY {
      forall home: Homes, n: nat, steps: seq<Step>, codes: set<string> | Rests(home, n, steps, codes, m)
        ensures SameCounters(Run(home, Start(n), steps))
      {
        FewSame(home, n, steps, codes, m);
      }
    } else {
      var home, steps, codes := SomeDiffer(m);
    }
  }

  lemma SomeDiffer(m: nat) returns (home: Homes, steps: seq<Step>, codes: set<string>)
    requires MAX_STRAY <= m
    ensures Rests(home, 3, steps, codes, m) && !SameCounters(Run(home, Start(3), steps))
  {
    hide Run, AtRest, SameCounters, CreatesIn, Audited, Total, Legal;
    var c;
    home, steps, codes, c := HitsDiverge();
    Differ(Run(home, Start(3), steps), c);
  }

  lemma FewSame(home: Homes, n: nat, steps: seq<Step>, codes: set<string>, m: nat)
    requires Rests(home, n, steps, codes, m) && m < MAX_STRAY
    ensures SameCounters(Run(home, Start(n), steps))
  {
    hide Legal, Run, AtRest, CreatesIn, HitsIn, Total, Audited;
    var cl := Run(home, Start(n), steps);
    forall k, j, c | 0 <= k < |cl.nodes| && 0 <= j < |cl.nodes|
      ensures HitsIn(cl.nodes[k].idx, c) == HitsIn(cl.nodes[j].idx, c)
    {
      FewLinksAgree(home, n, steps, codes, k, c);
      FewLinksAgree(home, n, steps, codes, j, c);
    }
  }

  lemma Differ(cl: Cluster, c: string)
    requires |cl.nodes| == 3 && c in cl.nodes[1].idx.data && c in cl.nodes[2].idx.data
    requires cl.nodes[1].idx.data[c].h != cl.nodes[2].idx.data[c].h
    ensures !SameCounters(cl)
  {
    assert HitsIn(cl.nodes[1].idx, c) != HitsIn(cl.nodes[2].idx, c);
  }
}
