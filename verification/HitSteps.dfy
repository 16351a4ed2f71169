/** Hit counters across N instances, one step at a time: what every step but a crash keeps. */
module HitSteps {
  import opened Ints
  import opened LogLine
  import opened Options
  import opened Table
  import opened Instance
  import opened Cluster

  /** Bookkeeping beside the run: the hits each instance counted, but for those of which a crash
      left no record, and the deltas each threw away when its stray table was full. */
  datatype Audit = Audit(counted: seq<map<string, int>>, lost: seq<map<string, int>>)

  function Get(m: map<string, int>, c: string): int {
    if c in m then m[c] else 0
  }

  function AddTo(m: map<string, int>, c: string, d: int): map<string, int> {
    m[c := Get(m, c) + d]
  }

  /** A line that makes an instance drop what it knows about `victim`. */
  predicate Drops(s: Index, o: LogOp, victim: string) {
    o.Hit? && o.c !in s.data && |s.stray| >= MAX_STRAY && victim in s.stray
  }

  /** A line that an instance reads makes it drop something. */
  ghost predicate Evicts(cl: Cluster, st: Step)
    requires Shaped(cl) && st.k < |cl.nodes|
  {
    st.Tail? && st.j < |cl.nodes| && cl.read[st.k][st.j] < |cl.nodes[st.j].file| &&
    Drops(cl.nodes[st.k].idx, Next(cl, st.k, st.j), st.victim)
  }

  /** The hits a log records, by code. */
  function Tally(ops: seq<LogOp>): map<string, int>
    decreases |ops|
  {
    if ops == [] then map[]
    else
      var o, before := ops[|ops| - 1], Tally(ops[..|ops| - 1]);
      if o.Hit? then AddTo(before, o.c, o.d) else before
  }

  /** What a replay of a log throws away. */
  function LostIn(me: nat, ops: seq<LogOp>, victims: seq<string>): map<string, int>
    requires |victims| == |ops|
    decreases |ops|
  {
    if ops == [] then map[]
    else
      var k := |ops| - 1;
      var s, before := Replay(me, EMPTY, ops[..k], victims[..k]), LostIn(me, ops[..k], victims[..k]);
      if Drops(s, ops[k], victims[k]) then AddTo(before, victims[k], s.stray[victims[k]].t) else before
  }

  ghost function AuditAfter(home: Homes, cl: Cluster, st: Step, au: Audit): Audit
    requires Shaped(cl) && Enabled(home, cl, st) && |au.counted| == |au.lost| == |cl.nodes|
  {
    var k := st.k;
    if st.Restart? then
      var ops := cl.nodes[k].file + cl.nodes[k].buf[..st.kept];
      Audit(au.counted[k := Tally(ops)], au.lost[k := LostIn(cl.nodes[k].me, ops, st.victims)])
    else if st.Visit? && Live(cl.nodes[k], st.code, st.now) then
      au.(counted := au.counted[k := AddTo(au.counted[k], st.code, 1)])
    else if Evicts(cl, st) then
      au.(lost := au.lost[k := AddTo(au.lost[k], st.victim, cl.nodes[k].idx.stray[st.victim].t)])
    else au
  }

  ghost predicate Logging(st: Step) {
    st.Create? || st.Visit? || st.Queue? || st.Write? || st.Tail?
  }

  // ---------- deltas ----------

  function Deltas(ops: seq<LogOp>, c: string): int
    decreases |ops|
  {
    if ops == [] then 0
    else
      var o := ops[|ops| - 1];
      Deltas(ops[..|ops| - 1], c) + if o.Hit? && o.c == c then o.d else 0
  }

  lemma DeltasSnoc(ops: seq<LogOp>, o: LogOp, c: string)
    ensures Deltas(ops + [o], c) == Deltas(ops, c) + if o.Hit? && o.c == c then o.d else 0
  {
    assert (ops + [o])[..|ops|] == ops;
  }

  ghost predicate NoHits(ops: seq<LogOp>, c: string) {
    forall p :: 0 <= p < |ops| ==> !(ops[p].Hit? && ops[p].c == c)
  }

  lemma {:induction false} DeltasZero(ops: seq<LogOp>, c: string)
    requires NoHits(ops, c)
    ensures Deltas(ops, c) == 0
    decreases |ops|
  {
    if ops != [] {
      DeltasZero(ops[..|ops| - 1], c);
    }
  }

  lemma {:induction false} DeltasQueued(n: Node, ops: seq<LogOp>, order: seq<string>, c: string)
    requires forall j :: 0 <= j < |order| ==> order[j] in n.dirty
    requires forall j, k :: 0 <= j < k < |order| ==> order[j] != order[k]
    ensures Deltas(ops + HitOps(n.me, n.dirty, order), c) == Deltas(ops, c) + if c in order then n.dirty[c] else 0
    decreases |order|
  {
    hide Deltas;
    var hits := HitOps(n.me, n.dirty, order);
    if order == [] {
      assert ops + hits == ops;
    } else {
      var k := |order| - 1;
      var front := HitOps(n.me, n.dirty, order[..k]);
      DeltasQueued(n, ops, order[..k], c);
      assert order == order[..k] + [order[k]];
      assert ops + hits == (ops + front) + [hits[k]];
      DeltasSnoc(ops + front, hits[k], c);
    }
  }

  /** All deltas of `c` that k has seen in the logs of the first m instances. */
  ghost function SumSeen(cl: Cluster, k: nat, c: string, m: nat): int
    requires Shaped(cl) && k < |cl.nodes| && m <= |cl.nodes|
  {
    if m == 0 then 0 else SumSeen(cl, k, c, m - 1) + Deltas(Seen(cl, k, m - 1), c)
  }

  lemma {:induction false} SumShift(cl: Cluster, cl': Cluster, k: nat, c: string, m: nat, j: nat, d: int)
    requires Shaped(cl) && Shaped(cl') && |cl.nodes| == |cl'.nodes| && k < |cl.nodes| && m <= |cl.nodes|
    requires j < |cl.nodes|
    requires Deltas(Seen(cl', k, j), c) == Deltas(Seen(cl, k, j), c) + d
    requires forall i :: 0 <= i < |cl.nodes| && i != j ==> Seen(cl', k, i) == Seen(cl, k, i)
    ensures SumSeen(cl', k, c, m) == SumSeen(cl, k, c, m) + if j < m then d else 0
    decreases m
  {
    hide Shaped, Deltas;
    if m > 0 {
      SumShift(cl, cl', k, c, m - 1, j, d);
      assert m - 1 != j ==> Seen(cl', k, m - 1) == Seen(cl, k, m - 1);
    }
  }

  lemma {:induction false} SumZero(cl: Cluster, k: nat, c: string, m: nat)
    requires Shaped(cl) && k < |cl.nodes| && m <= |cl.nodes|
    requires forall j :: 0 <= j < |cl.nodes| ==> NoHits(cl.nodes[j].file + cl.nodes[j].buf, c)
    ensures SumSeen(cl, k, c, m) == 0
    decreases m
  {
    if m > 0 {
      SumZero(cl, k, c, m - 1);
      var all, ops := cl.nodes[m - 1].file + cl.nodes[m - 1].buf, Seen(cl, k, m - 1);
      assert NoHits(all, c);
      assert forall p :: 0 <= p < |ops| ==> ops[p] == all[p];
      DeltasZero(ops, c);
    }
  }

  // ---------- the invariant ----------

  /** The counter of `c`: in its row, or among the strays until the row arrives. */
  function HitsIn(s: Index, c: string): int64 {
    if c in s.data then s.data[c].h else StrayOf(s, c).t
  }

  ghost function LogOf(cl: Cluster, j: nat): seq<LogOp>
    requires j < |cl.nodes|
  {
    cl.nodes[j].file + cl.nodes[j].buf
  }

  /** `c` was created. */
  ghost predicate Born(home: Homes, cl: Cluster, c: string) {
    0 <= home(c) < |cl.nodes| && RowAt(LogOf(cl, home(c)), c).Some?
  }

  /** Instance j has never heard of a hit on `c`. */
  ghost predicate Quiet(cl: Cluster, au: Audit, j: nat, c: string)
    requires j < |cl.nodes| && j < |au.lost|
  {
    c !in cl.nodes[j].dirty && NoHits(LogOf(cl, j), c) && c !in cl.nodes[j].idx.stray && Get(au.lost[j], c) == 0
  }

  /** Logs hold fresh rows and hits, and no code twice. */
  ghost predicate Growth(ops: seq<LogOp>) {
    (forall p :: 0 <= p < |ops| ==> !ops[p].Del? && (ops[p].Row? ==> ops[p].n == 0)) &&
    (forall p, q :: 0 <= p < q < |ops| && ops[p].Row? && ops[q].Row? ==> ops[p].c != ops[q].c)
  }

  /** The counter is the sum of all deltas seen and still pending, less what was evicted. */
  ghost predicate HitSum(cl: Cluster, au: Audit, k: nat, c: string)
    requires Shaped(cl) && k < |cl.nodes| && k < |au.lost|
  {
    HitsIn(cl.nodes[k].idx, c) ==
    Wrap(SumSeen(cl, k, c, |cl.nodes|) + DirtyOf(cl.nodes[k], c) - Get(au.lost[k], c))
  }

  /** What k logged and still holds back is what it counted. */
  ghost predicate OwnSum(cl: Cluster, au: Audit, k: nat, c: string)
    requires k < |cl.nodes| && k < |au.counted|
  {
    Wrap(Deltas(LogOf(cl, k), c) + DirtyOf(cl.nodes[k], c)) == Wrap(Get(au.counted[k], c))
  }

  ghost predicate Sized(cl: Cluster, au: Audit) {
    |au.counted| == |au.lost| == |cl.nodes|
  }

  ghost predicate HitInv(home: Homes, cl: Cluster, au: Audit) {
    RowsConverge(home, cl) && Sized(cl, au) &&
    (forall j :: 0 <= j < |cl.nodes| ==> Growth(LogOf(cl, j))) &&
    (forall j, c :: 0 <= j < |cl.nodes| && !Born(home, cl, c) ==> Quiet(cl, au, j, c)) &&
    (forall j, c :: 0 <= j < |cl.nodes| && c in cl.nodes[j].idx.stray ==> c !in cl.nodes[j].idx.data) &&
    (forall k, c :: 0 <= k < |cl.nodes| ==> HitSum(cl, au, k, c)) &&
    (forall k, c :: 0 <= k < |cl.nodes| ==> OwnSum(cl, au, k, c))
  }

  // ---------- logs only grow ----------

  lemma {:induction false} NoRow(ops: seq<LogOp>, c: string)
    requires Growth(ops) && RowAt(ops, c) == None
    ensures forall p :: 0 <= p < |ops| && ops[p].Row? ==> ops[p].c != c
    decreases |ops|
  {
    if ops != [] {
      var k := |ops| - 1;
      assert !ops[k].Del?;
      assert Growth(ops[..k]);
      NoRow(ops[..k], c);
      assert forall p :: 0 <= p < k ==> ops[..k][p] == ops[p];
    }
  }

  lemma {:induction false} RowStays(ops: seq<LogOp>, r: nat, c: string)
    requires Growth(ops) && r <= |ops| && RowAt(ops[..r], c).Some?
    ensures RowAt(ops, c).Some?
    decreases |ops|
  {
    if r == |ops| {
      assert ops[..r] == ops;
    } else {
      var k := |ops| - 1;
      assert !ops[k].Del?;
      assert Growth(ops[..k]) && ops[..k][..r] == ops[..r];
      RowStays(ops[..k], r, c);
    }
  }

  lemma GrowthSnoc(ops: seq<LogOp>, o: LogOp)
    requires Growth(ops) && !o.Del?
    requires o.Row? ==> o.n == 0 && RowAt(ops, o.c) == None
    ensures Growth(ops + [o])
  {
    if o.Row? {
      NoRow(ops, o.c);
    }
  }

  lemma GrowthHits(ops: seq<LogOp>, hits: seq<LogOp>)
    requires Growth(ops) && forall p :: 0 <= p < |hits| ==> hits[p].Hit?
    ensures Growth(ops + hits)
  {}

  /** A row an instance holds is in its owner's log. */
  lemma PresentBorn(home: Homes, cl: Cluster, au: Audit, k: nat, c: string)
    requires HitInv(home, cl, au) && k < |cl.nodes| && c in cl.nodes[k].idx.data
    ensures Born(home, cl, c)
  {
    assert Proper1(home, cl, k) && RowKnown(home, cl, k, c);
    var j := home(c);
    var all := LogOf(cl, j);
    if k != j {
      var r := cl.read[k][j];
      assert cl.nodes[j].file[..r] == all[..r];
      RowStays(all, r, c);
    }
  }

  /** What step `st` appends to the log of instance `st.k`. */
  ghost function Appended(home: Homes, cl: Cluster, st: Step): seq<LogOp>
    requires Shaped(cl) && Enabled(home, cl, st) && Logging(st)
  {
    match st
    case Create(k, code, url, now, exp) => [Row(code, url, now, exp, k, 0)]
    case Queue(k, order) => HitOps(cl.nodes[k].me, cl.nodes[k].dirty, order)
    case _ => []
  }

  lemma LogAfter(home: Homes, cl: Cluster, st: Step, j: nat)
    requires Shaped(cl) && Enabled(home, cl, st) && Logging(st) && j < |cl.nodes|
    ensures LogOf(After(home, cl, st), j) ==
            if j == st.k then LogOf(cl, j) + Appended(home, cl, st) else LogOf(cl, j)
  {
    var n, n' := cl.nodes[st.k], After(home, cl, st).nodes[st.k];
    if st.Write? {
      assert (n.file + n.buf) + [] == n'.file + n'.buf;
    } else {
      assert n.file + (n.buf + Appended(home, cl, st)) == (n.file + n.buf) + Appended(home, cl, st);
    }
  }

  /** What k sees of j after a step: one more line when it tails j, its own new lines. */
  lemma SeenAfter(home: Homes, cl: Cluster, st: Step, m: nat, j: nat)
    requires Shaped(cl) && Enabled(home, cl, st) && Logging(st) && m < |cl.nodes| && j < |cl.nodes|
    ensures Shaped(After(home, cl, st))
    ensures Seen(After(home, cl, st), m, j) ==
            if m == st.k && j == m then Seen(cl, m, j) + Appended(home, cl, st)
            else if st.Tail? && m == st.k && j == st.j then Seen(cl, m, j) + [Next(cl, m, j)]
            else Seen(cl, m, j)
  {
    hide Shaped, Appended, After, Enabled, Next;
    ShapeKept(home, cl, st);
    if m == j {
      LogAfter(home, cl, st, j);
      assert Seen(cl, m, j) == LogOf(cl, j) && Seen(After(home, cl, st), m, j) == LogOf(After(home, cl, st), j);
      if st.Tail? {
        TailsOther(home, cl, st);
      }
    } else {
      SiblingAfter(home, cl, st, m, j);
    }
  }

  lemma TailsOther(home: Homes, cl: Cluster, st: Step)
    requires Shaped(cl) && Enabled(home, cl, st) && st.Tail?
    ensures st.j != st.k
  {}

  lemma ShapeKept(home: Homes, cl: Cluster, st: Step)
    requires Shaped(cl) && Enabled(home, cl, st) && Logging(st)
    ensures Shaped(After(home, cl, st)) && |After(home, cl, st).nodes| == |cl.nodes|
  {
    hide Appended;
    forall j | 0 <= j < |cl.nodes| ensures cl.nodes[j].file <= After(home, cl, st).nodes[j].file {
      FileGrows(home, cl, st, j);
    }
  }

  lemma SiblingAfter(home: Homes, cl: Cluster, st: Step, m: nat, j: nat)
    requires Shaped(cl) && Enabled(home, cl, st) && Logging(st) && m < |cl.nodes| && j < |cl.nodes| && m != j
    requires Shaped(After(home, cl, st))
    ensures Seen(After(home, cl, st), m, j) ==
            if st.Tail? && m == st.k && j == st.j then Seen(cl, m, j) + [Next(cl, m, j)] else Seen(cl, m, j)
  {
    hide Shaped, Appended, NodeAfter;
    FileGrows(home, cl, st, j);
    ReadIn(cl, m, j);
  }

  lemma ReadIn(cl: Cluster, m: nat, j: nat)
    requires Shaped(cl) && m < |cl.nodes| && j < |cl.nodes|
    ensures m < |cl.read| && j < |cl.read[m]| && cl.read[m][j] <= |cl.nodes[j].file|
  {}

  lemma FileGrows(home: Homes, cl: Cluster, st: Step, j: nat)
    requires Shaped(cl) && Enabled(home, cl, st) && Logging(st) && j < |cl.nodes|
    ensures j < |After(home, cl, st).nodes| && cl.nodes[j].file <= After(home, cl, st).nodes[j].file
  {
    hide Appended;
  }

  lemma BornAfter(home: Homes, cl: Cluster, au: Audit, st: Step, c: string)
    requires HitInv(home, cl, au) && Enabled(home, cl, st) && Logging(st)
    ensures Born(home, cl, c) ==> Born(home, After(home, cl, st), c)
  {
    if Born(home, cl, c) {
      var j := home(c);
      LogAfter(home, cl, st, j);
      var tail := Appended(home, cl, st);
      RowAtAppend(LogOf(cl, j), tail, c);
      if j == st.k && st.Create? {
        assert tail == [] + [tail[0]];
        RowAtSnoc([], tail[0], c);
      }
    }
  }

  lemma CreateUnborn(home: Homes, cl: Cluster, au: Audit, st: Step)
    requires HitInv(home, cl, au) && Enabled(home, cl, st) && st.Create?
    ensures !Born(home, cl, st.code) && RowAt(LogOf(cl, st.k), st.code) == None
  {
    assert RowKnown(home, cl, st.k, st.code);
  }

  lemma GrowthKept(home: Homes, cl: Cluster, au: Audit, st: Step, j: nat)
    requires HitInv(home, cl, au) && Enabled(home, cl, st) && Logging(st) && j < |cl.nodes|
    ensures Growth(LogOf(After(home, cl, st), j))
  {
    LogAfter(home, cl, st, j);
    assert Growth(LogOf(cl, j));
    if j == st.k {
      if st.Create? {
        CreateUnborn(home, cl, au, st);
        GrowthSnoc(LogOf(cl, j), Appended(home, cl, st)[0]);
      } else {
        GrowthHits(LogOf(cl, j), Appended(home, cl, st));
      }
    }
  }

  lemma TailQuiet(home: Homes, cl: Cluster, au: Audit, st: Step, c: string)
    requires HitInv(home, cl, au) && Enabled(home, cl, st) && st.Tail? && !Born(home, cl, c)
    ensures c !in NodeAfter(home, cl, st).idx.stray
    ensures Get(AuditAfter(home, cl, st, au).lost[st.k], c) == 0
  {
    var o := Next(cl, st.k, st.j);
    assert Quiet(cl, au, st.j, c) && Quiet(cl, au, st.k, c);
    assert LogOf(cl, st.j)[cl.read[st.k][st.j]] == o;
    NextProper(home, cl, st.k, st.j);
    ApplyStray(cl.nodes[st.k].me, cl.nodes[st.k].idx, o, st.victim, c);
  }

  lemma LogQuiet(home: Homes, cl: Cluster, au: Audit, st: Step, j: nat, c: string)
    requires HitInv(home, cl, au) && Enabled(home, cl, st) && Logging(st) && j < |cl.nodes|
    requires !Born(home, cl, c)
    ensures NoHits(LogOf(After(home, cl, st), j), c)
  {
    hide NodeAfter;
    LogAfter(home, cl, st, j);
    assert Quiet(cl, au, j, c) && Quiet(cl, au, st.k, c);
  }

  lemma NodeQuiet(home: Homes, cl: Cluster, au: Audit, st: Step, c: string)
    requires HitInv(home, cl, au) && Enabled(home, cl, st) && Logging(st) && !st.Tail?
    requires !Born(home, cl, c)
    ensures c !in NodeAfter(home, cl, st).dirty && c !in NodeAfter(home, cl, st).idx.stray
    ensures AuditAfter(home, cl, st, au).lost == au.lost
  {
    assert Quiet(cl, au, st.k, c);
    if st.Visit? && Live(cl.nodes[st.k], st.code, st.now) {
      PresentBorn(home, cl, au, st.k, st.code);
    }
  }

  lemma QuietKept(home: Homes, cl: Cluster, au: Audit, st: Step, j: nat, c: string)
    requires HitInv(home, cl, au) && Enabled(home, cl, st) && Logging(st) && j < |cl.nodes|
    requires !Born(home, After(home, cl, st), c)
    ensures Quiet(After(home, cl, st), AuditAfter(home, cl, st, au), j, c)
  {
    hide Apply, Growth, HitSum, OwnSum, RowKnown, Proper1, NoHits;
    BornAfter(home, cl, au, st, c);
    LogQuiet(home, cl, au, st, j, c);
    assert Quiet(cl, au, j, c);
    if st.Tail? {
      assert NodeAfter(home, cl, st).dirty == cl.nodes[st.k].dirty;
      TailQuiet(home, cl, au, st, c);
    } else {
      NodeQuiet(home, cl, au, st, c);
    }
  }

  // ---------- sums ----------

  /** How one applied line moves the counter of `c`. */
  lemma ApplyHits(me: nat, s: Index, o: LogOp, victim: string, c: string)
    requires o.c != "" && !o.Del? && (o.Row? ==> o.n == 0 && o.c !in s.data)
    requires c in s.stray ==> c !in s.data
    ensures HitsIn(ApplyLog(me, s, o, victim), c) ==
            Wrap(HitsIn(s, c) + (if o.Hit? && o.c == c then o.d else 0)
                 - (if Drops(s, o, victim) && c == victim then s.stray[victim].t else 0))
  {
    hide Wrap, Wrap32, MakeRoom;
    WrapWhole(HitsIn(s, c));
    WrapWhole(0);
    if o.Hit? && o.c !in s.data {
      RoomMade(s.stray, victim, o.c);
      RoomMade(s.stray, victim, c);
    }
  }

  /** The sum of what is seen moves as the logs it sees do. */
  lemma SumAfter(home: Homes, cl: Cluster, st: Step, m: nat, c: string)
    requires Shaped(cl) && Enabled(home, cl, st) && Logging(st) && m < |cl.nodes|
    ensures var cl' := After(home, cl, st);
            Shaped(cl') &&
            SumSeen(cl', m, c, |cl.nodes|) == SumSeen(cl, m, c, |cl.nodes|) +
              if m != st.k then 0
              else if st.Queue? then DirtyOf(cl.nodes[m], c)
              else if st.Tail? && Next(cl, m, st.j).Hit? && Next(cl, m, st.j).c == c then Next(cl, m, st.j).d
              else 0
  {
    hide Deltas, Appended;
    var cl' := After(home, cl, st);
    forall i | 0 <= i < |cl.nodes|
      ensures Seen(cl', m, i) ==
              if m == st.k && i == m then Seen(cl, m, i) + Appended(home, cl, st)
              else if st.Tail? && m == st.k && i == st.j then Seen(cl, m, i) + [Next(cl, m, i)]
              else Seen(cl, m, i)
    {
      SeenAfter(home, cl, st, m, i);
    }
    SeenAfter(home, cl, st, m, m);
    if st.Tail? && m == st.k {
      NothingAppended(home, cl, st);
      DeltasSnoc(Seen(cl, m, st.j), Next(cl, m, st.j), c);
      SumShift(cl, cl', m, c, |cl.nodes|, st.j, Deltas(Seen(cl', m, st.j), c) - Deltas(Seen(cl, m, st.j), c));
    } else {
      AppendedDeltas(home, cl, st, Seen(cl, m, m), c);
      SumShift(cl, cl', m, c, |cl.nodes|, m, Deltas(Seen(cl', m, m), c) - Deltas(Seen(cl, m, m), c));
    }
  }

  lemma NothingAppended(home: Homes, cl: Cluster, st: Step)
    requires Shaped(cl) && Enabled(home, cl, st) && st.Tail?
    ensures Appended(home, cl, st) == []
    ensures Seen(cl, st.k, st.k) + [] == Seen(cl, st.k, st.k)
  {}

  lemma AppendedDeltas(home: Homes, cl: Cluster, st: Step, ops: seq<LogOp>, c: string)
    requires Shaped(cl) && Enabled(home, cl, st) && Logging(st)
    ensures Deltas(ops + Appended(home, cl, st), c) ==
            Deltas(ops, c) + if st.Queue? then DirtyOf(cl.nodes[st.k], c) else 0
  {
    assert ops + [] == ops;
    if st.Create? {
      DeltasSnoc(ops, Row(st.code, st.url, st.now, st.exp, st.k, 0), c);
    } else if st.Queue? {
      DeltasQueued(cl.nodes[st.k], ops, st.order, c);
    }
  }

  // ---------- the invariant is kept ----------

  lemma CreateHits(home: Homes, cl: Cluster, au: Audit, st: Step, c: string)
    requires HitInv(home, cl, au) && Enabled(home, cl, st) && st.Create?
    ensures HitSum(After(home, cl, st), AuditAfter(home, cl, st, au), st.k, c)
  {
    hide SumSeen, Growth;
    var cl' := After(home, cl, st);
    assert HitSum(cl, au, st.k, c);
    SumAfter(home, cl, st, st.k, c);
    if c == st.code {
      CreateUnborn(home, cl, au, st);
      forall j | 0 <= j < |cl.nodes| ensures NoHits(cl.nodes[j].file + cl.nodes[j].buf, c) {
        assert Quiet(cl, au, j, c);
      }
      assert Quiet(cl, au, st.k, c);
      SumZero(cl, st.k, c, |cl.nodes|);
      assert Wrap(0) == 0;
    }
  }

  lemma VisitCount(seen: int, dirty: int64, lost: int)
    ensures Wrap(Wrap(seen + dirty - lost) + 1) == Wrap(seen + Wrap(dirty + 1) - lost)
  {
    hide Wrap;
    WrapAdd(seen + dirty - lost, 1);
    WrapAdd(dirty + 1, seen - lost);
  }

  lemma VisitHits(home: Homes, cl: Cluster, au: Audit, st: Step, c: string)
    requires HitInv(home, cl, au) && Enabled(home, cl, st) && st.Visit?
    ensures HitSum(After(home, cl, st), AuditAfter(home, cl, st, au), st.k, c)
  {
    hide SumSeen, Growth, Quiet, OwnSum, RowKnown, Proper1, Wrap;
    var n := cl.nodes[st.k];
    assert HitSum(cl, au, st.k, c);
    SumAfter(home, cl, st, st.k, c);
    if Live(n, st.code, st.now) && c == st.code {
      VisitCount(SumSeen(cl, st.k, c, |cl.nodes|), DirtyOf(n, c), Get(au.lost[st.k], c));
    }
  }

  lemma QueueHits(home: Homes, cl: Cluster, au: Audit, st: Step, c: string)
    requires HitInv(home, cl, au) && Enabled(home, cl, st) && (st.Queue? || st.Write?)
    ensures HitSum(After(home, cl, st), AuditAfter(home, cl, st, au), st.k, c)
  {
    hide SumSeen, Growth;
    assert HitSum(cl, au, st.k, c);
    SumAfter(home, cl, st, st.k, c);
  }

  /** A row that is read for the first time finds its code absent. */
  lemma FirstRow(home: Homes, cl: Cluster, au: Audit, st: Step)
    requires HitInv(home, cl, au) && Enabled(home, cl, st) && st.Tail?
    ensures var o := Next(cl, st.k, st.j);
            Proper(home, st.j, o) && !o.Del? && (o.Row? ==> o.n == 0 && o.c !in cl.nodes[st.k].idx.data)
  {
    var o, r := Next(cl, st.k, st.j), cl.read[st.k][st.j];
    var all := LogOf(cl, st.j);
    NextProper(home, cl, st.k, st.j);
    assert Growth(all) && all[r] == o;
    if o.Row? {
      assert RowKnown(home, cl, st.k, o.c);
      var seen := Seen(cl, st.k, st.j);
      assert forall p :: 0 <= p < |seen| ==> seen[p] == all[p];
      if RowAt(seen, o.c).Some? {
        RowLogged(seen, o.c);
      }
    }
  }

  /** What a tailed line adds to the counter of `c`, and what room for it costs. */
  ghost function Gain(o: LogOp, c: string): int {
    if o.Hit? && o.c == c then o.d else 0
  }

  ghost function Loss(s: Index, o: LogOp, victim: string, c: string): int {
    if Drops(s, o, victim) && c == victim then s.stray[victim].t else 0
  }

  lemma TailTerms(home: Homes, cl: Cluster, au: Audit, st: Step, c: string)
    requires HitInv(home, cl, au) && Enabled(home, cl, st) && st.Tail?
    ensures var cl', au' := After(home, cl, st), AuditAfter(home, cl, st, au);
            var n, o := cl.nodes[st.k], Next(cl, st.k, st.j);
            Shaped(cl') &&
            SumSeen(cl', st.k, c, |cl.nodes|) == SumSeen(cl, st.k, c, |cl.nodes|) + Gain(o, c) &&
            Get(au'.lost[st.k], c) == Get(au.lost[st.k], c) + Loss(n.idx, o, st.victim, c) &&
            DirtyOf(cl'.nodes[st.k], c) == DirtyOf(n, c)
  {
    hide SumSeen, ApplyLog, Growth, HitSum, OwnSum, Quiet, RowKnown, Proper1;
    SumAfter(home, cl, st, st.k, c);
  }

  lemma TailHits(home: Homes, cl: Cluster, au: Audit, st: Step, c: string)
    requires HitInv(home, cl, au) && Enabled(home, cl, st) && st.Tail?
    ensures HitSum(After(home, cl, st), AuditAfter(home, cl, st, au), st.k, c)
  {
    hide SumSeen, Growth, ApplyLog, AuditAfter, Gain, Loss, RowKnown, Proper1, OwnSum, Quiet;
    var n, o := cl.nodes[st.k], Next(cl, st.k, st.j);
    var gain, loss := Gain(o, c), Loss(n.idx, o, st.victim, c);
    assert HitSum(cl, au, st.k, c);
    TailTerms(home, cl, au, st, c);
    FirstRow(home, cl, au, st);
    AppliedHits(n.me, n.idx, o, st.victim, c);
    var seen := SumSeen(cl, st.k, c, |cl.nodes|) + DirtyOf(n, c) - Get(au.lost[st.k], c);
    WrapAdd(seen, gain - loss);
  }

  lemma AppliedHits(me: nat, s: Index, o: LogOp, victim: string, c: string)
    requires o.c != "" && !o.Del? && (o.Row? ==> o.n == 0 && o.c !in s.data)
    requires c in s.stray ==> c !in s.data
    ensures HitsIn(ApplyLog(me, s, o, victim), c) == Wrap(HitsIn(s, c) + (Gain(o, c) - Loss(s, o, victim, c)))
  {
    ApplyHits(me, s, o, victim, c);
  }

  /** Other instances' tables and views stay as they were. */
  lemma OtherHits(home: Homes, cl: Cluster, au: Audit, st: Step, m: nat, c: string)
    requires HitInv(home, cl, au) && Enabled(home, cl, st) && Logging(st) && m < |cl.nodes| && m != st.k
    ensures HitSum(After(home, cl, st), AuditAfter(home, cl, st, au), m, c)
  {
    hide SumSeen, Growth, NodeAfter;
    assert HitSum(cl, au, m, c);
    SumAfter(home, cl, st, m, c);
  }

  lemma HitSumKept(home: Homes, cl: Cluster, au: Audit, st: Step, m: nat, c: string)
    requires HitInv(home, cl, au) && Enabled(home, cl, st) && Logging(st) && m < |cl.nodes|
    ensures HitSum(After(home, cl, st), AuditAfter(home, cl, st, au), m, c)
  {
    hide HitSum, HitInv, After, AuditAfter;
    if m != st.k {
      OtherHits(home, cl, au, st, m, c);
    } else if st.Create? {
      CreateHits(home, cl, au, st, c);
    } else if st.Visit? {
      VisitHits(home, cl, au, st, c);
    } else if st.Tail? {
      TailHits(home, cl, au, st, c);
    } else {
      QueueHits(home, cl, au, st, c);
    }
  }

  lemma VisitOwn(logged: int, dirty: int64, counted: int)
    requires Wrap(logged + dirty) == Wrap(counted)
    ensures Wrap(logged + Wrap(dirty + 1)) == Wrap(counted + 1)
  {
    WrapAdd(dirty + 1, logged);
    WrapCong(logged + dirty, counted, 1);
  }

  lemma OwnSumKept(home: Homes, cl: Cluster, au: Audit, st: Step, m: nat, c: string)
    requires HitInv(home, cl, au) && Enabled(home, cl, st) && Logging(st) && m < |cl.nodes|
    ensures OwnSum(After(home, cl, st), AuditAfter(home, cl, st, au), m, c)
  {
    hide Deltas, Growth, Apply, Appended, Quiet, HitSum, RowKnown, Proper1, Wrap, LostIn, Tally, Born;
    assert OwnSum(cl, au, m, c);
    LogAfter(home, cl, st, m);
    if m == st.k {
      AppendedDeltas(home, cl, st, LogOf(cl, m), c);
      if st.Visit? && Live(cl.nodes[m], st.code, st.now) && c == st.code {
        VisitOwn(Deltas(LogOf(cl, m), c), DirtyOf(cl.nodes[m], c), Get(au.counted[m], c));
      }
    }
  }

  lemma StrayKept(home: Homes, cl: Cluster, au: Audit, st: Step, m: nat, c: string)
    requires HitInv(home, cl, au) && Enabled(home, cl, st) && Logging(st) && m < |cl.nodes|
    requires c in After(home, cl, st).nodes[m].idx.stray
    ensures c !in After(home, cl, st).nodes[m].idx.data
  {
    hide Growth, HitSum, OwnSum;
    if m == st.k {
      if st.Create? {
        CreateUnborn(home, cl, au, st);
        assert Quiet(cl, au, m, st.code);
      } else if st.Tail? {
        NextProper(home, cl, m, st.j);
        ApplyStray(cl.nodes[m].me, cl.nodes[m].idx, Next(cl, m, st.j), st.victim, c);
        ApplyRowIn(cl.nodes[m].me, cl.nodes[m].idx, Next(cl, m, st.j), st.victim, c);
        assert RowIn(cl.nodes[m].idx, c).Some? <==> c in cl.nodes[m].idx.data;
      }
    }
  }

  lemma StepCounts(home: Homes, cl: Cluster, au: Audit, st: Step)
    requires HitInv(home, cl, au) && Enabled(home, cl, st) && Logging(st)
    ensures HitInv(home, After(home, cl, st), AuditAfter(home, cl, st, au))
  {
    hide Growth, HitSum, OwnSum, Quiet, NodeAfter, Born;
    var cl', au' := After(home, cl, st), AuditAfter(home, cl, st, au);
    StepConverges(home, cl, st);
    forall j | 0 <= j < |cl'.nodes| ensures Growth(LogOf(cl', j)) {
      GrowthKept(home, cl, au, st, j);
    }
    forall j, c | 0 <= j < |cl'.nodes| && !Born(home, cl', c) ensures Quiet(cl', au', j, c) {
      QuietKept(home, cl, au, st, j, c);
    }
    forall j, c | 0 <= j < |cl'.nodes| && c in cl'.nodes[j].idx.stray ensures c !in cl'.nodes[j].idx.data {
      StrayKept(home, cl, au, st, j, c);
    }
    forall k, c | 0 <= k < |cl'.nodes| ensures HitSum(cl', au', k, c) && OwnSum(cl', au', k, c) {
      HitSumKept(home, cl, au, st, k, c);
      OwnSumKept(home, cl, au, st, k, c);
    }
  }
}
