/** N instances over a shared directory. Each appends to its own log and reads the logs of
    its siblings, one line at a time and as far behind as it likes. Rows converge. */
module Cluster {
  import opened Ints
  import opened LogLine
  import opened LineRoundTrip
  import opened OpLog
  import opened Options
  import opened Table
  import opened Instance

  /** `read[k][j]` is how many lines of instance j's log file instance k has applied. */
  datatype Cluster = Cluster(nodes: seq<Node>, read: seq<seq<nat>>)

  /** The instance a code may be created at: `home` is the letter of a generated code, and
      for aliases the promise that no two instances use the same one. */
  type Homes = string -> int

  datatype Step =
    | Create(k: nat, code: string, url: string, now: int64, exp: int64)
    | Change(k: nat, code: string, url: string, now: int64, ttl: int64, hasTTL: bool)
    | Drop(k: nat, code: string)
    | Visit(k: nat, code: string, now: int64)
    | Queue(k: nat, order: seq<string>)
    | Write(k: nat)
    | Tail(k: nat, j: nat, victim: string)
    | Restart(k: nat, kept: nat, victims: seq<string>)

  ghost predicate Shaped(cl: Cluster) {
    |cl.read| == |cl.nodes| &&
    (forall k :: 0 <= k < |cl.nodes| ==> cl.nodes[k].me == k && cl.nodes[k].snap == []) &&
    (forall k :: 0 <= k < |cl.nodes| ==> |cl.read[k]| == |cl.nodes|) &&
    (forall k, j :: 0 <= k < |cl.nodes| && 0 <= j < |cl.nodes| ==> cl.read[k][j] <= |cl.nodes[j].file|)
  }

  ghost predicate Enabled(home: Homes, cl: Cluster, st: Step)
    requires Shaped(cl)
  {
    st.k < |cl.nodes| &&
    var n := cl.nodes[st.k];
    match st
    case Create(k, code, _, _, _) => CodeOK(code) && code !in n.idx.data && home(code) == k
    case Queue(_, order) => Lists(order, n.dirty.Keys)
    case Tail(k, j, _) => j < |cl.nodes| && j != k && cl.read[k][j] < |cl.nodes[j].file|
    case Restart(_, kept, victims) => kept <= |n.buf| && |victims| == |n.file| + kept
    case _ => true
  }

  function Zeros(n: nat): seq<nat> {
    seq(n, _ => 0)
  }

  /** What becomes of instance `st.k`. */
  ghost function NodeAfter(home: Homes, cl: Cluster, st: Step): Node
    requires Shaped(cl) && Enabled(home, cl, st)
  {
    var n := cl.nodes[st.k];
    match st
    case Create(_, code, url, now, exp) => Shortened(n, code, url, now, exp)
    case Change(_, code, url, now, ttl, hasTTL) => Updated(n, code, url, now, ttl, hasTTL).0
    case Drop(_, code) => Removed(n, code).0
    case Visit(_, code, now) => Resolved(n, code, now).0
    case Queue(_, order) => Queued(n, order)
    case Write(_) => Written(n)
    case Tail(k, j, victim) =>
      n.(idx := ApplyLog(n.me, n.idx, cl.nodes[j].file[cl.read[k][j]], victim))
    case Restart(_, kept, victims) =>
      assert n.snap + n.file == n.file;
      Reopened(n, kept, victims)
  }

  ghost function After(home: Homes, cl: Cluster, st: Step): Cluster
    requires Shaped(cl) && Enabled(home, cl, st)
  {
    var k := st.k;
    Cluster(cl.nodes[k := NodeAfter(home, cl, st)],
            if st.Tail? then cl.read[k := cl.read[k][st.j := cl.read[k][st.j] + 1]]
            else if st.Restart? then cl.read[k := Zeros(|cl.nodes|)]
            else cl.read)
  }

  function Start(n: nat): Cluster
    requires n <= MAX_INSTANCES
  {
    Cluster(seq(n, k requires 0 <= k < n => Fresh(k)), seq(n, _ => Zeros(n)))
  }

  // ---------- what an instance knows ----------

  /** The part of j's log that k's table reflects: all of its own, what it has read of others'. */
  ghost function Seen(cl: Cluster, k: nat, j: nat): seq<LogOp>
    requires Shaped(cl) && k < |cl.nodes| && j < |cl.nodes|
  {
    if k == j then cl.nodes[j].file + cl.nodes[j].buf else cl.nodes[j].file[..cl.read[k][j]]
  }

  /** Only j writes rows and tombstones of the codes at home at j, and signs them. */
  ghost predicate Proper(home: Homes, j: nat, o: LogOp) {
    Loggable(o) && (!o.Hit? ==> home(o.c) == j) && (o.Row? ==> o.i == j)
  }

  ghost predicate ProperLog(home: Homes, j: nat, ops: seq<LogOp>) {
    forall p :: 0 <= p < |ops| ==> Proper(home, j, ops[p])
  }

  ghost predicate Proper1(home: Homes, cl: Cluster, j: nat)
    requires j < |cl.nodes|
  {
    ProperLog(home, j, cl.nodes[j].file + cl.nodes[j].buf) &&
    (forall c :: c in cl.nodes[j].dirty ==> CodeOK(c)) &&
    (forall c :: c in cl.nodes[j].idx.data ==> CodeOK(c) && 0 <= home(c) < |cl.nodes|)
  }

  /** k's row of `c` is the one that the part of the owner's log k has seen leaves. */
  ghost predicate RowKnown(home: Homes, cl: Cluster, k: nat, c: string)
    requires Shaped(cl) && k < |cl.nodes|
  {
    0 <= home(c) < |cl.nodes| ==> RowIn(cl.nodes[k].idx, c) == RowAt(Seen(cl, k, home(c)), c)
  }

  ghost predicate RowsConverge(home: Homes, cl: Cluster) {
    Shaped(cl) &&
    (forall j :: 0 <= j < |cl.nodes| ==> Proper1(home, cl, j)) &&
    forall k, c :: 0 <= k < |cl.nodes| ==> RowKnown(home, cl, k, c)
  }

  lemma StartConverges(home: Homes, n: nat)
    requires n <= MAX_INSTANCES
    ensures RowsConverge(home, Start(n))
  {
    var cl := Start(n);
    forall k, c | 0 <= k < n ensures RowKnown(home, cl, k, c) {
      if 0 <= home(c) < n {
        assert Seen(cl, k, home(c)) == [];
      }
    }
  }

  /** A row's signature is its home. */
  lemma {:induction false} Signed(home: Homes, j: nat, ops: seq<LogOp>, c: string)
    requires ProperLog(home, j, ops) && RowAt(ops, c).Some? && j < MAX_INSTANCES
    ensures RowAt(ops, c).value.i == j
    decreases |ops|
  {
    var p := |ops| - 1;
    assert Proper(home, j, ops[p]);
    if ops[p].c == c && ops[p].Row? {
      assert Wrap32(j) == j;
    } else {
      Signed(home, j, ops[..p], c);
    }
  }

  lemma SeenProper(home: Homes, cl: Cluster, k: nat, j: nat)
    requires RowsConverge(home, cl) && k < |cl.nodes| && j < |cl.nodes|
    ensures ProperLog(home, j, Seen(cl, k, j))
  {
    var all := cl.nodes[j].file + cl.nodes[j].buf;
    assert Proper1(home, cl, j);
    if k != j {
      var ops := Seen(cl, k, j);
      assert forall p :: 0 <= p < |ops| ==> ops[p] == all[p];
    }
  }

  /** The owner check: an instance holds a row as its own exactly when it is its home. */
  lemma OwnerIsHome(home: Homes, cl: Cluster, k: nat, c: string)
    requires RowsConverge(home, cl) && k < |cl.nodes| && c in cl.nodes[k].idx.data
    ensures cl.nodes[k].idx.data[c].i == home(c)
  {
    var j := home(c);
    assert Proper1(home, cl, k) && RowKnown(home, cl, k, c);
    SeenProper(home, cl, k, j);
    assert cl.nodes[j].me == j;
    Signed(home, j, Seen(cl, k, j), c);
  }

  // ---------- every step keeps it ----------

  /** Instance k queued one more line, and changed its table accordingly. */
  lemma PushKeeps(home: Homes, cl: Cluster, cl': Cluster, k: nat, o: LogOp)
    requires RowsConverge(home, cl) && Shaped(cl') && k < |cl.nodes| && Proper(home, k, o)
    requires cl'.read == cl.read && |cl'.nodes| == |cl.nodes| && cl'.nodes == cl.nodes[k := cl'.nodes[k]]
    requires cl'.nodes[k].file == cl.nodes[k].file && cl'.nodes[k].buf == cl.nodes[k].buf + [o]
    requires cl'.nodes[k].dirty == cl.nodes[k].dirty && o.c != ""
    requires forall c :: RowIn(cl'.nodes[k].idx, c) ==
                         if o.c == c && o.Row? then Some(RowData(o.u, o.a, o.e, Wrap32(o.i)))
                         else if o.c == c && o.Del? then None
                         else RowIn(cl.nodes[k].idx, c)
    ensures RowsConverge(home, cl')
  {
    var n, n' := cl.nodes[k], cl'.nodes[k];
    assert n'.file + n'.buf == (n.file + n.buf) + [o];
    assert Proper1(home, cl, k);
    forall j | 0 <= j < |cl'.nodes| ensures Proper1(home, cl', j) {
      assert Proper1(home, cl, j);
      if j == k {
        forall c | c in n'.idx.data ensures CodeOK(c) && 0 <= home(c) < |cl'.nodes| {
          assert RowIn(n'.idx, c).Some?;
          assert c == o.c || RowIn(n.idx, c).Some?;
        }
      }
    }
    forall m, c | 0 <= m < |cl'.nodes| ensures RowKnown(home, cl', m, c) {
      assert RowKnown(home, cl, m, c);
      if m == k && home(c) == k {
        RowAtSnoc(n.file + n.buf, o, c);
      } else if 0 <= home(c) < |cl.nodes| {
        assert Seen(cl', m, home(c)) == Seen(cl, m, home(c));
      }
    }
  }

  /** Instance k changed nothing but counters. */
  lemma IdleKeeps(home: Homes, cl: Cluster, cl': Cluster, k: nat)
    requires RowsConverge(home, cl) && Shaped(cl') && k < |cl.nodes|
    requires cl'.read == cl.read && |cl'.nodes| == |cl.nodes| && cl'.nodes == cl.nodes[k := cl'.nodes[k]]
    requires cl'.nodes[k].file + cl'.nodes[k].buf == cl.nodes[k].file + cl.nodes[k].buf
    requires cl.nodes[k].file <= cl'.nodes[k].file
    requires forall c :: RowIn(cl'.nodes[k].idx, c) == RowIn(cl.nodes[k].idx, c)
    requires forall c :: c in cl'.nodes[k].dirty ==> CodeOK(c)
    ensures RowsConverge(home, cl')
  {
    var n, n' := cl.nodes[k], cl'.nodes[k];
    forall j | 0 <= j < |cl'.nodes| ensures Proper1(home, cl', j) {
      assert Proper1(home, cl, j);
      if j == k {
        forall c | c in n'.idx.data ensures CodeOK(c) && 0 <= home(c) < |cl'.nodes| {
          assert RowIn(n'.idx, c) == RowIn(n.idx, c);
        }
      }
    }
    forall m, c | 0 <= m < |cl'.nodes| ensures RowKnown(home, cl', m, c) {
      assert RowKnown(home, cl, m, c);
      assert RowIn(cl'.nodes[m].idx, c) == RowIn(cl.nodes[m].idx, c);
      if 0 <= home(c) < |cl.nodes| {
        assert Seen(cl', m, home(c)) == Seen(cl, m, home(c));
      }
    }
  }

  lemma QueueKeepsProper(home: Homes, cl: Cluster, k: nat, order: seq<string>, j: nat)
    requires RowsConverge(home, cl) && Enabled(home, cl, Queue(k, order)) && j < |cl.nodes|
    ensures Proper1(home, After(home, cl, Queue(k, order)), j)
  {
    var n := cl.nodes[k];
    var hits := HitOps(n.me, n.dirty, order);
    assert Proper1(home, cl, j) && Proper1(home, cl, k);
    assert n.file + (n.buf + hits) == (n.file + n.buf) + hits;
    assert forall p :: 0 <= p < |hits| ==> Proper(home, k, hits[p]);
  }

  lemma QueueConverges(home: Homes, cl: Cluster, k: nat, order: seq<string>)
    requires RowsConverge(home, cl) && Enabled(home, cl, Queue(k, order))
    ensures RowsConverge(home, After(home, cl, Queue(k, order)))
  {
    hide Proper1;
    var cl' := After(home, cl, Queue(k, order));
    var n := cl.nodes[k];
    var hits := HitOps(n.me, n.dirty, order);
    forall j | 0 <= j < |cl'.nodes| ensures Proper1(home, cl', j) {
      QueueKeepsProper(home, cl, k, order, j);
    }
    forall m, c | 0 <= m < |cl'.nodes| ensures RowKnown(home, cl', m, c) {
      assert RowKnown(home, cl, m, c);
      if m == k && home(c) == k {
        assert Seen(cl', k, k) == Seen(cl, k, k) + hits;
        RowAtAppend(n.file + n.buf, hits, c);
      } else if 0 <= home(c) < |cl.nodes| {
        assert Seen(cl', m, home(c)) == Seen(cl, m, home(c));
      }
    }
  }

  /** The line that `Tail(k, j, _)` reads. */
  ghost function Next(cl: Cluster, k: nat, j: nat): LogOp
    requires Shaped(cl) && k < |cl.nodes| && j < |cl.nodes| && cl.read[k][j] < |cl.nodes[j].file|
  {
    cl.nodes[j].file[cl.read[k][j]]
  }

  lemma NextProper(home: Homes, cl: Cluster, k: nat, j: nat)
    requires RowsConverge(home, cl) && k < |cl.nodes| && j < |cl.nodes| && cl.read[k][j] < |cl.nodes[j].file|
    ensures Proper(home, j, Next(cl, k, j))
  {
    SeenProper(home, cl, j, j);
    assert Seen(cl, j, j)[cl.read[k][j]] == Next(cl, k, j);
  }

  lemma TailKeepsProper(home: Homes, cl: Cluster, k: nat, j: nat, victim: string, m: nat)
    requires RowsConverge(home, cl) && Enabled(home, cl, Tail(k, j, victim)) && m < |cl.nodes|
    ensures Proper1(home, After(home, cl, Tail(k, j, victim)), m)
  {
    var cl' := After(home, cl, Tail(k, j, victim));
    var n, n' := cl.nodes[k], cl'.nodes[k];
    assert Proper1(home, cl, m);
    NextProper(home, cl, k, j);
    var o := Next(cl, k, j);
    if m == k {
      forall c | c in n'.idx.data ensures CodeOK(c) && 0 <= home(c) < |cl'.nodes| {
        ApplyRowIn(n.me, n.idx, o, victim, c);
        assert c == o.c || RowIn(n.idx, c).Some?;
      }
    }
  }

  lemma TailRow(home: Homes, cl: Cluster, k: nat, j: nat, victim: string, m: nat, c: string)
    requires RowsConverge(home, cl) && Enabled(home, cl, Tail(k, j, victim)) && m < |cl.nodes|
    ensures RowKnown(home, After(home, cl, Tail(k, j, victim)), m, c)
  {
    hide Proper1, ApplyLog, RowAt;
    var cl' := After(home, cl, Tail(k, j, victim));
    var n, o := cl.nodes[k], Next(cl, k, j);
    assert RowKnown(home, cl, m, c);
    NextProper(home, cl, k, j);
    ApplyRowIn(n.me, n.idx, o, victim, c);
    if m == k && home(c) == j {
      assert Seen(cl', k, j) == Seen(cl, k, j) + [o];
      RowAtSnoc(Seen(cl, k, j), o, c);
    } else if 0 <= home(c) < |cl.nodes| {
      assert Seen(cl', m, home(c)) == Seen(cl, m, home(c));
    }
  }

  lemma TailConverges(home: Homes, cl: Cluster, k: nat, j: nat, victim: string)
    requires RowsConverge(home, cl) && Enabled(home, cl, Tail(k, j, victim))
    ensures RowsConverge(home, After(home, cl, Tail(k, j, victim)))
  {
    hide Proper1, RowKnown, ApplyLog;
    var cl' := After(home, cl, Tail(k, j, victim));
    forall m | 0 <= m < |cl'.nodes| ensures Proper1(home, cl', m) {
      TailKeepsProper(home, cl, k, j, victim, m);
    }
    forall m, c | 0 <= m < |cl'.nodes| ensures RowKnown(home, cl', m, c) {
      TailRow(home, cl, k, j, victim, m, c);
    }
  }

  /** What is in the file after a crash is what was logged first. */
  lemma RestartLog(home: Homes, cl: Cluster, k: nat, kept: nat, ops: seq<LogOp>)
    requires RowsConverge(home, cl) && k < |cl.nodes| && kept <= |cl.nodes[k].buf|
    requires ops == cl.nodes[k].file + cl.nodes[k].buf[..kept]
    ensures ProperLog(home, k, ops) && AllLoggable(ops)
  {
    hide Loggable;
    SeenProper(home, cl, k, k);
    var all := Seen(cl, k, k);
    assert forall p :: 0 <= p < |ops| ==> ops[p] == all[p];
    assert ProperLog(home, k, ops);
    forall p | 0 <= p < |ops| ensures Loggable(ops[p]) {
      assert Proper(home, k, ops[p]);
    }
  }

  lemma RestartRows(home: Homes, cl: Cluster, k: nat, kept: nat, victims: seq<string>, c: string)
    requires RowsConverge(home, cl) && Enabled(home, cl, Restart(k, kept, victims))
    ensures var n' := NodeAfter(home, cl, Restart(k, kept, victims));
            RowIn(n'.idx, c) == (if home(c) == k then RowAt(n'.file, c) else None) &&
            ProperLog(home, k, n'.file)
  {
    var n, n' := cl.nodes[k], NodeAfter(home, cl, Restart(k, kept, victims));
    var ops := n.snap + n'.file;
    assert ops == n'.file;
    RestartLog(home, cl, k, kept, ops);
    RecoveredRows(n.me, ops, victims, c);
    if home(c) != k {
      assert !Settles(ops, c);
      RowAtUnsettled(ops, c);
    }
  }

  lemma RestartKeepsProper(home: Homes, cl: Cluster, k: nat, kept: nat, victims: seq<string>, m: nat)
    requires RowsConverge(home, cl) && Enabled(home, cl, Restart(k, kept, victims)) && m < |cl.nodes|
    ensures Proper1(home, After(home, cl, Restart(k, kept, victims)), m)
  {
    var cl' := After(home, cl, Restart(k, kept, victims));
    var n' := NodeAfter(home, cl, Restart(k, kept, victims));
    assert Proper1(home, cl, m);
    if m == k {
      assert n'.file + n'.buf == n'.file;
      RestartRows(home, cl, k, kept, victims, "");
      forall c | c in n'.idx.data ensures CodeOK(c) && 0 <= home(c) < |cl'.nodes| {
        RestartRows(home, cl, k, kept, victims, c);
        assert RowIn(n'.idx, c).Some?;
        RowLogged(n'.file, c);
        var p :| 0 <= p < |n'.file| && n'.file[p].c == c;
        assert Proper(home, k, n'.file[p]);
      }
    }
  }

  lemma RestartRow(home: Homes, cl: Cluster, k: nat, kept: nat, victims: seq<string>, m: nat, c: string)
    requires RowsConverge(home, cl) && Enabled(home, cl, Restart(k, kept, victims)) && m < |cl.nodes|
    ensures RowKnown(home, After(home, cl, Restart(k, kept, victims)), m, c)
  {
    hide Proper1, RowAt;
    var cl' := After(home, cl, Restart(k, kept, victims));
    var n' := NodeAfter(home, cl, Restart(k, kept, victims));
    assert RowKnown(home, cl, m, c);
    RestartRows(home, cl, k, kept, victims, c);
    if 0 <= home(c) < |cl.nodes| {
      if m != k {
        assert Seen(cl', m, home(c)) == Seen(cl, m, home(c));
      } else if home(c) != k {
        assert Seen(cl', m, home(c)) == [];
        EmptyLog(c);
      } else {
        assert Seen(cl', m, k) == n'.file + [] == n'.file;
      }
    }
  }

  lemma EmptyLog(c: string)
    ensures RowAt([], c) == None
  {}

  lemma RestartConverges(home: Homes, cl: Cluster, k: nat, kept: nat, victims: seq<string>)
    requires RowsConverge(home, cl) && Enabled(home, cl, Restart(k, kept, victims))
    ensures RowsConverge(home, After(home, cl, Restart(k, kept, victims)))
  {
    hide Proper1, RowKnown, Replay;
    var cl' := After(home, cl, Restart(k, kept, victims));
    forall m | 0 <= m < |cl'.nodes| ensures Proper1(home, cl', m) {
      RestartKeepsProper(home, cl, k, kept, victims, m);
    }
    forall m, c | 0 <= m < |cl'.nodes| ensures RowKnown(home, cl', m, c) {
      RestartRow(home, cl, k, kept, victims, m, c);
    }
  }

  lemma {:induction false} RowLogged(ops: seq<LogOp>, c: string)
    requires RowAt(ops, c).Some?
    ensures exists p :: 0 <= p < |ops| && ops[p].c == c && ops[p].Row?
    decreases |ops|
  {
    var p := |ops| - 1;
    if !(ops[p].c == c && ops[p].Row?) {
      RowLogged(ops[..p], c);
      var q :| 0 <= q < |ops[..p]| && ops[..p][q].c == c && ops[..p][q].Row?;
      assert ops[q].c == c;
    }
  }

  lemma CreateConverges(home: Homes, cl: Cluster, st: Step)
    requires RowsConverge(home, cl) && Enabled(home, cl, st) && st.Create?
    ensures RowsConverge(home, After(home, cl, st))
  {
    var cl' := After(home, cl, st);
    PushKeeps(home, cl, cl', st.k, Row(st.code, st.url, st.now, st.exp, st.k, 0));
  }

  lemma ChangeConverges(home: Homes, cl: Cluster, st: Step)
    requires RowsConverge(home, cl) && Enabled(home, cl, st) && st.Change?
    ensures RowsConverge(home, After(home, cl, st))
  {
    var cl' := After(home, cl, st);
    var n, n' := cl.nodes[st.k], cl'.nodes[st.k];
    if Updated(n, st.code, st.url, st.now, st.ttl, st.hasTTL).1 == MutOK {
      OwnerIsHome(home, cl, st.k, st.code);
      assert Proper1(home, cl, st.k);
      var e := n'.idx.data[st.code];
      PushKeeps(home, cl, cl', st.k, Row(st.code, st.url, e.a, e.e, st.k, 0));
    } else {
      assert n' == n && cl' == cl;
    }
  }

  lemma DropConverges(home: Homes, cl: Cluster, st: Step)
    requires RowsConverge(home, cl) && Enabled(home, cl, st) && st.Drop?
    ensures RowsConverge(home, After(home, cl, st))
  {
    var cl' := After(home, cl, st);
    var n, n' := cl.nodes[st.k], cl'.nodes[st.k];
    if Removed(n, st.code).1 == MutOK {
      OwnerIsHome(home, cl, st.k, st.code);
      assert Proper1(home, cl, st.k);
      PushKeeps(home, cl, cl', st.k, Del(st.code));
    } else {
      assert n' == n && cl' == cl;
    }
  }

  lemma VisitConverges(home: Homes, cl: Cluster, st: Step)
    requires RowsConverge(home, cl) && Enabled(home, cl, st) && (st.Visit? || st.Write?)
    ensures RowsConverge(home, After(home, cl, st))
  {
    var cl' := After(home, cl, st);
    var n, n' := cl.nodes[st.k], cl'.nodes[st.k];
    assert Proper1(home, cl, st.k);
    assert forall c :: RowIn(n'.idx, c) == RowIn(n.idx, c);
    assert n.file + n.buf + [] == n.file + n.buf;
    IdleKeeps(home, cl, cl', st.k);
  }

  lemma StepConverges(home: Homes, cl: Cluster, st: Step)
    requires RowsConverge(home, cl) && Enabled(home, cl, st)
    ensures RowsConverge(home, After(home, cl, st))
  {
    hide RowsConverge, After, NodeAfter;
    match st
    case Create(_, _, _, _, _) => CreateConverges(home, cl, st);
    case Change(_, _, _, _, _, _) => ChangeConverges(home, cl, st);
    case Drop(_, _) => DropConverges(home, cl, st);
    case Visit(_, _, _) => VisitConverges(home, cl, st);
    case Queue(k, order) => QueueConverges(home, cl, k, order);
    case Write(_) => VisitConverges(home, cl, st);
    case Tail(k, j, victim) => TailConverges(home, cl, k, j, victim);
    case Restart(k, kept, victims) => RestartConverges(home, cl, k, kept, victims);
  }

  // ---------- runs ----------

  ghost predicate Legal(home: Homes, cl: Cluster, steps: seq<Step>)
    decreases |steps|
  {
    Shaped(cl) && (steps != [] ==> Enabled(home, cl, steps[0]) && Legal(home, After(home, cl, steps[0]), steps[1..]))
  }

  ghost function Run(home: Homes, cl: Cluster, steps: seq<Step>): Cluster
    requires Legal(home, cl, steps)
    decreases |steps|
  {
    if steps == [] then cl else Run(home, After(home, cl, steps[0]), steps[1..])
  }

  lemma {:induction false} RunConverges(home: Homes, cl: Cluster, steps: seq<Step>)
    requires RowsConverge(home, cl) && Legal(home, cl, steps)
    ensures RowsConverge(home, Run(home, cl, steps))
    decreases |steps|
  {
    hide RowsConverge, After, Enabled;
    if steps != [] {
      assert Shaped(cl) && Enabled(home, cl, steps[0]);
      StepConverges(home, cl, steps[0]);
      RunConverges(home, After(home, cl, steps[0]), steps[1..]);
    }
  }

  /** Row convergence: in every run, whatever was read when, a row an instance holds is the
      one its owner's log left at the point up to which it was read. */
  lemma RowConvergence(home: Homes, n: nat, steps: seq<Step>, k: nat, c: string)
    requires n <= MAX_INSTANCES && Legal(home, Start(n), steps)
    requires var cl := Run(home, Start(n), steps); k < |cl.nodes| && 0 <= home(c) < |cl.nodes|
    ensures var cl := Run(home, Start(n), steps);
            Shaped(cl) && RowIn(cl.nodes[k].idx, c) == RowAt(Seen(cl, k, home(c)), c)
  {
    StartConverges(home, n);
    RunConverges(home, Start(n), steps);
    assert RowKnown(home, Run(home, Start(n), steps), k, c);
  }

  /** k has read all that j has written, and j has nothing left to write. */
  ghost predicate CaughtUp(cl: Cluster, k: nat, j: nat)
    requires Shaped(cl) && k < |cl.nodes| && j < |cl.nodes|
  {
    cl.nodes[j].buf == [] && (k != j ==> cl.read[k][j] == |cl.nodes[j].file|)
  }

  /** After a full poll an instance agrees with the owner. */
  lemma RowAgreement(home: Homes, n: nat, steps: seq<Step>, k: nat, c: string)
    requires n <= MAX_INSTANCES && Legal(home, Start(n), steps)
    requires var cl := Run(home, Start(n), steps);
             Shaped(cl) && k < |cl.nodes| && 0 <= home(c) < |cl.nodes| && CaughtUp(cl, k, home(c))
    ensures var cl := Run(home, Start(n), steps);
            RowIn(cl.nodes[k].idx, c) == RowIn(cl.nodes[home(c)].idx, c)
  {
    var cl := Run(home, Start(n), steps);
    RowConvergence(home, n, steps, k, c);
    RowConvergence(home, n, steps, home(c), c);
    assert Seen(cl, k, home(c)) == Seen(cl, home(c), home(c));
  }

  /** Away from its home a code cannot be changed or removed. */
  lemma RemoteMutation(home: Homes, n: nat, steps: seq<Step>, k: nat, c: string, url: string, now: int64, ttl: int64,
                       hasTTL: bool)
    requires n <= MAX_INSTANCES && Legal(home, Start(n), steps)
    requires var cl := Run(home, Start(n), steps); k < |cl.nodes| && home(c) != k
    ensures var node := Run(home, Start(n), steps).nodes[k];
            var m := if c in node.idx.data then MutRemote else MutMissing;
            Updated(node, c, url, now, ttl, hasTTL) == (node, m) && Removed(node, c) == (node, m)
  {
    var cl := Run(home, Start(n), steps);
    StartConverges(home, n);
    RunConverges(home, Start(n), steps);
    if c in cl.nodes[k].idx.data {
      OwnerIsHome(home, cl, k, c);
    }
  }

  // ---------- reading many lines at once ----------

  function TailSteps(k: nat, j: nat, victims: seq<string>): seq<Step> {
    seq(|victims|, i requires 0 <= i < |victims| => Tail(k, j, victims[i]))
  }

  /** k's table and its place in j's log after it read m more lines. */
  ghost function Advanced(cl: Cluster, k: nat, j: nat, victims: seq<string>): Cluster
    requires Shaped(cl) && k < |cl.nodes| && j < |cl.nodes|
    requires cl.read[k][j] + |victims| <= |cl.nodes[j].file|
  {
    var r: nat := cl.read[k][j];
    var upto: nat := r + |victims|;
    var place: seq<nat> := cl.read[k][j := upto];
    var n := cl.nodes[k];
    Cluster(cl.nodes[k := n.(idx := Replay(n.me, n.idx, cl.nodes[j].file[r..upto], victims))],
            cl.read[k := place])
  }

  lemma AdvancedNone(cl: Cluster, k: nat, j: nat)
    requires Shaped(cl) && k < |cl.nodes| && j < |cl.nodes|
    ensures Advanced(cl, k, j, []) == cl
  {
    var r := cl.read[k][j];
    assert cl.read[k][j := r] == cl.read[k];
    assert cl.nodes[k := cl.nodes[k]] == cl.nodes && cl.read[k := cl.read[k]] == cl.read;
  }

  lemma AdvancedCons(home: Homes, cl: Cluster, k: nat, j: nat, v: string, victims: seq<string>)
    requires Shaped(cl) && k < |cl.nodes| && j < |cl.nodes| && j != k
    requires cl.read[k][j] + 1 + |victims| <= |cl.nodes[j].file|
    ensures var cl1 := After(home, cl, Tail(k, j, v));
            Shaped(cl1) && Advanced(cl1, k, j, victims) == Advanced(cl, k, j, [v] + victims)
  {
    hide ApplyLog, Replay;
    var r, n := cl.read[k][j], cl.nodes[k];
    var o, rest := cl.nodes[j].file[r], cl.nodes[j].file[r + 1..r + 1 + |victims|];
    assert cl.nodes[j].file[r..r + 1 + |victims|] == [o] + rest;
    ReplayCons(n.me, n.idx, o, v, rest, victims);
    var cl1 := After(home, cl, Tail(k, j, v));
    var a, b := Advanced(cl1, k, j, victims), Advanced(cl, k, j, [v] + victims);
    assert a.nodes[k] == b.nodes[k] && a.nodes == b.nodes;
    assert a.read[k] == b.read[k] && a.read == b.read;
  }

  /** Reading a stretch of a sibling's log, as one call does, is reading its lines in turn. */
  lemma {:induction false} BatchTail(home: Homes, cl: Cluster, k: nat, j: nat, victims: seq<string>)
    requires Shaped(cl) && k < |cl.nodes| && j < |cl.nodes| && j != k
    requires cl.read[k][j] + |victims| <= |cl.nodes[j].file|
    ensures Legal(home, cl, TailSteps(k, j, victims))
    ensures Run(home, cl, TailSteps(k, j, victims)) == Advanced(cl, k, j, victims)
    decreases |victims|
  {
    hide Advanced, NodeAfter;
    if victims == [] {
      AdvancedNone(cl, k, j);
    } else {
      assert TailSteps(k, j, victims)[1..] == TailSteps(k, j, victims[1..]);
      AdvancedCons(home, cl, k, j, victims[0], victims[1..]);
      BatchTail(home, After(home, cl, Tail(k, j, victims[0])), k, j, victims[1..]);
      assert victims == [victims[0]] + victims[1..];
    }
  }
}
