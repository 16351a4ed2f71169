/** What a resolve answers, in terms of the logs alone. */
module Answers {
  import opened Ints
  import opened LogLine
  import opened LineRoundTrip
  import opened LogFile
  import opened OpLog
  import opened Options
  import opened Table
  import opened Instance
  import opened Codes
  import opened Polls
  import opened Recovery
  import Cluster
  import opened Store

  // ---------- one instance ----------

  /** In every run, crashes and compactions included, a resolve answers with a URL if and only if
      snapshot, file and queue leave a row with it that has no expiry or one still to come. */
  lemma AnswersByLog(me: Id, calls: seq<Call>, c: string, t: int64, u: string)
    requires Legal(Fresh(me), calls)
    ensures var n := Run(Fresh(me), calls);
            Resolved(n, c, t).1 == Some(u) <==>
              RowAt(n.snap + n.file + n.buf, c).Some? &&
              var r := RowAt(n.snap + n.file + n.buf, c).value;
              r.u == u && (r.e == 0 || t < r.e)
  {
    hide Run, Legal, RowAt;
    FreshDurable(me);
    RunKeeps(Fresh(me), calls);
    AnswersByTable(Run(Fresh(me), calls), c, t);
  }

  lemma FreshDurable(me: Id)
    ensures Durable(Fresh(me))
  {}

  lemma AnswersByTable(n: Node, c: string, t: int64)
    requires RowsAgree(n)
    ensures RowIn(n.idx, c) == RowAt(n.snap + n.file + n.buf, c)
    ensures Resolved(n, c, t).1 ==
            match RowIn(n.idx, c)
            case Some(r) => if r.e == 0 || t < r.e then Some(r.u) else None
            case None => None
  {
    hide RowAt;
    assert n.snap + n.file + n.buf == n.Log();
    assert RowIn(n.idx, c) == RowAt(n.Log(), c);
  }

  // ---------- N instances ----------

  /** In every run of N instances a resolve answers with a URL if and only if what the instance has
      seen of the owner's log leaves a row with it that has no expiry or one still to come. */
  lemma AnswersByOwner(home: Cluster.Homes, n: nat, steps: seq<Cluster.Step>, k: nat, c: string, t: int64, u: string)
    requires n <= MAX_INSTANCES && Cluster.Legal(home, Cluster.Start(n), steps)
    requires var cl := Cluster.Run(home, Cluster.Start(n), steps); k < |cl.nodes| && 0 <= home(c) < |cl.nodes|
    ensures var cl := Cluster.Run(home, Cluster.Start(n), steps);
            Cluster.Shaped(cl) &&
            (Resolved(cl.nodes[k], c, t).1 == Some(u) <==>
               RowAt(Cluster.Seen(cl, k, home(c)), c).Some? &&
               var r := RowAt(Cluster.Seen(cl, k, home(c)), c).value;
               r.u == u && (r.e == 0 || t < r.e))
  {
    hide Cluster.Run, Cluster.Legal, RowAt;
    Cluster.RowConvergence(home, n, steps, k, c);
    AnswerOfRow(Cluster.Run(home, Cluster.Start(n), steps).nodes[k], c, t);
  }

  lemma AnswerOfRow(n: Node, c: string, t: int64)
    ensures Resolved(n, c, t).1 ==
            match RowIn(n.idx, c)
            case Some(r) => if r.e == 0 || t < r.e then Some(r.u) else None
            case None => None
  {}

  // ---------- a link of a sibling ----------

  lemma GatherLoggable(order: seq<nat>, news: map<nat, seq<LogOp>>)
    requires forall j :: j in news ==> AllLoggable(news[j])
    ensures AllLoggable(Gather(order, news))
    decreases |order|
  {
    hide Loggable;
    if order != [] {
      GatherLoggable(order[..|order| - 1], news);
    }
  }

  /** Of a code that only one sibling logs, that one's news decide. */
  lemma {:induction false} GatherRow(order: seq<nat>, news: map<nat, seq<LogOp>>, j: nat, c: string)
    requires Distinct(order) && j in news && forall i :: i in news && i != j ==> !Settles(news[i], c)
    ensures RowAt(Gather(order, news), c) == if j in order then RowAt(news[j], c) else None
    ensures Settles(Gather(order, news), c) <==> j in order && Settles(news[j], c)
    decreases |order|
  {
    hide RowAt, Settles;
    if order == [] {
      NothingSettled(c);
    } else {
      var k := |order| - 1;
      var rest := order[..k];
      GatherRow(rest, news, j, c);
      RowAtAppend(Gather(rest, news), NewsOf(news, order[k]), c);
      SettlesAppend(Gather(rest, news), NewsOf(news, order[k]), c);
      NothingSettled(c);
      RowAtUnsettledNone(NewsOf(news, j), c);
      assert order[k] !in rest;
      assert j in order <==> j in rest || j == order[k];
    }
  }

  lemma NothingSettled(c: string)
    ensures RowAt([], c) == None && !Settles([], c)
  {}

  lemma RowAtUnsettledNone(ops: seq<LogOp>, c: string)
    ensures !Settles(ops, c) ==> RowAt(ops, c) == None
  {
    if !Settles(ops, c) {
      RowAtUnsettled(ops, c);
    }
  }

  lemma SettlesAppend(a: seq<LogOp>, b: seq<LogOp>, c: string)
    ensures Settles(a + b, c) <==> Settles(a, c) || Settles(b, c)
  {
    var all := a + b;
    if Settles(a, c) {
      var j :| 0 <= j < |a| && a[j].c == c && !a[j].Hit?;
      assert all[j] == a[j];
    }
    if Settles(b, c) {
      var j :| 0 <= j < |b| && b[j].c == c && !b[j].Hit?;
      assert all[|a| + j] == b[j];
    }
  }

  /** What a log leaves, of which a first part left no row, is what the rest leaves. */
  lemma RowOfNews(ops: seq<LogOp>, a: nat, b: nat, c: string)
    requires a <= b <= |ops| && RowAt(ops[..a], c) == None
    ensures RowAt(ops[a..b], c) == RowAt(ops[..b], c)
  {
    hide RowAt;
    assert ops[..b] == ops[..a] + ops[a..b];
    RowAtAppend(ops[..a], ops[a..b], c);
    RowAtUnsettledNone(ops[a..b], c);
  }

  /** What is known of some siblings, and what their logs hold. */
  ghost predicate Known(seen: map<nat, string>, dir: map<nat, string>, logs: map<nat, seq<LogOp>>) {
    logs.Keys == dir.Keys &&
    forall j :: j in dir ==> AllLoggable(logs[j]) && SeenIn(seen, j) <= dir[j] <= PrintOps(logs[j])
  }

  lemma NewsIs(seen: map<nat, string>, dir: map<nat, string>, logs: map<nat, seq<LogOp>>, j: nat)
    requires Known(seen, dir, logs) && j in dir
    ensures j in logs && CountNL(SeenIn(seen, j)) <= CountNL(dir[j]) <= |logs[j]|
    ensures AllNews(seen, dir, logs)[j] == logs[j][CountNL(SeenIn(seen, j))..CountNL(dir[j])]
    ensures AllLoggable(AllNews(seen, dir, logs)[j])
    ensures forall c :: !Settles(logs[j], c) ==> !Settles(AllNews(seen, dir, logs)[j], c)
  {
    hide PrintOps, CountNL, Loggable, SplitOf, TailRead;
    TailedSlice(logs[j], SeenIn(seen, j), dir[j]);
  }

  /** Reading the owner, among others, brings the row its log leaves. */
  lemma SiblingRow(me: nat, s: Index, seen: map<nat, string>, dir: map<nat, string>, logs: map<nat, seq<LogOp>>,
                   j: nat, c: string, order: seq<nat>, victims: seq<string>)
    requires Known(seen, dir, logs) && j in dir && c !in s.data && Distinct(order) && j in order
    requires CountNL(SeenIn(seen, j)) <= |logs[j]| && RowAt(logs[j][..CountNL(SeenIn(seen, j))], c) == None
    requires forall i :: i in dir && i != j ==> !Settles(logs[i], c)
    requires |victims| == |Gather(order, AllNews(seen, dir, logs))|
    ensures CountNL(dir[j]) <= |logs[j]|
    ensures RowIn(Replay(me, s, Gather(order, AllNews(seen, dir, logs)), victims), c) ==
            RowAt(logs[j][..CountNL(dir[j])], c)
  {
    hide RowAt, Settles, PrintOps, AllLoggable, CountNL, Gather, Replay, AllNews, Known, Distinct;
    var news := AllNews(seen, dir, logs);
    forall i | i in news ensures AllLoggable(news[i]) && (i != j ==> !Settles(news[i], c)) {
      NewsIs(seen, dir, logs, i);
    }
    NewsIs(seen, dir, logs, j);
    GatherLoggable(order, news);
    GatherRow(order, news, j, c);
    ReplayRows(me, s, Gather(order, news), victims, c);
    RowAtUnsettledNone(news[j], c);
    RowOfNews(logs[j], CountNL(SeenIn(seen, j)), CountNL(dir[j]), c);
  }

  /** A generated code of sibling j that this store does not have is answered from j's log as it
      is on disk, whenever the last poll was. */
  method ResolveSibling(s: Store, j: Id, suffix: string, now: int64, dir: map<nat, string>,
                        ghost logs: map<nat, seq<LogOp>>)
    returns (url: Option<string>)
    requires s.Valid() && s.Directory(dir, logs) && j in dir && j != s.instance && Generated(j, suffix) !in s.data
    requires CountNL(s.SeenOf(j)) <= |logs[j]|
    requires RowAt(logs[j][..CountNL(s.SeenOf(j))], Generated(j, suffix)) == None
    requires forall i :: i in dir && i != j ==> !Settles(logs[i], Generated(j, suffix))
    modifies s, s.tails.Values
    ensures CountNL(dir[j]) <= |logs[j]|
    ensures match RowAt(logs[j][..CountNL(dir[j])], Generated(j, suffix))
            case Some(r) => url == if r.e == 0 || now < r.e then Some(r.u) else None
            case None => url == None
  {
    hide RowAt, Settles, PrintOps, AllLoggable, CountNL, Gather, Replay, AllNews, Generated, Resolved;
    var code := Generated(j, suffix);
    ghost var seen, n := s.seen, s.View();
    assert Known(seen, dir, logs);
    s.OwnersRead(code, dir, seen);
    ghost var order, victims;
    url, order, victims := s.Resolve(code, now, dir, logs);
    assert j in [j] && [j] <= order;
    SiblingRow(s.instance, n.idx, seen, dir, logs, j, code, order, victims);
    AnswerOfRow(n.(idx := Replay(s.instance, n.idx, Gather(order, AllNews(seen, dir, logs)), victims)), code, now);
  }
}
