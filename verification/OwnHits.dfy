/** Hit counts of a single instance across crashes, updates and compactions, and what a
    crash in the middle of a compaction can cost. */
module OwnHits {
  import opened Ints
  import opened LogLine
  import opened LineRoundTrip
  import opened OpLog
  import opened Table
  import opened Instance
  import opened Recovery

  // ---------- conservation ----------

  /** The own-hit counter of `c` is what the log records plus what is not yet logged. */
  ghost predicate Counted(n: Node, c: string) {
    Solid(n.Log(), c) &&
    (c in n.idx.data ==> n.idx.data[c].oh == Wrap(OwnAt(n.me, n.Log(), c) + DirtyOf(n, c)))
  }

  ghost predicate Conserved(n: Node) {
    Durable(n) && forall c :: Counted(n, c)
  }

  /** No hit of `code` is pending or logged that a row of it could not have had: true of
      every code never used before, and of a removed one nobody resolved in its last flush. */
  ghost predicate Unhit(n: Node, code: string) {
    code !in n.dirty && !Orphaned(n.Log(), code)
  }

  /** Calls that keep own hits exact. An update is one while all hits are still pending. */
  ghost predicate Careful(n: Node, call: Call) {
    Can(n, call) &&
    match call
    case Shorten(code, _, _, _) => Unhit(n, code)
    case Update(code, _, _, _, _) => code in n.idx.data ==> n.idx.data[code].oh == DirtyOf(n, code)
    case _ => true
  }

  lemma ShortenCounts(n: Node, code: string, url: string, now: int64, exp: int64, c: string)
    requires Conserved(n) && CodeOK(code) && Unhit(n, code)
    ensures Counted(Shortened(n, code, url, now, exp), c)
  {
    var n', o := Shortened(n, code, url, now, exp), Row(code, url, now, exp, n.me, 0);
    assert Counted(n, c);
    Pushed(n, n', o);
    OwnSnoc(n.me, n.Log(), o, c);
    assert Wrap(0) == 0;
  }

  /** An update restarts the logged count at zero: it is exact just when nothing was logged. */
  lemma UpdateCounts(n: Node, code: string, url: string, now: int64, ttl: int64, hasTTL: bool)
    requires Conserved(n) && code in n.idx.data
    ensures var n' := Updated(n, code, url, now, ttl, hasTTL).0;
            (Counted(n', code) <==> n.idx.data[code].oh == DirtyOf(n, code)) &&
            forall c :: c != code ==> Counted(n', c)
  {
    var n' := Updated(n, code, url, now, ttl, hasTTL).0;
    var e := n'.idx.data[code];
    var o := Row(code, url, e.a, e.e, n.me, 0);
    Pushed(n, n', o);
    forall c ensures c != code ==> Counted(n', c) {
      assert Counted(n, c);
      OwnSnoc(n.me, n.Log(), o, c);
    }
    assert Counted(n, code);
    OwnSnoc(n.me, n.Log(), o, code);
    assert RowIn(n.idx, code) == RowAt(n.Log(), code);
    if Orphaned(n.Log(), code) {
      OrphanedAbsent(n.Log(), code);
    }
    assert Wrap(DirtyOf(n, code)) == DirtyOf(n, code);
  }

  lemma RemoveCounts(n: Node, code: string, c: string)
    requires Conserved(n) && code in n.idx.data
    ensures Counted(Removed(n, code).0, c)
  {
    assert Counted(n, c);
    Pushed(n, Removed(n, code).0, Del(code));
    OwnSnoc(n.me, n.Log(), Del(code), c);
  }

  lemma ResolveCounts(n: Node, code: string, now: int64, c: string)
    requires Conserved(n)
    ensures Counted(Resolved(n, code, now).0, c)
  {
    hide OwnAt, Solid;
    var n' := Resolved(n, code, now).0;
    assert Counted(n, c);
    assert n'.Log() == n.Log();
    if Live(n, code, now) && c == code {
      var logged := OwnAt(n.me, n.Log(), c);
      WrapAdd(logged + DirtyOf(n, c), 1);
      WrapAdd(DirtyOf(n, c) + 1, logged);
    }
  }

  /** Queueing the deltas moves each from the pending map to the log. */
  lemma {:induction false} QueueCounts(n: Node, ops: seq<LogOp>, order: seq<string>, c: string)
    requires forall j :: 0 <= j < |order| ==> order[j] in n.dirty
    requires forall j, k :: 0 <= j < k < |order| ==> order[j] != order[k]
    requires Solid(ops, c)
    ensures var hits := HitOps(n.me, n.dirty, order);
            Solid(ops + hits, c) &&
            OwnAt(n.me, ops + hits, c) == OwnAt(n.me, ops, c) + if c in order then n.dirty[c] else 0
    decreases |order|
  {
    hide OwnAt, Orphaned;
    var hits := HitOps(n.me, n.dirty, order);
    if order == [] {
      assert ops + hits == ops;
    } else {
      var k := |order| - 1;
      var front := HitOps(n.me, n.dirty, order[..k]);
      QueueCounts(n, ops, order[..k], c);
      assert order == order[..k] + [order[k]];
      assert ops + hits == (ops + front) + [hits[k]];
      OwnSnoc(n.me, ops + front, hits[k], c);
    }
  }

  lemma QueueKeepsCount(n: Node, order: seq<string>, c: string)
    requires Conserved(n) && Lists(order, n.dirty.Keys)
    ensures Counted(Queued(n, order), c)
  {
    hide OwnAt, Solid;
    var n' := Queued(n, order);
    assert Counted(n, c);
    assert n'.Log() == n.Log() + HitOps(n.me, n.dirty, order);
    QueueCounts(n, n.Log(), order, c);
    assert c in n.dirty <==> c in order;
  }

  /** The snapshot carries the counters themselves. */
  lemma {:induction false} SnapCounts(n: Node, rows: seq<string>, c: string)
    requires forall j :: 0 <= j < |rows| ==> rows[j] in n.idx.data
    requires forall j, k :: 0 <= j < k < |rows| ==> rows[j] != rows[k]
    ensures var ops := SnapOps(n.idx.data, rows);
            Solid(ops, c) && !Orphaned(ops, c) &&
            OwnAt(n.me, ops, c) == if c in rows then n.idx.data[c].oh else 0
    decreases |rows|
  {
    var ops := SnapOps(n.idx.data, rows);
    if rows != [] {
      var k := |rows| - 1;
      SnapCounts(n, rows[..k], c);
      var front := SnapOps(n.idx.data, rows[..k]);
      assert rows == rows[..k] + [rows[k]];
      assert ops == front + [ops[k]];
      OwnSnoc(n.me, front, ops[k], c);
    }
  }

  lemma SnapKeepsCount(n: Node, rows: seq<string>, c: string)
    requires WellFormed(n) && Lists(rows, OwnCodes(n))
    ensures var ops := SnapOps(n.idx.data, rows);
            Solid(ops, c) && !Orphaned(ops, c) &&
            (c in n.idx.data ==> OwnAt(n.me, ops, c) == n.idx.data[c].oh)
  {
    SnapCounts(n, rows, c);
    assert c in n.idx.data ==> c in OwnCodes(n);
  }

  lemma {:induction false} SolidPrefix(ops: seq<LogOp>, k: nat, c: string)
    requires Solid(ops, c) && k <= |ops|
    ensures Solid(ops[..k], c)
    decreases |ops|
  {
    if k == |ops| {
      assert ops[..k] == ops;
    } else {
      var m := |ops| - 1;
      SolidPrefix(ops[..m], k, c);
      assert ops[..m][..k] == ops[..k];
    }
  }

  lemma CrashCounts(n: Node, kept: nat, victims: seq<string>, c: string)
    requires Conserved(n) && kept <= |n.buf| && |victims| == |n.snap + n.file| + kept
    ensures Counted(Reopened(n, kept, victims), c)
  {
    var n' := Reopened(n, kept, victims);
    var ops := n.snap + (n.file + n.buf[..kept]);
    assert Counted(n, c);
    assert n'.Log() == ops && ops == n.Log()[..|ops|];
    SolidPrefix(n.Log(), |ops|, c);
    OwnLoggable(n.me, n.Log());
    assert AllLoggable(ops);
    ReplayOwn(n.me, ops, victims, c);
  }

  lemma OwnLoggable(me: Id, ops: seq<LogOp>)
    requires OwnLog(me, ops)
    ensures AllLoggable(ops)
  {
    forall j | 0 <= j < |ops| ensures Loggable(ops[j]) {
      assert OwnOp(me, ops[j]);
    }
  }

  lemma StepConserves(n: Node, call: Call)
    requires Conserved(n) && Careful(n, call)
    ensures Conserved(After(n, call))
  {
    StepKeeps(n, call);
    var n' := After(n, call);
    forall c ensures Counted(n', c) {
      assert Counted(n, c);
      match call
      case Shorten(code, url, now, exp) => ShortenCounts(n, code, url, now, exp, c);
      case Update(code, url, now, ttl, hasTTL) =>
        if code in n.idx.data {
          UpdateCounts(n, code, url, now, ttl, hasTTL);
        }
      case Remove(code) =>
        if code in n.idx.data {
          RemoveCounts(n, code, c);
        }
      case Resolve(code, now) => ResolveCounts(n, code, now, c);
      case Queue(order) => QueueKeepsCount(n, order, c);
      case Write => assert n'.Log() == n.Log();
      case Compact(order, rows) =>
        assert n'.Log() == n'.snap;
        SnapKeepsCount(n, rows, c);
      case Crash(kept, victims) => CrashCounts(n, kept, victims, c);
    }
  }

  ghost predicate CarefulRun(n: Node, calls: seq<Call>)
    decreases |calls|
  {
    calls != [] ==> Careful(n, calls[0]) && CarefulRun(After(n, calls[0]), calls[1..])
  }

  lemma {:induction false} RunConserves(n: Node, calls: seq<Call>)
    requires Conserved(n) && CarefulRun(n, calls)
    ensures Legal(n, calls) && Conserved(Run(n, calls))
    decreases |calls|
  {
    if calls != [] {
      StepConserves(n, calls[0]);
      RunConserves(After(n, calls[0]), calls[1..]);
    }
  }

  lemma RecoveredCount(n: Node, victims: seq<string>, c: string)
    requires Conserved(n) && |victims| == |n.Log()| && c in n.idx.data
    ensures var s := Replay(n.me, EMPTY, n.Log(), victims);
            c in s.data && n.idx.data[c].oh == Wrap(s.data[c].oh + DirtyOf(n, c))
  {
    hide OwnAt, Solid, Replay;
    assert Counted(n, c);
    OwnLoggable(n.me, n.Log());
    ReplayOwn(n.me, n.Log(), victims, c);
    RecoveredRows(n.me, n.Log(), victims, c);
    assert RowIn(n.idx, c) == RowAt(n.Log(), c);
    WrapAdd(OwnAt(n.me, n.Log(), c), DirtyOf(n, c));
  }

  /** Own-hit conservation: what recovery would count, plus the deltas not yet logged, is
      the counter in memory, after every careful run. */
  lemma OwnHitsRecovered(me: Id, calls: seq<Call>, victims: seq<string>, c: string)
    requires CarefulRun(Fresh(me), calls)
    ensures Legal(Fresh(me), calls)
    ensures var n := Run(Fresh(me), calls);
            |victims| == |n.Log()| && c in n.idx.data ==>
              var s := Replay(me, EMPTY, n.Log(), victims);
              c in s.data && n.idx.data[c].oh == Wrap(s.data[c].oh + DirtyOf(n, c))
  {
    hide Run, Replay, Conserved, CarefulRun, Legal;
    ConservedRun(me, calls);
    var n := Run(Fresh(me), calls);
    if |victims| == |n.Log()| && c in n.idx.data {
      RecoveredCount(n, victims, c);
    }
  }

  lemma ConservedRun(me: Id, calls: seq<Call>)
    requires CarefulRun(Fresh(me), calls)
    ensures Legal(Fresh(me), calls) && Conserved(Run(Fresh(me), calls)) && Run(Fresh(me), calls).me == me
  {
    hide Conserved, CarefulRun, Legal, Run;
    FreshConserved(me);
    RunConserves(Fresh(me), calls);
    FreshDurable(me);
    RunKeeps(Fresh(me), calls);
  }

  lemma FreshDurable(me: Id)
    ensures Durable(Fresh(me))
  {}

  // ---------- an update and what recovery makes of it ----------

  lemma UpdateLogs(n: Node, code: string, url: string, now: int64, ttl: int64, hasTTL: bool)
    requires Conserved(n) && code in n.idx.data
    ensures var n' := Updated(n, code, url, now, ttl, hasTTL).0;
            Durable(n') && n'.me == n.me && |n'.Log()| == |n.Log()| + 1 && Solid(n'.Log(), code) &&
              OwnAt(n.me, n'.Log(), code) == 0 &&
            code in n'.idx.data && n'.idx.data[code].oh == n.idx.data[code].oh && DirtyOf(n', code) == DirtyOf(n, code)
  {
    hide OwnAt, Solid, Orphaned;
    UpdateKeeps(n, code, url, now, ttl, hasTTL);
    var n' := Updated(n, code, url, now, ttl, hasTTL).0;
    var e := n'.idx.data[code];
    var o := Row(code, url, e.a, e.e, n.me, 0);
    Pushed(n, n', o);
    OwnSnoc(n.me, n.Log(), o, code);
    assert Counted(n, code);
    assert RowIn(n.idx, code) == RowAt(n.Log(), code);
    if Orphaned(n.Log(), code) {
      OrphanedAbsent(n.Log(), code);
    }
  }

  /** After an update, what recovery would count and the pending delta make up the counter in
      memory if and only if no hit of the link had been logged before. */
  lemma UpdateRecovered(n: Node, code: string, url: string, now: int64, ttl: int64, hasTTL: bool, victims: seq<string>)
    requires Conserved(n) && code in n.idx.data
    requires |victims| == |Updated(n, code, url, now, ttl, hasTTL).0.Log()|
    ensures var n' := Updated(n, code, url, now, ttl, hasTTL).0;
            var s := Replay(n.me, EMPTY, n'.Log(), victims);
            code in s.data && code in n'.idx.data &&
            (n'.idx.data[code].oh == Wrap(s.data[code].oh + DirtyOf(n', code)) <==>
               n.idx.data[code].oh == DirtyOf(n, code))
  {
    hide OwnAt, Solid, Replay, Conserved, Updated;
    UpdateLogs(n, code, url, now, ttl, hasTTL);
    var n' := Updated(n, code, url, now, ttl, hasTTL).0;
    OwnLoggable(n.me, n'.Log());
    ReplayOwn(n.me, n'.Log(), victims, code);
    RecoveredRows(n.me, n'.Log(), victims, code);
    assert RowIn(n'.idx, code) == RowAt(n'.Log(), code);
    ZeroPlus(DirtyOf(n', code));
  }

  lemma ZeroPlus(d: int64)
    ensures Wrap(0) == 0 && Wrap(0 + d) == d
  {}

  lemma FreshConserved(me: Id)
    ensures Conserved(Fresh(me))
  {
    forall c ensures Counted(Fresh(me), c) {}
  }

  // ---------- a crash during a compaction ----------

  lemma FlushDurable(n: Node, order: seq<string>)
    requires Durable(n) && Lists(order, n.dirty.Keys)
    ensures Durable(Flushed(n, order))
    ensures Flushed(n, order).Log() == n.snap + Flushed(n, order).file
  {
    QueueKeeps(n, order);
    WriteKeeps(Queued(n, order));
    assert Flushed(n, order).Log() == n.snap + Flushed(n, order).file;
  }

  /** Replaying a log over a snapshot taken after it changes no row. */
  lemma SnapThenLog(snap: seq<LogOp>, prev: seq<LogOp>, file: seq<LogOp>, c: string)
    requires RowAt(snap, c) == RowAt(prev + file, c)
    ensures RowAt(snap + file, c) == RowAt(snap, c)
  {
    RowAtAppend(snap, file, c);
    RowAtAppend(prev, file, c);
  }

  /** Compact crash safety: wherever a compaction is cut short, recovery finds the rows
      that were in memory. */
  lemma CompactCrashRows(n: Node, order: seq<string>, rows: seq<string>, stage: nat, victims: seq<string>, c: string)
    requires Durable(n) && Lists(order, n.dirty.Keys) && Lists(rows, OwnCodes(n)) && stage < 3
    requires var d := DiskStages(n, order, rows)[stage]; |victims| == |d.snap + d.file|
    ensures var d := DiskStages(n, order, rows)[stage];
            RowIn(Replay(n.me, EMPTY, d.snap + d.file, victims), c) == RowIn(n.idx, c)
  {
    var f, snap := Flushed(n, order), SnapOps(n.idx.data, rows);
    var d := DiskStages(n, order, rows)[stage];
    FlushDurable(n, order);
    assert RowIn(f.idx, c) == RowAt(f.Log(), c);
    SnapCovers(n, rows, c);
    SnapThenLog(snap, n.snap, f.file, c);
    OwnLoggable(n.me, f.Log());
    OwnLoggable(n.me, snap);
    assert snap + [] == snap;
    assert AllLoggable(f.file) by {
      assert forall j :: 0 <= j < |f.file| ==> f.file[j] == f.Log()[|n.snap| + j];
    }
    RecoveredRows(n.me, d.snap + d.file, victims, c);
  }

  /** The own deltas of `c` in a log. */
  function OwnDeltas(me: nat, ops: seq<LogOp>, c: string): int {
    if ops == [] then 0
    else
      var o := ops[|ops| - 1];
      OwnDeltas(me, ops[..|ops| - 1], c) + if o.Hit? && o.c == c && o.i == me then o.d else 0
  }

  lemma NothingSettles(c: string)
    ensures !Settles([], c)
  {}

  /** A log that settles `c` has its own count; another adds its deltas to what was there. */
  lemma {:induction false} OwnAppend(me: nat, a: seq<LogOp>, b: seq<LogOp>, c: string)
    ensures OwnAt(me, a + b, c) ==
            if Settles(b, c) then OwnAt(me, b, c) else OwnAt(me, a, c) + OwnDeltas(me, b, c)
    decreases |b|
  {
    hide OwnAt, Settles;
    if b == [] {
      NothingSettles(c);
      assert a + b == a;
    } else {
      var k := |b| - 1;
      OwnAppend(me, a, b[..k], c);
      assert b == b[..k] + [b[k]] && a + b == (a + b[..k]) + [b[k]];
      OwnSnoc(me, a + b[..k], b[k], c);
      OwnSnoc(me, b[..k], b[k], c);
      SettlesSnoc(b[..k], b[k], c);
    }
  }

  /** With a row in front of it, a log has no more orphans than it had before. */
  lemma {:induction false} SnapSolid(snap: seq<LogOp>, prev: seq<LogOp>, file: seq<LogOp>, c: string)
    requires Solid(prev + file, c) && Solid(snap, c) && !Orphaned(snap, c) && RowAt(snap, c).Some?
    ensures Solid(snap + file, c)
    ensures Orphaned(snap + file, c) ==> Orphaned(prev + file, c)
    decreases |file|
  {
    if file == [] {
      assert snap + file == snap;
    } else {
      var k := |file| - 1;
      var f, o := file[..k], file[k];
      assert snap + file == (snap + f) + [o] && prev + file == (prev + f) + [o];
      OwnSnoc(0, snap + f, o, c);
      OwnSnoc(0, prev + f, o, c);
      SnapSolid(snap, prev, f, c);
      RowAtAppend(snap, f, c);
      RowAtAppend(prev, f, c);
    }
  }

  /** Stopped between the rename and the truncate, a compaction leaves a log whose deltas
      the new snapshot already counts. The own hits of a code come back right if and only
      if that log holds a row of it, or its deltas for it cancel out. */
  lemma CompactCrashHits(n: Node, order: seq<string>, rows: seq<string>, victims: seq<string>, c: string)
    requires Conserved(n) && Lists(order, n.dirty.Keys) && Lists(rows, OwnCodes(n)) && c in n.idx.data
    requires var d := DiskStages(n, order, rows)[1]; |victims| == |d.snap + d.file|
    ensures var d := DiskStages(n, order, rows)[1];
            var s := Replay(n.me, EMPTY, d.snap + d.file, victims);
            c in s.data &&
            (s.data[c].oh == n.idx.data[c].oh <==>
               Settles(d.file, c) || Wrap(OwnDeltas(n.me, d.file, c)) == 0)
  {
    hide OwnAt, OwnDeltas, Solid, Replay, Settles;
    var f, snap := Flushed(n, order), SnapOps(n.idx.data, rows);
    StageCount(n, order, rows, c);
    StageLoggable(n, order, rows);
    ReplayOwn(n.me, snap + f.file, victims, c);
    RecoveredRows(n.me, snap + f.file, victims, c);
    WrapCancel(n.idx.data[c].oh, OwnDeltas(n.me, f.file, c));
  }

  lemma StageCount(n: Node, order: seq<string>, rows: seq<string>, c: string)
    requires Conserved(n) && Lists(order, n.dirty.Keys) && Lists(rows, OwnCodes(n)) && c in n.idx.data
    ensures var f, snap := Flushed(n, order), SnapOps(n.idx.data, rows);
            Solid(snap + f.file, c) && RowAt(snap + f.file, c).Some? &&
            Wrap(OwnAt(n.me, snap + f.file, c)) ==
              if Settles(f.file, c) then n.idx.data[c].oh
              else Wrap(n.idx.data[c].oh + OwnDeltas(n.me, f.file, c))
  {
    hide OwnAt, OwnDeltas, Settles, Solid, RowAt;
    var f, snap := Flushed(n, order), SnapOps(n.idx.data, rows);
    FlushDurable(n, order);
    FlushCounts(n, order, c);
    SnapKeepsCount(n, rows, c);
    SnapCovers(n, rows, c);
    SnapSolid(snap, n.snap, f.file, c);
    assert RowIn(f.idx, c) == RowAt(f.Log(), c);
    SnapThenLog(snap, n.snap, f.file, c);
    OwnAppend(n.me, snap, f.file, c);
    OwnAppend(n.me, n.snap, f.file, c);
  }

  lemma StageLoggable(n: Node, order: seq<string>, rows: seq<string>)
    requires Durable(n) && Lists(order, n.dirty.Keys) && Lists(rows, OwnCodes(n))
    ensures AllLoggable(SnapOps(n.idx.data, rows) + Flushed(n, order).file)
  {
    var f, snap := Flushed(n, order), SnapOps(n.idx.data, rows);
    FlushDurable(n, order);
    SnapCovers(n, rows, "");
    OwnLoggable(n.me, f.Log());
    OwnLoggable(n.me, snap);
    assert forall j :: 0 <= j < |f.file| ==> f.file[j] == f.Log()[|n.snap| + j];
  }

  lemma FlushCounts(n: Node, order: seq<string>, c: string)
    requires Conserved(n) && Lists(order, n.dirty.Keys) && c in n.idx.data
    ensures var f := Flushed(n, order);
            Solid(f.Log(), c) && n.idx.data[c].oh == Wrap(OwnAt(n.me, f.Log(), c))
  {
    QueueKeepsCount(n, order, c);
    QueueKeeps(n, order);
    WriteKeeps(Queued(n, order));
  }

  lemma WrapCancel(x: int64, d: int)
    ensures Wrap(x + d) == x <==> Wrap(d) == 0
  {
    if Wrap(d) == 0 {
      WrapCong(d, 0, x);
    }
    if Wrap(x + d) == x {
      WrapCong(x + d, x, -(x as int));
    }
  }

  lemma CreatedOnce() returns (n: Node)
    ensures n == Shortened(Fresh(0), "a", "u", 1, 0) && Conserved(n) && OwnCodes(n) == {"a"}
  {
    n := Shortened(Fresh(0), "a", "u", 1, 0);
    FreshConserved(0);
    assert CodeOK("a");
    StepConserves(Fresh(0), Shorten("a", "u", 1, 0));
    assert OwnCodes(n) == {"a"};
  }

  // ---------- a removed code that is created again ----------

  /** When a code is created (again), what recovery would count and the pending delta make up the
      counter in memory, which starts at zero, if and only if the hits logged without a row and
      those still pending add up to nothing. */
  lemma CreatedRecovered(n: Node, code: string, url: string, now: int64, exp: int64, victims: seq<string>)
    requires Conserved(n) && CodeOK(code) && code !in n.idx.data
    requires |victims| == |Shortened(n, code, url, now, exp).Log()|
    requires forall j :: 0 <= j < |victims| ==> victims[j] != code
    ensures var n' := Shortened(n, code, url, now, exp);
            var s := Replay(n.me, EMPTY, n'.Log(), victims);
            code in s.data && code in n'.idx.data &&
            (n'.idx.data[code].oh == Wrap(s.data[code].oh + DirtyOf(n', code)) <==>
               Wrap(OwnOrWaiting(n.me, n.Log(), code) + DirtyOf(n, code)) == 0)
  {
    hide Replay, OwnAt, Solid;
    var n', o := Shortened(n, code, url, now, exp), Row(code, url, now, exp, n.me, 0);
    ShortenKeeps(n, code, url, now, exp);
    Pushed(n, n', o);
    OwnLoggable(n.me, n'.Log());
    ReplayOwnInAnyOrder(n.me, n'.Log(), victims, code);
    RecoveredRows(n.me, n'.Log(), victims, code);
    assert RowIn(n.idx, code) == RowAt(n.Log(), code);
    assert RowIn(n'.idx, code) == RowAt(n'.Log(), code);
    OwnOfRow(n.me, n.Log(), o);
    WrapAdd(OwnOrWaiting(n.me, n.Log(), code), DirtyOf(n, code));
  }

  lemma OwnOfRow(me: nat, ops: seq<LogOp>, o: LogOp)
    requires o.Row? && o.n == 0 && RowAt(ops, o.c).None?
    ensures OwnOrWaiting(me, ops + [o], o.c) == OwnOrWaiting(me, ops, o.c)
  {
    assert (ops + [o])[..|ops|] == ops;
  }

  /** It does happen: a link is created, resolved and removed with the hit pending; made again, it
      starts at zero with a hit pending that a recovery would count on top. */
  lemma CreationRemembers(victims: seq<string>) returns (n: Node, calls: seq<Call>)
    requires |victims| == 3 && forall j :: 0 <= j < |victims| ==> victims[j] != "a"
    ensures Legal(Fresh(0), calls) && n == Run(Fresh(0), calls) && |n.Log()| == 3
    ensures var s := Replay(0, EMPTY, n.Log(), victims);
            "a" in s.data && "a" in n.idx.data && n.idx.data["a"].oh == 0 &&
            n.idx.data["a"].oh != Wrap(s.data["a"].oh + DirtyOf(n, "a"))
  {
    hide Conserved, Replay, OwnOrWaiting, Run, Legal;
    var n3;
    n3, calls := RemovedWithHit();
    assert CodeOK("a");
    var call := Shorten("a", "u", 4, 0);
    n := After(n3, call);
    RunSnoc(Fresh(0), calls, call);
    calls := calls + [call];
    Pushed(n3, n, Row("a", "u", 4, 0, 0, 0));
    CreatedRecovered(n3, "a", "u", 4, 0, victims);
  }

  lemma RemovedWithHit() returns (n: Node, calls: seq<Call>)
    ensures Legal(Fresh(0), calls) && n == Run(Fresh(0), calls) && Conserved(n) && n.me == 0 && |n.Log()| == 2
    ensures "a" !in n.idx.data && Wrap(OwnOrWaiting(0, n.Log(), "a") + DirtyOf(n, "a")) == 1
  {
    hide Conserved;
    var n1 := CreatedOnce();
    StepConserves(n1, Resolve("a", 2));
    var n2 := After(n1, Resolve("a", 2));
    assert Wrap(1) == 1;
    StepConserves(n2, Remove("a"));
    n := After(n2, Remove("a"));
    calls := [Shorten("a", "u", 1, 0)];
    assert calls[1..] == [];
    assert Run(Fresh(0), calls) == n1;
    RunSnoc(Fresh(0), calls, Resolve("a", 2));
    calls := calls + [Resolve("a", 2)];
    RunSnoc(Fresh(0), calls, Remove("a"));
    calls := calls + [Remove("a")];
    assert n.Log()[1] == Del("a");
  }

  /** It does happen: a link is created, resolved once, and the hit logged; after an update a
      recovery would count none. */
  lemma UpdateForgets(victims: seq<string>) returns (n: Node, calls: seq<Call>)
    requires |victims| == 3
    ensures Legal(Fresh(0), calls) && n == Run(Fresh(0), calls) && |n.Log()| == 3
    ensures var s := Replay(0, EMPTY, n.Log(), victims);
            "a" in s.data && "a" in n.idx.data && n.idx.data["a"].oh == 1 &&
            s.data["a"].oh == 0 && DirtyOf(n, "a") == 0
  {
    hide Conserved, Replay;
    var n3;
    n3, calls := LoggedOnce();
    var call := Update("a", "v", 4, 0, false);
    n := After(n3, call);
    RunSnoc(Fresh(0), calls, call);
    calls := calls + [call];
    UpdateLogs(n3, "a", "v", 4, 0, false);
    UpdateForgotten(n3, n, victims);
  }

  lemma UpdateForgotten(n3: Node, n: Node, victims: seq<string>)
    requires Conserved(n3) && n3.me == 0 && n == Updated(n3, "a", "v", 4, 0, false).0 && |victims| == |n.Log()|
    requires "a" in n3.idx.data && n3.idx.data["a"].oh == 1 && n3.dirty == map[]
    ensures var s := Replay(0, EMPTY, n.Log(), victims);
            "a" in s.data && "a" in n.idx.data && n.idx.data["a"].oh == 1 &&
            s.data["a"].oh == 0 && DirtyOf(n, "a") == 0
  {
    hide Conserved, Replay, OwnAt, Solid, Updated;
    UpdateLogs(n3, "a", "v", 4, 0, false);
    OwnLoggable(0, n.Log());
    ReplayOwn(0, n.Log(), victims, "a");
    RecoveredRows(0, n.Log(), victims, "a");
    assert RowIn(n.idx, "a") == RowAt(n.Log(), "a");
    ZeroPlus(0);
  }

  lemma {:induction false} RunSnoc(n: Node, calls: seq<Call>, call: Call)
    requires Legal(n, calls) && Can(Run(n, calls), call)
    ensures Legal(n, calls + [call]) && Run(n, calls + [call]) == After(Run(n, calls), call)
    decreases |calls|
  {
    hide After, Can;
    var all := calls + [call];
    if calls == [] {
      assert all[1..] == [];
    } else {
      RunSnoc(After(n, calls[0]), calls[1..], call);
      assert all[1..] == calls[1..] + [call];
    }
  }

  lemma LoggedOnce() returns (n: Node, calls: seq<Call>)
    ensures Legal(Fresh(0), calls) && n == Run(Fresh(0), calls) && Conserved(n) && n.me == 0 && |n.Log()| == 2
    ensures "a" in n.idx.data && n.idx.data["a"].oh == 1 && n.dirty == map[]
  {
    hide Conserved;
    var n1 := CreatedOnce();
    StepConserves(n1, Resolve("a", 2));
    var n2 := After(n1, Resolve("a", 2));
    assert Wrap(1) == 1;
    assert n2.dirty == map["a" := 1];
    StepConserves(n2, Queue(["a"]));
    n := After(n2, Queue(["a"]));
    calls := [Shorten("a", "u", 1, 0)];
    assert calls[1..] == [];
    assert Run(Fresh(0), calls) == n1;
    RunSnoc(Fresh(0), calls, Resolve("a", 2));
    calls := calls + [Resolve("a", 2)];
    RunSnoc(Fresh(0), calls, Queue(["a"]));
    calls := calls + [Queue(["a"])];
  }

  lemma CompactedOnce() returns (n: Node)
    ensures Conserved(n) && n.me == 0 && n.file == [] && n.buf == [] && |n.snap| == 1 && n.dirty == map[]
    ensures n.idx.data == map["a" := Entry("u", 1, 0, 0, 0, 0)]
  {
    hide Conserved, OwnCodes;
    var n1 := CreatedOnce();
    assert Can(n1, Compact([], ["a"]));
    StepConserves(n1, Compact([], ["a"]));
    n := Compacted(n1, [], ["a"]);
  }

  /** A link that was compacted into the snapshot and has been hit once since. */
  lemma HitOnce() returns (n: Node)
    ensures Conserved(n) && n.me == 0 && n.file == [] && n.buf == [] && |n.snap| == 1
    ensures n.dirty == map["a" := 1] && OwnCodes(n) == {"a"}
    ensures "a" in n.idx.data && n.idx.data["a"].oh == 1
  {
    hide Conserved;
    var n2 := CompactedOnce();
    StepConserves(n2, Resolve("a", 2));
    n := Resolved(n2, "a", 2).0;
    assert Wrap(1) == 1;
  }

  lemma OneHit(n: Node)
    requires n.me == 0 && n.file == [] && n.buf == [] && n.dirty == map["a" := 1]
    ensures Flushed(n, ["a"]).file == [Hit("a", 1, 0)]
    ensures !Settles(Flushed(n, ["a"]).file, "a") && OwnDeltas(0, Flushed(n, ["a"]).file, "a") == 1
  {
    var hits := HitOps(n.me, n.dirty, ["a"]);
    assert hits == [Hit("a", 1, 0)] && Flushed(n, ["a"]).file == hits;
    assert hits[..0] == [] && OwnDeltas(0, [], "a") == 0;
  }

  /** It does happen: a link compacted once, hit once, and compacted again counts that hit
      twice when the second compaction stops before it truncates the log. */
  lemma CompactCrashDoubles(victims: seq<string>) returns (n: Node)
    requires |victims| == 2
    ensures Conserved(n) && Lists(["a"], n.dirty.Keys) && Lists(["a"], OwnCodes(n)) && "a" in n.idx.data
    ensures var d := DiskStages(n, ["a"], ["a"])[1];
            |d.snap + d.file| == 2 &&
            var s := Replay(n.me, EMPTY, d.snap + d.file, victims);
            "a" in s.data && s.data["a"].oh != n.idx.data["a"].oh
  {
    hide Conserved, Settles, OwnDeltas, Replay;
    n := HitOnce();
    OneHit(n);
    assert "a" in OwnCodes(n);
    CompactCrashHits(n, ["a"], ["a"], victims, "a");
    assert Wrap(1) != 0;
  }
}
