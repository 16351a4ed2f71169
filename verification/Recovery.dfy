/** What a single instance can rely on across crashes and compactions. */
module Recovery {
  import opened Ints
  import opened LogLine
  import opened LineRoundTrip
  import opened OpLog
  import opened Options
  import opened Table
  import opened Instance

  /** Everything an instance without siblings can be made to do. A flush is `Queue`, then
      `Write`; a bulk creation is a `Shorten` for each URL; a crash may come anywhere. */
  datatype Call =
    | Shorten(code: string, url: string, now: int64, exp: int64)
    | Update(code: string, url: string, now: int64, ttl: int64, hasTTL: bool)
    | Remove(code: string)
    | Resolve(code: string, now: int64)
    | Queue(order: seq<string>)
    | Write
    | Compact(order: seq<string>, rows: seq<string>)
    | Crash(kept: nat, victims: seq<string>)

  ghost predicate Can(n: Node, call: Call) {
    match call
    case Shorten(code, _, _, _) => CodeOK(code) && code !in n.idx.data
    case Queue(order) => Lists(order, n.dirty.Keys)
    case Compact(order, rows) => Lists(order, n.dirty.Keys) && Lists(rows, OwnCodes(n))
    case Crash(kept, victims) => kept <= |n.buf| && |victims| == |n.snap + n.file| + kept
    case _ => true
  }

  ghost function After(n: Node, call: Call): Node
    requires Can(n, call)
  {
    match call
    case Shorten(code, url, now, exp) => Shortened(n, code, url, now, exp)
    case Update(code, url, now, ttl, hasTTL) => Updated(n, code, url, now, ttl, hasTTL).0
    case Remove(code) => Removed(n, code).0
    case Resolve(code, now) => Resolved(n, code, now).0
    case Write => Written(n)
    case Queue(order) => Queued(n, order)
    case Compact(order, rows) => Compacted(n, order, rows)
    case Crash(kept, victims) => Reopened(n, kept, victims)
  }

  ghost predicate Legal(n: Node, calls: seq<Call>)
    decreases |calls|
  {
    calls != [] ==> Can(n, calls[0]) && Legal(After(n, calls[0]), calls[1..])
  }

  ghost function Run(n: Node, calls: seq<Call>): Node
    requires Legal(n, calls)
    decreases |calls|
  {
    if calls == [] then n else Run(After(n, calls[0]), calls[1..])
  }

  // ---------- rows ----------

  ghost predicate RowsAgree(n: Node) {
    forall c :: RowIn(n.idx, c) == RowAt(n.Log(), c)
  }

  ghost predicate OwnOp(me: Id, o: LogOp) {
    Loggable(o) && (o.Row? ==> o.i == me)
  }

  ghost predicate OwnLog(me: Id, ops: seq<LogOp>) {
    forall j :: 0 <= j < |ops| ==> OwnOp(me, ops[j])
  }

  ghost predicate WellFormed(n: Node) {
    OwnLog(n.me, n.Log()) &&
    (forall c :: c in n.idx.data ==> CodeOK(c) && n.idx.data[c].i == n.me) &&
    (forall c :: c in n.dirty ==> CodeOK(c))
  }

  /** The table is what its log says. */
  ghost predicate Durable(n: Node) {
    WellFormed(n) && RowsAgree(n)
  }

  lemma Pushed(n: Node, n': Node, o: LogOp)
    requires n'.snap == n.snap && n'.file == n.file && n'.buf == n.buf + [o]
    ensures n'.Log() == n.Log() + [o]
    ensures OwnOp(n.me, o) && OwnLog(n.me, n.Log()) ==> OwnLog(n.me, n'.Log())
  {}

  lemma ShortenKeeps(n: Node, code: string, url: string, now: int64, exp: int64)
    requires Durable(n) && CodeOK(code)
    ensures Durable(Shortened(n, code, url, now, exp))
  {
    var n', o := Shortened(n, code, url, now, exp), Row(code, url, now, exp, n.me, 0);
    Pushed(n, n', o);
    forall c ensures RowIn(n'.idx, c) == RowAt(n'.Log(), c) {
      RowAtSnoc(n.Log(), o, c);
    }
  }

  lemma UpdateKeeps(n: Node, code: string, url: string, now: int64, ttl: int64, hasTTL: bool)
    requires Durable(n)
    ensures Durable(Updated(n, code, url, now, ttl, hasTTL).0)
  {
    if code in n.idx.data {
      var n' := Updated(n, code, url, now, ttl, hasTTL).0;
      var e := n'.idx.data[code];
      var o := Row(code, url, e.a, e.e, n.me, 0);
      Pushed(n, n', o);
      forall c ensures RowIn(n'.idx, c) == RowAt(n'.Log(), c) {
        RowAtSnoc(n.Log(), o, c);
      }
    }
  }

  lemma RemoveKeeps(n: Node, code: string)
    requires Durable(n)
    ensures Durable(Removed(n, code).0)
  {
    if code in n.idx.data {
      var n' := Removed(n, code).0;
      Pushed(n, n', Del(code));
      forall c ensures RowIn(n'.idx, c) == RowAt(n'.Log(), c) {
        RowAtSnoc(n.Log(), Del(code), c);
      }
    }
  }

  lemma ResolveKeeps(n: Node, code: string, now: int64)
    requires Durable(n)
    ensures Durable(Resolved(n, code, now).0)
  {
    var n' := Resolved(n, code, now).0;
    assert n'.Log() == n.Log();
    forall c ensures RowIn(n'.idx, c) == RowAt(n'.Log(), c) {
      assert RowIn(n'.idx, c) == RowIn(n.idx, c);
    }
  }

  lemma HitsSettleNothing(a: seq<LogOp>, hits: seq<LogOp>, c: string)
    requires forall j :: 0 <= j < |hits| ==> hits[j].Hit?
    ensures RowAt(a + hits, c) == RowAt(a, c)
  {
    RowAtAppend(a, hits, c);
  }

  lemma QueueKeeps(n: Node, order: seq<string>)
    requires Durable(n) && Lists(order, n.dirty.Keys)
    ensures Durable(Queued(n, order))
  {
    var n', hits := Queued(n, order), HitOps(n.me, n.dirty, order);
    assert n'.Log() == n.Log() + hits;
    assert OwnLog(n.me, hits);
    forall c ensures RowIn(n'.idx, c) == RowAt(n'.Log(), c) {
      HitsSettleNothing(n.Log(), hits, c);
    }
  }

  lemma WriteKeeps(n: Node)
    requires Durable(n)
    ensures Durable(Written(n)) && Written(n).Log() == n.Log()
  {
    assert Written(n).Log() == n.Log();
  }

  /** A snapshot of the own rows says of every own code what the table does. */
  lemma {:induction false} SnapRows(n: Node, rows: seq<string>, c: string)
    requires forall j :: 0 <= j < |rows| ==> rows[j] in n.idx.data
    ensures RowAt(SnapOps(n.idx.data, rows), c) == if c in rows then RowIn(n.idx, c) else None
    decreases |rows|
  {
    var ops := SnapOps(n.idx.data, rows);
    if rows != [] {
      var k := |rows| - 1;
      SnapRows(n, rows[..k], c);
      assert ops[..k] == SnapOps(n.idx.data, rows[..k]);
      assert rows == rows[..k] + [rows[k]];
      assert ops[k] == RowOp(rows[k], n.idx.data[rows[k]]);
      WrapSmall(n.idx.data[rows[k]].i);
    }
  }

  lemma WrapSmall(i: int32)
    ensures Wrap32(i) == i
  {}

  lemma SnapCovers(n: Node, rows: seq<string>, c: string)
    requires WellFormed(n) && Lists(rows, OwnCodes(n))
    ensures RowAt(SnapOps(n.idx.data, rows), c) == RowIn(n.idx, c)
    ensures OwnLog(n.me, SnapOps(n.idx.data, rows))
  {
    SnapRows(n, rows, c);
    assert c in n.idx.data ==> c in OwnCodes(n);
  }

  lemma CompactKeeps(n: Node, order: seq<string>, rows: seq<string>)
    requires Durable(n) && Lists(order, n.dirty.Keys) && Lists(rows, OwnCodes(n))
    ensures Durable(Compacted(n, order, rows))
  {
    var n' := Compacted(n, order, rows);
    assert n'.Log() == n'.snap;
    assert n'.idx == n.idx;
    forall c ensures RowIn(n'.idx, c) == RowAt(n'.Log(), c) {
      SnapCovers(n, rows, c);
    }
    SnapCovers(n, rows, "");
  }

  lemma CrashKeeps(n: Node, kept: nat, victims: seq<string>)
    requires WellFormed(n) && kept <= |n.buf| && |victims| == |n.snap + n.file| + kept
    ensures Durable(Reopened(n, kept, victims))
  {
    var ops := n.snap + (n.file + n.buf[..kept]);
    var n' := Reopened(n, kept, victims);
    assert n'.Log() == ops && ops == n.Log()[..|ops|];
    assert OwnLog(n.me, ops);
    forall c ensures RowIn(n'.idx, c) == RowAt(n'.Log(), c) {
      RecoveredRows(n.me, ops, victims, c);
    }
    forall c | c in n'.idx.data ensures CodeOK(c) && n'.idx.data[c].i == n.me {
      assert RowIn(n'.idx, c) == RowAt(ops, c);
      RowOrigin(n.me, ops, c);
    }
  }

  lemma {:induction false} RowOrigin(me: Id, ops: seq<LogOp>, c: string)
    requires OwnLog(me, ops) && RowAt(ops, c).Some?
    ensures CodeOK(c) && RowAt(ops, c).value.i == me
    decreases |ops|
  {
    var k := |ops| - 1;
    assert OwnOp(me, ops[k]);
    if ops[k].c == c && ops[k].Row? {
      WrapSmall(me);
    } else {
      RowOrigin(me, ops[..k], c);
    }
  }

  lemma StepKeeps(n: Node, call: Call)
    requires Durable(n) && Can(n, call)
    ensures Durable(After(n, call)) && After(n, call).me == n.me
  {
    match call
    case Shorten(code, url, now, exp) => ShortenKeeps(n, code, url, now, exp);
    case Update(code, url, now, ttl, hasTTL) => UpdateKeeps(n, code, url, now, ttl, hasTTL);
    case Remove(code) => RemoveKeeps(n, code);
    case Resolve(code, now) => ResolveKeeps(n, code, now);
    case Queue(order) => QueueKeeps(n, order);
    case Write => WriteKeeps(n);
    case Compact(order, rows) => CompactKeeps(n, order, rows);
    case Crash(kept, victims) => CrashKeeps(n, kept, victims);
  }

  lemma {:induction false} RunKeeps(n: Node, calls: seq<Call>)
    requires Durable(n) && Legal(n, calls)
    ensures Durable(Run(n, calls)) && Run(n, calls).me == n.me
    decreases |calls|
  {
    hide Durable, Can, After;
    if calls != [] {
      StepKeeps(n, calls[0]);
      RunKeeps(After(n, calls[0]), calls[1..]);
    }
  }

  /** Recovery refinement: after any run, with crashes and compactions in it, replaying
      the snapshot, the log file and the unflushed lines rebuilds the very rows in memory. */
  lemma RecoveryRefinement(me: Id, calls: seq<Call>, victims: seq<string>, c: string)
    requires Legal(Fresh(me), calls) && |victims| == |Run(Fresh(me), calls).Log()|
    ensures var n := Run(Fresh(me), calls);
            RowIn(Replay(me, EMPTY, n.Log(), victims), c) == RowIn(n.idx, c)
  {
    var n := Run(Fresh(me), calls);
    assert Durable(Fresh(me));
    RunKeeps(Fresh(me), calls);
    assert AllLoggable(n.Log()) by {
      forall j | 0 <= j < |n.Log()| ensures Loggable(n.Log()[j]) {
        assert OwnOp(me, n.Log()[j]);
      }
    }
    RecoveredRows(me, n.Log(), victims, c);
  }
}
