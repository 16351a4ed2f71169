/** One instance: its table, its unflushed hit deltas, its log (queued and on disk) and its
    snapshot, with every public operation as one atomic step. Logs are lists of operations
    here; `Store` ties them to bytes. */
module Instance {
  import opened Ints
  import opened LogLine
  import opened Options
  import opened Table

  const MAX_INSTANCES := 62

  /** An instance id: the index of its letter in the base-62 alphabet. */
  type Id = x: nat | x < MAX_INSTANCES

  datatype Node = Node(me: Id, idx: Index, dirty: map<string, int64>,
                       buf: seq<LogOp>, file: seq<LogOp>, snap: seq<LogOp>)
  {
    /** Everything recovery would read if the queued lines had been written. */
    function Log(): seq<LogOp> {
      snap + file + buf
    }
  }

  datatype Mut = MutOK | MutMissing | MutRemote

  function Fresh(me: Id): Node {
    Node(me, EMPTY, map[], [], [], [])
  }

  // ---------- operations ----------

  function Expiry(now: int64, ttl: int64): int64 {
    if ttl > 0 then Wrap(now + ttl) else 0
  }

  /** A link is created under `code`. */
  function Shortened(n: Node, code: string, url: string, now: int64, exp: int64): Node {
    n.(idx := n.idx.(data := n.idx.data[code := Entry(url, now, exp, n.me, 0, 0)]),
       buf := n.buf + [Row(code, url, now, exp, n.me, 0)])
  }

  function Updated(n: Node, code: string, url: string, now: int64, ttl: int64, hasTTL: bool): (Node, Mut) {
    if code !in n.idx.data then (n, MutMissing)
    else
      var e := n.idx.data[code];
      if e.i != n.me then (n, MutRemote)
      else
        var exp := if hasTTL then Expiry(now, ttl) else e.e;
        (n.(idx := n.idx.(data := n.idx.data[code := e.(u := url, e := exp)]),
            buf := n.buf + [Row(code, url, e.a, exp, n.me, 0)]), MutOK)
  }

  function Removed(n: Node, code: string): (Node, Mut) {
    if code !in n.idx.data then (n, MutMissing)
    else if n.idx.data[code].i != n.me then (n, MutRemote)
    else (n.(idx := n.idx.(data := n.idx.data - {code}), buf := n.buf + [Del(code)]), MutOK)
  }

  /** `code` is there and has not expired. */
  predicate Live(n: Node, code: string, now: int64) {
    code in n.idx.data && (n.idx.data[code].e == 0 || now < n.idx.data[code].e)
  }

  function DirtyOf(n: Node, code: string): int64 {
    if code in n.dirty then n.dirty[code] else 0
  }

  function Resolved(n: Node, code: string, now: int64): (Node, Option<string>) {
    if !Live(n, code, now) then (n, None)
    else
      var e := n.idx.data[code];
      (n.(idx := n.idx.(data := n.idx.data[code := e.(h := Wrap(e.h + 1), oh := Wrap(e.oh + 1))]),
          dirty := n.dirty[code := Wrap(DirtyOf(n, code) + 1)]), Some(e.u))
  }

  // ---------- what they mean, written out ----------

  /** A time to live counts from now, as long as 64 bits hold the end; none is no expiry. */
  lemma ExpiryIs(now: int64, ttl: int64)
    ensures ttl <= 0 ==> Expiry(now, ttl) == 0
    ensures 0 < ttl && now + ttl < TWO63 ==> Expiry(now, ttl) == now + ttl
  {}

  /** An update is accepted exactly for an own row. It changes the URL, and the expiry if a time to
      live is given, and nothing else. */
  lemma UpdatedMeans(n: Node, code: string, url: string, now: int64, ttl: int64, hasTTL: bool)
    ensures var (n', r) := Updated(n, code, url, now, ttl, hasTTL);
            (r == MutMissing <==> code !in n.idx.data) &&
            (r == MutOK <==> code in n.idx.data && n.idx.data[code].i == n.me) &&
            (r != MutOK ==> n' == n) &&
            n'.idx.data.Keys == n.idx.data.Keys && n'.idx.stray == n.idx.stray && n'.dirty == n.dirty &&
            forall c :: c in n.idx.data && (c != code || r != MutOK) ==> n'.idx.data[c] == n.idx.data[c]
    ensures var (n', r) := Updated(n, code, url, now, ttl, hasTTL);
            r == MutOK ==>
              var e, e' := n.idx.data[code], n'.idx.data[code];
              e'.u == url && e'.a == e.a && e'.i == n.me && e'.h == e.h && e'.oh == e.oh &&
              (!hasTTL ==> e'.e == e.e) && (hasTTL && ttl <= 0 ==> e'.e == 0) &&
              (hasTTL && 0 < ttl && now + ttl < TWO63 ==> e'.e == now + ttl)
  {}

  /** A removal is accepted exactly for an own row, and takes that row and no other. */
  lemma RemovedMeans(n: Node, code: string)
    ensures var (n', r) := Removed(n, code);
            (r == MutMissing <==> code !in n.idx.data) &&
            (r == MutOK <==> code in n.idx.data && n.idx.data[code].i == n.me) &&
            (r != MutOK ==> n' == n) && (r == MutOK ==> code !in n'.idx.data) &&
            (forall c :: c in n'.idx.data <==> c in n.idx.data && (c != code || r != MutOK)) &&
            forall c :: c in n'.idx.data ==> n'.idx.data[c] == n.idx.data[c]
  {}

  /** A resolve answers exactly for a row that has not expired, with its URL. It then counts one
      hit in the row and one that is pending; otherwise it changes nothing. */
  lemma ResolvedMeans(n: Node, code: string, now: int64)
    ensures var (n', url) := Resolved(n, code, now);
            (url.Some? <==> code in n.idx.data && (n.idx.data[code].e == 0 || now < n.idx.data[code].e)) &&
            (url.Some? ==> url.value == n.idx.data[code].u) && (url.None? ==> n' == n)
    ensures var (n', url) := Resolved(n, code, now);
            url.Some? ==>
              var e := n.idx.data[code];
              n'.idx.data == n.idx.data[code := Entry(e.u, e.a, e.e, e.i, Wrap(e.h + 1), Wrap(e.oh + 1))] &&
              n'.dirty == n.dirty[code := Wrap((if code in n.dirty then n.dirty[code] as int else 0) + 1)] &&
              n' == n.(idx := n.idx.(data := n'.idx.data), dirty := n'.dirty)
  {}

  /** The queued lines reach the file. */
  function Written(n: Node): Node {
    n.(file := n.file + n.buf, buf := [])
  }

  /** `order` is one way to go through `keys`, each once. */
  ghost predicate Lists(order: seq<string>, keys: set<string>) {
    (forall j :: 0 <= j < |order| ==> order[j] in keys) &&
    (forall c :: c in keys ==> c in order) &&
    (forall j, k :: 0 <= j < k < |order| ==> order[j] != order[k])
  }

  lemma ListsSnoc(order: seq<string>, keys: set<string>, c: string)
    requires Lists(order, keys) && c !in keys
    ensures Lists(order + [c], keys + {c})
  {
    var longer := order + [c];
    assert longer[|order|] == c;
    forall d | d in keys + {c} ensures d in longer {
      if d != c {
        assert d in order;
      }
    }
  }

  function HitOps(me: Id, dirty: map<string, int64>, order: seq<string>): (ops: seq<LogOp>)
    requires forall j :: 0 <= j < |order| ==> order[j] in dirty
    ensures |ops| == |order|
    ensures forall j :: 0 <= j < |order| ==> ops[j] == Hit(order[j], dirty[order[j]], me)
  {
    seq(|order|, j requires 0 <= j < |order| => Hit(order[j], dirty[order[j]], me))
  }

  /** Pending hit deltas are queued, in the order the map iteration gives. */
  function Queued(n: Node, order: seq<string>): Node
    requires forall j :: 0 <= j < |order| ==> order[j] in n.dirty
  {
    n.(buf := n.buf + HitOps(n.me, n.dirty, order), dirty := map[])
  }

  function Flushed(n: Node, order: seq<string>): Node
    requires forall j :: 0 <= j < |order| ==> order[j] in n.dirty
  {
    Written(Queued(n, order))
  }

  function RowOp(code: string, e: Entry): LogOp {
    Row(code, e.u, e.a, e.e, e.i, e.oh)
  }

  function SnapOps(data: map<string, Entry>, order: seq<string>): (ops: seq<LogOp>)
    requires forall j :: 0 <= j < |order| ==> order[j] in data
    ensures |ops| == |order|
    ensures forall j :: 0 <= j < |order| ==> ops[j] == RowOp(order[j], data[order[j]])
  {
    seq(|order|, j requires 0 <= j < |order| => RowOp(order[j], data[order[j]]))
  }

  function OwnCodes(n: Node): set<string> {
    set c | c in n.idx.data && n.idx.data[c].i == n.me
  }

  /** Flush, snapshot of the own rows (renamed into place), truncated log. */
  function Compacted(n: Node, order: seq<string>, rows: seq<string>): Node
    requires forall j :: 0 <= j < |order| ==> order[j] in n.dirty
    requires forall j :: 0 <= j < |rows| ==> rows[j] in n.idx.data
  {
    Flushed(n, order).(snap := SnapOps(n.idx.data, rows), file := [])
  }

  /** Snapshot and log file as they stand on disk, in turn, while `Compacted(n, order, rows)`
      is under way: flushed, new snapshot renamed into place, log truncated. */
  datatype Disk = Disk(snap: seq<LogOp>, file: seq<LogOp>)

  function DiskStages(n: Node, order: seq<string>, rows: seq<string>): seq<Disk>
    requires forall j :: 0 <= j < |order| ==> order[j] in n.dirty
    requires forall j :: 0 <= j < |rows| ==> rows[j] in n.idx.data
  {
    var f := Flushed(n, order);
    var snap := SnapOps(n.idx.data, rows);
    [Disk(f.snap, f.file), Disk(snap, f.file), Disk(snap, [])]
  }

  /** The process dies when the first `kept` queued lines are in the file; a new one
      replays the snapshot and the file. */
  function Reopened(n: Node, kept: nat, victims: seq<string>): Node
    requires kept <= |n.buf| && |victims| == |n.snap + n.file| + kept
  {
    var file := n.file + n.buf[..kept];
    Node(n.me, Replay(n.me, EMPTY, n.snap + file, victims), map[], [], file, n.snap)
  }

  // ---------- bulk creation ----------

  /** Links created one after the other under `codes`. */
  function ShortenedAll(n: Node, codes: seq<string>, urls: seq<string>, now: int64, exp: int64): Node
    requires |codes| <= |urls|
    decreases |codes|
  {
    if codes == [] then n
    else
      var k := |codes| - 1;
      Shortened(ShortenedAll(n, codes[..k], urls, now, exp), codes[k], urls[k], now, exp)
  }

  ghost predicate Distinct<T>(s: seq<T>) {
    forall i, j :: 0 <= i < j < |s| ==> s[i] != s[j]
  }

  /** Bulk creation: each URL gets the row of its own code, and other rows stay. */
  lemma {:induction false} BulkCreation(n: Node, codes: seq<string>, urls: seq<string>, now: int64, exp: int64)
    requires |codes| <= |urls| && Distinct(codes)
    ensures var n' := ShortenedAll(n, codes, urls, now, exp);
            (forall i :: 0 <= i < |codes| ==>
               codes[i] in n'.idx.data && n'.idx.data[codes[i]] == Entry(urls[i], now, exp, n.me, 0, 0)) &&
            (forall c :: c !in codes ==> RowIn(n'.idx, c) == RowIn(n.idx, c)) &&
            n'.idx.data.Keys == n.idx.data.Keys + set c | c in codes
    decreases |codes|
  {
    if codes != [] {
      var k := |codes| - 1;
      assert codes == codes[..k] + [codes[k]];
      BulkCreation(n, codes[..k], urls, now, exp);
    }
  }

  /** Its row lines are queued in the order of the URLs, and nothing else changes. */
  lemma {:induction false} BulkLogged(n: Node, codes: seq<string>, urls: seq<string>, now: int64, exp: int64)
    requires |codes| <= |urls|
    ensures var n' := ShortenedAll(n, codes, urls, now, exp);
            n'.buf == n.buf + seq(|codes|, i requires 0 <= i < |codes| => Row(codes[i], urls[i], now, exp, n.me, 0)) &&
            n' == n.(idx := n'.idx, buf := n'.buf) && n'.idx.stray == n.idx.stray
    decreases |codes|
  {
    if codes != [] {
      var k := |codes| - 1;
      assert codes == codes[..k] + [codes[k]];
      BulkLogged(n, codes[..k], urls, now, exp);
    }
  }
}
