/** The token buckets that limit how much each client may write, and the eviction that bounds
    how many of them are kept. */
module RateLimit {
  import opened Options

  const SHARDS := 64
  const MAX_KEYS := 4096
  const IDLE_MS := 60000

  type Key = x: int | 0 <= x < 0x1_0000_0000_0000_0000

  datatype Bucket = Bucket(tokens: real, lastMs: int)

  /** Tokens per second, and how many a bucket holds. */
  datatype Limits = Limits(rate: real, burst: real)

  type Buckets = map<Key, Bucket>

  /** One request: who, when, for how much. */
  datatype Call = Call(k: Key, now: int, cost: real)

  function Hash(ip: string, h: bv64): bv64 {
    if ip == "" then h else Hash(ip[1..], (h ^ ((ip[0] as int % 256) as bv64)) * 0x100000001b3)
  }

  /** FNV-1a. */
  function IpKey(ip: string): Key {
    Hash(ip, 0xcbf29ce484222325) as int
  }

  function ShardIdx(k: Key): (i: nat)
    ensures i < SHARDS
  {
    k % SHARDS
  }

  // ---------- one bucket ----------

  /** The tokens that some milliseconds bring. */
  function Earned(l: Limits, ms: int): real {
    ms as real / 1000.0 * l.rate
  }

  function Refilled(l: Limits, b: Bucket, now: int): real {
    var t := b.tokens + Earned(l, now - b.lastMs);
    if t > l.burst then l.burst else t
  }

  /** The bucket a request finds, filled up to now. */
  function Found(l: Limits, b: Option<Bucket>, now: int): real {
    match b
    case None => Refilled(l, Bucket(l.burst, now), now)
    case Some(x) => Refilled(l, x, now)
  }

  function Granted(l: Limits, b: Option<Bucket>, c: Call): bool {
    Found(l, b, c.now) >= c.cost
  }

  function Spent(l: Limits, b: Option<Bucket>, c: Call): Bucket {
    Bucket(Found(l, b, c.now) - if Granted(l, b, c) then c.cost else 0.0, c.now)
  }

  function At(m: Buckets, k: Key): Option<Bucket> {
    if k in m then Some(m[k]) else None
  }

  // ---------- a limiter that keeps every bucket ----------

  function Decides(l: Limits, m: Buckets, c: Call): bool {
    l.rate <= 0.0 || Granted(l, At(m, c.k), c)
  }

  function Plain(l: Limits, m: Buckets, c: Call): Buckets {
    if l.rate <= 0.0 then m else m[c.k := Spent(l, At(m, c.k), c)]
  }

  function PlainRun(l: Limits, calls: seq<Call>): Buckets {
    if calls == [] then map[] else Plain(l, PlainRun(l, calls[..|calls| - 1]), calls[|calls| - 1])
  }

  // ---------- one shard with eviction ----------

  predicate Idle(b: Bucket, now: int) {
    now - b.lastMs > IDLE_MS
  }

  /** What is left of a shard when a request comes. */
  function Kept(m: Buckets, now: int): Buckets {
    if |m| >= MAX_KEYS then Sifted(m, {}, now) else m
  }

  /** A shard while idle buckets are being dropped. */
  function Sifted(m: Buckets, todo: set<Key>, now: int): Buckets {
    map k | k in m && (k in todo || !Idle(m[k], now)) :: m[k]
  }

  lemma SiftedNone(m: Buckets, now: int)
    ensures Sifted(m, m.Keys, now) == m
  {}

  lemma SiftedStep(m: Buckets, todo: set<Key>, k: Key, now: int)
    requires k in todo && todo <= m.Keys
    ensures k in Sifted(m, todo, now) && Sifted(m, todo, now)[k] == m[k]
    ensures Sifted(m, todo - {k}, now) == if Idle(m[k], now) then Sifted(m, todo, now) - {k} else Sifted(m, todo, now)
  {}

  type Shards = seq<Buckets>

  function NoShards(): (s: Shards)
    ensures |s| == SHARDS && forall i :: 0 <= i < SHARDS ==> s[i] == map[]
  {
    seq(SHARDS, _ => map[])
  }

  function ShardGrants(l: Limits, s: Shards, c: Call): bool
    requires |s| == SHARDS
  {
    Decides(l, Kept(s[ShardIdx(c.k)], c.now), c)
  }

  function Sharded(l: Limits, s: Shards, c: Call): (s': Shards)
    requires |s| == SHARDS
    ensures |s'| == SHARDS
  {
    if l.rate <= 0.0 then s
    else s[ShardIdx(c.k) := Plain(l, Kept(s[ShardIdx(c.k)], c.now), c)]
  }

  function ShardedRun(l: Limits, calls: seq<Call>): (s: Shards)
    ensures |s| == SHARDS
  {
    if calls == [] then NoShards() else Sharded(l, ShardedRun(l, calls[..|calls| - 1]), calls[|calls| - 1])
  }

  // ---------- eviction cannot be noticed ----------

  /** Requests with no negative cost, of a clock that does not go back. */
  ghost predicate Timely(calls: seq<Call>) {
    (forall i :: 0 <= i < |calls| ==> calls[i].cost >= 0.0) &&
    forall i, j :: 0 <= i < j < |calls| ==> calls[i].now <= calls[j].now
  }

  /** No time after `now` precedes. */
  ghost predicate Until(calls: seq<Call>, now: int) {
    forall i :: 0 <= i < |calls| ==> calls[i].now <= now
  }

  ghost predicate Sound(l: Limits, b: Bucket, now: int) {
    0.0 <= b.tokens <= l.burst && b.lastMs <= now
  }

  /** The buckets kept are those of the limiter that keeps all, and those that are not would be
      full by now. */
  ghost predicate Same(l: Limits, s: Option<Bucket>, p: Option<Bucket>, now: int) {
    (s.Some? ==> p == s) &&
    (p.Some? ==> Sound(l, p.value, now) && (s.None? ==> Refilled(l, p.value, now) == l.burst))
  }

  ghost predicate Simulates(l: Limits, s: Shards, m: Buckets, now: int)
    requires |s| == SHARDS
  {
    forall k: Key :: Same(l, At(s[ShardIdx(k)], k), At(m, k), now)
  }

  /** An idle minute fills any bucket. */
  predicate Forgetful(l: Limits) {
    l.burst <= Earned(l, IDLE_MS + 1)
  }

  lemma EarnedMore(l: Limits, x: int, y: int)
    requires l.rate > 0.0 && x <= y
    ensures Earned(l, x) <= Earned(l, y)
  {
    Faster(x as real / 1000.0, y as real / 1000.0, l.rate);
  }

  lemma Faster(x: real, y: real, r: real)
    requires x <= y && r > 0.0
    ensures x * r <= y * r
  {}

  lemma EarnedSum(l: Limits, x: int, y: int)
    ensures Earned(l, x) + Earned(l, y) == Earned(l, x + y) && Earned(l, 0) == 0.0
  {
    assert (x + y) as real / 1000.0 == x as real / 1000.0 + y as real / 1000.0;
  }

  lemma MoreTime(l: Limits, b: Bucket, now: int, later: int)
    requires l.rate > 0.0 && now <= later
    ensures Refilled(l, b, now) <= Refilled(l, b, later) <= l.burst
  {
    hide Earned;
    EarnedMore(l, now - b.lastMs, later - b.lastMs);
  }

  lemma IdleFills(l: Limits, b: Bucket, now: int)
    requires l.rate > 0.0 && Sound(l, b, now) && Idle(b, now) && Forgetful(l)
    ensures Refilled(l, b, now) == l.burst
  {
    hide Earned;
    EarnedMore(l, IDLE_MS + 1, now - b.lastMs);
  }

  lemma SameLater(l: Limits, s: Option<Bucket>, p: Option<Bucket>, now: int, later: int)
    requires l.rate > 0.0 && Same(l, s, p, now) && now <= later
    ensures Same(l, s, p, later)
  {
    if p.Some? {
      MoreTime(l, p.value, now, later);
    }
  }

  lemma SameEvicted(l: Limits, m: Buckets, k: Key, p: Option<Bucket>, now: int)
    requires l.rate > 0.0 && Same(l, At(m, k), p, now) && Forgetful(l)
    ensures Same(l, At(Kept(m, now), k), p, now)
  {
    if k in m && k !in Kept(m, now) {
      IdleFills(l, m[k], now);
    }
  }

  /** A request finds as many tokens as if nothing had been evicted. */
  lemma SameFound(l: Limits, s: Option<Bucket>, p: Option<Bucket>, now: int)
    requires l.rate > 0.0 && l.burst > 0.0 && Same(l, s, p, now)
    ensures Found(l, s, now) == Found(l, p, now) && 0.0 <= Found(l, p, now) <= l.burst
  {
    hide Earned;
    EarnedSum(l, 0, 0);
    if p.Some? {
      EarnedMore(l, 0, now - p.value.lastMs);
    }
  }

  lemma SameSpent(l: Limits, s: Option<Bucket>, p: Option<Bucket>, c: Call)
    requires l.rate > 0.0 && l.burst > 0.0 && c.cost >= 0.0 && Same(l, s, p, c.now)
    ensures Granted(l, s, c) == Granted(l, p, c)
    ensures Same(l, Some(Spent(l, s, c)), Some(Spent(l, p, c)), c.now)
  {
    hide Found;
    SameFound(l, s, p, c.now);
  }

  lemma StepSimulates(l: Limits, s: Shards, m: Buckets, c: Call, before: int)
    requires l.rate > 0.0 && l.burst > 0.0 && Forgetful(l) && |s| == SHARDS
    requires Simulates(l, s, m, before) && before <= c.now && c.cost >= 0.0
    ensures ShardGrants(l, s, c) == Decides(l, m, c)
    ensures Simulates(l, Sharded(l, s, c), Plain(l, m, c), c.now)
  {
    hide Same, Spent, Granted, Kept, ShardIdx;
    var i := ShardIdx(c.k);
    forall k: Key
      ensures Same(l, At(s[ShardIdx(k)], k), At(m, k), c.now)
      ensures Same(l, At(Kept(s[ShardIdx(k)], c.now), k), At(m, k), c.now)
    {
      SameLater(l, At(s[ShardIdx(k)], k), At(m, k), before, c.now);
      SameEvicted(l, s[ShardIdx(k)], k, At(m, k), c.now);
    }
    SameSpent(l, At(Kept(s[i], c.now), c.k), At(m, c.k), c);
  }

  lemma {:induction false} RunSimulates(l: Limits, calls: seq<Call>, now: int)
    requires l.rate > 0.0 && l.burst > 0.0 && Forgetful(l) && Timely(calls) && Until(calls, now)
    ensures Simulates(l, ShardedRun(l, calls), PlainRun(l, calls), now)
  {
    hide Same, Forgetful, Plain, Sharded;
    if calls == [] {
      NothingYet(l, now);
    } else {
      var h, c := calls[..|calls| - 1], calls[|calls| - 1];
      RunSimulates(l, h, c.now);
      StepSimulates(l, ShardedRun(l, h), PlainRun(l, h), c, c.now);
      var s, m := ShardedRun(l, calls), PlainRun(l, calls);
      forall k: Key ensures Same(l, At(s[ShardIdx(k)], k), At(m, k), now) {
        SameLater(l, At(s[ShardIdx(k)], k), At(m, k), c.now, now);
      }
    }
  }

  lemma NothingYet(l: Limits, now: int)
    ensures Simulates(l, NoShards(), map[], now)
  {}

  /** Nobody can tell that idle buckets are dropped: after any requests every further one is
      decided alike. */
  ghost predicate Transparent(l: Limits) {
    forall calls: seq<Call>, c: Call {:trigger ShardGrants(l, ShardedRun(l, calls), c)} ::
      Timely(calls + [c]) ==> ShardGrants(l, ShardedRun(l, calls), c) == Decides(l, PlainRun(l, calls), c)
  }

  lemma TransparentIfForgetful(l: Limits, calls: seq<Call>, c: Call)
    requires l.rate > 0.0 && l.burst > 0.0 && Forgetful(l) && Timely(calls + [c])
    ensures ShardGrants(l, ShardedRun(l, calls), c) == Decides(l, PlainRun(l, calls), c)
  {
    hide Simulates, ShardedRun, PlainRun, Forgetful, ShardGrants, Decides;
    var all := calls + [c];
    assert all[|calls|] == c && forall i :: 0 <= i < |calls| ==> all[i] == calls[i];
    RunSimulates(l, calls, c.now);
    StepSimulates(l, ShardedRun(l, calls), PlainRun(l, calls), c, c.now);
  }

  /** As many clients as a shard tracks, all of one shard. */
  ghost predicate Neighbours(ks: seq<Key>) {
    |ks| == MAX_KEYS && (forall i, j :: 0 <= i < j < |ks| ==> ks[i] != ks[j]) &&
    forall i :: 0 <= i < |ks| ==> ShardIdx(ks[i]) == ShardIdx(ks[0])
  }

  /** The first client spends all it has, and each of the others asks for `cost`. */
  function Crowd(l: Limits, ks: seq<Key>, cost: real, n: nat): (calls: seq<Call>)
    requires n <= |ks|
    ensures |calls| == n
  {
    seq(n, i requires 0 <= i < n => Call(ks[i], 0, if i == 0 then l.burst else cost))
  }

  ghost predicate Crowded(m: Buckets, ks: seq<Key>, n: nat)
    requires 0 < n <= |ks|
  {
    |m| == n && (forall k :: k in m ==> k in ks[..n] && m[k].lastMs == 0) && At(m, ks[0]) == Some(Bucket(0.0, 0))
  }

  lemma CrowdSnoc(l: Limits, ks: seq<Key>, cost: real, n: nat)
    requires 0 < n <= |ks|
    ensures Crowd(l, ks, cost, n)[..n - 1] == Crowd(l, ks, cost, n - 1)
    ensures Crowd(l, ks, cost, n)[n - 1] == Call(ks[n - 1], 0, if n == 1 then l.burst else cost)
  {}

  lemma CrowdStep(l: Limits, m: Buckets, ks: seq<Key>, n: nat, c: Call)
    requires Neighbours(ks) && 0 < n < MAX_KEYS && l.rate > 0.0
    requires Crowded(m, ks, n) && c.k == ks[n] && c.now == 0
    ensures Crowded(Plain(l, Kept(m, 0), c), ks, n + 1)
  {
    hide Found, Granted, ShardIdx;
    assert Kept(m, 0) == m;
    assert c.k !in m;
    assert ks[..n + 1] == ks[..n] + [ks[n]];
  }

  lemma FirstStep(l: Limits, m: Buckets, ks: seq<Key>)
    requires l.rate > 0.0 && l.burst > 0.0 && m == map[] && |ks| > 0
    ensures Crowded(Plain(l, m, Call(ks[0], 0, l.burst)), ks, 1)
  {
    EarnedSum(l, 0, 0);
  }

  lemma {:induction false} CrowdRuns(l: Limits, ks: seq<Key>, cost: real, n: nat)
    requires Neighbours(ks) && 0 < n <= MAX_KEYS && l.rate > 0.0 && l.burst > 0.0
    ensures Crowded(ShardedRun(l, Crowd(l, ks, cost, n))[ShardIdx(ks[0])], ks, n)
    ensures At(PlainRun(l, Crowd(l, ks, cost, n)), ks[0]) == Some(Bucket(0.0, 0))
  {
    hide Crowd, Crowded, Spent, Kept, ShardIdx;
    CrowdSnoc(l, ks, cost, n);
    var c := Crowd(l, ks, cost, n)[n - 1];
    assert ShardIdx(c.k) == ShardIdx(ks[0]);
    if n > 1 {
      CrowdRuns(l, ks, cost, n - 1);
      CrowdStep(l, ShardedRun(l, Crowd(l, ks, cost, n - 1))[ShardIdx(ks[0])], ks, n - 1, c);
    } else {
      FirstStep(l, map[], ks);
      KeptNone();
      FirstIs(l, ks[0]);
    }
  }

  lemma KeptNone()
    ensures Kept(map[], 0) == map[]
  {}

  lemma FirstIs(l: Limits, k: Key)
    requires l.rate > 0.0 && l.burst > 0.0
    ensures Spent(l, None, Call(k, 0, l.burst)) == Bucket(0.0, 0)
  {
    EarnedSum(l, 0, 0);
  }

  lemma CrowdForgotten(m: Buckets, ks: seq<Key>)
    requires |ks| == MAX_KEYS && Crowded(m, ks, MAX_KEYS)
    ensures Kept(m, IDLE_MS + 1) == map[]
  {}

  lemma CrowdTimely(l: Limits, ks: seq<Key>, cost: real, c: Call)
    requires |ks| == MAX_KEYS && c == Call(ks[0], IDLE_MS + 1, l.burst) && l.burst > 0.0 && cost >= 0.0
    ensures Timely(Crowd(l, ks, cost, MAX_KEYS) + [c])
  {}

  /** When an idle minute does not fill a bucket, any clients that fill a shard give it away,
      whatever they ask for: the first of them gets more than it would without eviction. */
  lemma EvictionNoticed(l: Limits, ks: seq<Key>, cost: real)
    requires l.rate > 0.0 && l.burst > 0.0 && !Forgetful(l) && Neighbours(ks) && cost >= 0.0
    ensures var h, c := Crowd(l, ks, cost, MAX_KEYS), Call(ks[0], IDLE_MS + 1, l.burst);
            Timely(h + [c]) && ShardGrants(l, ShardedRun(l, h), c) && !Decides(l, PlainRun(l, h), c)
  {
    hide Crowd, Crowded, ShardedRun, PlainRun, Kept, Earned, Timely, ShardIdx;
    var h, c := Crowd(l, ks, cost, MAX_KEYS), Call(ks[0], IDLE_MS + 1, l.burst);
    CrowdTimely(l, ks, cost, c);
    CrowdRuns(l, ks, cost, MAX_KEYS);
    CrowdForgotten(ShardedRun(l, h)[ShardIdx(ks[0])], ks);
    EarnedSum(l, 0, 0);
  }

  /** There are such clients, as far as keys go. */
  lemma SomeNeighbours() returns (ks: seq<Key>)
    ensures Neighbours(ks)
  {
    ks := seq(MAX_KEYS, i requires 0 <= i < MAX_KEYS => SHARDS * i);
  }

  lemma TransparentOnlyIfForgetful(l: Limits)
    requires l.rate > 0.0 && l.burst > 0.0 && !Forgetful(l)
    ensures !Transparent(l)
  {
    hide Crowd, ShardedRun, PlainRun, Timely, ShardGrants, Decides, Neighbours;
    var ks := SomeNeighbours();
    EvictionNoticed(l, ks, l.burst);
  }

  /** Eviction goes unnoticed exactly when an idle minute fills a bucket. */
  lemma EvictionTransparent(l: Limits)
    requires l.rate > 0.0 && l.burst > 0.0
    ensures Transparent(l) <==> l.burst * 1000.0 <= 60001.0 * l.rate
  {
    hide ShardedRun, PlainRun, ShardGrants, Decides, Timely, Transparent;
    ForgetfulMeans(l);
    if Forgetful(l) {
      TransparentByForgetful(l);
    } else {
      TransparentOnlyIfForgetful(l);
    }
  }

  lemma ForgetfulMeans(l: Limits)
    ensures Forgetful(l) <==> l.burst * 1000.0 <= 60001.0 * l.rate
  {
    assert Earned(l, IDLE_MS + 1) == 60.001 * l.rate;
  }

  lemma TransparentByForgetful(l: Limits)
    requires l.rate > 0.0 && l.burst > 0.0 && Forgetful(l)
    ensures Transparent(l)
  {
    hide ShardedRun, PlainRun, ShardGrants, Decides, Timely;
    forall calls: seq<Call>, c: Call | Timely(calls + [c])
      ensures ShardGrants(l, ShardedRun(l, calls), c) == Decides(l, PlainRun(l, calls), c)
    {
      TransparentIfForgetful(l, calls, c);
    }
  }

  // ---------- what a client gets in a window ----------

  /** The cost admitted for a client by the requests from number `start` on. */
  function Admitted(l: Limits, calls: seq<Call>, k: Key, start: nat): real
  {
    if |calls| <= start then 0.0
    else
      var h, c := calls[..|calls| - 1], calls[|calls| - 1];
      Admitted(l, h, k, start) + if c.k == k && ShardGrants(l, ShardedRun(l, h), c) then c.cost else 0.0
  }

  function Minutes(ms: int): int {
    ms / (IDLE_MS + 1)
  }

  /** What eviction may give away, in tokens: for every idle minute what that minute does not
      fill of a bucket. */
  function Extra(l: Limits, ms: int): real {
    if Forgetful(l) then 0.0 else Minutes(ms) as real * (l.burst - Earned(l, IDLE_MS + 1))
  }

  function Allowance(l: Limits, ms: int): real {
    Extra(l, ms) + Earned(l, ms)
  }

  lemma AllowanceGrows(l: Limits, x: int, y: int)
    requires l.rate > 0.0 && l.burst > 0.0 && x <= y
    ensures Allowance(l, x) + Earned(l, y - x) <= Allowance(l, y)
    ensures Allowance(l, x) <= Allowance(l, y)
    ensures y - x > IDLE_MS ==> Allowance(l, x) + l.burst <= Allowance(l, y)
  {
    hide Earned;
    EarnedSum(l, x, y - x);
    EarnedMore(l, 0, y - x);
    EarnedSum(l, 0, 0);
    if y - x > IDLE_MS {
      EarnedMore(l, IDLE_MS + 1, y - x);
    }
    ExtraGrows(l, x, y);
  }

  lemma ExtraGrows(l: Limits, x: int, y: int)
    requires l.burst > 0.0 && x <= y
    ensures Extra(l, x) <= Extra(l, y)
    ensures y - x > IDLE_MS && !Forgetful(l) ==> Extra(l, x) + (l.burst - Earned(l, IDLE_MS + 1)) <= Extra(l, y)
  {
    hide Minutes, Earned;
    var p, q, gift := Minutes(x) as real, Minutes(y) as real, l.burst - Earned(l, IDLE_MS + 1);
    MinutesGrow(x, y);
    if !Forgetful(l) {
      Faster(p, q, gift);
      if y - x > IDLE_MS {
        Faster(p + 1.0, q, gift);
      }
    }
  }

  lemma MinutesGrow(x: int, y: int)
    requires x <= y
    ensures Minutes(x) <= Minutes(y) && (y - x > IDLE_MS ==> Minutes(x) + 1 <= Minutes(y))
  {}

  /** A client that got something since `t0` has what is left of its allowance in the bucket,
      or has no bucket and an idle minute behind it. */
  ghost predicate Within(l: Limits, b: Option<Bucket>, adm: real, t0: int, now: int) {
    (b.Some? ==> Sound(l, b.value, now)) &&
    (adm == 0.0 ||
     (t0 <= now &&
      match b
      case None => adm <= Allowance(l, now - t0)
      case Some(x) => t0 <= x.lastMs && adm + x.tokens <= l.burst + Allowance(l, x.lastMs - t0)))
  }

  lemma WithinLater(l: Limits, b: Option<Bucket>, adm: real, t0: int, now: int, later: int)
    requires l.rate > 0.0 && l.burst > 0.0 && Within(l, b, adm, t0, now) && now <= later
    ensures Within(l, b, adm, t0, later)
  {
    hide Allowance;
    if adm != 0.0 {
      AllowanceGrows(l, now - t0, later - t0);
    }
  }

  lemma WithinEvicted(l: Limits, m: Buckets, k: Key, adm: real, t0: int, now: int)
    requires l.rate > 0.0 && l.burst > 0.0 && Within(l, At(m, k), adm, t0, now)
    ensures Within(l, At(Kept(m, now), k), adm, t0, now)
  {
    hide Allowance;
    if k in m && adm != 0.0 {
      AllowanceGrows(l, m[k].lastMs - t0, now - t0);
    }
  }

  lemma WithinFound(l: Limits, b: Option<Bucket>, adm: real, t0: int, now: int)
    requires l.rate > 0.0 && l.burst > 0.0 && Within(l, b, adm, t0, now)
    ensures 0.0 <= Found(l, b, now) <= l.burst
    ensures adm != 0.0 ==> adm + Found(l, b, now) <= l.burst + Allowance(l, now - t0)
  {
    hide Allowance, Earned;
    EarnedSum(l, 0, 0);
    if b.Some? {
      EarnedMore(l, 0, now - b.value.lastMs);
      AllowanceGrows(l, b.value.lastMs - t0, now - t0);
    }
  }

  lemma AllowanceZero(l: Limits, t: int)
    requires l.rate > 0.0 && l.burst > 0.0 && 0 <= t
    ensures 0.0 <= Allowance(l, t)
  {
    AllowanceGrows(l, 0, t);
    assert Allowance(l, 0) == 0.0;
  }

  lemma WithinSpent(l: Limits, b: Option<Bucket>, adm: real, t0: int, c: Call, counted: bool)
    requires l.rate > 0.0 && l.burst > 0.0 && Within(l, b, adm, t0, c.now) && c.cost >= 0.0
    requires if counted then t0 <= c.now else adm == 0.0
    ensures Within(l, Some(Spent(l, b, c)), adm + if counted && Granted(l, b, c) then c.cost else 0.0, t0, c.now)
  {
    hide Allowance, Found;
    WithinFound(l, b, adm, t0, c.now);
    if counted {
      AllowanceZero(l, c.now - t0);
    }
  }

  lemma {:induction false} RunWithin(l: Limits, calls: seq<Call>, k: Key, start: nat, t0: int, now: int)
    requires l.rate > 0.0 && l.burst > 0.0 && Timely(calls) && Until(calls, now)
    requires forall i :: start <= i < |calls| ==> t0 <= calls[i].now
    ensures Within(l, At(ShardedRun(l, calls)[ShardIdx(k)], k), Admitted(l, calls, k, start), t0, now)
  {
    hide Within, ShardIdx, Kept, Granted, Spent;
    if calls == [] {
      NothingWithin(l, k, t0, now);
    } else {
      var h, c := calls[..|calls| - 1], calls[|calls| - 1];
      RunWithin(l, h, k, start, t0, c.now);
      var m, adm := ShardedRun(l, h)[ShardIdx(k)], Admitted(l, h, k, start);
      WithinEvicted(l, m, k, adm, t0, c.now);
      if c.k == k {
        WithinSpent(l, At(Kept(m, c.now), k), adm, t0, c, |calls| > start);
      }
      WithinLater(l, At(ShardedRun(l, calls)[ShardIdx(k)], k), Admitted(l, calls, k, start), t0, c.now, now);
    }
  }

  lemma NothingWithin(l: Limits, k: Key, t0: int, now: int)
    ensures Within(l, At(NoShards()[ShardIdx(k)], k), 0.0, t0, now)
  {}

  /** In any window of T milliseconds, after any requests, a client is admitted at most the burst
      and rate * T / 1000; where an idle minute does not fill a bucket, at most what it leaves
      empty more for every 60001 milliseconds. */
  lemma WindowBound(l: Limits, calls: seq<Call>, k: Key, start: nat)
    requires l.rate > 0.0 && l.burst > 0.0 && Timely(calls) && start < |calls|
    ensures var t := calls[|calls| - 1].now - calls[start].now;
            Admitted(l, calls, k, start) <=
              l.burst + t as real / 1000.0 * l.rate +
              if l.burst * 1000.0 <= 60001.0 * l.rate then 0.0
              else (t / 60001) as real * (l.burst - 60.001 * l.rate)
  {
    hide Admitted, ShardedRun, Sound, Forgetful;
    var t0, now := calls[start].now, calls[|calls| - 1].now;
    RunWithin(l, calls, k, start, t0, now);
    ForgetfulMeans(l);
    AllowanceZero(l, now - t0);
    var b := At(ShardedRun(l, calls)[ShardIdx(k)], k);
    WithinTotal(l, b, Admitted(l, calls, k, start), t0, now);
  }

  lemma WithinTotal(l: Limits, b: Option<Bucket>, adm: real, t0: int, now: int)
    requires l.rate > 0.0 && l.burst > 0.0 && Within(l, b, adm, t0, now) && t0 <= now
    ensures adm <= l.burst + Allowance(l, now - t0)
  {
    hide Allowance;
    AllowanceZero(l, now - t0);
    if b.Some? && adm != 0.0 {
      AllowanceGrows(l, b.value.lastMs - t0, now - t0);
    }
  }

  /** The bound a token bucket promises: the burst, and what the time brings. */
  ghost predicate PlainBound(l: Limits) {
    forall calls: seq<Call>, k: Key, start: nat {:trigger Admitted(l, calls, k, start)} ::
      Timely(calls) && start < |calls| ==>
        Admitted(l, calls, k, start) <=
          l.burst + (calls[|calls| - 1].now - calls[start].now) as real / 1000.0 * l.rate
  }

  lemma {:induction false} CrowdAdmitted(l: Limits, ks: seq<Key>, cost: real, n: nat)
    requires Neighbours(ks) && 0 < n <= MAX_KEYS && l.rate > 0.0 && l.burst > 0.0
    ensures Admitted(l, Crowd(l, ks, cost, n), ks[0], 0) == l.burst
  {
    hide Crowd, ShardedRun, ShardGrants, ShardIdx;
    CrowdSnoc(l, ks, cost, n);
    if n > 1 {
      CrowdAdmitted(l, ks, cost, n - 1);
    } else {
      FirstGranted(l, ks[0]);
      assert Crowd(l, ks, cost, 0) == [];
    }
  }

  lemma FirstGranted(l: Limits, k: Key)
    requires l.rate > 0.0 && l.burst > 0.0
    ensures ShardGrants(l, ShardedRun(l, []), Call(k, 0, l.burst))
  {
    KeptNone();
    EarnedSum(l, 0, 0);
  }

  /** The bound of `WindowBound` is attained: over 60001 milliseconds a client whose bucket is
      evicted gets two bursts. */
  lemma BoundAttained(l: Limits, ks: seq<Key>, cost: real)
    requires l.rate > 0.0 && l.burst > 0.0 && !Forgetful(l) && Neighbours(ks) && cost >= 0.0
    ensures var calls := Crowd(l, ks, cost, MAX_KEYS) + [Call(ks[0], IDLE_MS + 1, l.burst)];
            Timely(calls) && calls[|calls| - 1].now - calls[0].now == 60001 &&
            Admitted(l, calls, ks[0], 0) == 2.0 * l.burst &&
            2.0 * l.burst == l.burst + 60.001 * l.rate + (60001 / 60001) as real * (l.burst - 60.001 * l.rate)
  {
    hide Timely, ShardGrants, ShardedRun, ShardIdx, Forgetful;
    var h, c := Crowd(l, ks, cost, MAX_KEYS), Call(ks[0], IDLE_MS + 1, l.burst);
    EvictionNoticed(l, ks, cost);
    CrowdAdmitted(l, ks, cost, MAX_KEYS);
    assert (h + [c])[..|h|] == h;
  }

  /** The plain bound holds if and only if an idle minute fills a bucket. */
  lemma PlainBoundIff(l: Limits)
    requires l.rate > 0.0 && l.burst > 0.0
    ensures PlainBound(l) <==> l.burst * 1000.0 <= 60001.0 * l.rate
  {
    hide Admitted, Timely, Crowd;
    ForgetfulMeans(l);
    if Forgetful(l) {
      forall calls: seq<Call>, k: Key, start: nat | Timely(calls) && start < |calls|
        ensures Admitted(l, calls, k, start) <=
                l.burst + (calls[|calls| - 1].now - calls[start].now) as real / 1000.0 * l.rate
      {
        WindowBound(l, calls, k, start);
      }
    } else {
      var ks := SomeNeighbours();
      BoundAttained(l, ks, l.burst);
      Exceeded(l, Crowd(l, ks, l.burst, MAX_KEYS) + [Call(ks[0], IDLE_MS + 1, l.burst)], ks[0]);
    }
  }

  lemma Exceeded(l: Limits, calls: seq<Call>, k: Key)
    requires l.burst * 1000.0 > 60001.0 * l.rate && calls != [] && Timely(calls)
    requires calls[|calls| - 1].now - calls[0].now == 60001 && Admitted(l, calls, k, 0) == 2.0 * l.burst
    ensures !PlainBound(l)
  {
    hide Admitted, Timely;
    assert 60001 as real / 1000.0 * l.rate == 60.001 * l.rate;
  }

  // ---------- what a client must get ----------

  /** Since request number `start`, when its bucket was full, a client has had all that the burst
      and the time gave it, but for what is in the bucket. */
  ghost predicate Fair(l: Limits, calls: seq<Call>, k: Key, b: Bucket, start: nat) {
    start < |calls| && calls[start].k == k && calls[start].now <= b.lastMs &&
    b.tokens == l.burst + Earned(l, b.lastMs - calls[start].now) - Admitted(l, calls, k, start)
  }

  ghost predicate FairSince(l: Limits, calls: seq<Call>, k: Key, b: Option<Bucket>) {
    b.Some? ==> exists start: nat :: Fair(l, calls, k, b.value, start)
  }

  lemma AdmittedSnoc(l: Limits, h: seq<Call>, c: Call, k: Key, start: nat)
    requires start <= |h|
    ensures Admitted(l, h + [c], k, start) ==
            Admitted(l, h, k, start) + if c.k == k && ShardGrants(l, ShardedRun(l, h), c) then c.cost else 0.0
    ensures start == |h| ==> Admitted(l, h, k, start) == 0.0
  {
    hide ShardedRun, ShardGrants;
    assert (h + [c])[..|h|] == h;
  }

  lemma FairOther(l: Limits, h: seq<Call>, c: Call, k: Key, b: Option<Bucket>)
    requires FairSince(l, h, k, b) && c.k != k
    ensures FairSince(l, h + [c], k, b)
  {
    hide Admitted, ShardGrants, ShardedRun, Earned;
    if b.Some? {
      var start: nat :| Fair(l, h, k, b.value, start);
      AdmittedSnoc(l, h, c, k, start);
      assert Fair(l, h + [c], k, b.value, start);
    }
  }

  /** A bucket that is full when a request comes starts anew. */
  lemma FairFull(l: Limits, h: seq<Call>, c: Call, b: Option<Bucket>)
    requires l.rate > 0.0 && Found(l, b, c.now) == l.burst
    requires ShardGrants(l, ShardedRun(l, h), c) == Granted(l, b, c)
    ensures FairSince(l, h + [c], c.k, Some(Spent(l, b, c)))
  {
    hide Admitted, ShardGrants, ShardedRun, Found;
    AdmittedSnoc(l, h, c, c.k, |h|);
    EarnedSum(l, 0, 0);
    assert Fair(l, h + [c], c.k, Spent(l, b, c), |h|);
  }

  lemma FairRefilled(l: Limits, h: seq<Call>, c: Call, b: Bucket)
    requires l.rate > 0.0 && FairSince(l, h, c.k, Some(b)) && Found(l, Some(b), c.now) < l.burst && b.lastMs <= c.now
    requires ShardGrants(l, ShardedRun(l, h), c) == Granted(l, Some(b), c)
    ensures FairSince(l, h + [c], c.k, Some(Spent(l, Some(b), c)))
  {
    hide Admitted, ShardGrants, ShardedRun, Earned;
    var start: nat :| Fair(l, h, c.k, b, start);
    AdmittedSnoc(l, h, c, c.k, start);
    EarnedSum(l, b.lastMs - h[start].now, c.now - b.lastMs);
    assert Fair(l, h + [c], c.k, Spent(l, Some(b), c), start);
  }

  lemma FoundFull(l: Limits, b: Option<Bucket>, now: int)
    requires l.rate > 0.0
    ensures Found(l, b, now) <= l.burst && (b.None? ==> Found(l, b, now) == l.burst)
  {
    hide Earned;
    EarnedSum(l, 0, 0);
  }

  lemma FairEvicted(l: Limits, calls: seq<Call>, k: Key, m: Buckets, now: int)
    requires FairSince(l, calls, k, At(m, k))
    ensures FairSince(l, calls, k, At(Kept(m, now), k))
  {
    hide Fair;
  }

  lemma {:induction false} RunFair(l: Limits, calls: seq<Call>, k: Key, now: int)
    requires l.rate > 0.0 && l.burst > 0.0 && Timely(calls) && Until(calls, now)
    ensures FairSince(l, calls, k, At(ShardedRun(l, calls)[ShardIdx(k)], k))
    ensures At(ShardedRun(l, calls)[ShardIdx(k)], k).Some? ==>
              At(ShardedRun(l, calls)[ShardIdx(k)], k).value.lastMs <= now
  {
    hide FairSince, ShardIdx, Kept, Found;
    if calls == [] {
      assert FairSince(l, [], k, None) by { NoBucketFair(l, [], k); }
    } else {
      var h, c := calls[..|calls| - 1], calls[|calls| - 1];
      assert calls == h + [c];
      RunFair(l, h, k, c.now);
      var m := ShardedRun(l, h)[ShardIdx(k)];
      FairEvicted(l, h, k, m, c.now);
      KeptWithin(m, k, c.now);
      var b := At(Kept(m, c.now), k);
      if c.k == k {
        FoundFull(l, b, c.now);
        if Found(l, b, c.now) == l.burst {
          FairFull(l, h, c, b);
        } else {
          FairRefilled(l, h, c, b.value);
        }
      } else {
        FairOther(l, h, c, k, At(m, k));
        FairOther(l, h, c, k, b);
      }
    }
  }

  lemma NoBucketFair(l: Limits, calls: seq<Call>, k: Key)
    ensures FairSince(l, calls, k, None)
  {}

  lemma KeptWithin(m: Buckets, k: Key, now: int)
    ensures At(Kept(m, now), k) == None || At(Kept(m, now), k) == At(m, k)
  {}

  /** Whoever is refused, and asked for no more than the burst, has had since some request of its
      own so much that this would be more than the burst and what the time has brought. */
  lemma RefusedFor(l: Limits, calls: seq<Call>, c: Call)
    requires l.rate > 0.0 && l.burst > 0.0 && Timely(calls + [c]) && c.cost <= l.burst
    requires !ShardGrants(l, ShardedRun(l, calls), c)
    ensures exists start :: 0 <= start < |calls| && calls[start].k == c.k &&
              Admitted(l, calls, c.k, start) + c.cost >
                l.burst + (c.now - calls[start].now) as real / 1000.0 * l.rate
  {
    hide Admitted, ShardedRun, Fair, ShardIdx, Kept, ShardGrants, Found, Timely;
    TimelyUntil(calls, c);
    RunFair(l, calls, c.k, c.now);
    var m := ShardedRun(l, calls)[ShardIdx(c.k)];
    FairEvicted(l, calls, c.k, m, c.now);
    KeptWithin(m, c.k, c.now);
    var b := At(Kept(m, c.now), c.k);
    FoundFull(l, b, c.now);
    RefusedMeans(l, ShardedRun(l, calls), c);
    var start: nat :| Fair(l, calls, c.k, b.value, start);
    ShortOf(l, calls, c, b.value, start);
  }

  lemma TimelyUntil(calls: seq<Call>, c: Call)
    requires Timely(calls + [c])
    ensures Timely(calls) && Until(calls, c.now)
  {
    var all := calls + [c];
    assert all[|calls|] == c && forall i :: 0 <= i < |calls| ==> all[i] == calls[i];
  }

  lemma RefusedMeans(l: Limits, s: Shards, c: Call)
    requires |s| == SHARDS && l.rate > 0.0 && !ShardGrants(l, s, c)
    ensures Found(l, At(Kept(s[ShardIdx(c.k)], c.now), c.k), c.now) < c.cost
  {
    hide Found, Kept, ShardIdx;
  }

  lemma ShortOf(l: Limits, calls: seq<Call>, c: Call, b: Bucket, start: nat)
    requires Fair(l, calls, c.k, b, start) && Found(l, Some(b), c.now) < c.cost <= l.burst
    ensures start < |calls| && calls[start].k == c.k && Admitted(l, calls, c.k, start) + c.cost >
              l.burst + (c.now - calls[start].now) as real / 1000.0 * l.rate
  {
    hide Admitted;
    EarnedSum(l, b.lastMs - calls[start].now, c.now - b.lastMs);
  }

  /** What `Allow` decides, in full, where an idle minute fills a bucket: a request is granted if
      and only if it asks for no more than the burst and, with it, the client would at no time
      since any request of its own have had more than the burst and what the time has brought. */
  lemma GrantedIff(l: Limits, calls: seq<Call>, c: Call)
    requires l.rate > 0.0 && l.burst > 0.0 && Timely(calls + [c]) && l.burst * 1000.0 <= 60001.0 * l.rate
    ensures ShardGrants(l, ShardedRun(l, calls), c) <==>
              c.cost <= l.burst &&
              forall start :: 0 <= start < |calls| && calls[start].k == c.k ==>
                Admitted(l, calls, c.k, start) + c.cost <=
                  l.burst + (c.now - calls[start].now) as real / 1000.0 * l.rate
  {
    hide Admitted, ShardedRun, Timely;
    if ShardGrants(l, ShardedRun(l, calls), c) {
      FoundFull(l, At(Kept(ShardedRun(l, calls)[ShardIdx(c.k)], c.now), c.k), c.now);
      hide ShardGrants;
      forall start | 0 <= start < |calls| && calls[start].k == c.k
        ensures Admitted(l, calls, c.k, start) + c.cost <=
                  l.burst + (c.now - calls[start].now) as real / 1000.0 * l.rate
      {
        WindowBound(l, calls + [c], c.k, start);
        AdmittedSnoc(l, calls, c, c.k, start);
      }
    } else if c.cost <= l.burst {
      RefusedFor(l, calls, c);
    }
  }

  // ---------- the limiter ----------

  class Limiter {
    const l: Limits
    const shards: array<Buckets>

    predicate Valid() {
      shards.Length == SHARDS
    }

    /** `New`, for the two settings. */
    constructor (rate: real, burst: real)
      ensures Valid() && shards[..] == NoShards() && fresh(shards)
      ensures l.rate == rate
      ensures var wanted := if burst <= 0.0 then rate else burst;
              l.burst == if wanted < 1.0 then 1.0 else wanted
    {
      var b := burst;
      if b <= 0.0 {
        b := rate;
      }
      if b < 1.0 {
        b := 1.0;
      }
      l := Limits(rate, b);
      shards := new Buckets[SHARDS](_ => map[]);
    }

    /** Drops the idle buckets of a shard. */
    method Evict(i: nat, now: int)
      requires Valid() && i < SHARDS
      modifies shards
      ensures shards[..] == old(shards[..])[i := Sifted(old(shards[i]), {}, now)]
    {
      var todo := shards[i].Keys;
      ghost var was := shards[i];
      SiftedNone(was, now);
      while todo != {}
        invariant shards[i] == Sifted(was, todo, now)
        invariant forall j :: 0 <= j < SHARDS && j != i ==> shards[j] == old(shards[j])
        invariant todo <= was.Keys
        decreases todo
      {
        var k :| k in todo;
        SiftedStep(was, todo, k, now);
        if Idle(shards[i][k], now) {
          shards[i] := shards[i] - {k};
        }
        todo := todo - {k};
      }
      assert shards[..] == old(shards[..])[i := Sifted(was, {}, now)];
    }

    /** Whether a client may spend so much now. */
    method Allow(ip: string, cost: real, now: int) returns (ok: bool)
      requires Valid()
      modifies shards
      ensures var c := Call(IpKey(ip), now, cost);
              ok == ShardGrants(l, old(shards[..]), c) && shards[..] == Sharded(l, old(shards[..]), c)
    {
      hide IpKey, Hash, Earned;
      if l.rate <= 0.0 {
        return true;
      }
      var k := IpKey(ip);
      var i := ShardIdx(k);
      if |shards[i]| >= MAX_KEYS {
        Evict(i, now);
      }
      var b := if k in shards[i] then shards[i][k] else Bucket(l.burst, now);
      var tokens := b.tokens + Earned(l, now - b.lastMs);
      if tokens > l.burst {
        tokens := l.burst;
      }
      ok := tokens >= cost;
      if ok {
        tokens := tokens - cost;
      }
      shards[i] := shards[i][k := Bucket(tokens, now)];
    }
  }
}
