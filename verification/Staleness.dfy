/** Several processes, each with a cache of its own, over one key-value server: how old an
    answer can be. The steps are the contract of `KvRows.Answer`, and any change of the server
    by anybody. */
module Staleness {
  import opened Ints
  import opened Options
  import opened RowValue
  import opened Cache
  import opened KvRows

  type View = map<string, CacheEnt>

  function At(v: View, code: string): Option<CacheEnt> {
    if code in v then Some(v[code]) else None
  }

  /** The time, what the server holds, and what each process has cached. */
  datatype World = World(now: int64, kv: map<Place, string>, caches: seq<View>)

  /** A process answers a request; or the server changes in any way, as when a link is made,
      changed, removed or expires, and processes may drop entries. */
  datatype Event = Answers(k: nat, code: string, url: Option<string>) | Changes

  datatype Setup = Setup(l: Layout, ttl: int64)

  ghost predicate Step(p: Setup, w: World, e: Event, w': World) {
    w.now <= w'.now && |w.caches| == |w'.caches| &&
    match e
    case Changes =>
      forall k, c :: 0 <= k < |w.caches| ==> At(w'.caches[k], c) == At(w.caches[k], c) || At(w'.caches[k], c) == None
    case Answers(k, code, url) =>
      k < |w.caches| && w'.kv == w.kv &&
      Answered(p.l, w.kv, At(w.caches[k], code), At(w'.caches[k], code), p.ttl, code, w'.now, url) &&
      forall j, c :: 0 <= j < |w.caches| && (j != k || c != code) ==>
        At(w'.caches[j], c) == At(w.caches[j], c) || At(w'.caches[j], c) == None
  }

  /** A run starts with empty caches. */
  ghost predicate Run(p: Setup, ws: seq<World>, es: seq<Event>) {
    |ws| == |es| + 1 && 0 <= ws[0].now && (forall k :: 0 <= k < |ws[0].caches| ==> ws[0].caches[k] == map[]) &&
    forall i :: 0 <= i < |es| ==> Step(p, ws[i], es[i], ws[i + 1])
  }

  /** The link was stored so in the `j`-th world. */
  ghost predicate StoredAt(p: Setup, w: World, code: string, u: string, e: int64) {
    var r := RowOf(p.l, w.kv, code);
    r.Some? && r.value.u == u && r.value.e == e
  }

  /** A cached entry is a row that the server held at the time the entry bears. */
  ghost predicate Fetched(p: Setup, ws: seq<World>, n: nat, x: CacheEnt, code: string)
    requires n < |ws|
  {
    exists j :: 0 <= j <= n && ws[j].now == x.at && StoredAt(p, ws[j], code, x.u, x.e)
  }

  ghost predicate AllFetched(p: Setup, ws: seq<World>, n: nat)
    requires n < |ws|
  {
    forall k, c {:trigger At(ws[n].caches[k], c)} :: 0 <= k < |ws[n].caches| && At(ws[n].caches[k], c).Some? ==>
      Fetched(p, ws, n, At(ws[n].caches[k], c).value, c)
  }

  lemma FoundIsStored(p: Setup, kv: map<Place, string>, code: string, now: int64, u: string)
    requires PlainResolve(p.l, kv, code, now) == Some(u)
    ensures RowOf(p.l, kv, code).Some? && RowOf(p.l, kv, code).value.u == u &&
            !Expired(RowOf(p.l, kv, code).value.e, now)
  {}

  lemma FetchedLater(p: Setup, ws: seq<World>, n: nat, x: CacheEnt, code: string)
    requires n + 1 < |ws| && Fetched(p, ws, n, x, code)
    ensures Fetched(p, ws, n + 1, x, code)
  {}

  lemma AnswerFetched(p: Setup, ws: seq<World>, n: nat, e: Event)
    requires n + 1 < |ws| && Step(p, ws[n], e, ws[n + 1]) && e.Answers? && AllFetched(p, ws, n)
    ensures At(ws[n + 1].caches[e.k], e.code).Some? ==>
              Fetched(p, ws, n + 1, At(ws[n + 1].caches[e.k], e.code).value, e.code)
  {
    hide RowOf, PlainResolve, Fetched;
    var before, after := At(ws[n].caches[e.k], e.code), At(ws[n + 1].caches[e.k], e.code);
    if after.Some? {
      if after == before {
        FetchedLater(p, ws, n, after.value, e.code);
      } else {
        FoundIsStored(p, ws[n].kv, e.code, ws[n + 1].now, after.value.u);
        FreshFetched(p, ws, n + 1, after.value, e.code);
      }
    }
  }

  lemma FreshFetched(p: Setup, ws: seq<World>, n: nat, x: CacheEnt, code: string)
    requires n < |ws| && ws[n].now == x.at && StoredAt(p, ws[n], code, x.u, x.e)
    ensures Fetched(p, ws, n, x, code)
  {}

  lemma {:induction false} RunFetched(p: Setup, ws: seq<World>, es: seq<Event>, n: nat)
    requires Run(p, ws, es) && n < |ws|
    ensures AllFetched(p, ws, n) && 0 <= ws[n].now && |ws[n].caches| == |ws[0].caches|
    ensures forall j :: 0 <= j <= n ==> 0 <= ws[j].now <= ws[n].now
  {
    hide Fetched, Answered;
    if n > 0 {
      RunFetched(p, ws, es, n - 1);
      var e := es[n - 1];
      assert Step(p, ws[n - 1], e, ws[n]);
      if e.Answers? {
        AnswerFetched(p, ws, n - 1, e);
      }
      forall k, c | 0 <= k < |ws[n].caches| && At(ws[n].caches[k], c).Some?
        ensures Fetched(p, ws, n, At(ws[n].caches[k], c).value, c)
      {
        if !(e.Answers? && e.k == k && e.code == c) {
          FetchedLater(p, ws, n - 1, At(ws[n - 1].caches[k], c).value, c);
        }
      }
    }
  }

  /** Bounded staleness: in every run, a URL any process answers with was stored for the code at
      some moment of the last `ttl` milliseconds, with an expiry that has not come. */
  lemma BoundedStaleness(p: Setup, ws: seq<World>, es: seq<Event>, i: nat)
    requires Run(p, ws, es) && p.ttl > 0 && i < |es| && es[i].Answers? && es[i].url.Some?
    ensures exists j, e :: 0 <= j <= i + 1 && ws[i + 1].now - p.ttl <= ws[j].now <= ws[i + 1].now &&
              StoredAt(p, ws[j], es[i].code, es[i].url.value, e) && (e == 0 || ws[i + 1].now < e)
  {
    hide RowOf, PlainResolve, Fetched;
    RunFetched(p, ws, es, i);
    assert Step(p, ws[i], es[i], ws[i + 1]);
    var code, now := es[i].code, ws[i + 1].now;
    var hit := Served(At(ws[i].caches[es[i].k], code), p.ttl, now);
    if hit.Some? {
      var j := Source(p, ws, i, hit.value, code);
      InTime(ws[j].now, now, p.ttl);
      assert StoredAt(p, ws[j], code, es[i].url.value, hit.value.e);
    } else {
      FoundIsStored(p, ws[i].kv, code, now, es[i].url.value);
      assert StoredAt(p, ws[i + 1], code, es[i].url.value, RowOf(p.l, ws[i].kv, code).value.e);
    }
  }

  lemma Source(p: Setup, ws: seq<World>, n: nat, x: CacheEnt, code: string) returns (j: nat)
    requires n < |ws| && Fetched(p, ws, n, x, code)
    ensures j <= n && ws[j].now == x.at && StoredAt(p, ws[j], code, x.u, x.e)
  {
    j :| 0 <= j <= n && ws[j].now == x.at && StoredAt(p, ws[j], code, x.u, x.e);
  }

  lemma InTime(at: int64, now: int64, ttl: int64)
    requires Wrap(now - at) <= ttl && at <= now && 0 <= at
    ensures now - ttl <= at
  {}

  /** Without a limit there is no bound: for any age there is a run in which a process answers
      with a link removed that long ago. */
  lemma NoLimitNoBound(l: Layout, ttl: int64, code: string, age: int64)
    requires 0 <= age && ttl <= 0
    ensures exists ws: seq<World>, es: seq<Event> ::
              Run(Setup(l, ttl), ws, es) && |es| == 3 && es[2] == Answers(0, code, Some("u")) &&
              ws[2].now + age == ws[3].now && RowOf(l, ws[2].kv, code) == None && RowOf(l, ws[3].kv, code) == None
  {
    hide EncVal, DecVal, RowPlace;
    var r := Rec(0, 0, "u");
    ValueRoundTrip(r);
    var kv := map[RowPlace(l, code) := EncVal(r)];
    var view := map[code := CacheEnt("u", 0, 0)];
    var w0 := World(0, kv, [map[]]);
    var w1 := World(0, kv, [view]);
    var w2 := World(0, map[], [view]);
    var w3 := World(age, map[], [view]);
    var p := Setup(l, ttl);
    var e := Answers(0, code, Some("u"));
    assert Step(p, w0, e, w1);
    assert Step(p, w1, Changes, w2);
    assert Step(p, w2, e, w3);
    assert Run(p, [w0, w1, w2, w3], [e, Changes, e]);
  }
}
