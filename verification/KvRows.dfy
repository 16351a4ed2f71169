/** The rows and counters a key-value server holds, and one read of them through a cache: what
    a cache may hold if nobody is to notice it. */
module KvRows {
  import opened Ints
  import opened LogLine
  import opened Options
  import opened RowValue
  import opened Cache

  // ---------- the server ----------

  /** The row stored for a code. */
  function RowOf(l: Layout, kv: map<Place, string>, code: string): Option<Rec>
  {
    if RowPlace(l, code) in kv then DecVal(kv[RowPlace(l, code)]) else None
  }

  /** What resolving a code comes to without a cache. */
  function PlainResolve(l: Layout, kv: map<Place, string>, code: string, now: int64): Option<string>
  {
    match RowOf(l, kv, code)
    case Some(r) => if Expired(r.e, now) then None else Some(r.u)
    case None => None
  }

  /** INCRBY or HINCRBY: refused when the value is no integer or the sum none of 64 bits. */
  function IncrBy(kv: map<Place, string>, p: Place, d: int64): map<Place, string> {
    var was := if p in kv then ParseInt(kv[p]) else Parsed(0, true);
    if was.ok && -TWO63 <= was.value + d < TWO63 then kv[p := Dec(was.value + d)] else kv
  }

  function CounterOf(l: Layout, kv: map<Place, string>, code: string): int64
  {
    var p := HitPlace(l, code);
    if p in kv then ParseInt(kv[p]).value else 0
  }

  /** An increment moves one counter and nothing else, and only if 64 bits hold the sum. */
  lemma IncrEffect(l: Layout, kv: map<Place, string>, c: string, d: int64)
    requires CodeOK(c) && (HitPlace(l, c) in kv ==> ParseInt(kv[HitPlace(l, c)]).ok)
    ensures var kv' := IncrBy(kv, HitPlace(l, c), d);
            (HitPlace(l, c) in kv' ==> ParseInt(kv'[HitPlace(l, c)]).ok) &&
            CounterOf(l, kv', c) == (if -TWO63 <= CounterOf(l, kv, c) + d < TWO63 then CounterOf(l, kv, c) + d
                                     else CounterOf(l, kv, c)) &&
            RowOf(l, kv', c) == RowOf(l, kv, c)
    ensures var kv' := IncrBy(kv, HitPlace(l, c), d);
            forall code :: CodeOK(code) && code != c ==>
              CounterOf(l, kv', code) == CounterOf(l, kv, code) && RowOf(l, kv', code) == RowOf(l, kv, code) &&
              (HitPlace(l, code) in kv' ==> HitPlace(l, code) in kv && kv'[HitPlace(l, code)] == kv[HitPlace(l, code)])
  {
    hide CodeOK, RowPlace, HitPlace, DecVal, ParseInt, Dec;
    PlacesApart(l, c, c);
    forall code | CodeOK(code) && code != c
      ensures HitPlace(l, code) != HitPlace(l, c) && RowPlace(l, code) != HitPlace(l, c)
    {
      PlacesApart(l, code, c);
    }
    if -TWO63 <= CounterOf(l, kv, c) + d < TWO63 {
      DecParse(CounterOf(l, kv, c) + d);
    }
  }

  // ---------- one read through a cache ----------

  /** The entry a cache serves. */
  function Served(x: Option<CacheEnt>, ttl: int64, now: int64): Option<CacheEnt> {
    if x.Some? && !TooOld(x.value, ttl, now) && !Expired(x.value.e, now) then x else None
  }

  /** The cached entry answers, if it may be served; else the server does, and the cache keeps
      what it said. */
  ghost predicate Answered(l: Layout, kv: map<Place, string>, before: Option<CacheEnt>, after: Option<CacheEnt>,
                           ttl: int64, code: string, now: int64, url: Option<string>)
  {
    match Served(before, ttl, now)
    case Some(x) => url == Some(x.u) && (after == before || after == None)
    case None =>
      url == PlainResolve(l, kv, code, now) &&
      if url.Some? then after == Some(CacheEnt(url.value, RowOf(l, kv, code).value.e, now))
      else after == before || after == None
  }

  /** What is cached answers if it is in time; only else is the server read. */
  method Answer(l: Layout, kv: map<Place, string>, cache: KvCache, code: string, now: int64)
    returns (url: Option<string>, read: bool)
    requires cache.Valid()
    modifies cache.shards
    ensures cache.Valid()
    ensures Answered(l, kv, old(cache.Lookup(code)), cache.Lookup(code), cache.ttlMs, code, now, url)
    ensures forall c :: c != code ==> cache.Lookup(c) == old(cache.Lookup(c)) || cache.Lookup(c) == None
    ensures !read <==> old(cache.Lookup(code)).Some? &&
                       (cache.ttlMs <= 0 || Wrap(now - old(cache.Lookup(code)).value.at) <= cache.ttlMs) &&
                       (old(cache.Lookup(code)).value.e == 0 || now < old(cache.Lookup(code)).value.e)
    ensures !read ==> url == Some(old(cache.Lookup(code)).value.u)
    ensures read ==> url == match RowOf(l, kv, code)
                            case Some(r) => (if r.e != 0 && r.e <= now then None else Some(r.u))
                            case None => None
  {
    hide RowPlace, DecVal, KvCache.Valid;
    var hit := cache.Get(code, now);
    if hit.Some? {
      return Some(hit.value.u), false;
    }
    read := true;
    if RowPlace(l, code) !in kv {
      return None, true;
    }
    var r := DecVal(kv[RowPlace(l, code)]);
    if r.None? || (r.value.e != 0 && r.value.e <= now) {
      return None, true;
    }
    cache.Put(code, r.value.u, r.value.e, now);
    url := Some(r.value.u);
  }

  // ---------- a cache that does not contradict the server ----------

  /** A cached entry is what the server has, or has expired. */
  ghost predicate Agrees(l: Layout, kv: map<Place, string>, clock: int64, x: CacheEnt, code: string) {
    Expired(x.e, clock) || (RowOf(l, kv, code).Some? && RowOf(l, kv, code).value.u == x.u &&
      RowOf(l, kv, code).value.e == x.e)
  }

  ghost predicate Coherent(l: Layout, kv: map<Place, string>, cache: KvCache, clock: int64)
    reads cache, cache.shards
  {
    cache.Valid() &&
    forall c :: CodeOK(c) && cache.Lookup(c).Some? ==> Agrees(l, kv, clock, cache.Lookup(c).value, c)
  }

  /** Time passes; what agreed with the server still does. */
  lemma CoherentLater(l: Layout, kv: map<Place, string>, cache: KvCache, clock: int64, now: int64)
    requires Coherent(l, kv, cache, clock) && clock <= now
    ensures Coherent(l, kv, cache, now)
  {
    hide RowOf, CodeOK;
    forall c | CodeOK(c) && cache.Lookup(c).Some? ensures Agrees(l, kv, now, cache.Lookup(c).value, c) {
      assert Agrees(l, kv, clock, cache.Lookup(c).value, c);
    }
  }

  /** With a coherent cache the answer is the server's, and the cache stays coherent. */
  twostate lemma AnswerCoherent(new l: Layout, new kv: map<Place, string>, cache: KvCache, new now: int64,
                                new code: string, new url: Option<string>)
    requires old(Coherent(l, kv, cache, now)) && cache.Valid() && CodeOK(code)
    requires Answered(l, kv, old(cache.Lookup(code)), cache.Lookup(code), cache.ttlMs, code, now, url)
    requires forall c :: c != code ==> cache.Lookup(c) == old(cache.Lookup(c)) || cache.Lookup(c) == None
    ensures Coherent(l, kv, cache, now) && url == PlainResolve(l, kv, code, now)
  {
    hide CodeOK, RowOf, Expired;
    assert old(cache.Lookup(code)).Some? ==> Agrees(l, kv, now, old(cache.Lookup(code)).value, code);
    forall c | CodeOK(c) && cache.Lookup(c).Some? ensures Agrees(l, kv, now, cache.Lookup(c).value, c) {
      if c != code {
        assert Agrees(l, kv, now, old(cache.Lookup(c)).value, c);
      }
    }
  }

  /** The cache still agrees when only the row of one code has changed, and what it holds for
      that code, if anything, agrees. */
  twostate lemma StillCoherent(new l: Layout, new kv0: map<Place, string>, new kv: map<Place, string>, cache: KvCache,
                               new clock: int64, new code: string)
    requires old(Coherent(l, kv0, cache, clock)) && cache.Valid()
    requires cache.Lookup(code).Some? ==> Agrees(l, kv, clock, cache.Lookup(code).value, code)
    requires forall c :: c != code ==> cache.Lookup(c) == old(cache.Lookup(c)) || cache.Lookup(c) == None
    requires forall c :: CodeOK(c) && c != code ==> RowOf(l, kv, c) == RowOf(l, kv0, c)
    ensures Coherent(l, kv, cache, clock)
  {
    hide CodeOK, RowOf, Expired;
    forall c | CodeOK(c) && cache.Lookup(c).Some? ensures Agrees(l, kv, clock, cache.Lookup(c).value, c) {
      if c != code {
        assert Agrees(l, kv0, clock, old(cache.Lookup(c)).value, c);
      }
    }
  }

  lemma RowsKeepCoherent(l: Layout, kv0: map<Place, string>, kv: map<Place, string>, cache: KvCache, clock: int64)
    requires Coherent(l, kv0, cache, clock)
    requires forall c :: CodeOK(c) ==> RowOf(l, kv, c) == RowOf(l, kv0, c)
    ensures Coherent(l, kv, cache, clock)
  {
    hide CodeOK, RowOf, Expired;
    forall c | CodeOK(c) && cache.Lookup(c).Some? ensures Agrees(l, kv, clock, cache.Lookup(c).value, c) {
      assert Agrees(l, kv0, clock, cache.Lookup(c).value, c);
    }
  }

  /** What the janitors take for the row of an expired link: a key that begins with "l:", or a
      field of such a hash that does not begin with "h:". */
  predicate DeadKey(l: Layout, kv: map<Place, string>, p: Place, now: int64): (dead: bool)
    ensures dead ==> p in kv
  {
    p in kv &&
    (if l.Plain? then p.Key? && "l:" <= p.k else p.Field? && "l:" <= p.bucket && !("h:" <= p.f)) &&
    match DecVal(kv[p])
    case Some(r) => r.e != 0 && r.e <= now
    case None => false
  }

  /** It is the row of an expired link. */
  lemma KeyIsRow(l: Layout, kv: map<Place, string>, p: Place, now: int64)
    requires DeadKey(l, kv, p, now)
    ensures DeadRow(l, kv, p, now)
  {
    hide DecVal, CodeOK, Bucket;
    forall c | CodeOK(c) ensures p != HitPlace(l, c) {
      assert ("h:" + c)[0] == 'h';
      assert "h:" <= "h:" + c;
    }
  }

  /** Without all these exactly the rows are gone that have expired. */
  lemma Swept(l: Layout, kv: map<Place, string>, dead: set<Place>, c: string, now: int64)
    requires CodeOK(c) && forall p :: p in dead <==> DeadKey(l, kv, p, now)
    ensures RowOf(l, kv - dead, c) == match RowOf(l, kv, c)
                                      case Some(r) => (if r.e != 0 && r.e <= now then None else Some(r))
                                      case None => None
  {
    hide DecVal, ShardOf, Digits;
    var p := RowPlace(l, c);
    if l.Plain? {
      assert "l:" <= p.k;
    } else {
      assert "l:" <= p.bucket;
      assert !("h:" <= p.f) by {
        assert "h:" <= c ==> c[1] == ':' && CodeChar(c[1]);
      }
    }
  }

  /** Without some of them, no row is gone that has not expired. */
  lemma DeadGone(l: Layout, kv: map<Place, string>, gone: set<Place>, c: string, now: int64)
    requires forall p :: p in gone ==> DeadRow(l, kv, p, now)
    ensures RowOf(l, kv - gone, c) == RowOf(l, kv, c) ||
            (RowOf(l, kv - gone, c) == None && RowOf(l, kv, c).value.e != 0 && RowOf(l, kv, c).value.e <= now)
  {
    hide CodeOK, RowPlace, HitPlace, DecVal;
  }

  /** The row of an expired link. */
  ghost predicate DeadRow(l: Layout, kv: map<Place, string>, p: Place, now: int64) {
    p in kv && DecVal(kv[p]).Some? && Expired(DecVal(kv[p]).value.e, now) &&
    forall c :: CodeOK(c) ==> p != HitPlace(l, c)
  }

  /** Nobody sees it go. */
  lemma DeadUnseen(l: Layout, kv: map<Place, string>, gone: set<Place>, c: string, now: int64)
    requires forall p :: p in gone ==> DeadRow(l, kv, p, now)
    ensures PlainResolve(l, kv - gone, c, now) == PlainResolve(l, kv, c, now)
  {
    hide CodeOK, RowPlace, HitPlace, DecVal, Expired;
  }

  lemma DeadKeepCoherent(l: Layout, kv: map<Place, string>, gone: set<Place>, cache: KvCache, now: int64)
    requires Coherent(l, kv, cache, now) && forall p :: p in gone ==> DeadRow(l, kv, p, now)
    ensures Coherent(l, kv - gone, cache, now)
  {
    hide CodeOK, RowPlace, HitPlace, DecVal, Expired;
    forall c | CodeOK(c) && cache.Lookup(c).Some? ensures Agrees(l, kv - gone, now, cache.Lookup(c).value, c) {
      assert Agrees(l, kv, now, cache.Lookup(c).value, c);
    }
  }

  lemma RowWritten(l: Layout, kv: map<Place, string>, code: string, r: Rec)
    requires CodeOK(code)
    ensures var kv' := kv[RowPlace(l, code) := EncVal(r)];
            RowOf(l, kv', code) == Some(r) &&
            (forall c :: CodeOK(c) && c != code ==> RowOf(l, kv', c) == RowOf(l, kv, c)) &&
            (forall c :: CodeOK(c) ==> (HitPlace(l, c) in kv' <==> HitPlace(l, c) in kv) &&
                                       (HitPlace(l, c) in kv ==> kv'[HitPlace(l, c)] == kv[HitPlace(l, c)]))
  {
    hide CodeOK, RowPlace, HitPlace, EncVal, DecVal;
    ValueRoundTrip(r);
    forall c | CodeOK(c)
      ensures RowPlace(l, c) == RowPlace(l, code) <==> c == code
      ensures HitPlace(l, c) != RowPlace(l, code)
    {
      PlacesApart(l, c, code);
      PlacesApart(l, code, c);
    }
  }

  lemma RowGone(l: Layout, kv: map<Place, string>, code: string)
    requires CodeOK(code)
    ensures var kv' := kv - {RowPlace(l, code)} - {HitPlace(l, code)};
            RowOf(l, kv', code) == None && CounterOf(l, kv', code) == 0 &&
            HitPlace(l, code) !in kv' &&
            forall c :: CodeOK(c) && c != code ==>
              RowOf(l, kv', c) == RowOf(l, kv, c) && CounterOf(l, kv', c) == CounterOf(l, kv, c) &&
              (HitPlace(l, c) in kv' ==> HitPlace(l, c) in kv && kv'[HitPlace(l, c)] == kv[HitPlace(l, c)])
  {
    hide CodeOK, RowPlace, HitPlace, DecVal, ParseInt;
    PlacesApart(l, code, code);
    forall c | CodeOK(c) && c != code
      ensures RowPlace(l, c) !in {RowPlace(l, code), HitPlace(l, code)}
      ensures HitPlace(l, c) !in {RowPlace(l, code), HitPlace(l, code)}
    {
      PlacesApart(l, c, code);
      PlacesApart(l, code, c);
    }
  }
}
