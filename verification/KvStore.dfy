/** The store over an external key-value server, in both layouts: a cache that may forget
    but never contradicts the server, and hit counters flushed in batches. */
module KvStore {
  import opened Ints
  import opened LogLine
  import opened Options
  import opened Instance
  import opened Codes
  import opened RowValue
  import opened Cache
  import opened KvRows
  import opened BulkRows

  class KvStore {
    const layout: Layout
    const instance: Id
    const cache: KvCache
    var kv: map<Place, string>
    var dirty: map<string, int64>
    /** What the server held when this process started. */
    ghost const kv0: map<Place, string>
    /** The time of the last call. */
    ghost var clock: int64
    /** The hits of a code: those the server had at the start and all counted since, unless the
        code was removed and started over. A count of 2^63 or more only says that 64 bits no
        longer hold it; `Remove` leaves one where the pending delta has wrapped around. */
    ghost var counted: map<string, int>

    ghost predicate CacheOK()
      reads this`kv, this`clock, cache, cache.shards
    {
      Coherent(layout, kv, cache, clock)
    }

    ghost function CountOf(code: string): int
      reads this`counted
    {
      if code in counted then counted[code] else CounterOf(layout, kv0, code)
    }

    function DirtyOf(code: string): int64
      reads this`dirty
    {
      if code in dirty then dirty[code] else 0
    }

    /** The stored counter and the pending delta add up, as long as 64 bits hold the count. */
    ghost predicate HitsAddUp(code: string)
      reads this`kv, this`dirty, this`counted
    {
      var p := HitPlace(layout, code);
      0 <= CountOf(code) && (p in kv ==> ParseInt(kv[p]).ok) &&
      (CountOf(code) < TWO63 ==>
         0 <= CounterOf(layout, kv, code) && 0 <= DirtyOf(code) &&
         CounterOf(layout, kv, code) + DirtyOf(code) == CountOf(code))
    }

    ghost predicate Counting()
      reads this`kv, this`dirty, this`counted
    {
      (forall c :: CodeOK(c) ==> HitsAddUp(c)) && (forall c :: c in dirty ==> CodeOK(c))
    }

    ghost predicate Valid()
      reads this, cache, cache.shards
    {
      CacheOK() && Counting()
    }

    constructor (layout: Layout, instance: Id, cacheEntries: nat, cacheTtlMs: int64, kv: map<Place, string>, now: int64)
      requires forall c {:trigger HitPlace(layout, c)} :: CodeOK(c) && HitPlace(layout, c) in kv ==>
                 ParseInt(kv[HitPlace(layout, c)]).ok && 0 <= ParseInt(kv[HitPlace(layout, c)]).value
      ensures Valid() && this.layout == layout && this.kv == kv && clock == now && dirty == map[]
      ensures forall c :: CountOf(c) == CounterOf(layout, kv, c)
    {
      this.layout, this.instance, this.kv, this.kv0 := layout, instance, kv, kv;
      cache := new KvCache(cacheEntries, cacheTtlMs);
      dirty, clock, counted := map[], now, map[];
      new;
    }

    // ---------- resolve ----------

    method Bump(code: string)
      requires Counting() && CodeOK(code)
      modifies this`dirty, this`counted
      ensures Counting() && counted == old(counted)[code := old(CountOf(code)) + 1]
    {
      hide CodeOK, HitPlace, CounterOf;
      var d: int := if code in dirty then dirty[code] else 0;
      ghost var count := CountOf(code);
      assert HitsAddUp(code);
      dirty := dirty[code := Wrap(d + 1)];
      counted := counted[code := count + 1];
      assert HitsAddUp(code);
      forall c | CodeOK(c) ensures HitsAddUp(c) {
        assert old(HitsAddUp(c));
      }
    }

    /** Time passes. */
    ghost method Tick(now: int64)
      requires CacheOK() && clock <= now
      modifies this`clock
      ensures CacheOK() && clock == now
    {
      hide Coherent;
      CoherentLater(layout, kv, cache, clock, now);
      clock := now;
    }

    /** What `Resolve` finds, from the cache or the server. */
    method Find(code: string, now: int64) returns (url: Option<string>, read: bool)
      requires CacheOK() && clock == now && CodeOK(code)
      modifies cache.shards
      ensures CacheOK() && url == PlainResolve(layout, kv, code, now)
      ensures read <==> old(cache.Lookup(code)).None? ||
                        (cache.ttlMs > 0 && Wrap(now - old(cache.Lookup(code)).value.at) > cache.ttlMs) ||
                        (old(cache.Lookup(code)).value.e != 0 && old(cache.Lookup(code)).value.e <= now)
    {
      hide CodeOK, PlainResolve, Agrees, Answered;
      url, read := Answer(layout, kv, cache, code, now);
      AnswerCoherent(layout, kv, cache, now, code, url);
    }

    /** Cache transparency: the answer is that of a read that knows no cache. */
    method Resolve(code: string, now: int64) returns (url: Option<string>, read: bool)
      requires Valid() && CodeOK(code) && clock <= now
      modifies this`dirty, this`counted, this`clock, cache.shards
      ensures Valid() && clock == now
      ensures url == match RowOf(layout, kv, code)
                     case Some(r) => (if r.e != 0 && r.e <= now then None else Some(r.u))
                     case None => None
      ensures read <==> old(cache.Lookup(code)).None? ||
                        (cache.ttlMs > 0 && Wrap(now - old(cache.Lookup(code)).value.at) > cache.ttlMs) ||
                        (old(cache.Lookup(code)).value.e != 0 && old(cache.Lookup(code)).value.e <= now)
      ensures counted == if url.Some? then old(counted)[code := old(CountOf(code)) + 1] else old(counted)
    {
      hide CodeOK, RowOf, HitsAddUp, CountOf, Coherent, HitPlace, CounterOf;
      Tick(now);
      url, read := Find(code, now);
      if url.Some? {
        Bump(code);
      }
    }

    // ---------- changing links ----------

    /** Counts still add up where neither the stored counter nor the delta has changed. */
    twostate lemma StillCounting(code: string)
      requires old(Counting()) && HitsAddUp(code) && (forall c :: c in dirty ==> c in old(dirty))
      requires forall c :: CodeOK(c) && c != code ==>
                 CounterOf(layout, kv, c) == CounterOf(layout, old(kv), c) && DirtyOf(c) == old(DirtyOf(c)) &&
                 CountOf(c) == old(CountOf(c)) &&
                 (HitPlace(layout, c) in kv ==>
                    HitPlace(layout, c) in old(kv) && kv[HitPlace(layout, c)] == old(kv)[HitPlace(layout, c)])
      ensures Counting()
    {
      hide CodeOK, CounterOf, HitPlace, ParseInt;
      forall c | CodeOK(c) ensures HitsAddUp(c) {
        if c != code {
          assert old(HitsAddUp(c));
        }
      }
    }

    /** `SET NX` or `HSETNX` of a new link: whether the code was free. */
    method PutNX(code: string, r: Rec) returns (ok: bool)
      requires Valid() && CodeOK(code)
      modifies this`kv
      ensures Valid() && ok == (RowPlace(layout, code) !in old(kv))
      ensures kv == if ok then old(kv)[RowPlace(layout, code) := EncVal(r)] else old(kv)
    {
      ok := RowPlace(layout, code) !in kv;
      if ok {
        RowWritten(layout, kv, code, r);
        WriteRow(code, r);
      }
    }

    /** The server takes a row for a code that is not cached, or only as expired. */
    method WriteRow(code: string, r: Rec)
      requires Valid() && CodeOK(code)
      requires cache.Lookup(code).Some? ==> Expired(cache.Lookup(code).value.e, clock)
      modifies this`kv
      ensures Valid() && kv == old(kv)[RowPlace(layout, code) := EncVal(r)]
    {
      hide CodeOK, RowPlace, HitPlace, EncVal, DecVal, RowOf;
      assert HitsAddUp(code);
      RowWritten(layout, kv, code, r);
      kv := kv[RowPlace(layout, code) := EncVal(r)];
      StillCoherent(layout, old(kv), kv, cache, clock, code);
      StillCounting(code);
    }

    /** `Shorten`: "" if the alias is taken, else the code the link is stored under; `rand`
        are the random draws. */
    method Shorten(url: string, alias: string, hasAlias: bool, ttl: int64, now: int64, rand: seq<string>)
      returns (code: string)
      requires Valid() && clock <= now && (hasAlias ==> CodeOK(alias))
      requires forall i :: 0 <= i < |rand| ==> Suffix(rand[i])
      requires !hasAlias ==>
                 exists i :: 0 <= i < |rand| && RowPlace(layout, Generated(instance, rand[i])) !in kv
      modifies this`kv, this`clock
      ensures Valid() && clock == now
      ensures hasAlias && RowPlace(layout, alias) in old(kv) ==> code == "" && kv == old(kv)
      ensures !(hasAlias && RowPlace(layout, alias) in old(kv)) ==>
                CodeOK(code) && RowPlace(layout, code) !in old(kv) &&
                kv == old(kv)[RowPlace(layout, code) := EncVal(Rec(Expiry(now, ttl), now, url))]
      ensures code != "" && 0 <= now && now + ttl < TWO63 ==>
                RowOf(layout, kv, code) == Some(Rec(if ttl > 0 then now + ttl else 0, now, url))
      ensures forall c :: CodeOK(c) && c != code ==> RowOf(layout, kv, c) == RowOf(layout, old(kv), c)
      ensures if hasAlias then code == "" || code == alias else Drawn(instance, rand, code)
    {
      hide CodeOK, RowPlace, HitPlace, EncVal, RowOf, CacheOK, Counting;
      Tick(now);
      var r := Rec(Expiry(now, ttl), now, url);
      if hasAlias {
        var ok := PutNX(alias, r);
        if ok {
          RowWritten(layout, old(kv), alias, r);
        }
        return if ok then alias else "";
      }
      var i := 0;
      while true
        invariant i < |rand| && Valid() && clock == now && kv == old(kv)
        invariant forall j :: 0 <= j < i ==> RowPlace(layout, Generated(instance, rand[j])) in kv
        decreases |rand| - i
      {
        code := Generated(instance, rand[i]);
        GeneratedOK(instance, rand[i]);
        var ok := PutNX(code, r);
        if ok {
          RowWritten(layout, old(kv), code, r);
          return;
        }
        i := i + 1;
      }
    }

    /** `ShortenMany`: a bulk draw for every URL, all tried in one go; the URLs whose code was
        taken are then shortened one by one. If the transport fails, after the server has run
        the first `served` commands, all URLs are. Every URL gets a new code of its own; the
        links that a failed transport left, `mid`, stay under codes nobody is given. */
    method ShortenMany(urls: seq<string>, ttl: int64, now: int64, draws: seq<string>, rand: seq<seq<string>>,
                       failed: bool, served: nat)
      returns (codes: seq<string>, ghost mid: map<Place, string>, ghost orphans: seq<string>)
      requires if failed then served <= |urls| else served == |urls|
      requires Valid() && clock <= now && |draws| == |rand| == |urls|
      requires forall i :: 0 <= i < |draws| ==> Suffix(draws[i])
      requires forall i, m :: 0 <= i < |rand| && 0 <= m < |rand[i]| ==> Suffix(rand[i][m])
      requires forall i :: 0 <= i < |rand| ==> NewDraw(layout, instance, kv, draws, rand, i)
      modifies this`kv, this`clock
      ensures Valid() && clock == now
      ensures BulkMade(layout, mid, kv, codes, urls, now, Expiry(now, ttl)) && Distinct(codes)
      ensures if failed
              then Partial(layout, instance, old(kv), mid, draws, rand, orphans, urls, now, Expiry(now, ttl)) &&
                   ByDraw(instance, draws, orphans) && forall k :: served <= k < |orphans| ==> orphans[k] == ""
              else mid == old(kv)
      ensures |codes| == |urls|
      ensures forall i :: 0 <= i < |codes| ==> CodeOK(codes[i]) && RowPlace(layout, codes[i]) !in old(kv)
      ensures 0 <= now && now + ttl < TWO63 ==> forall i :: 0 <= i < |codes| ==>
                RowOf(layout, kv, codes[i]) == Some(Rec(if ttl > 0 then now + ttl else 0, now, urls[i]))
      ensures forall c :: CodeOK(c) && (RowPlace(layout, c) in old(kv) || !MadeBy(instance, draws, rand, c)) ==>
                RowOf(layout, kv, c) == RowOf(layout, old(kv), c)
    {
      hide RowPlace, RowOf, Partial, NewDraw, Suffix, Valid, Generated, MadeBy, CodeOK, Expiry;
      ghost var kv0, exp := kv, Expiry(now, ttl);
      codes := PutMany(urls, ttl, now, draws, rand, served);
      mid, orphans := kv0, codes;
      if failed {
        mid, codes := kv, seq(|urls|, _ => "");
        StillNew(kv0, mid, draws, rand, orphans, urls, now, exp);
        NothingMade(mid, draws, rand, codes, urls, now, exp);
      }
      for i := 0 to |urls|
        invariant Valid() && clock == now && |codes| == |urls|
        invariant Partial(layout, instance, mid, kv, draws, rand, codes, urls, now, exp)
        invariant Apart(codes) && forall k :: 0 <= k < i ==> codes[k] != ""
      {
        if codes[i] == "" {
          var code := Retry(codes, urls, ttl, now, draws, rand, i, mid);
          codes := codes[i := code];
        }
      }
      AllMade(mid, kv, draws, rand, codes, urls, now, exp);
      if failed {
        AllSpared(layout, instance, kv0, mid, draws, rand, orphans, urls, now, exp);
      }
      AllSpared(layout, instance, mid, kv, draws, rand, codes, urls, now, exp);
      RowsMade(layout, mid, kv, codes, urls, now, ttl);
    }

    lemma StillNew(kv0: map<Place, string>, mid: map<Place, string>, draws: seq<string>, rand: seq<seq<string>>,
                   orphans: seq<string>, urls: seq<string>, now: int64, exp: int64)
      requires Partial(layout, instance, kv0, mid, draws, rand, orphans, urls, now, exp) &&
               ByDraw(instance, draws, orphans)
      requires forall i, m :: 0 <= i < |rand| && 0 <= m < |rand[i]| ==> Suffix(rand[i][m])
      requires forall i :: 0 <= i < |rand| ==> NewDraw(layout, instance, kv0, draws, rand, i)
      ensures forall i :: 0 <= i < |rand| ==> NewDraw(layout, instance, mid, draws, rand, i)
    {
      hide Overlaid, NewDraw, Suffix, FromSources, ByDraw, RowPlace, CodeOK;
      forall i | 0 <= i < |rand| ensures NewDraw(layout, instance, mid, draws, rand, i) {
        DrawStillNew(layout, instance, kv0, mid, draws, rand, orphans, urls, now, exp, i);
      }
    }

    lemma AllMade(kv0: map<Place, string>, kv: map<Place, string>, draws: seq<string>, rand: seq<seq<string>>,
                  codes: seq<string>, urls: seq<string>, now: int64, exp: int64)
      requires Partial(layout, instance, kv0, kv, draws, rand, codes, urls, now, exp)
      requires Apart(codes) && forall k :: 0 <= k < |codes| ==> codes[k] != ""
      ensures BulkMade(layout, kv0, kv, codes, urls, now, exp) && Distinct(codes)
    {
      hide RowPlace, Overlaid, FromSources, CodeOK, BulkMade;
      MadeByOverlay(layout, kv0, kv, codes, urls, now, exp);
    }

    /** The pipe of bulk creation, of which the server runs the first `served` commands; "" where
        the code drawn was taken. */
    method PutMany(urls: seq<string>, ttl: int64, now: int64, draws: seq<string>, rand: seq<seq<string>>, served: nat)
      returns (codes: seq<string>)
      requires Valid() && clock <= now && |draws| == |rand| == |urls| && served <= |urls|
      requires forall i :: 0 <= i < |draws| ==> Suffix(draws[i])
      modifies this`kv, this`clock
      ensures Valid() && clock == now && Apart(codes) && |codes| == |urls|
      ensures Partial(layout, instance, old(kv), kv, draws, rand, codes, urls, now, Expiry(now, ttl))
      ensures ByDraw(instance, draws, codes) && forall k :: served <= k < |codes| ==> codes[k] == ""
    {
      hide RowPlace, Overlaid, Suffix, CacheOK, Counting, Generated, EncVal, Partial, CodeOK;
      Tick(now);
      var exp := Expiry(now, ttl);
      codes := seq(|urls|, _ => "");
      NothingMade(kv, draws, rand, codes, urls, now, exp);
      for i := 0 to served
        invariant Valid() && clock == now && |codes| == |urls| && ByDraw(instance, draws, codes)
        invariant Partial(layout, instance, old(kv), kv, draws, rand, codes, urls, now, exp)
        invariant Apart(codes) && forall k :: i <= k < |codes| ==> codes[k] == ""
      {
        var code := Generated(instance, draws[i]);
        GeneratedOK(instance, draws[i]);
        ghost var before := kv;
        var ok := PutNX(code, Rec(exp, now, urls[i]));
        if ok {
          PartialSet(layout, instance, old(kv), before, draws, rand, codes, urls, now, exp, i, code);
          ApartSet(codes, i, code);
          codes := codes[i := code];
        }
      }
    }

    lemma NothingMade(kv: map<Place, string>, draws: seq<string>, rand: seq<seq<string>>, codes: seq<string>,
                      urls: seq<string>, now: int64, exp: int64)
      requires |codes| == |urls| == |draws| == |rand| && forall k :: 0 <= k < |codes| ==> codes[k] == ""
      ensures Partial(layout, instance, kv, kv, draws, rand, codes, urls, now, exp)
    {
      hide Overlaid;
      OverlaidNone(layout, kv, codes, urls, now, exp);
    }

    /** The serial path for one URL whose bulk draw was taken. */
    method Retry(codes: seq<string>, urls: seq<string>, ttl: int64, now: int64, draws: seq<string>,
                 rand: seq<seq<string>>,
                 i: nat, ghost kv0: map<Place, string>)
      returns (code: string)
      requires Valid() && clock == now && i < |codes| && codes[i] == "" && Apart(codes)
      requires Partial(layout, instance, kv0, kv, draws, rand, codes, urls, now, Expiry(now, ttl))
      requires NewDraw(layout, instance, kv0, draws, rand, i) && forall m :: 0 <= m < |rand[i]| ==> Suffix(rand[i][m])
      modifies this`kv, this`clock
      ensures Valid() && clock == now && code != "" && Apart(codes[i := code])
      ensures Partial(layout, instance, kv0, kv, draws, rand, codes[i := code], urls, now, Expiry(now, ttl))
    {
      hide RowPlace, Overlaid, FromSources, Suffix, Valid, Generated, EncVal, CodeOK, Drawn, NewDraw;
      ghost var before := kv;
      RetryIsFree(layout, instance, kv0, kv, draws, rand, codes, urls, now, Expiry(now, ttl), i);
      code := Shorten(urls[i], "", false, ttl, now, rand[i]);
      CodeNotEmpty();
      PartialSet(layout, instance, kv0, before, draws, rand, codes, urls, now, Expiry(now, ttl), i, code);
      ApartSet(codes, i, code);
    }

    /** A row is replaced, and the own cache forgets the code. */
    method Overwrite(code: string, r: Rec)
      requires Valid() && CodeOK(code)
      modifies this`kv, cache.shards
      ensures Valid() && kv == old(kv)[RowPlace(layout, code) := EncVal(r)]
    {
      hide CodeOK, RowPlace, HitPlace, EncVal, DecVal, RowOf;
      assert HitsAddUp(code);
      RowWritten(layout, kv, code, r);
      kv := kv[RowPlace(layout, code) := EncVal(r)];
      cache.Remove(code);
      StillCoherent(layout, old(kv), kv, cache, clock, code);
      StillCounting(code);
    }

    /** `Update`: the creation time stays. */
    method Update(code: string, url: string, ttl: int64, hasTTL: bool, now: int64) returns (res: Mut)
      requires Valid() && clock <= now && CodeOK(code)
      modifies this`kv, this`clock, cache.shards
      ensures Valid() && clock == now
      ensures RowOf(layout, old(kv), code) == None ==> res == MutMissing && kv == old(kv)
      ensures RowOf(layout, old(kv), code).Some? ==>
                var r := RowOf(layout, old(kv), code).value;
                var exp := if hasTTL then Expiry(now, ttl) else r.e;
                res == MutOK && kv == old(kv)[RowPlace(layout, code) := EncVal(Rec(exp, r.c, url))]
      ensures res == MutOK <==> RowOf(layout, old(kv), code).Some?
      ensures res == MutOK && 0 <= now && now + ttl < TWO63 ==>
                RowOf(layout, kv, code) ==
                Some(Rec(if !hasTTL then RowOf(layout, old(kv), code).value.e else if ttl > 0 then now + ttl else 0,
                         RowOf(layout, old(kv), code).value.c, url))
      ensures forall c :: CodeOK(c) && (c != code || res != MutOK) ==> RowOf(layout, kv, c) == RowOf(layout, old(kv), c)
    {
      hide CodeOK, RowPlace, EncVal, DecVal, CacheOK, Counting;
      Tick(now);
      if RowPlace(layout, code) !in kv {
        return MutMissing;
      }
      var v := DecVal(kv[RowPlace(layout, code)]);
      if v.None? {
        return MutMissing;
      }
      var exp := v.value.e;
      if hasTTL {
        exp := if ttl > 0 then Wrap(now + ttl) else 0;
      }
      RowWritten(layout, kv, code, Rec(exp, v.value.c, url));
      Overwrite(code, Rec(exp, v.value.c, url));
      res := MutOK;
    }

    /** `Remove`: the row and its counter go; hits still pending are what is left. */
    method Remove(code: string, now: int64) returns (res: Mut)
      requires Valid() && clock <= now && CodeOK(code)
      modifies this`kv, this`clock, this`counted, cache.shards
      ensures Valid() && clock == now
      ensures if RowPlace(layout, code) !in old(kv)
              then res == MutMissing && kv == old(kv) && counted == old(counted)
              else res == MutOK && kv == old(kv) - {RowPlace(layout, code)} - {HitPlace(layout, code)} &&
                   counted == old(counted)[code := if DirtyOf(code) < 0 then TWO63 else DirtyOf(code)]
      ensures RowOf(layout, kv, code) == None
      ensures forall c :: CodeOK(c) && c != code ==> RowOf(layout, kv, c) == RowOf(layout, old(kv), c)
    {
      hide CodeOK, RowPlace, HitPlace, CacheOK, Counting;
      Tick(now);
      if RowPlace(layout, code) !in kv {
        return MutMissing;
      }
      RowGone(layout, kv, code);
      Erase(code);
      res := MutOK;
    }

    method Erase(code: string)
      requires Valid() && CodeOK(code)
      modifies this`kv, this`counted, cache.shards
      ensures Valid() && kv == old(kv) - {RowPlace(layout, code)} - {HitPlace(layout, code)}
      ensures counted == old(counted)[code := if DirtyOf(code) < 0 then TWO63 else DirtyOf(code)]
    {
      hide CodeOK, RowPlace, HitPlace, RowOf, Counting;
      EraseKeys(code);
      cache.Remove(code);
      StillCoherent(layout, old(kv), kv, cache, clock, code);
    }

    method EraseKeys(code: string)
      requires Counting() && CodeOK(code)
      modifies this`kv, this`counted
      ensures Counting() && kv == old(kv) - {RowPlace(layout, code)} - {HitPlace(layout, code)}
      ensures counted == old(counted)[code := if DirtyOf(code) < 0 then TWO63 else DirtyOf(code)]
      ensures forall c :: CodeOK(c) && c != code ==> RowOf(layout, kv, c) == RowOf(layout, old(kv), c)
    {
      hide CodeOK, RowPlace, HitPlace, RowOf, CounterOf;
      RowGone(layout, kv, code);
      kv := kv - {RowPlace(layout, code)};
      kv := kv - {HitPlace(layout, code)};
      counted := counted[code := if DirtyOf(code) < 0 then TWO63 else DirtyOf(code)];
      assert HitsAddUp(code);
      StillCounting(code);
    }

    // ---------- hits ----------

    /** What a counter becomes: INCRBY refuses a sum that is none of 64 bits, and the delta is
        lost. */
    function Bumped(stored: int64, delta: int64): int64 {
      if -TWO63 <= stored + delta < TWO63 then stored + delta else stored
    }

    /** `flushHits`: every pending delta is added to its stored counter; no count changes. */
    method FlushHits()
      requires Valid()
      modifies this`kv, this`dirty
      ensures Valid() && dirty == map[]
      ensures forall c :: CodeOK(c) ==> RowOf(layout, kv, c) == RowOf(layout, old(kv), c)
      ensures forall c :: CodeOK(c) ==>
                CounterOf(layout, kv, c) == Bumped(CounterOf(layout, old(kv), c), old(DirtyOf(c)))
    {
      hide CodeOK, RowOf, CounterOf, Valid;
      while dirty != map[]
        invariant Valid() && dirty.Keys <= old(dirty).Keys
        invariant forall c :: CodeOK(c) ==>
                    if c in dirty then dirty[c] == old(dirty)[c] &&
                      CounterOf(layout, kv, c) == CounterOf(layout, old(kv), c)
                    else CounterOf(layout, kv, c) == Bumped(CounterOf(layout, old(kv), c), old(DirtyOf(c)))
        invariant forall c :: CodeOK(c) ==> RowOf(layout, kv, c) == RowOf(layout, old(kv), c)
        decreases dirty.Keys
      {
        assert dirty.Keys != {};
        var c :| c in dirty;
        FlushOne(c);
      }
    }

    method FlushOne(c: string)
      requires Valid() && c in dirty
      modifies this`kv, this`dirty
      ensures Valid() && dirty == old(dirty) - {c}
      ensures forall d :: CodeOK(d) ==> RowOf(layout, kv, d) == RowOf(layout, old(kv), d)
      ensures forall d :: CodeOK(d) ==>
                CounterOf(layout, kv, d) ==
                if d == c then Bumped(CounterOf(layout, old(kv), c), old(dirty)[c]) else CounterOf(layout, old(kv), d)
    {
      hide CodeOK, RowPlace, HitPlace, RowOf, CounterOf, ParseInt, IncrBy, Coherent;
      assert HitsAddUp(c);
      IncrEffect(layout, kv, c, dirty[c]);
      kv := IncrBy(kv, HitPlace(layout, c), dirty[c]);
      dirty := dirty - {c};
      assert HitsAddUp(c);
      StillCounting(c);
      RowsKeepCoherent(layout, old(kv), kv, cache, clock);
    }

    /** `Stats`: the row and its hits, those not yet flushed included. */
    method Stats(code: string) returns (r: Option<(Rec, int64)>)
      requires Valid() && CodeOK(code)
      ensures match RowOf(layout, kv, code)
              case None => r == None
              case Some(rec) => r.Some? && r.value.0 == rec &&
                                r.value.1 == Wrap(CounterOf(layout, kv, code) + DirtyOf(code)) &&
                                (CountOf(code) < TWO63 ==> r.value.1 == CountOf(code))
    {
      hide CodeOK, RowPlace, HitPlace, DecVal, ParseInt, CacheOK;
      assert HitsAddUp(code);
      if RowPlace(layout, code) !in kv {
        return None;
      }
      var v := DecVal(kv[RowPlace(layout, code)]);
      if v.None? {
        return None;
      }
      var p := HitPlace(layout, code);
      var hits: int := if p in kv then ParseInt(kv[p]).value else 0;
      hits := Wrap(hits + DirtyOf(code));
      r := Some((v.value, hits));
    }

    // ---------- expiry ----------

    /** The server drops some rows whose time is up, as PX does. */
    method ServerExpiry(gone: set<Place>, now: int64)
      requires Valid() && clock <= now && forall p :: p in gone ==> DeadRow(layout, kv, p, now)
      modifies this`kv, this`clock
      ensures Valid() && clock == now && kv == old(kv) - gone
      ensures forall c :: CodeOK(c) ==> PlainResolve(layout, kv, c, now) == PlainResolve(layout, old(kv), c, now)
      ensures forall c :: RowOf(layout, kv, c) == RowOf(layout, old(kv), c) ||
                          (RowOf(layout, kv, c) == None && RowOf(layout, old(kv), c).value.e != 0 &&
                           RowOf(layout, old(kv), c).value.e <= now)
    {
      hide CodeOK, Coherent, Counting, DeadRow, PlainResolve, RowOf;
      Tick(now);
      label Ticked:
      DeadKeepCoherent(layout, kv, gone, cache, now);
      kv := kv - gone;
      DeadKeepCounting@Ticked(gone);
      forall c | CodeOK(c) ensures PlainResolve(layout, kv, c, now) == PlainResolve(layout, old(kv), c, now) {
        DeadUnseen(layout, old(kv), gone, c, now);
      }
      forall c
        ensures RowOf(layout, kv, c) == RowOf(layout, old(kv), c) ||
                (RowOf(layout, kv, c) == None && RowOf(layout, old(kv), c).value.e != 0 &&
                 RowOf(layout, old(kv), c).value.e <= now)
      {
        DeadGone(layout, old(kv), gone, c, now);
      }
    }

    /** `sweepExpired`, for the layout whose rows the server cannot expire itself: the rows of
        expired links go, and no others; nobody can tell, but for the room. */
    method SweepExpired(now: int64)
      requires Valid() && clock <= now && layout.Hash?
      modifies this`kv, this`clock
      ensures Valid() && clock == now
      ensures forall c :: CodeOK(c) ==>
                RowOf(layout, kv, c) == match RowOf(layout, old(kv), c)
                                      case Some(r) => (if r.e != 0 && r.e <= now then None else Some(r))
                                      case None => None
      ensures forall p :: p in kv <==> p in old(kv) && !DeadKey(layout, old(kv), p, now)
      ensures forall p :: p in kv ==> kv[p] == old(kv)[p]
      ensures forall c :: CodeOK(c) ==> PlainResolve(layout, kv, c, now) == PlainResolve(layout, old(kv), c, now)
    {
      hide CodeOK, RowPlace, HitPlace, DecVal, CacheOK, Counting, RowOf, DeadKey, DeadRow, PlainResolve;
      var fields := kv.Keys;
      var dead: set<Place> := {};
      while fields != {}
        invariant fields <= kv.Keys && kv == old(kv) && clock == old(clock) && Valid()
        invariant forall p :: p in dead <==> p in kv.Keys - fields && DeadKey(layout, kv, p, now)
        decreases fields
      {
        var p :| p in fields;
        if DeadKey(layout, kv, p, now) {
          dead := dead + {p};
        }
        fields := fields - {p};
      }
      forall p | p in dead ensures DeadRow(layout, kv, p, now) {
        KeyIsRow(layout, kv, p, now);
      }
      ServerExpiry(dead, now);
      forall c | CodeOK(c)
        ensures RowOf(layout, kv, c) == match RowOf(layout, old(kv), c)
                                      case Some(r) => (if r.e != 0 && r.e <= now then None else Some(r))
                                      case None => None
      {
        Swept(layout, old(kv), dead, c, now);
      }
    }

    twostate lemma DeadKeepCounting(gone: set<Place>)
      requires old(Counting()) && dirty == old(dirty) && counted == old(counted)
      requires kv == old(kv) - gone && forall p :: p in gone ==> DeadRow(layout, old(kv), p, clock)
      ensures Counting()
    {
      hide CodeOK, RowPlace, HitPlace, ParseInt;
      forall c | CodeOK(c) ensures HitsAddUp(c) {
        assert old(HitsAddUp(c));
      }
    }
  }
}
