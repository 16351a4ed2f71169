/** The store over an embedded database: rows and hit counters in one keyspace each, the same
    cache in front, and a merge operator that adds hit deltas. */
module PebbleStore {
  import opened Ints
  import opened Options
  import opened LogLine
  import opened Instance
  import opened Codes
  import opened RowValue
  import opened Cache
  import opened KvRows
  import opened BulkRows

  /** An unsigned 64-bit integer, as the merge operator adds them. */
  type uint64 = x: int | 0 <= x < TWO64

  function Unsigned(n: int): uint64 {
    n % TWO64
  }

  /** The merge operator: a missing counter is the delta itself. */
  function Merged(hits: map<string, uint64>, c: string, delta: int64): map<string, uint64> {
    hits[c := if c in hits then Unsigned(hits[c] + Unsigned(delta)) else Unsigned(delta)]
  }

  lemma UnsignedSame(n: int, d: int)
    ensures Wrap(Unsigned(n) + d) == Wrap(n + d)
  {
    var q := n / TWO64;
    assert Unsigned(n) + d == n + d + (-q) * TWO64;
    WrapShift(n + d, -q);
  }

  /** A merge adds the delta, whatever wraps around. */
  lemma MergeAdds(h: uint64, d: int64)
    ensures Wrap(Unsigned(h + Unsigned(d))) == Wrap(h + d)
    ensures Wrap(Unsigned(d)) == Wrap(d)
  {
    UnsignedSame(h + Unsigned(d), 0);
    UnsignedSame(d, h);
    UnsignedSame(d, 0);
  }

  class PebbleStore {
    const instance: Id
    const cache: KvCache
    /** The rows: the keys that begin with "l:". */
    var db: map<Place, string>
    /** The counters, by code: the keys that begin with "h:". */
    var hits: map<string, uint64>
    var dirty: map<string, int64>
    ghost const hits0: map<string, uint64>
    ghost var clock: int64
    /** The hits of a code since its counter last began. */
    ghost var counted: map<string, int>

    ghost predicate CacheOK()
      reads this`db, this`clock, cache, cache.shards
    {
      Coherent(Plain, db, cache, clock)
    }

    ghost function CountOf(code: string): int
      reads this`counted
    {
      if code in counted then counted[code] else if code in hits0 then hits0[code] else 0
    }

    function DirtyOf(code: string): int64
      reads this`dirty
    {
      if code in dirty then dirty[code] else 0
    }

    function StoredOf(code: string): uint64
      reads this`hits
    {
      if code in hits then hits[code] else 0
    }

    /** The stored counter and the pending delta add up, in 64 bits. */
    ghost predicate HitsAddUp(code: string)
      reads this`hits, this`dirty, this`counted
    {
      Wrap(StoredOf(code) + DirtyOf(code)) == Wrap(CountOf(code))
    }

    ghost predicate Counting()
      reads this`hits, this`dirty, this`counted
    {
      forall c :: HitsAddUp(c)
    }

    ghost predicate Valid()
      reads this, cache, cache.shards
    {
      CacheOK() && Counting()
    }

    constructor (instance: Id, cacheEntries: nat, cacheTtlMs: int64, db: map<Place, string>,
                 hits: map<string, uint64>, now: int64)
      ensures Valid() && this.db == db && this.hits == hits && clock == now && dirty == map[]
      ensures forall c :: CountOf(c) == if c in hits then hits[c] else 0
    {
      this.instance, this.db, this.hits, this.hits0 := instance, db, hits, hits;
      cache := new KvCache(cacheEntries, cacheTtlMs);
      dirty, clock, counted := map[], now, map[];
      new;
    }

    ghost method Tick(now: int64)
      requires CacheOK() && clock <= now
      modifies this`clock
      ensures CacheOK() && clock == now
    {
      hide Coherent;
      CoherentLater(Plain, db, cache, clock, now);
      clock := now;
    }

    // ---------- resolve ----------

    method Bump(code: string)
      requires Counting()
      modifies this`dirty, this`counted
      ensures Counting() && counted == old(counted)[code := old(CountOf(code)) + 1]
    {
      hide Wrap;
      var d: int := if code in dirty then dirty[code] else 0;
      ghost var count, stored := CountOf(code), StoredOf(code);
      assert HitsAddUp(code);
      OneMore(stored, d, count);
      dirty := dirty[code := Wrap(d + 1)];
      counted := counted[code := count + 1];
      forall c ensures HitsAddUp(c) {
        assert old(HitsAddUp(c));
      }
    }

    lemma OneMore(stored: int, d: int, count: int)
      requires Wrap(stored + d) == Wrap(count)
      ensures Wrap(stored + Wrap(d + 1)) == Wrap(count + 1)
    {
      hide Wrap;
      WrapAdd(d + 1, stored);
      WrapCong(stored + d, count, 1);
    }

    method Find(code: string, now: int64) returns (url: Option<string>, read: bool)
      requires CacheOK() && clock == now && CodeOK(code)
      modifies cache.shards
      ensures CacheOK() && url == PlainResolve(Plain, db, code, now)
      ensures read <==> old(cache.Lookup(code)).None? ||
                        (cache.ttlMs > 0 && Wrap(now - old(cache.Lookup(code)).value.at) > cache.ttlMs) ||
                        (old(cache.Lookup(code)).value.e != 0 && old(cache.Lookup(code)).value.e <= now)
    {
      hide CodeOK, PlainResolve, Answered, Agrees;
      url, read := Answer(Plain, db, cache, code, now);
      AnswerCoherent(Plain, db, cache, now, code, url);
    }

    /** The answer is that of a read of the database. */
    method Resolve(code: string, now: int64) returns (url: Option<string>, read: bool)
      requires Valid() && CodeOK(code) && clock <= now
      modifies this`dirty, this`counted, this`clock, cache.shards
      ensures Valid() && clock == now
      ensures url == match RowOf(Plain, db, code)
                     case Some(r) => (if r.e != 0 && r.e <= now then None else Some(r.u))
                     case None => None
      ensures read <==> old(cache.Lookup(code)).None? ||
                        (cache.ttlMs > 0 && Wrap(now - old(cache.Lookup(code)).value.at) > cache.ttlMs) ||
                        (old(cache.Lookup(code)).value.e != 0 && old(cache.Lookup(code)).value.e <= now)
      ensures counted == if url.Some? then old(counted)[code := old(CountOf(code)) + 1] else old(counted)
    {
      hide CodeOK, RowOf, HitsAddUp, CountOf, Coherent;
      Tick(now);
      url, read := Find(code, now);
      if url.Some? {
        Bump(code);
      }
    }

    // ---------- creation ----------

    /** Stores a link under a free code, and caches it. */
    method Put(code: string, r: Rec) returns (ok: bool)
      requires CacheOK() && CodeOK(code) && r.c == clock
      modifies this`db, cache.shards
      ensures CacheOK() && ok == (RowPlace(Plain, code) !in old(db))
      ensures db == if ok then old(db)[RowPlace(Plain, code) := EncVal(r)] else old(db)
    {
      hide CodeOK, RowPlace, EncVal, DecVal, RowOf, HitPlace;
      ok := RowPlace(Plain, code) !in db;
      if ok {
        RowWritten(Plain, db, code, r);
        db := db[RowPlace(Plain, code) := EncVal(r)];
        cache.Put(code, r.u, r.e, r.c);
        StillCoherent(Plain, old(db), db, cache, clock, code);
      }
    }

    /** `Shorten`: "" if the alias is taken, else the code the link is stored under. */
    method Shorten(url: string, alias: string, hasAlias: bool, ttl: int64, now: int64, rand: seq<string>)
      returns (code: string)
      requires Valid() && clock <= now && (hasAlias ==> CodeOK(alias))
      requires forall i :: 0 <= i < |rand| ==> Suffix(rand[i])
      requires !hasAlias ==> exists i :: 0 <= i < |rand| && RowPlace(Plain, Generated(instance, rand[i])) !in db
      modifies this`db, this`clock, cache.shards
      ensures Valid() && clock == now
      ensures hasAlias && RowPlace(Plain, alias) in old(db) ==> code == "" && db == old(db)
      ensures !(hasAlias && RowPlace(Plain, alias) in old(db)) ==>
                CodeOK(code) && RowPlace(Plain, code) !in old(db) &&
                db == old(db)[RowPlace(Plain, code) := EncVal(Rec(Expiry(now, ttl), now, url))]
      ensures code != "" && 0 <= now && now + ttl < TWO63 ==>
                RowOf(Plain, db, code) == Some(Rec(if ttl > 0 then now + ttl else 0, now, url))
      ensures forall c :: CodeOK(c) && c != code ==> RowOf(Plain, db, c) == RowOf(Plain, old(db), c)
      ensures if hasAlias then code == "" || code == alias else Drawn(instance, rand, code)
    {
      hide CodeOK, RowPlace, HitPlace, EncVal, RowOf, Coherent, HitsAddUp;
      Tick(now);
      var r := Rec(Expiry(now, ttl), now, url);
      if hasAlias {
        var ok := Put(alias, r);
        if ok {
          RowWritten(Plain, old(db), alias, r);
        }
        return if ok then alias else "";
      }
      var i := 0;
      while true
        invariant i < |rand| && CacheOK() && clock == now && db == old(db)
        invariant forall j :: 0 <= j < i ==> RowPlace(Plain, Generated(instance, rand[j])) in db
        decreases |rand| - i
      {
        code := Generated(instance, rand[i]);
        GeneratedOK(instance, rand[i]);
        var ok := Put(code, r);
        if ok {
          RowWritten(Plain, old(db), code, r);
          return;
        }
        i := i + 1;
      }
    }

    // ---------- bulk creation ----------

    /** The bulk draw of the `k`-th URL is a code the database does not have. */
    ghost predicate FreeDraw(db0: map<Place, string>, draws: seq<string>, k: nat)
      requires k < |draws|
    {
      RowPlace(Plain, Generated(instance, draws[k])) !in db0
    }

    /** Two URLs share a code exactly if both bulk draws were free and the same. */
    ghost predicate SharedByDraw(db0: map<Place, string>, draws: seq<string>, codes: seq<string>)
      requires |codes| == |draws|
    {
      (forall i :: 0 <= i < |codes| && FreeDraw(db0, draws, i) ==> codes[i] != "") &&
      forall i, j :: 0 <= i < j < |codes| && codes[i] != "" && codes[j] != "" ==>
        (codes[i] == codes[j] <==>
         FreeDraw(db0, draws, i) && FreeDraw(db0, draws, j) &&
           Generated(instance, draws[i]) == Generated(instance, draws[j]))
    }

    lemma SharedSet(db0: map<Place, string>, draws: seq<string>, codes: seq<string>, i: nat, code: string)
      requires |codes| == |draws| && SharedByDraw(db0, draws, codes) && i < |codes| && codes[i] == "" && code !in codes
      ensures SharedByDraw(db0, draws, codes[i := code])
    {
      hide Generated, FreeDraw;
    }

    /** `ShortenMany`: the bulk draws are checked against the database, but not against each
        other, and stored in one batch; URLs whose draw was taken are shortened one by one, and
        all of them if the batch is not committed. Two URLs can get the same code, which then
        leads to the later one, if and only if their bulk draws collide in a committed batch. */
    method ShortenMany(urls: seq<string>, ttl: int64, now: int64, draws: seq<string>, rand: seq<seq<string>>,
                       committed: bool)
      returns (codes: seq<string>)
      requires Valid() && clock <= now && |draws| == |rand| == |urls|
      requires forall i :: 0 <= i < |draws| ==> Suffix(draws[i])
      requires forall i, m :: 0 <= i < |rand| && 0 <= m < |rand[i]| ==> Suffix(rand[i][m])
      requires forall i :: 0 <= i < |rand| ==> NewDraw(Plain, instance, db, draws, rand, i)
      modifies this`db, this`clock, cache.shards
      ensures Valid() && clock == now
      ensures BulkMade(Plain, old(db), db, codes, urls, now, Expiry(now, ttl))
      ensures forall i, j :: 0 <= i < j < |codes| ==>
                (codes[i] == codes[j] <==>
                 committed && FreeDraw(old(db), draws, i) && FreeDraw(old(db), draws, j) &&
                 Generated(instance, draws[i]) == Generated(instance, draws[j]))
      ensures |codes| == |urls|
      ensures forall i :: 0 <= i < |codes| ==> CodeOK(codes[i]) && RowPlace(Plain, codes[i]) !in old(db)
      ensures 0 <= now && now + ttl < TWO63 ==>
                forall i :: 0 <= i < |codes| && codes[i] !in codes[i + 1..] ==>
                  RowOf(Plain, db, codes[i]) == Some(Rec(if ttl > 0 then now + ttl else 0, now, urls[i]))
      ensures forall c :: CodeOK(c) && (RowPlace(Plain, c) in old(db) || !MadeBy(instance, draws, rand, c)) ==>
                RowOf(Plain, db, c) == RowOf(Plain, old(db), c)
    {
      hide RowPlace, Partial, NewDraw, Suffix, CacheOK, HitsAddUp, Generated, FreeDraw, SharedByDraw, Apart, BulkMade,
           RowOf, CodeOK, MadeBy, Expiry, Coherent;
      Tick(now);
      ghost var db0, exp := db, Expiry(now, ttl);
      var batch;
      codes, batch := Batch(urls, ttl, now, draws, rand);
      if committed {
        Commit(codes, urls, ttl, now, draws, rand, batch);
      } else {
        codes := seq(|urls|, _ => "");
        StartBatch(draws, rand, codes, urls, now, exp);
        ApartNone(codes);
      }
      for i := 0 to |urls|
        invariant Valid() && clock == now && |codes| == |urls|
        invariant Partial(Plain, instance, db0, db, draws, rand, codes, urls, now, exp)
        invariant if committed then SharedByDraw(db0, draws, codes) else Apart(codes)
        invariant forall k :: 0 <= k < i ==> codes[k] != ""
      {
        if codes[i] == "" {
          var code := Retry(codes, urls, ttl, now, draws, rand, i, db0);
          if committed {
            SharedSet(db0, draws, codes, i, code);
          } else {
            ApartSet(codes, i, code);
          }
          codes := codes[i := code];
        }
      }
      AllMade(db0, db, draws, rand, codes, urls, now, exp);
      CodesShared(db0, draws, codes, committed);
      AllSpared(Plain, instance, db0, db, draws, rand, codes, urls, now, exp);
      RowsMade(Plain, db0, db, codes, urls, now, ttl);
    }

    lemma CodesShared(db0: map<Place, string>, draws: seq<string>, codes: seq<string>, committed: bool)
      requires |codes| == |draws| && forall k :: 0 <= k < |codes| ==> codes[k] != ""
      requires if committed then SharedByDraw(db0, draws, codes) else Apart(codes)
      ensures forall i, j :: 0 <= i < j < |codes| ==>
                (codes[i] == codes[j] <==>
                 committed && FreeDraw(db0, draws, i) && FreeDraw(db0, draws, j) &&
                 Generated(instance, draws[i]) == Generated(instance, draws[j]))
    {
      hide Generated, FreeDraw;
    }

    lemma AllMade(db0: map<Place, string>, db: map<Place, string>, draws: seq<string>, rand: seq<seq<string>>,
                  codes: seq<string>, urls: seq<string>, now: int64, exp: int64)
      requires Partial(Plain, instance, db0, db, draws, rand, codes, urls, now, exp)
      requires forall k :: 0 <= k < |codes| ==> codes[k] != ""
      ensures BulkMade(Plain, db0, db, codes, urls, now, exp)
    {
      hide RowPlace, Overlaid, FromSources, CodeOK, BulkMade;
      MadeByOverlay(Plain, db0, db, codes, urls, now, exp);
    }

    /** The batch of bulk creation; "" where the code drawn is in the database. */
    method Batch(urls: seq<string>, ttl: int64, now: int64, draws: seq<string>, rand: seq<seq<string>>)
      returns (codes: seq<string>, batch: map<Place, string>)
      requires |draws| == |rand| == |urls| && forall i :: 0 <= i < |draws| ==> Suffix(draws[i])
      ensures |codes| == |urls| && SharedByDraw(db, draws, codes)
      ensures Partial(Plain, instance, db, db + batch, draws, rand, codes, urls, now, Expiry(now, ttl))
    {
      hide RowPlace, Overlaid, Suffix, Generated, EncVal, CodeOK, Source, Partial;
      var exp := Expiry(now, ttl);
      codes, batch := seq(|urls|, _ => ""), map[];
      assert db + batch == db;
      StartBatch(draws, rand, codes, urls, now, exp);
      for i := 0 to |urls|
        invariant |codes| == |urls|
        invariant Partial(Plain, instance, db, db + batch, draws, rand, codes, urls, now, exp)
        invariant forall k :: i <= k < |codes| ==> codes[k] == ""
        invariant forall k :: 0 <= k < i ==>
                    codes[k] == if FreeDraw(db, draws, k) then Generated(instance, draws[k]) else ""
      {
        var c := Generated(instance, draws[i]);
        GeneratedOK(instance, draws[i]);
        if RowPlace(Plain, c) !in db {
          BatchSet(draws, rand, codes, urls, now, exp, i, db + batch);
          assert (db + batch)[RowPlace(Plain, c) := EncVal(Rec(exp, now, urls[i]))] ==
                 db + batch[RowPlace(Plain, c) := EncVal(Rec(exp, now, urls[i]))];
          codes := codes[i := c];
          batch := batch[RowPlace(Plain, c) := EncVal(Rec(exp, now, urls[i]))];
        }
      }
      NotEmpty();
    }

    lemma NotEmpty()
      ensures forall s :: Generated(instance, s) != ""
    {}

    lemma StartBatch(draws: seq<string>, rand: seq<seq<string>>, codes: seq<string>, urls: seq<string>, now: int64,
                     exp: int64)
      requires |codes| == |urls| == |draws| == |rand| && forall k :: 0 <= k < |codes| ==> codes[k] == ""
      ensures Partial(Plain, instance, db, db, draws, rand, codes, urls, now, exp)
    {
      hide Overlaid;
      OverlaidNone(Plain, db, codes, urls, now, exp);
    }

    lemma BatchSet(draws: seq<string>, rand: seq<seq<string>>, codes: seq<string>, urls: seq<string>, now: int64,
                   exp: int64,
                   i: nat, db': map<Place, string>)
      requires Partial(Plain, instance, db, db', draws, rand, codes, urls, now, exp) && i < |codes|
      requires forall k :: i <= k < |codes| ==> codes[k] == ""
      requires CodeOK(Generated(instance, draws[i])) && FreeDraw(db, draws, i)
      ensures var c := Generated(instance, draws[i]);
              Partial(Plain, instance, db, db'[RowPlace(Plain, c) := EncVal(Rec(exp, now, urls[i]))], draws, rand,
                      codes[i := c], urls, now, exp)
    {
      hide Overlaid, RowPlace, CodeOK, Drawn, EncVal;
      NotEmpty();
      OverlaidSet(Plain, db, db', codes, urls, now, exp, i, Generated(instance, draws[i]));
    }

    /** Some of what is cached may be behind the database until its turn comes. */
    ghost predicate Filling(codes: seq<string>, i: nat)
      reads this`db, this`clock, cache, cache.shards
      requires i <= |codes|
    {
      cache.Valid() &&
      forall c :: CodeOK(c) && cache.Lookup(c).Some? ==>
        Agrees(Plain, db, clock, cache.Lookup(c).value, c) || c in codes[i..]
    }

    twostate lemma StartFilling(new codes: seq<string>, new urls: seq<string>, new now: int64, new exp: int64)
      requires old(CacheOK()) && unchanged(cache) && unchanged(cache.shards) && clock == old(clock) && |codes| == |urls|
      requires Overlaid(Plain, old(db), db, codes, urls, now, exp)
      ensures Filling(codes, 0)
    {
      hide CodeOK, RowOf, RowPlace, Expired;
      assert codes[0..] == codes;
      forall c | CodeOK(c) && cache.Lookup(c).Some?
        ensures Agrees(Plain, db, clock, cache.Lookup(c).value, c) || c in codes
      {
        assert Agrees(Plain, old(db), clock, cache.Lookup(c).value, c);
        LastUrlIs(codes, urls, |codes|, c);
      }
    }

    /** The batch is written, and then every new link is cached. */
    method Commit(codes: seq<string>, urls: seq<string>, ttl: int64, now: int64, ghost draws: seq<string>,
                  ghost rand: seq<seq<string>>, batch: map<Place, string>)
      requires CacheOK() && clock == now
      requires Partial(Plain, instance, db, db + batch, draws, rand, codes, urls, now, Expiry(now, ttl))
      modifies this`db, cache.shards
      ensures CacheOK() && db == old(db) + batch
    {
      hide Overlaid, RowOf, CodeOK, RowPlace, FromSources, Agrees, Coherent;
      var exp := Expiry(now, ttl);
      db := db + batch;
      StartFilling(codes, urls, now, exp);
      for i := 0 to |codes|
        invariant Filling(codes, i) && db == old(db) + batch && clock == now
      {
        if codes[i] != "" {
          FillOne(codes, urls, now, exp, i, old(db));
        } else {
          SkipOne(codes, i);
        }
      }
      AllFilled(codes);
    }

    lemma SkipOne(codes: seq<string>, i: nat)
      requires i < |codes| && codes[i] == "" && Filling(codes, i)
      ensures Filling(codes, i + 1)
    {
      hide CodeOK, Agrees;
      CodeNotEmpty();
      assert codes[i..] == [codes[i]] + codes[i + 1..];
    }

    lemma AllFilled(codes: seq<string>)
      requires Filling(codes, |codes|)
      ensures CacheOK()
    {
      hide CodeOK, Agrees;
    }

    method FillOne(codes: seq<string>, urls: seq<string>, now: int64, exp: int64, i: nat, ghost db0: map<Place, string>)
      requires i < |codes| == |urls| && codes[i] != "" && Filling(codes, i) && clock == now
      requires Overlaid(Plain, db0, db, codes, urls, now, exp)
      modifies cache.shards
      ensures Filling(codes, i + 1)
    {
      hide CodeOK, RowOf, RowPlace, Agrees, Overlaid;
      cache.Put(codes[i], urls[i], exp, now);
      assert codes[i..] == [codes[i]] + codes[i + 1..];
      if CodeOK(codes[i]) && codes[i] !in codes[i + 1..] {
        LastAgrees(codes, urls, now, exp, i, db0);
      }
    }

    /** The last entry put for a code is the row the batch left. */
    lemma LastAgrees(codes: seq<string>, urls: seq<string>, now: int64, exp: int64, i: nat, db0: map<Place, string>)
      requires i < |codes| == |urls| && CodeOK(codes[i]) && codes[i] !in codes[i + 1..]
      requires Overlaid(Plain, db0, db, codes, urls, now, exp)
      ensures Agrees(Plain, db, clock, CacheEnt(urls[i], exp, now), codes[i])
    {
      hide CodeOK, RowOf, RowPlace, Expired;
      LastUrlIs(codes, urls, |codes|, codes[i]);
      assert forall j :: i < j < |codes| ==> codes[j] == codes[i + 1..][j - i - 1];
    }

    method Retry(codes: seq<string>, urls: seq<string>, ttl: int64, now: int64, draws: seq<string>,
                 rand: seq<seq<string>>,
                 i: nat, ghost db0: map<Place, string>)
      returns (code: string)
      requires Valid() && clock == now && i < |codes| == |draws| && codes[i] == ""
      requires Partial(Plain, instance, db0, db, draws, rand, codes, urls, now, Expiry(now, ttl))
      requires NewDraw(Plain, instance, db0, draws, rand, i) && forall m :: 0 <= m < |rand[i]| ==> Suffix(rand[i][m])
      modifies this`db, this`clock, cache.shards
      ensures Valid() && clock == now && code != "" && code !in codes
      ensures Partial(Plain, instance, db0, db, draws, rand, codes[i := code], urls, now, Expiry(now, ttl))
    {
      hide RowPlace, Overlaid, FromSources, Suffix, CacheOK, HitsAddUp, Generated, EncVal, CodeOK, Drawn, NewDraw;
      ghost var before := db;
      RetryIsFree(Plain, instance, db0, db, draws, rand, codes, urls, now, Expiry(now, ttl), i);
      code := Shorten(urls[i], "", false, ttl, now, rand[i]);
      CodeNotEmpty();
      PartialSet(Plain, instance, db0, before, draws, rand, codes, urls, now, Expiry(now, ttl), i, code);
    }

    // ---------- change ----------

    method Overwrite(code: string, r: Rec)
      requires CacheOK() && CodeOK(code)
      modifies this`db, cache.shards
      ensures CacheOK() && db == old(db)[RowPlace(Plain, code) := EncVal(r)]
    {
      hide CodeOK, RowPlace, HitPlace, EncVal, RowOf;
      RowWritten(Plain, db, code, r);
      db := db[RowPlace(Plain, code) := EncVal(r)];
      cache.Remove(code);
      StillCoherent(Plain, old(db), db, cache, clock, code);
    }

    /** `Update`: the creation time stays. */
    method Update(code: string, url: string, ttl: int64, hasTTL: bool, now: int64) returns (res: Mut)
      requires Valid() && clock <= now && CodeOK(code)
      modifies this`db, this`clock, cache.shards
      ensures Valid() && clock == now
      ensures RowOf(Plain, old(db), code) == None ==> res == MutMissing && db == old(db)
      ensures RowOf(Plain, old(db), code).Some? ==>
                var r := RowOf(Plain, old(db), code).value;
                var exp := if hasTTL then Expiry(now, ttl) else r.e;
                res == MutOK && db == old(db)[RowPlace(Plain, code) := EncVal(Rec(exp, r.c, url))]
      ensures res == MutOK <==> RowOf(Plain, old(db), code).Some?
      ensures res == MutOK && 0 <= now && now + ttl < TWO63 ==>
                RowOf(Plain, db, code) ==
                Some(Rec(if !hasTTL then RowOf(Plain, old(db), code).value.e else if ttl > 0 then now + ttl else 0,
                         RowOf(Plain, old(db), code).value.c, url))
      ensures forall c :: CodeOK(c) && (c != code || res != MutOK) ==> RowOf(Plain, db, c) == RowOf(Plain, old(db), c)
    {
      hide CodeOK, RowPlace, EncVal, DecVal, CacheOK, HitsAddUp;
      Tick(now);
      if RowPlace(Plain, code) !in db {
        return MutMissing;
      }
      var v := DecVal(db[RowPlace(Plain, code)]);
      if v.None? {
        return MutMissing;
      }
      var exp := v.value.e;
      if hasTTL {
        exp := if ttl > 0 then Wrap(now + ttl) else 0;
      }
      RowWritten(Plain, db, code, Rec(exp, v.value.c, url));
      Overwrite(code, Rec(exp, v.value.c, url));
      res := MutOK;
    }

    lemma RowDropped(db: map<Place, string>, code: string, c: string)
      requires CodeOK(code) && CodeOK(c) && c != code
      ensures RowOf(Plain, db - {RowPlace(Plain, code)}, c) == RowOf(Plain, db, c)
    {
      hide CodeOK, RowPlace, DecVal;
      PlacesApart(Plain, c, code);
    }

    /** `Remove`: the row and its counter go; hits still pending are what is left. */
    method Remove(code: string, now: int64) returns (res: Mut)
      requires Valid() && clock <= now && CodeOK(code)
      modifies this`db, this`hits, this`clock, this`counted, cache.shards
      ensures Valid() && clock == now
      ensures if RowPlace(Plain, code) !in old(db)
              then res == MutMissing && db == old(db) && hits == old(hits) && counted == old(counted)
              else res == MutOK && db == old(db) - {RowPlace(Plain, code)} && hits == old(hits) - {code} &&
                   counted == old(counted)[code := DirtyOf(code)]
      ensures RowOf(Plain, db, code) == None
      ensures forall c :: CodeOK(c) && c != code ==> RowOf(Plain, db, c) == RowOf(Plain, old(db), c)
    {
      hide CodeOK, RowPlace, CacheOK, Wrap, Coherent;
      Tick(now);
      if RowPlace(Plain, code) !in db {
        return MutMissing;
      }
      Drop(code);
      hits := hits - {code};
      counted := counted[code := DirtyOf(code)];
      forall c ensures HitsAddUp(c) {
        assert old(HitsAddUp(c));
      }
      res := MutOK;
    }

    method Drop(code: string)
      requires CacheOK() && CodeOK(code)
      modifies this`db, cache.shards
      ensures CacheOK() && db == old(db) - {RowPlace(Plain, code)}
      ensures forall c :: CodeOK(c) && c != code ==> RowOf(Plain, db, c) == RowOf(Plain, old(db), c)
    {
      hide CodeOK, RowPlace, RowOf;
      forall c | CodeOK(c) && c != code ensures RowOf(Plain, db - {RowPlace(Plain, code)}, c) == RowOf(Plain, db, c) {
        RowDropped(db, code, c);
      }
      db := db - {RowPlace(Plain, code)};
      cache.Remove(code);
      StillCoherent(Plain, old(db), db, cache, clock, code);
    }

    // ---------- hits ----------

    /** `flushHits`: every pending delta becomes a merge; no count changes. */
    method FlushHits()
      requires Counting()
      modifies this`hits, this`dirty
      ensures Counting() && dirty == map[]
    {
      hide HitsAddUp;
      while dirty != map[]
        invariant Counting()
        decreases dirty.Keys
      {
        assert dirty.Keys != {};
        var c :| c in dirty;
        FlushOne(c);
      }
    }

    method FlushOne(c: string)
      requires Counting() && c in dirty
      modifies this`hits, this`dirty
      ensures Counting() && dirty == old(dirty) - {c}
    {
      hide Wrap, Unsigned;
      MergeAdds(StoredOf(c), dirty[c]);
      assert HitsAddUp(c);
      hits := Merged(hits, c, dirty[c]);
      dirty := dirty - {c};
      forall d ensures HitsAddUp(d) {
        assert old(HitsAddUp(d));
      }
    }

    /** `linkHits`: nothing is reported until a counter has been stored. */
    function LinkHits(code: string): int64
      reads this`hits, this`dirty
    {
      if code in hits then Wrap(Wrap(hits[code]) + DirtyOf(code)) else 0
    }

    /** The hits reported are those counted, if and only if a counter is stored or there are
        none. */
    lemma HitsReported(code: string)
      requires Counting() && 0 <= CountOf(code) < TWO63
      ensures LinkHits(code) == CountOf(code) <==> code in hits || CountOf(code) == 0
    {
      assert HitsAddUp(code);
      WrapAdd(StoredOf(code), DirtyOf(code));
    }

    /** `Stats`: the row of a link that has not expired, and its hits. */
    method Stats(code: string, now: int64) returns (r: Option<(Rec, int64)>)
      requires Valid() && CodeOK(code)
      ensures match RowOf(Plain, db, code)
              case None => r == None
              case Some(rec) => r == if rec.e != 0 && rec.e <= now then None else Some((rec, LinkHits(code)))
    {
      hide CodeOK, RowPlace, DecVal;
      if RowPlace(Plain, code) !in db {
        return None;
      }
      var v := DecVal(db[RowPlace(Plain, code)]);
      if v.None? || (v.value.e != 0 && v.value.e <= now) {
        return None;
      }
      r := Some((v.value, LinkHits(code)));
    }

    // ---------- expiry ----------

    /** `sweepExpired`: the rows of expired links go, and no others; nobody can tell. */
    method SweepExpired(now: int64)
      requires Valid() && clock <= now
      modifies this`db, this`clock
      ensures Valid() && clock == now
      ensures forall c :: CodeOK(c) ==>
                RowOf(Plain, db, c) == match RowOf(Plain, old(db), c)
                                      case Some(r) => (if r.e != 0 && r.e <= now then None else Some(r))
                                      case None => None
      ensures forall p :: p in db <==> p in old(db) && !DeadKey(Plain, old(db), p, now)
      ensures forall p :: p in db ==> db[p] == old(db)[p]
      ensures forall c :: CodeOK(c) ==> PlainResolve(Plain, db, c, now) == PlainResolve(Plain, old(db), c, now)
    {
      hide CodeOK, Coherent, HitsAddUp, DeadRow, PlainResolve, DeadKey, RowOf;
      Tick(now);
      var keys := db.Keys;
      var dead: set<Place> := {};
      while keys != {}
        invariant keys <= db.Keys
        invariant forall p :: p in dead <==> p in db.Keys - keys && DeadKey(Plain, db, p, now)
        decreases keys
      {
        var p :| p in keys;
        if DeadKey(Plain, db, p, now) {
          dead := dead + {p};
        }
        keys := keys - {p};
      }
      forall p | p in dead ensures DeadRow(Plain, db, p, now) {
        KeyIsRow(Plain, db, p, now);
      }
      DeadKeepCoherent(Plain, db, dead, cache, now);
      db := db - dead;
      forall c | CodeOK(c) ensures PlainResolve(Plain, db, c, now) == PlainResolve(Plain, old(db), c, now) {
        DeadUnseen(Plain, old(db), dead, c, now);
      }
      forall c | CodeOK(c)
        ensures RowOf(Plain, db, c) == match RowOf(Plain, old(db), c)
                                      case Some(r) => (if r.e != 0 && r.e <= now then None else Some(r))
                                      case None => None
      {
        Swept(Plain, old(db), dead, c, now);
      }
    }
  }
}
