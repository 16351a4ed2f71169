/** The store over a key-value server over any calls: how long a link answers, and how many of its
    visits are counted. */
module KvLifetime {
  import opened Ints
  import opened LogLine
  import opened Options
  import opened Instance
  import opened Codes
  import opened RowValue
  import opened KvRows
  import opened BulkRows
  import opened KvRequests
  import opened KvStore

  method Create(s: KvStore, r: Request, ghost code: string, ghost x: Link)
    requires s.Valid() && s.clock <= r.now && Askable(r) && r.Create? && CodeOK(code)
    modifies s`kv, s`clock
    ensures s.Valid() && old(s.clock) <= s.clock <= r.now
    ensures Holds(old(RowOf(s.layout, s.kv, code)), x, old(s.clock)) && !Disturbs(s.instance, r, code, x) ==>
              Holds(RowOf(s.layout, s.kv, code), x, s.clock)
  {
    hide s.CacheOK, s.Counting, RowPlace, CodeOK, DecVal, EncVal, Suffix, Drawn, Generated;
    if r.hasAlias || exists i | 0 <= i < |r.rand| :: RowPlace(s.layout, Generated(s.instance, r.rand[i])) !in s.kv {
      CodeNotEmpty();
      ghost var row, clock := RowOf(s.layout, s.kv, code), s.clock;
      var made := s.Shorten(r.url, r.alias, r.hasAlias, r.ttl, r.now, r.rand);
      if made == code && Holds(row, x, clock) && !Disturbs(s.instance, r, code, x) {
        NotMade(s.instance, r, code, x, row, clock, r.now);
      }
    }
  }

  method Many(s: KvStore, r: Request, ghost code: string, ghost x: Link)
    requires s.Valid() && s.clock <= r.now && Askable(r) && r.Many? && CodeOK(code)
    modifies s`kv, s`clock
    ensures s.Valid() && old(s.clock) <= s.clock <= r.now
    ensures Holds(old(RowOf(s.layout, s.kv, code)), x, old(s.clock)) && !Disturbs(s.instance, r, code, x) ==>
              Holds(RowOf(s.layout, s.kv, code), x, s.clock)
  {
    hide s.CacheOK, s.Counting, RowPlace, CodeOK, DecVal, Suffix, NewDraw, MadeBy, BulkMade, Partial, ByDraw, Distinct;
    if forall i | 0 <= i < |r.rands| :: NewDraw(s.layout, s.instance, s.kv, r.draws, r.rands, i) {
      ghost var row, clock := RowOf(s.layout, s.kv, code), s.clock;
      var codes; ghost var mid, orphans;
      codes, mid, orphans := s.ShortenMany(r.urls, r.ttl, r.now, r.draws, r.rands, r.failed, r.served);
      if Makes(s.instance, r, code) && Holds(row, x, clock) && !Disturbs(s.instance, r, code, x) {
        NotMade(s.instance, r, code, x, row, clock, r.now);
      }
    }
  }

  method Change(s: KvStore, r: Request, ghost code: string, ghost x: Link)
    requires s.Valid() && s.clock <= r.now && Askable(r) && (r.Edit? || r.Delete?) && CodeOK(code)
    modifies s`kv, s`clock, s`counted, s.cache.shards
    ensures s.Valid() && old(s.clock) <= s.clock <= r.now
    ensures Holds(old(RowOf(s.layout, s.kv, code)), x, old(s.clock)) && !Disturbs(s.instance, r, code, x) ==>
              Holds(RowOf(s.layout, s.kv, code), x, s.clock)
    ensures !(r.Delete? && r.code == code) ==> s.CountOf(code) == old(s.CountOf(code))
  {
    hide s.CacheOK, s.Counting, RowPlace, HitPlace, CodeOK, DecVal, EncVal, CounterOf, RowOf;
    if r.Edit? {
      var m := s.Update(r.code, r.url, r.ttl, r.hasTTL, r.now);
    } else {
      var m := s.Remove(r.code, r.now);
    }
  }

  method Upkeep(s: KvStore, r: Request, ghost code: string, ghost x: Link)
    requires s.Valid() && s.clock <= r.now && (r.Flush? || r.Sweep? || r.Expire?) && CodeOK(code)
    modifies s`kv, s`clock, s`dirty
    ensures s.Valid() && old(s.clock) <= s.clock <= r.now
    ensures Holds(old(RowOf(s.layout, s.kv, code)), x, old(s.clock)) ==> Holds(RowOf(s.layout, s.kv, code), x, s.clock)
  {
    hide s.CacheOK, s.Counting, RowPlace, HitPlace, CodeOK, DecVal, EncVal, CounterOf, RowOf, DeadKey, DeadRow;
    if r.Flush? {
      s.FlushHits();
    } else if r.Sweep? && s.layout.Hash? {
      s.SweepExpired(r.now);
    } else if r.Expire? && s.layout.Plain? {
      var gone := set p | p in r.gone && DeadKey(s.layout, s.kv, p, r.now);
      forall p | p in gone ensures DeadRow(s.layout, s.kv, p, r.now) {
        KeyIsRow(s.layout, s.kv, p, r.now);
      }
      s.ServerExpiry(gone, r.now);
    }
  }

  /** Any request: what it does not disturb still holds, and one answered visit is one hit. */
  method Serve(s: KvStore, r: Request, ghost code: string, ghost x: Link) returns (answer: Option<string>)
    requires s.Valid() && s.clock <= r.now && Askable(r) && CodeOK(code)
    modifies s, s.cache.shards
    ensures s.Valid() && old(s.clock) <= s.clock <= r.now
    ensures Holds(old(RowOf(s.layout, s.kv, code)), x, old(s.clock)) && !Disturbs(s.instance, r, code, x) ==>
              Holds(RowOf(s.layout, s.kv, code), x, s.clock)
    ensures !(r.Delete? && r.code == code) ==>
              s.CountOf(code) == old(s.CountOf(code)) + (if r.Visit? && r.code == code && answer.Some? then 1 else 0)
  {
    hide s.CacheOK, s.Counting, RowPlace, HitPlace, CodeOK, DecVal, EncVal, CounterOf, RowOf, Makes;
    answer := None;
    match r
    case Create(_, _, _, _, _, _) => Create(s, r, code, x);
    case Many(_, _, _, _, _, _, _) => Many(s, r, code, x);
    case Edit(_, _, _, _, _) => Change(s, r, code, x);
    case Delete(_, _) => Change(s, r, code, x);
    case Visit(now, c) =>
      var read;
      answer, read := s.Resolve(c, now);
    case _ => Upkeep(s, r, code, x);
  }

  /** Any number of requests. */
  method ServeAll(s: KvStore, requests: seq<Request>, end: int64, ghost code: string, ghost x: Link)
    returns (answers: seq<Option<string>>)
    requires s.Valid() && InTime(requests, s.clock, end) && CodeOK(code)
    modifies s, s.cache.shards
    ensures s.Valid() && s.clock <= end && |answers| == |requests|
    ensures Holds(old(RowOf(s.layout, s.kv, code)), x, old(s.clock)) &&
            (forall i :: 0 <= i < |requests| ==> !Disturbs(s.instance, requests[i], code, x)) ==>
              Holds(RowOf(s.layout, s.kv, code), x, s.clock)
    ensures (forall i :: 0 <= i < |requests| ==> !(requests[i].Delete? && requests[i].code == code)) ==>
              s.CountOf(code) == old(s.CountOf(code)) + Visits(requests, answers, code)
  {
    hide s.Valid, RowPlace, CodeOK, DecVal, CounterOf, RowOf, Disturbs, Visits, Holds, Askable, s.CountOf;
    answers := [];
    ghost var undisturbed := forall i :: 0 <= i < |requests| ==> !Disturbs(s.instance, requests[i], code, x);
    NoVisits(code);
    for i := 0 to |requests|
      invariant s.Valid() && |answers| == i && s.clock <= end
      invariant forall j :: i <= j < |requests| ==> s.clock <= requests[j].now
      invariant Holds(old(RowOf(s.layout, s.kv, code)), x, old(s.clock)) && undisturbed ==>
                  Holds(RowOf(s.layout, s.kv, code), x, s.clock)
      invariant (forall k :: 0 <= k < i ==> !(requests[k].Delete? && requests[k].code == code)) ==>
                  s.CountOf(code) == old(s.CountOf(code)) + Visits(requests[..i], answers, code)
    {
      var answer := Serve(s, requests[i], code, x);
      VisitsSnoc(requests[..i], answers, requests[i], answer, code);
      assert requests[..i + 1] == requests[..i] + [requests[i]];
      answers := answers + [answer];
    }
    assert requests[..|requests|] == requests;
  }

  /** A link that nobody disturbs is answered by what was known of it. */
  method AskLater(s: KvStore, requests: seq<Request>, t: int64, code: string, ghost x: Link)
    returns (answer: Option<string>)
    requires s.Valid() && InTime(requests, s.clock, t) && CodeOK(code)
    requires Holds(RowOf(s.layout, s.kv, code), x, s.clock)
    modifies s, s.cache.shards
    ensures s.Valid()
    ensures (forall i :: 0 <= i < |requests| ==> !Disturbs(s.instance, requests[i], code, x)) ==>
              answer == match x
                        case Gone => None
                        case Left(u, e) => if e == 0 || t < e then Some(u) else None
  {
    hide s.CacheOK, s.Counting, RowPlace, CodeOK, DecVal, RowOf, Disturbs, CounterOf, InTime;
    var answers := ServeAll(s, requests, t, code, x);
    var read;
    answer, read := s.Resolve(code, t);
  }

  /** A link answers with its URL until its time is up, and with nothing from then on, whatever else
      is asked, unless it is updated or removed, or made again after its time. */
  method LinkLives(s: KvStore, url: string, alias: string, hasAlias: bool, ttl: int64, now: int64,
                     rand: seq<string>, requests: seq<Request>, t: int64)
    returns (code: string, answer: Option<string>)
    requires s.Valid() && s.clock <= now && 0 <= now && now + ttl < TWO63 && (hasAlias ==> CodeOK(alias))
    requires forall i :: 0 <= i < |rand| ==> Suffix(rand[i])
    requires !hasAlias ==>
               exists i :: 0 <= i < |rand| && RowPlace(s.layout, Generated(s.instance, rand[i])) !in s.kv
    requires InTime(requests, now, t)
    modifies s, s.cache.shards
    ensures code == "" <==> hasAlias && RowPlace(s.layout, alias) in old(s.kv)
    ensures code != "" &&
            (forall i :: 0 <= i < |requests| ==>
               !Disturbs(s.instance, requests[i], code, Left(url, if ttl > 0 then now + ttl else 0))) ==>
              answer == if ttl <= 0 || t < now + ttl then Some(url) else None
  {
    hide s.CacheOK, s.Counting, RowPlace, CodeOK, EncVal, DecVal, RowOf, Disturbs, CounterOf, InTime, Suffix, Generated,
         Drawn;
    answer := None;
    CodeNotEmpty();
    code := s.Shorten(url, alias, hasAlias, ttl, now, rand);
    if code != "" {
      answer := AskLater(s, requests, t, code, Left(url, if ttl > 0 then now + ttl else 0));
    }
  }

  /** So does every link made in bulk, whatever becomes of the pipe. */
  method BulkLives(s: KvStore, r: Request, k: nat, requests: seq<Request>, t: int64)
    returns (code: string, answer: Option<string>)
    requires s.Valid() && s.clock <= r.now && r.Many? && Askable(r) && k < |r.urls|
    requires 0 <= r.now && r.now + r.ttl < TWO63
    requires forall i :: 0 <= i < |r.rands| ==> NewDraw(s.layout, s.instance, s.kv, r.draws, r.rands, i)
    requires InTime(requests, r.now, t)
    modifies s, s.cache.shards
    ensures CodeOK(code) && RowPlace(s.layout, code) !in old(s.kv)
    ensures (forall i :: 0 <= i < |requests| ==>
               !Disturbs(s.instance, requests[i], code, Left(r.urls[k], if r.ttl > 0 then r.now + r.ttl else 0))) ==>
              answer == if r.ttl <= 0 || t < r.now + r.ttl then Some(r.urls[k]) else None
  {
    hide s.CacheOK, s.Counting, RowPlace, CodeOK, DecVal, RowOf, Disturbs, CounterOf, InTime, Suffix, NewDraw, MadeBy,
         BulkMade, Partial, ByDraw, Distinct;
    var codes; ghost var mid, orphans;
    codes, mid, orphans := s.ShortenMany(r.urls, r.ttl, r.now, r.draws, r.rands, r.failed, r.served);
    code := codes[k];
    answer := AskLater(s, requests, t, code, Left(r.urls[k], if r.ttl > 0 then r.now + r.ttl else 0));
  }

  /** An accepted update holds: the new URL, until the new time is up if one was given and the old
      one otherwise. */
  method UpdateHolds(s: KvStore, code: string, url: string, ttl: int64, hasTTL: bool, now: int64,
                       requests: seq<Request>, t: int64)
    returns (m: Mut, answer: Option<string>)
    requires s.Valid() && s.clock <= now && CodeOK(code) && 0 <= now && now + ttl < TWO63 && InTime(requests, now, t)
    modifies s, s.cache.shards
    ensures m == MutOK <==> old(RowOf(s.layout, s.kv, code)).Some?
    ensures m == MutOK ==>
              var e := if !hasTTL then old(RowOf(s.layout, s.kv, code)).value.e else if ttl > 0 then now + ttl else 0;
              (forall i :: 0 <= i < |requests| ==> !Disturbs(s.instance, requests[i], code, Left(url, e))) ==>
                answer == if e == 0 || t < e then Some(url) else None
  {
    hide s.CacheOK, s.Counting, RowPlace, CodeOK, EncVal, DecVal, RowOf, Disturbs, CounterOf, InTime;
    answer := None;
    ghost var row := RowOf(s.layout, s.kv, code);
    m := s.Update(code, url, ttl, hasTTL, now);
    if m == MutOK {
      answer := AskLater(s, requests, t, code,
                           Left(url, if !hasTTL then row.value.e else if ttl > 0 then now + ttl else 0));
    }
  }

  /** A removed link answers with nothing, until one is made under its code. */
  method RemoveHolds(s: KvStore, code: string, now: int64, requests: seq<Request>, t: int64)
    returns (m: Mut, answer: Option<string>)
    requires s.Valid() && s.clock <= now && CodeOK(code) && InTime(requests, now, t)
    modifies s, s.cache.shards
    ensures m == MutOK <==> RowPlace(s.layout, code) in old(s.kv)
    ensures (forall i :: 0 <= i < |requests| ==> !Makes(s.instance, requests[i], code)) ==> answer == None
  {
    hide s.CacheOK, s.Counting, RowPlace, HitPlace, CodeOK, DecVal, RowOf, Makes, CounterOf, InTime;
    m := s.Remove(code, now);
    answer := AskLater(s, requests, t, code, Gone);
  }

  /** The hits reported grow by the answered visits, as long as 64 bits hold the count and the link
      is not removed. */
  method HitsGrow(s: KvStore, requests: seq<Request>, end: int64, code: string)
    returns (answers: seq<Option<string>>, before: Option<(Rec, int64)>, after: Option<(Rec, int64)>)
    requires s.Valid() && InTime(requests, s.clock, end) && CodeOK(code)
    requires forall i :: 0 <= i < |requests| ==> !(requests[i].Delete? && requests[i].code == code)
    modifies s, s.cache.shards
    ensures |answers| == |requests|
    ensures before.Some? && after.Some? && old(s.CountOf(code)) + Visits(requests, answers, code) < TWO63 ==>
              after.value.1 == before.value.1 + Visits(requests, answers, code)
  {
    hide s.CacheOK, s.Counting, CodeOK, RowOf, Disturbs, Visits, InTime, s.CountOf;
    before := s.Stats(code);
    answers := ServeAll(s, requests, end, code, Gone);
    after := s.Stats(code);
  }
}
