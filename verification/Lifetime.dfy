/** A store without siblings over its lifetime: opened, asked anything any number of times, shut
    down or killed after its last write, and opened again. */
module Lifetime {
  import opened Ints
  import opened LogLine
  import opened Options
  import opened OpLog
  import opened Table
  import opened Instance
  import opened Codes
  import opened Polls
  import opened Recovery
  import opened OwnHits
  import opened Store
  import opened Reboot

  datatype Request =
    | Create(url: string, alias: string, hasAlias: bool, ttl: int64, now: int64, rand: seq<string>)
    | Many(urls: seq<string>, ttl: int64, now: int64, rands: seq<seq<string>>)
    | Edit(code: string, url: string, now: int64, ttl: int64, hasTTL: bool)
    | Delete(code: string)
    | Visit(code: string, now: int64)
    | Flush
    | Compact

  /** What the HTTP layer lets through, and what the random source yields. */
  ghost predicate Askable(r: Request) {
    match r
    case Create(_, alias, hasAlias, _, _, rand) =>
      (hasAlias ==> CodeOK(alias)) && forall i :: 0 <= i < |rand| ==> Suffix(rand[i])
    case Many(urls, _, _, rands) =>
      |rands| == |urls| && forall i, m :: 0 <= i < |rands| && 0 <= m < |rands[i]| ==> Suffix(rands[i][m])
    case _ => true
  }

  /** A store whose table is what its log says. */
  ghost predicate Sound(s: Store)
    reads s, s.log, s.tails.Values
  {
    s.Valid() && Durable(s.View()) && s.Directory(map[], map[])
  }

  lemma BigDurable(n: Node)
    requires Durable(n)
    ensures Durable(FlushedIfBig(n))
  {
    WriteKeeps(n);
  }

  lemma SomeCaught(dir: map<nat, string>, seen: map<nat, string>, later: map<nat, string>, order: seq<nat>)
    requires Caught(dir, seen, later, order)
    ensures order == [] || dir != map[]
  {
    if order != [] {
      assert order[0] in dir;
    }
  }

  /** With no siblings there is no news. */
  lemma NoNews(me: nat, s: Index, seen: map<nat, string>, later: map<nat, string>, order: seq<nat>,
               victims: seq<string>)
    requires Caught(map[], seen, later, order) && |victims| == |Gather(order, AllNews(seen, map[], map[]))|
    ensures Gather(order, AllNews(seen, map[], map[])) == []
    ensures Replay(me, s, Gather(order, AllNews(seen, map[], map[])), victims) == s
  {
    SomeCaught(map[], seen, later, order);
  }

  /** The request may change or remove the link. */
  predicate Touches(r: Request, code: string) {
    (r.Edit? || r.Delete?) && r.code == code
  }

  /** The request may make the link. */
  predicate Makes(me: Id, r: Request, code: string) {
    match r
    case Create(_, alias, hasAlias, _, _, rand) => if hasAlias then alias == code else Drawn(me, rand, code)
    case Many(_, _, _, rands) => exists i :: 0 <= i < |rands| && Drawn(me, rands[i], code)
    case _ => false
  }

  /** What a request leaves of rows, `rows` being those before. */
  twostate predicate Spared(s: Store, new r: Request)
    reads s
  {
    (forall c :: c in old(s.data) && !Touches(r, c) ==> RowIn(s.Idx(), c) == old(RowIn(s.Idx(), c))) &&
    forall c :: c in s.data ==> c in old(s.data) || Makes(s.instance, r, c)
  }

  method ServeCreate(s: Store, r: Request)
    requires Sound(s) && Askable(r) && r.Create?
    modifies s, s.log
    ensures Sound(s) && s.tails == old(s.tails) && Spared(s, r)
  {
    hide Durable, CodeOK, FlushedIfBig, Suffix, Generated, PrintOps, AllLoggable, Store.Tails;
    if r.hasAlias || exists i | 0 <= i < |r.rand| :: Generated(s.instance, r.rand[i]) !in s.data {
      ghost var n := s.View();
      var code := s.Shorten(r.url, r.alias, r.hasAlias, r.ttl, r.now, r.rand);
      if s.View() != n {
        StepKeeps(n, Recovery.Shorten(code, r.url, r.now, Expiry(r.now, r.ttl)));
        BigDurable(Shortened(n, code, r.url, r.now, Expiry(r.now, r.ttl)));
      }
    }
  }

  /** Creation in bulk is creation one by one. */
  lemma {:induction false} BulkKeeps(n: Node, codes: seq<string>, urls: seq<string>, now: int64, exp: int64)
    requires Durable(n) && |codes| <= |urls| && Distinct(codes)
    requires forall i :: 0 <= i < |codes| ==> CodeOK(codes[i]) && codes[i] !in n.idx.data
    ensures Durable(ShortenedAll(n, codes, urls, now, exp))
    decreases |codes|
  {
    hide Durable, CodeOK, Shortened;
    if codes != [] {
      var k := |codes| - 1;
      BulkKeeps(n, codes[..k], urls, now, exp);
      BulkCreation(n, codes[..k], urls, now, exp);
      var was := ShortenedAll(n, codes[..k], urls, now, exp);
      assert codes[k] !in codes[..k];
      StepKeeps(was, Recovery.Shorten(codes[k], urls[k], now, exp));
    }
  }

  method MakeMany(s: Store, r: Request) returns (codes: seq<string>)
    requires Sound(s) && Askable(r) && r.Many?
    requires forall i :: 0 <= i < |r.rands| ==> s.FreshDraw(r.rands, i, s.data)
    modifies s, s.log
    ensures Sound(s) && s.tails == old(s.tails) && Spared(s, r) && |codes| == |r.urls|
    ensures forall i :: 0 <= i < |codes| ==> codes[i] !in old(s.data) && codes[i] in s.data
    ensures forall i :: 0 <= i < |codes| ==> s.data[codes[i]].u == r.urls[i]
    ensures 0 <= r.now && r.now + r.ttl < TWO63 ==>
              forall i :: 0 <= i < |codes| ==> s.data[codes[i]].e == if r.ttl > 0 then r.now + r.ttl else 0
  {
    hide Durable, CodeOK, FlushedIfBig, Suffix, Generated, Drawn, PrintOps, AllLoggable, Store.Tails, ShortenedAll,
         Store.FreshDraw;
    ghost var n := s.View();
    codes := s.ShortenMany(r.urls, r.ttl, r.now, r.rands);
    BulkKeeps(n, codes, r.urls, r.now, Expiry(r.now, r.ttl));
    BigDurable(ShortenedAll(n, codes, r.urls, r.now, Expiry(r.now, r.ttl)));
  }

  method ServeChange(s: Store, r: Request)
    requires Sound(s) && (r.Edit? || r.Delete?)
    modifies s, s.log
    ensures Sound(s) && s.tails == old(s.tails) && Spared(s, r)
  {
    hide Durable, Updated, Removed, PrintOps, AllLoggable, CodeOK, Store.Tails;
    ghost var n := s.View();
    if r.Edit? {
      StepKeeps(n, Update(r.code, r.url, r.now, r.ttl, r.hasTTL));
      var m := s.Update(r.code, r.url, r.now, r.ttl, r.hasTTL);
    } else {
      StepKeeps(n, Remove(r.code));
      var m := s.Remove(r.code);
    }
  }

  /** A resolve in a store without siblings. */
  method Look(s: Store, code: string, now: int64) returns (url: Option<string>)
    requires s.Valid() && s.Directory(map[], map[])
    modifies s, s.tails.Values
    ensures s.Valid() && s.Directory(map[], map[]) && fresh(s.tails.Values - old(s.tails.Values))
    ensures old(Durable(s.View())) ==> Durable(s.View())
    ensures s.log.file == old(s.log.file) && s.log.buf == old(s.log.buf)
    ensures s.data.Keys == old(s.data).Keys && forall c :: RowIn(s.Idx(), c) == old(RowIn(s.Idx(), c))
    ensures url.Some? <==> code in old(s.data) && (old(s.data)[code].e == 0 || now < old(s.data)[code].e)
    ensures url.Some? ==> url.value == old(s.data)[code].u
  {
    hide Durable, Resolved, Replay, Gather, AllNews, PrintOps, AllLoggable, CodeOK, Store.Tails, Caught;
    ghost var n, seen := s.View(), s.seen;
    if Durable(n) {
      StepKeeps(n, Resolve(code, now));
    }
    ghost var order, victims;
    url, order, victims := s.Resolve(code, now, map[], map[]);
    NoNews(s.instance, n.idx, seen, s.seen, order, victims);
    ResolvedMeans(n, code, now);
  }

  method ServeVisit(s: Store, r: Request)
    requires Sound(s) && r.Visit?
    modifies s, s.tails.Values
    ensures Sound(s) && fresh(s.tails.Values - old(s.tails.Values)) && Spared(s, r)
  {
    hide Durable, PrintOps, AllLoggable, CodeOK, Store.Tails;
    var url := Look(s, r.code, r.now);
  }

  method ServeUpkeep(s: Store, r: Request)
    requires Sound(s) && (r.Flush? || r.Compact?)
    modifies s, s.log
    ensures Sound(s) && s.tails == old(s.tails) && Spared(s, r)
  {
    hide Durable, Flushed, Compacted, PrintOps, AllLoggable, CodeOK, Store.Tails, HitOps;
    ghost var n := s.View();
    if r.Flush? {
      ghost var order := s.Flush();
      FlushDurable(n, order);
    } else {
      ghost var order, rows, stages := s.Compact();
      StepKeeps(n, Recovery.Compact(order, rows));
    }
  }

  /** Any request keeps the table what the log says, and spares the links it is not about. */
  method Serve(s: Store, r: Request)
    requires Sound(s) && Askable(r)
    modifies s, s.log, s.tails.Values
    ensures Sound(s) && fresh(s.tails.Values - old(s.tails.Values)) && Spared(s, r)
  {
    hide Sound, Askable, Makes, Touches;
    if r.Create? {
      ServeCreate(s, r);
    } else if r.Many? {
      if forall i | 0 <= i < |r.rands| :: s.FreshDraw(r.rands, i, s.data) {
        var codes := MakeMany(s, r);
      }
    } else if r.Edit? || r.Delete? {
      ServeChange(s, r);
    } else if r.Visit? {
      ServeVisit(s, r);
    } else {
      ServeUpkeep(s, r);
    }
  }

  /** Any number of requests. */
  method ServeAll(s: Store, requests: seq<Request>)
    requires Sound(s) && forall i :: 0 <= i < |requests| ==> Askable(requests[i])
    modifies s, s.log, s.tails.Values
    ensures Sound(s) && fresh(s.tails.Values - old(s.tails.Values))
    ensures forall c :: c in old(s.data) && (forall i :: 0 <= i < |requests| ==> !Touches(requests[i], c)) ==>
              RowIn(s.Idx(), c) == old(RowIn(s.Idx(), c))
    ensures forall c ::
              c !in old(s.data) && (forall i :: 0 <= i < |requests| ==> !Makes(s.instance, requests[i], c)) ==>
                c !in s.data
  {
    hide Sound, Askable, Makes, Touches;
    for i := 0 to |requests|
      invariant Sound(s) && fresh(s.tails.Values - old(s.tails.Values))
      invariant forall c :: c in old(s.data) && (forall k :: 0 <= k < i ==> !Touches(requests[k], c)) ==>
                  RowIn(s.Idx(), c) == old(RowIn(s.Idx(), c))
      invariant forall c :: c !in old(s.data) && (forall k :: 0 <= k < i ==> !Makes(s.instance, requests[k], c)) ==>
                  c !in s.data
    {
      Serve(s, requests[i]);
    }
  }

  lemma NothingReplayed(me: Id, s: Index, ops: seq<LogOp>, victims: seq<string>)
    requires ops == [] && |victims| == |ops| && s == Replay(me, EMPTY, ops, victims)
    ensures s == EMPTY && Durable(Fresh(me))
  {}

  /** A new store. */
  method Begin(me: Id) returns (s: Store)
    ensures fresh(s) && fresh(s.log) && fresh(s.tails.Values) && Sound(s)
  {
    ghost var none: seq<LogOp> := [];
    assert PrintOps(none) == "" && AllLoggable(none) && none + none == none;
    s := new Store.Open(me, "", "", none, none, "");
    ghost var victims: seq<string> :| |victims| == |none + none| && s.Idx() == Replay(me, EMPTY, none + none, victims);
    NothingReplayed(me, s.Idx(), none, victims);
  }

  lemma NoTails(t: Store)
    requires t.Valid() && t.tails == map[]
    ensures t.Directory(map[], map[])
  {
    hide PrintOps, CodeOK, AllLoggable;
    assert t.seen.Keys == {};
  }

  lemma OnDisk(s: Store)
    requires s.Valid()
    ensures AllLoggable(s.snapOps) && AllLoggable(s.fileOps + s.bufOps) && s.snap == PrintOps(s.snapOps)
    ensures s.log.file + s.log.buf == PrintOps(s.fileOps + s.bufOps) + ""
    ensures AllLoggable(s.snapOps + (s.fileOps + s.bufOps))
  {
    hide Store.Tails, CodeOK, PrintOps;
    SoundLogs(s);
    LinesAppend(s.fileOps, s.bufOps);
  }

  /** The process ends with all it queued written, and a new one opens what is on disk. */
  method Reopen(s: Store) returns (t: Store)
    requires Sound(s)
    ensures fresh(t) && fresh(t.log) && fresh(t.tails.Values) && t.instance == s.instance
    ensures t.Valid() && t.Directory(map[], map[]) && forall c :: RowIn(t.Idx(), c) == RowIn(s.Idx(), c)
  {
    hide Durable, Replay, RowAt, CodeOK, Store.Tails, PrintOps, AllLoggable;
    ghost var ops := s.fileOps + s.bufOps;
    OnDisk(s);
    WholeView(s, ops);
    t := new Store.Open(s.instance, s.snap, s.log.file + s.log.buf, s.snapOps, ops, "");
    NoTails(t);
    RowsOfOpen(t, s.snapOps + ops);
  }

  /** Recovery refinement, in bytes: after any requests the lines written and still queued, once
      they are in the file, are enough for a new process to find every row there was. */
  method ServeAndRestart(me: Id, requests: seq<Request>) returns (s: Store, t: Store)
    requires forall i :: 0 <= i < |requests| ==> Askable(requests[i])
    ensures forall c :: RowIn(t.Idx(), c) == RowIn(s.Idx(), c)
  {
    hide Askable;
    s := Begin(me);
    for i := 0 to |requests|
      invariant Sound(s) && fresh(s) && fresh(s.log) && fresh(s.tails.Values)
    {
      Serve(s, requests[i]);
    }
    t := AfterTornWrite(s, |s.log.file + s.log.buf|);
  }

  // ---------- what a caller gets ----------

  /** A link answers with its URL until its time is up, and with nothing from then on, whatever else
      is asked of the store, unless the link is updated or removed; a new process answers alike. */
  method LinkLives(s: Store, url: string, alias: string, hasAlias: bool, ttl: int64, now: int64, rand: seq<string>,
                   requests: seq<Request>, t: int64)
    returns (code: string, answer: Option<string>, later: Option<string>)
    requires Sound(s) && (hasAlias ==> CodeOK(alias)) && 0 <= now && now + ttl < TWO63
    requires forall i :: 0 <= i < |rand| ==> Suffix(rand[i])
    requires !hasAlias ==> exists i :: 0 <= i < |rand| && Generated(s.instance, rand[i]) !in s.data
    requires forall i :: 0 <= i < |requests| ==> Askable(requests[i])
    modifies s, s.log, s.tails.Values
    ensures code == "" <==> hasAlias && alias in old(s.data)
    ensures code != "" && (forall i :: 0 <= i < |requests| ==> !Touches(requests[i], code)) ==>
              answer == later == if ttl <= 0 || t < now + ttl then Some(url) else None
  {
    hide Durable, CodeOK, FlushedIfBig, Suffix, Generated, PrintOps, AllLoggable, Store.Tails, Touches, Askable;
    ghost var n := s.View();
    code := s.Shorten(url, alias, hasAlias, ttl, now, rand);
    if code != "" {
      StepKeeps(n, Recovery.Shorten(code, url, now, Expiry(now, ttl)));
      BigDurable(Shortened(n, code, url, now, Expiry(now, ttl)));
      answer, later := AskLater(s, code, requests, t);
    } else {
      answer, later := None, None;
    }
  }

  /** So does every link made in bulk. */
  method BulkLives(s: Store, r: Request, k: nat, requests: seq<Request>, t: int64)
    returns (code: string, answer: Option<string>, later: Option<string>)
    requires Sound(s) && Askable(r) && r.Many? && k < |r.urls| && 0 <= r.now && r.now + r.ttl < TWO63
    requires forall i :: 0 <= i < |r.rands| ==> s.FreshDraw(r.rands, i, s.data)
    requires forall i :: 0 <= i < |requests| ==> Askable(requests[i])
    modifies s, s.log, s.tails.Values
    ensures code !in old(s.data)
    ensures (forall i :: 0 <= i < |requests| ==> !Touches(requests[i], code)) ==>
              answer == later == if r.ttl <= 0 || t < r.now + r.ttl then Some(r.urls[k]) else None
  {
    hide Sound, Touches, Askable, Store.FreshDraw, Makes;
    var codes := MakeMany(s, r);
    code := codes[k];
    answer, later := AskLater(s, code, requests, t);
  }

  /** After any requests that spare it, a link is answered from the row it had, now and by a new
      process. */
  method AskLater(s: Store, code: string, requests: seq<Request>, t: int64)
    returns (answer: Option<string>, later: Option<string>)
    requires Sound(s) && code in s.data && forall i :: 0 <= i < |requests| ==> Askable(requests[i])
    modifies s, s.log, s.tails.Values
    ensures (forall i :: 0 <= i < |requests| ==> !Touches(requests[i], code)) ==>
              answer == later ==
              if old(s.data)[code].e == 0 || t < old(s.data)[code].e then Some(old(s.data)[code].u) else None
  {
    hide Durable, Touches, Askable, PrintOps, AllLoggable, CodeOK, Store.Tails;
    ServeAll(s, requests);
    var next := Reopen(s);
    later := Look(next, code, t);
    answer := Look(s, code, t);
  }

  /** An accepted update holds: the link answers with the new URL, until its new time is up if one
      was given and its old one otherwise. */
  method UpdateHolds(s: Store, code: string, url: string, ttl: int64, hasTTL: bool, now: int64,
                     requests: seq<Request>, t: int64)
    returns (m: Mut, answer: Option<string>, later: Option<string>)
    requires Sound(s) && 0 <= now && now + ttl < TWO63
    requires forall i :: 0 <= i < |requests| ==> Askable(requests[i])
    modifies s, s.log, s.tails.Values
    ensures m == MutOK <==> code in old(s.data) && old(s.data)[code].i == s.instance
    ensures m == MutOK && (forall i :: 0 <= i < |requests| ==> !Touches(requests[i], code)) ==>
              answer == later ==
              if (if hasTTL then ttl <= 0 || t < now + ttl
                  else old(s.data)[code].e == 0 || t < old(s.data)[code].e) then Some(url) else None
  {
    hide Durable, Updated, Touches, Askable, PrintOps, AllLoggable, CodeOK, Store.Tails;
    StepKeeps(s.View(), Update(code, url, now, ttl, hasTTL));
    m := s.Update(code, url, now, ttl, hasTTL);
    if m == MutOK {
      answer, later := AskLater(s, code, requests, t);
    } else {
      answer, later := None, None;
    }
  }

  /** A removed link answers with nothing, until a link is made under its code. */
  method RemoveHolds(s: Store, code: string, requests: seq<Request>, t: int64)
    returns (m: Mut, answer: Option<string>, later: Option<string>)
    requires Sound(s) && forall i :: 0 <= i < |requests| ==> Askable(requests[i])
    modifies s, s.log, s.tails.Values
    ensures m == MutOK <==> code in old(s.data) && old(s.data)[code].i == s.instance
    ensures m == MutOK && (forall i :: 0 <= i < |requests| ==> !Makes(s.instance, requests[i], code)) ==>
              answer == later == None
  {
    hide Durable, Removed, Touches, Makes, Askable, PrintOps, AllLoggable, CodeOK, Store.Tails;
    StepKeeps(s.View(), Remove(code));
    m := s.Remove(code);
    ServeAll(s, requests);
    var next := Reopen(s);
    assert code in next.data <==> RowIn(next.Idx(), code).Some?;
    later := Look(next, code, t);
    answer := Look(s, code, t);
  }
}
