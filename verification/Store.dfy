/** The store of one instance, with its log, snapshot and sibling logs as bytes. Every
    method is tied to the step of `Instance` it performs; those steps are what the
    recovery and convergence theorems are about. */
module Store {
  import opened Ints
  import opened LogLine
  import opened LineRoundTrip
  import opened LogFile
  import opened OpLog
  import opened Options
  import opened Table
  import opened Instance
  import opened Polls
  import opened Codes

  const FLUSH_BYTES := 262_144
  const TAIL_MIN_INTERVAL := 200

  /** A node after the size check that follows a push. */
  function FlushedIfBig(n: Node): Node {
    if |PrintOps(n.buf)| > FLUSH_BYTES then Written(n) else n
  }

  lemma {:induction false} RowLegal(ops: seq<LogOp>, c: string)
    requires AllLoggable(ops) && RowAt(ops, c).Some?
    ensures CodeOK(c)
    decreases |ops|
  {
    var k := |ops| - 1;
    assert Loggable(ops[k]);
    if ops[k].c != c || !ops[k].Row? {
      RowLegal(ops[..k], c);
    }
  }

  lemma NothingPrinted()
    ensures PrintOps([]) == ""
  {}

  class Store {
    const instance: Id
    const log: Aof
    var data: map<string, Entry>
    var strayHits: map<string, Stray>
    var dirty: map<string, int64>
    var snap: string
    var tails: map<nat, TailReader>
    var lastPoll: int64

    ghost var bufOps: seq<LogOp>
    ghost var fileOps: seq<LogOp>
    ghost var snapOps: seq<LogOp>
    /** What was read of each sibling's log so far. */
    ghost var seen: map<nat, string>

    ghost function Idx(): Index
      reads this`data, this`strayHits
    {
      Index(data, strayHits)
    }

    ghost function View(): Node
      reads this
    {
      Node(instance, Idx(), dirty, bufOps, fileOps, snapOps)
    }

    /** The bytes are the print of the operations. */
    ghost predicate Logs()
      reads this`snap, this`bufOps, this`fileOps, this`snapOps, log
    {
      log.buf == PrintOps(bufOps) && log.file == PrintOps(fileOps) && snap == PrintOps(snapOps) &&
      AllLoggable(bufOps) && AllLoggable(fileOps) && AllLoggable(snapOps)
    }

    ghost predicate Tails()
      reads this`tails, this`seen, tails.Values
    {
      tails.Keys == seen.Keys &&
      (forall j :: j in tails ==> tails[j].Valid() && tails[j].View() == Tail(|seen[j]|, SplitOf(seen[j]).rest)) &&
      (forall i, j :: i in tails && j in tails && i != j ==> tails[i] != tails[j])
    }

    ghost predicate Codes()
      reads this`data, this`dirty
    {
      (forall c :: c in data ==> CodeOK(c)) && (forall c :: c in dirty ==> CodeOK(c))
    }

    ghost predicate Valid()
      reads this, log, tails.Values
    {
      Logs() && Tails() && Codes()
    }

    /** `New` with the first half of `loadAll`: replays the snapshot, then the log, whose last
        line may be torn. */
    constructor Open(instance: Id, snapBytes: string, logBytes: string,
                     ghost sops: seq<LogOp>, ghost fops: seq<LogOp>, ghost torn: string)
      requires AllLoggable(sops) && snapBytes == PrintOps(sops)
      requires AllLoggable(fops) && logBytes == PrintOps(fops) + torn && NL !in torn
      ensures this.instance == instance && fresh(log) && tails == map[]
      ensures log.file == logBytes && log.buf == "" && snap == snapBytes
      ensures exists victims: seq<string> ::
                |victims| == |sops + fops| && Idx() == Replay(instance, EMPTY, sops + fops, victims)
      ensures Tails() && Codes()
      ensures torn == "" ==> Valid() && View() == Node(instance, Idx(), map[], [], fops, sops)
    {
      hide Replay, PrintOps, SplitOf, Loggable, CodeOK;
      this.instance := instance;
      var a := new Aof(logBytes);
      log := a;
      data, strayHits, dirty, tails, lastPoll := map[], map[], map[], map[], 0;
      snap := snapBytes;
      bufOps, fileOps, snapOps, seen := [], fops, sops, map[];
      new;
      NothingPrinted();
      ghost var victims := Load(snapBytes, logBytes, sops, fops, torn);
      OpenCodes(sops + fops, victims);
    }

    /** `loadAll`, for the instance's own files. */
    method Load(snapBytes: string, logBytes: string,
                ghost sops: seq<LogOp>, ghost fops: seq<LogOp>, ghost torn: string)
      returns (ghost victims: seq<string>)
      requires AllLoggable(sops) && snapBytes == PrintOps(sops)
      requires AllLoggable(fops) && logBytes == PrintOps(fops) + torn && NL !in torn
      modifies this`data, this`strayHits
      ensures |victims| == |sops + fops| && Idx() == Replay(instance, old(Idx()), sops + fops, victims)
    {
      hide Replay, PrintOps, SplitOf, AllLoggable;
      WholeLog(sops, "");
      WholeLog(fops, torn);
      assert PrintOps(sops) + "" == snapBytes;
      var lines := ReplayFile(snapBytes);
      ghost var v := ApplyLines(lines, sops);
      lines := ReplayFile(logBytes);
      ghost var w := ApplyLines(lines, fops);
      victims := v + w;
      ReplayAppend(instance, old(Idx()), sops, v, fops, w);
    }

    lemma OpenCodes(ops: seq<LogOp>, victims: seq<string>)
      requires AllLoggable(ops) && |victims| == |ops| && Idx() == Replay(instance, EMPTY, ops, victims)
      ensures forall c :: c in data ==> CodeOK(c)
    {
      forall c | c in data ensures CodeOK(c) {
        assert RowIn(Idx(), c).Some?;
        RecoveredRows(instance, ops, victims, c);
        RowLegal(ops, c);
      }
    }

    /** The siblings that have a reader. */
    ghost predicate Readers(order: seq<nat>)
      reads this`tails
    {
      forall j :: j in tails <==> j in order
    }

    /** Nothing was read of any sibling's log. */
    ghost predicate Unread()
      reads this`seen
    {
      forall j :: SeenOf(j) == ""
    }

    /** The snapshots of the siblings `done` were loaded: `read`, on top of the table `start`. */
    ghost predicate Loaded(done: seq<nat>, start: Index, read: seq<LogOp>, victims: seq<string>)
      reads this`data, this`strayHits, this`dirty, this`tails, this`seen, tails.Values
    {
      Tails() && Codes() && Unread() && Readers(done) && Folded(start, read, victims)
    }

    /** The second half of `loadAll`: the snapshots of the siblings whose logs are there, in the
        order of their names, are replayed on top, and each gets a reader at the start of its log. */
    method LoadSiblings(order: seq<nat>, snaps: map<nat, string>, ghost logs: map<nat, seq<LogOp>>)
      returns (ghost victims: seq<string>)
      requires Tails() && Codes() && tails == map[]
      requires forall i :: 0 <= i < |order| ==> order[i] in snaps && order[i] in logs
      requires forall j :: j in logs && j in snaps ==> AllLoggable(logs[j]) && snaps[j] == PrintOps(logs[j])
      modifies this`data, this`strayHits, this`tails, this`seen
      ensures Loaded(order, old(Idx()), Gather(order, logs), victims)
    {
      hide PrintOps, AllLoggable, Gather, Loaded, Tails, Codes, Idx;
      NoReaders(logs);
      victims := [];
      ghost var done: seq<nat> := [];
      for i := 0 to |order|
        invariant done == order[..i] && Loaded(done, old(Idx()), Gather(done, logs), victims)
      {
        victims := LoadNamed(done, order[i], snaps, logs, old(Idx()), victims);
        done := done + [order[i]];
      }
      assert order[..|order|] == order;
    }

    method LoadNamed(ghost done: seq<nat>, j: nat, snaps: map<nat, string>, ghost logs: map<nat, seq<LogOp>>,
                     ghost start: Index, ghost victims: seq<string>)
      returns (ghost victims': seq<string>)
      requires Loaded(done, start, Gather(done, logs), victims) && j in snaps && j in logs
      requires AllLoggable(logs[j]) && snaps[j] == PrintOps(logs[j])
      modifies this`data, this`strayHits, this`tails, this`seen
      ensures Loaded(done + [j], start, Gather(done + [j], logs), victims')
    {
      hide PrintOps, AllLoggable, Gather, Loaded;
      GatherSnoc(done, logs, j);
      victims' := LoadSibling(done, j, snaps[j], logs[j], start, Gather(done, logs), victims);
    }

    lemma NoReaders(logs: map<nat, seq<LogOp>>)
      requires Tails() && Codes() && tails == map[]
      ensures Loaded([], Idx(), Gather([], logs), [])
    {
      assert seen.Keys == {};
      NothingFolded();
      GatherNone(logs);
    }

    method LoadSibling(ghost done: seq<nat>, j: nat, snap: string, ghost ops: seq<LogOp>, ghost start: Index,
                       ghost read: seq<LogOp>,
                       ghost victims: seq<string>)
      returns (ghost victims': seq<string>)
      requires Loaded(done, start, read, victims)
      requires AllLoggable(ops) && snap == PrintOps(ops)
      modifies this`data, this`strayHits, this`tails, this`seen
      ensures Loaded(done + [j], start, read + ops, victims')
    {
      hide PrintOps, SplitOf, CodeOK, Replay, Tails, AllLoggable;
      ghost var before := Idx();
      WholeLog(ops, "");
      assert PrintOps(ops) + "" == snap;
      var lines := ReplayFile(snap);
      ghost var v := ApplyLines(lines, ops);
      ReplayCodes(before, ops, v);
      FoldedMore(start, read, victims, ops, v);
      victims' := victims + v;
      NewReader(j);
    }

    method NewReader(j: nat)
      requires Tails() && Unread()
      modifies this`tails, this`seen
      ensures Tails() && Unread() && tails.Keys == old(tails).Keys + {j}
    {
      hide Tails;
      var t := ReaderOf(j);
      forall k ensures SeenOf(k) == "" {
        assert old(SeenOf(k)) == "";
      }
    }

    // ---------- applying log lines ----------

    /** `apply`. */
    method ApplyOp(o: Op) returns (ghost victim: string)
      modifies this`data, this`strayHits
      ensures Idx() == Apply(instance, old(Idx()), o, victim)
    {
      hide ApplyHit, Wrap, Wrap32;
      victim := "";
      if o.x != "" {
        data := data - {o.x};
        strayHits := strayHits - {o.x};
        return;
      }
      if o.h != "" {
        victim := AddHit(o);
        return;
      }
      if o.c == "" {
        return;
      }
      var st := NO_STRAY;
      if o.c in strayHits {
        st := strayHits[o.c];
        strayHits := strayHits - {o.c};
      }
      data := data[o.c := Entry(o.u, o.a, if o.hasE then o.e else 0, Wrap32(o.i), Wrap(o.n + st.t), Wrap(o.n + st.o))];
    }

    /** The hits of a row, or of a code whose row has not come. */
    method AddHit(o: Op) returns (ghost victim: string)
      modifies this`data, this`strayHits
      ensures Idx() == ApplyHit(instance, old(Idx()), o.h, o.d, o.i, victim)
    {
      hide Wrap;
      victim := "";
      var own := instance == o.i;
      if o.h in data {
        var e := data[o.h];
        e := e.(h := Wrap(e.h + o.d));
        if own {
          e := e.(oh := Wrap(e.oh + o.d));
        }
        data := data[o.h := e];
        return;
      }
      if |strayHits| >= MAX_STRAY {
        assert strayHits.Keys != {};
        var k :| k in strayHits;
        strayHits := strayHits - {k};
        victim := k;
      }
      var st := if o.h in strayHits then strayHits[o.h] else NO_STRAY;
      st := st.(t := Wrap(st.t + o.d));
      if own {
        st := st.(o := Wrap(st.o + o.d));
      }
      strayHits := strayHits[o.h := st];
    }

    /** `applyLine` on each of some lines. */
    method ApplyLines(lines: seq<string>, ghost ops: seq<LogOp>) returns (ghost victims: seq<string>)
      requires ParseTo(lines, ops)
      modifies this`data, this`strayHits
      ensures |victims| == |ops| && Idx() == Replay(instance, old(Idx()), ops, victims)
    {
      victims := [];
      assert ops[..0] == [];
      for i := 0 to |lines|
        invariant |victims| == i && Idx() == Replay(instance, old(Idx()), ops[..i], victims)
      {
        var r := ParseOp(lines[i]);
        ghost var v := "";
        if r.Good? {
          v := ApplyOp(r.o);
        }
        ReplaySnoc(instance, old(Idx()), ops[..i], victims, ops[i], v);
        assert ops[..i + 1] == ops[..i] + [ops[i]];
        victims := victims + [v];
      }
      assert ops[..|lines|] == ops;
    }

    // ---------- writing the log ----------

    method PushLine(line: string, ghost o: LogOp)
      requires Logs() && Loggable(o) && line == LineOf(o)
      modifies log`buf, this`bufOps
      ensures Logs() && bufOps == old(bufOps) + [o]
    {
      hide LineOf, Lines, Print;
      log.Push(line);
      LinesAppend(bufOps, [o]);
      PrintOne(o);
      bufOps := bufOps + [o];
    }

    method WriteLog()
      requires Logs()
      modifies log, this`bufOps, this`fileOps
      ensures Logs() && View() == Written(old(View()))
    {
      hide Lines, Print;
      log.Flush();
      LinesAppend(fileOps, bufOps);
      NothingPrinted();
      fileOps := fileOps + bufOps;
      bufOps := [];
    }

    // ---------- public operations ----------

    /** Stores a new link under a free code and logs it. */
    method Insert(code: string, url: string, now: int64, exp: int64)
      requires Valid() && CodeOK(code)
      modifies this`data, this`bufOps, log`buf
      ensures Valid() && View() == Shortened(old(View()), code, url, now, exp)
    {
      data := data[code := Entry(url, now, exp, instance, 0, 0)];
      PushLine(RowLine(code, url, now, exp, instance, 0), Row(code, url, now, exp, instance, 0));
    }

    method FlushIfMany()
      requires Valid()
      modifies log, this`bufOps, this`fileOps
      ensures Valid() && View() == FlushedIfBig(old(View()))
      ensures |log.buf| <= FLUSH_BYTES && (|old(log.buf)| <= FLUSH_BYTES ==> log.file == old(log.file))
    {
      var pending := log.PendingBytes();
      if pending > FLUSH_BYTES {
        WriteLog();
      }
    }

    /** A free generated code: the first of the random draws `rand` that is not taken. */
    method FreeCode(rand: seq<string>) returns (code: string)
      requires forall i :: 0 <= i < |rand| ==> Suffix(rand[i])
      requires exists i :: 0 <= i < |rand| && Generated(instance, rand[i]) !in data
      ensures code !in data && CodeOK(code)
      ensures exists i :: 0 <= i < |rand| && code == Generated(instance, rand[i]) &&
                (forall j :: 0 <= j < i ==> Generated(instance, rand[j]) in data)
    {
      var i := 0;
      code := Generated(instance, rand[0]);
      while code in data
        invariant i < |rand| && code == Generated(instance, rand[i])
        invariant forall j :: 0 <= j < i ==> Generated(instance, rand[j]) in data
        decreases |rand| - i
      {
        i := i + 1;
        code := Generated(instance, rand[i]);
      }
      GeneratedOK(instance, rand[i]);
    }

    /** `Shorten`: "" when the alias is taken; otherwise a new link under the alias, or under
        a generated code that was free. */
    method Shorten(url: string, alias: string, hasAlias: bool, ttl: int64, now: int64, rand: seq<string>)
      returns (code: string)
      requires Valid() && (hasAlias ==> CodeOK(alias))
      requires forall i :: 0 <= i < |rand| ==> Suffix(rand[i])
      requires !hasAlias ==> exists i :: 0 <= i < |rand| && Generated(instance, rand[i]) !in data
      modifies this`data, this`bufOps, this`fileOps, log
      ensures Valid()
      ensures hasAlias && alias in old(data) ==> code == "" && View() == old(View())
      ensures !(hasAlias && alias in old(data)) ==>
                code !in old(data) && CodeOK(code) &&
                View() == FlushedIfBig(Shortened(old(View()), code, url, now, Expiry(now, ttl)))
      ensures if hasAlias then code == "" || code == alias
              else exists i :: 0 <= i < |rand| && code == Generated(instance, rand[i])
      ensures code == "" <==> hasAlias && alias in old(data)
      ensures code == "" ==> data == old(data)
      ensures code != "" ==> code in data && data[code].u == url && data[code].a == now && data[code].i == instance
      ensures code != "" && ttl <= 0 ==> data[code].e == 0
      ensures code != "" && 0 < ttl && now + ttl < TWO63 ==> data[code].e == now + ttl
      ensures forall c :: c in old(data) ==> c in data && data[c] == old(data)[c]
      ensures forall c :: c in data ==> c in old(data) || c == code
      ensures code != "" ==> |log.buf| <= FLUSH_BYTES
    {
      ExpiryIs(now, ttl);
      var exp := Expiry(now, ttl);
      if hasAlias {
        code := alias;
        if code in data {
          return "";
        }
      } else {
        code := FreeCode(rand);
      }
      Insert(code, url, now, exp);
      FlushIfMany();
    }

    /** `ShortenMany`: `rand[i]` are the random draws for the i-th URL, the bulk draw first. */
    method ShortenMany(urls: seq<string>, ttl: int64, now: int64, rand: seq<seq<string>>) returns (codes: seq<string>)
      requires Valid() && |rand| == |urls|
      requires forall i, m :: 0 <= i < |rand| && 0 <= m < |rand[i]| ==> Suffix(rand[i][m])
      requires forall i :: 0 <= i < |rand| ==> FreshDraw(rand, i, data)
      modifies this`data, this`bufOps, this`fileOps, log
      ensures Valid() && |codes| == |urls| && Distinct(codes)
      ensures forall i :: 0 <= i < |codes| ==> codes[i] !in old(data) && CodeOK(codes[i])
      ensures forall i :: 0 <= i < |codes| ==> codes[i] != "" && codes[i][0] == Letter(instance)
      ensures View() == FlushedIfBig(ShortenedAll(old(View()), codes, urls, now, Expiry(now, ttl)))
      ensures forall i :: 0 <= i < |codes| ==> Drawn(instance, rand[i], codes[i])
      ensures forall i :: 0 <= i < |codes| ==>
                codes[i] in data && data[codes[i]].u == urls[i] && data[codes[i]].a == now &&
                data[codes[i]].i == instance
      ensures ttl <= 0 ==> forall i :: 0 <= i < |codes| ==> data[codes[i]].e == 0
      ensures 0 < ttl && now + ttl < TWO63 ==> forall i :: 0 <= i < |codes| ==> data[codes[i]].e == now + ttl
      ensures forall c :: c !in codes ==> RowIn(Idx(), c) == old(RowIn(Idx(), c))
      ensures data.Keys == old(data).Keys + set c | c in codes
    {
      hide Valid, CodeOK, ShortenedAll, Suffix, FreshDraw, Generated, FlushedIfBig, Expiry, Drawn;
      codes := ShortenAll(urls, now, Expiry(now, ttl), rand);
      ExpiryIs(now, ttl);
      BulkCreation(old(View()), codes, urls, now, Expiry(now, ttl));
      FlushIfMany();
      forall i | 0 <= i < |codes| ensures codes[i] != "" && codes[i][0] == Letter(instance) {
        DrawnLetter(rand, i, codes[i]);
      }
    }

    /** The loop of `ShortenMany`. */
    method ShortenAll(urls: seq<string>, now: int64, exp: int64, rand: seq<seq<string>>) returns (codes: seq<string>)
      requires Valid() && |rand| == |urls|
      requires forall i, m :: 0 <= i < |rand| && 0 <= m < |rand[i]| ==> Suffix(rand[i][m])
      requires forall i :: 0 <= i < |rand| ==> FreshDraw(rand, i, data)
      modifies this`data, this`bufOps, log`buf
      ensures Valid() && |codes| == |urls| && Distinct(codes)
      ensures forall i :: 0 <= i < |codes| ==>
                codes[i] !in old(data) && CodeOK(codes[i]) && Drawn(instance, rand[i], codes[i])
      ensures View() == ShortenedAll(old(View()), codes, urls, now, exp)
    {
      hide CodeOK, Shortened, Suffix, FreshDraw, Generated, Valid;
      codes := [];
      for i := 0 to |urls|
        invariant Valid() && |codes| == i && Distinct(codes)
        invariant forall j :: 0 <= j < i ==> codes[j] !in old(data) && CodeOK(codes[j])
        invariant forall j :: 0 <= j < i ==> Drawn(instance, rand[j], codes[j])
        invariant View() == ShortenedAll(old(View()), codes, urls, now, exp)
      {
        BulkCreation(old(View()), codes, urls, now, exp);
        DrawIsFree(rand, i, codes, old(data));
        var code := ShortenNext(codes, urls, now, exp, rand[i], old(View()));
        codes := codes + [code];
      }
    }

    lemma DrawnLetter(rand: seq<seq<string>>, j: nat, code: string)
      requires j < |rand| && Drawn(instance, rand[j], code)
      ensures code != "" && code[0] == Letter(instance)
    {}

    /** One turn of the loop of `ShortenMany`. */
    method ShortenNext(codes: seq<string>, urls: seq<string>, now: int64, exp: int64, draws: seq<string>,
                       ghost start: Node)
      returns (code: string)
      requires Valid() && |codes| < |urls|
      requires forall m :: 0 <= m < |draws| ==> Suffix(draws[m])
      requires exists m :: 0 <= m < |draws| && Generated(instance, draws[m]) !in data
      requires View() == ShortenedAll(start, codes, urls, now, exp)
      modifies this`data, this`bufOps, log`buf
      ensures Valid() && code !in old(data) && CodeOK(code)
      ensures exists m :: 0 <= m < |draws| && code == Generated(instance, draws[m])
      ensures View() == ShortenedAll(start, codes + [code], urls, now, exp)
    {
      code := FreeCode(draws);
      Insert(code, urls[|codes|], now, exp);
      assert (codes + [code])[..|codes|] == codes;
    }

    /** Some draw for URL i is free and is no draw of an earlier URL. */
    predicate FreshDraw(rand: seq<seq<string>>, i: nat, taken: map<string, Entry>)
      requires i < |rand|
    {
      exists m :: 0 <= m < |rand[i]| && Generated(instance, rand[i][m]) !in taken &&
                  forall j :: 0 <= j < i ==> !Drawn(instance, rand[j], Generated(instance, rand[i][m]))
    }

    lemma DrawIsFree(rand: seq<seq<string>>, i: nat, codes: seq<string>, taken: map<string, Entry>)
      requires i < |rand| && |codes| == i && FreshDraw(rand, i, taken)
      requires forall j :: 0 <= j < i ==> Drawn(instance, rand[j], codes[j])
      ensures exists m :: 0 <= m < |rand[i]| && Generated(instance, rand[i][m]) !in taken &&
                          Generated(instance, rand[i][m]) !in codes
    {}

    method Update(code: string, url: string, now: int64, ttl: int64, hasTTL: bool) returns (r: Mut)
      requires Valid()
      modifies this`data, this`bufOps, log`buf
      ensures Valid() && (View(), r) == Updated(old(View()), code, url, now, ttl, hasTTL)
      ensures r == MutMissing <==> code !in old(data)
      ensures r == MutOK <==> code in old(data) && old(data)[code].i == instance
      ensures r == MutOK ==>
                code in data && data[code].u == url && data[code].a == old(data)[code].a && data[code].i == instance
      ensures r == MutOK && !hasTTL ==> data[code].e == old(data)[code].e
      ensures r == MutOK && hasTTL && ttl <= 0 ==> data[code].e == 0
      ensures r == MutOK && hasTTL && 0 < ttl && now + ttl < TWO63 ==> data[code].e == now + ttl
      ensures data.Keys == old(data).Keys
      ensures forall c :: c in data && (c != code || r != MutOK) ==> data[c] == old(data)[c]
    {
      ExpiryIs(now, ttl);
      if code !in data {
        return MutMissing;
      }
      var e := data[code];
      if e.i != instance {
        return MutRemote;
      }
      var exp := e.e;
      if hasTTL {
        exp := Expiry(now, ttl);
      }
      data := data[code := e.(u := url, e := exp)];
      PushLine(RowLine(code, url, e.a, exp, instance, 0), Row(code, url, e.a, exp, instance, 0));
      r := MutOK;
    }

    method Remove(code: string) returns (r: Mut)
      requires Valid()
      modifies this`data, this`bufOps, log`buf
      ensures Valid() && (View(), r) == Removed(old(View()), code)
      ensures r == MutMissing <==> code !in old(data)
      ensures r == MutOK <==> code in old(data) && old(data)[code].i == instance
      ensures data == if r == MutOK then old(data) - {code} else old(data)
    {
      if code !in data {
        return MutMissing;
      }
      if data[code].i != instance {
        return MutRemote;
      }
      data := data - {code};
      PushLine(DelLine(code), Del(code));
      r := MutOK;
    }

    method QueueHit(c: string, ghost order: seq<string>, ghost base: seq<LogOp>)
      requires Logs() && c in dirty && CodeOK(c)
      requires forall j :: 0 <= j < |order| ==> order[j] in dirty
      requires bufOps == base + HitOps(instance, dirty, order)
      modifies this`bufOps, log`buf
      ensures Logs() && bufOps == base + HitOps(instance, dirty, order + [c])
    {
      ghost var o := Hit(c, dirty[c], instance);
      PushLine(HitLine(c, dirty[c], instance), o);
      assert HitOps(instance, dirty, order + [c]) == HitOps(instance, dirty, order) + [o];
    }

    /** The loop of `Flush` over the pending deltas; `order` is how the map was gone through. */
    method QueueHits() returns (ghost order: seq<string>)
      requires Valid()
      modifies this`dirty, this`bufOps, log`buf
      ensures Valid() && Lists(order, old(dirty).Keys) && View() == Queued(old(View()), order)
    {
      hide PrintOps, AllLoggable, CodeOK, HitOps, Lists;
      order := [];
      var keys := dirty.Keys;
      NoHitOps();
      ghost var done := {};
      while keys != {}
        invariant Logs() && dirty == old(dirty) && keys <= dirty.Keys
        invariant done == dirty.Keys - keys && Lists(order, done)
        invariant forall j :: 0 <= j < |order| ==> order[j] in dirty
        invariant bufOps == old(bufOps) + HitOps(instance, dirty, order)
        decreases keys
      {
        var c :| c in keys;
        QueueHit(c, order, old(bufOps));
        ListsSnoc(order, done, c);
        order, done := order + [c], done + {c};
        keys := keys - {c};
      }
      assert done == dirty.Keys;
      dirty := map[];
    }

    lemma NoHitOps()
      ensures bufOps + HitOps(instance, dirty, []) == bufOps && Lists([], {})
    {}

    method Flush() returns (ghost order: seq<string>)
      requires Valid()
      modifies this`dirty, this`bufOps, this`fileOps, log
      ensures Valid() && Lists(order, old(dirty).Keys) && View() == Flushed(old(View()), order)
      ensures dirty == map[] && data == old(data) && log.buf == ""
      ensures log.file == old(log.file + log.buf) + PrintOps(HitOps(instance, old(dirty), order))
    {
      hide AllLoggable, HitOps, Print, Tails;
      ghost var before, past := bufOps, fileOps;
      order := QueueHits();
      ghost var hits := HitOps(instance, old(dirty), order);
      WriteLog();
      WholePrint(past, before, hits);
    }

    lemma WholePrint(past: seq<LogOp>, before: seq<LogOp>, hits: seq<LogOp>)
      ensures PrintOps(past + (before + hits)) == PrintOps(past) + PrintOps(before) + PrintOps(hits)
      ensures PrintOps([]) == ""
    {
      hide Lines, Print;
      LinesAppend(past, before + hits);
      LinesAppend(before, hits);
      NothingPrinted();
    }

    // ---------- compaction ----------

    method SnapRow(c: string, tmp: string, ghost rows: seq<string>) returns (tmp': string)
      requires c in data && (forall j :: 0 <= j < |rows| ==> rows[j] in data)
      requires tmp == PrintOps(SnapOps(data, rows))
      ensures tmp' == PrintOps(SnapOps(data, rows + [c]))
    {
      var e := data[c];
      tmp' := tmp + RowLine(c, e.u, e.a, e.e, e.i, e.oh);
      tmp' := tmp' + [NL];
      LinesAppend(SnapOps(data, rows), [RowOp(c, e)]);
      PrintOne(RowOp(c, e));
      assert SnapOps(data, rows + [c]) == SnapOps(data, rows) + [RowOp(c, e)];
    }

    ghost function OwnAmong(done: set<string>): set<string>
      reads this
    {
      set c | c in done && c in data && data[c].i == instance
    }

    /** The text of a snapshot: the rows this instance owns, in the order of the map. */
    method SnapText() returns (tmp: string, ghost rows: seq<string>)
      ensures Lists(rows, OwnCodes(View())) && (forall j :: 0 <= j < |rows| ==> rows[j] in data)
      ensures tmp == PrintOps(SnapOps(data, rows))
    {
      hide Lists, SnapOps, PrintOps;
      tmp, rows := "", [];
      var keys := data.Keys;
      NoSnapOps();
      ghost var done := {};
      while keys != {}
        invariant keys <= data.Keys && done == data.Keys - keys
        invariant Lists(rows, OwnAmong(done)) && forall j :: 0 <= j < |rows| ==> rows[j] in data
        invariant tmp == PrintOps(SnapOps(data, rows))
        decreases keys
      {
        var c :| c in keys;
        if data[c].i == instance {
          tmp := SnapRow(c, tmp, rows);
          ListsSnoc(rows, OwnAmong(done), c);
          rows := rows + [c];
          assert OwnAmong(done + {c}) == OwnAmong(done) + {c};
        } else {
          assert OwnAmong(done + {c}) == OwnAmong(done);
        }
        done := done + {c};
        keys := keys - {c};
      }
      assert OwnAmong(done) == OwnCodes(View());
    }

    lemma NoSnapOps()
      ensures PrintOps(SnapOps(data, [])) == "" && Lists([], OwnAmong({}))
    {}

    lemma SnapLoggable(rows: seq<string>)
      requires Valid() && forall j :: 0 <= j < |rows| ==> rows[j] in data
      ensures AllLoggable(SnapOps(data, rows))
    {}

    /** Writes a new snapshot aside and renames it into place. */
    method SwapSnapshot() returns (ghost rows: seq<string>)
      requires Valid()
      modifies this`snap, this`snapOps
      ensures Valid() && Lists(rows, OwnCodes(View())) && forall j :: 0 <= j < |rows| ==> rows[j] in data
      ensures View() == old(View()).(snap := SnapOps(data, rows))
    {
      hide PrintOps, AllLoggable, CodeOK, SnapOps, Lists;
      var tmp: string;
      tmp, rows := SnapText();
      SnapLoggable(rows);
      snap := tmp;
      snapOps := SnapOps(data, rows);
    }

    method CutLog()
      requires Valid() && bufOps == []
      modifies this`fileOps, log
      ensures Valid() && View() == old(View()).(file := [])
    {
      hide PrintOps, CodeOK;
      NothingPrinted();
      log.Truncate();
      fileOps := [];
    }

    /** The bytes on disk. */
    ghost function OnDisk(): (string, string)
      reads this, log
    {
      (snap, log.file)
    }

    ghost predicate Shows(d: Disk, bytes: (string, string)) {
      bytes == (PrintOps(d.snap), PrintOps(d.file))
    }

    /** `Compact`. `stages` are the bytes of the snapshot and the log file after each step
        that touches the disk: what a crash there would leave. */
    method Compact() returns (ghost order: seq<string>, ghost rows: seq<string>, ghost stages: seq<(string, string)>)
      requires Valid()
      modifies this`dirty, this`snap, this`bufOps, this`fileOps, this`snapOps, log
      ensures Valid() && Lists(order, old(dirty).Keys) && Lists(rows, OwnCodes(old(View())))
      ensures View() == Compacted(old(View()), order, rows)
      ensures |stages| == 3
      ensures forall j :: 0 <= j < 3 ==> Shows(DiskStages(old(View()), order, rows)[j], stages[j])
      ensures data == old(data) && dirty == map[] && log.file == "" && log.buf == ""
      ensures snap == PrintOps(snapOps) && |snapOps| == |rows|
      ensures forall j :: 0 <= j < |rows| ==>
                rows[j] in data && data[rows[j]].i == instance &&
                var x := data[rows[j]];
                snapOps[j] == Row(rows[j], x.u, x.a, x.e, instance, x.oh)
      ensures forall c :: c in data && data[c].i == instance ==> c in rows
    {
      hide PrintOps, AllLoggable, CodeOK, HitOps, SnapOps;
      order := Flush();
      ghost var first := OnDisk();
      rows := SwapSnapshot();
      ghost var second := OnDisk();
      CutLog();
      stages := [first, second, OnDisk()];
    }

    // ---------- sibling logs ----------

    ghost function SeenOf(j: nat): string
      reads this`seen
    {
      SeenIn(seen, j)
    }

    /** What sibling j has logged since it was last looked at, now that its file is `file`. */
    ghost function News(j: nat, file: string, ops: seq<LogOp>): seq<LogOp>
      reads this`seen
    {
      NewsSince(SeenOf(j), file, ops)
    }

    lemma ReplayCodes(s: Index, ops: seq<LogOp>, victims: seq<string>)
      requires AllLoggable(ops) && |victims| == |ops|
      requires forall c :: c in s.data ==> CodeOK(c)
      ensures forall c :: c in Replay(instance, s, ops, victims).data ==> CodeOK(c)
    {
      forall c | c in Replay(instance, s, ops, victims).data ensures CodeOK(c) {
        ReplayRows(instance, s, ops, victims, c);
        if Settles(ops, c) {
          assert RowIn(Replay(instance, s, ops, victims), c).Some?;
          RowLegal(ops, c);
        } else {
          assert RowIn(s, c).Some?;
        }
      }
    }

    /** The reader of j's log, made on first use. */
    method ReaderOf(j: nat) returns (t: TailReader)
      requires Tails()
      modifies this`tails, this`seen
      ensures Tails() && tails.Keys == old(tails).Keys + {j} && tails[j] == t && seen == old(seen)[j := old(SeenOf(j))]
      ensures tails.Values <= old(tails.Values) + {t} && (t in old(tails.Values) || fresh(t))
    {
      hide SplitOf;
      if j in tails {
        t := tails[j];
        assert seen == seen[j := seen[j]];
      } else {
        t := new TailReader.FromStart();
        tails := tails[j := t];
        seen := seen[j := ""];
        NothingSplit();
      }
    }

    lemma NothingSplit()
      ensures SplitOf("") == Split([], "")
    {}

    method Advance(j: nat, file: string) returns (lines: seq<string>)
      requires Tails() && j in tails && seen[j] <= file
      modifies this`seen, tails[j]
      ensures Tails() && seen == old(seen)[j := file]
      ensures lines == TailRead(Tail(|old(seen)[j]|, SplitOf(old(seen)[j]).rest), file).1
    {
      hide SplitOf, TailRead;
      ReadRest(seen[j], file);
      lines := tails[j].ReadNew(file);
      seen := seen[j := file];
    }

    method ReadBytes(j: nat, file: string) returns (lines: seq<string>)
      requires Tails() && SeenOf(j) <= file
      modifies this`tails, this`seen, tails.Values
      ensures Tails() && seen == old(seen)[j := file] && fresh(tails.Values - old(tails.Values))
      ensures lines == old(TailRead(Tail(|SeenOf(j)|, SplitOf(SeenOf(j)).rest), file)).1
    {
      hide SplitOf, TailRead;
      var t := ReaderOf(j);
      Overwrite(old(seen), j, old(SeenOf(j)), file);
      lines := Advance(j, file);
    }

    lemma Overwrite(m: map<nat, string>, j: nat, s: string, t: string)
      ensures m[j := s][j := t] == m[j := t]
    {}

    /** Sibling j's log file now holds `file`, of what it has queued or written so far, `ops`. */
    method ReadTail(j: nat, file: string, ghost ops: seq<LogOp>) returns (lines: seq<string>)
      requires Valid() && AllLoggable(ops) && SeenOf(j) <= file <= PrintOps(ops)
      modifies this`tails, this`seen, tails.Values
      ensures Valid() && seen == old(seen)[j := file] && fresh(tails.Values - old(tails.Values))
      ensures CountNL(old(SeenOf(j))) <= CountNL(file) <= |ops|
      ensures ParseTo(lines, old(News(j, file, ops)))
    {
      hide PrintOps, Codes, ParseTo, Logs, Tails, SplitOf, TailRead, CountNL, AllLoggable;
      TailedSlice(ops, SeenOf(j), file);
      lines := ReadBytes(j, file);
    }

    /** Reads what sibling j appended to its log, and applies it. */
    method TailOne(j: nat, file: string, ghost ops: seq<LogOp>) returns (ghost victims: seq<string>)
      requires Valid() && AllLoggable(ops) && SeenOf(j) <= file <= PrintOps(ops)
      modifies this`data, this`strayHits, this`tails, this`seen, tails.Values
      ensures Valid() && seen == old(seen)[j := file] && fresh(tails.Values - old(tails.Values))
      ensures CountNL(old(SeenOf(j))) <= CountNL(file) <= |ops|
      ensures |victims| == |old(News(j, file, ops))|
      ensures Idx() == Replay(instance, old(Idx()), old(News(j, file, ops)), victims)
    {
      hide PrintOps, CodeOK, ParseTo, Replay, Logs, Tails;
      ghost var news, before := News(j, file, ops), Idx();
      NewsLoggable(j, file, ops);
      var lines := ReadTail(j, file, ops);
      victims := ApplyLines(lines, news);
      ReplayCodes(before, news, victims);
    }

    lemma NewsLoggable(j: nat, file: string, ops: seq<LogOp>)
      requires AllLoggable(ops)
      ensures AllLoggable(News(j, file, ops))
    {}

    /** The log files of the siblings, `dir`, hold what was read of them before, and are
        prefixes of what the siblings logged, `logs`. */
    ghost predicate Directory(dir: map<nat, string>, logs: map<nat, seq<LogOp>>)
      reads this`seen
    {
      logs.Keys == dir.Keys &&
      (forall j :: j in dir ==> AllLoggable(logs[j]) && SeenOf(j) <= dir[j] <= PrintOps(logs[j])) &&
      (forall j :: j in seen && j !in dir ==> seen[j] == "")
    }

    /** The table is `start` with `read` applied. */
    ghost predicate Folded(start: Index, read: seq<LogOp>, victims: seq<string>)
      reads this`data, this`strayHits
    {
      |victims| == |read| && Idx() == Replay(instance, start, read, victims)
    }

    lemma NothingFolded()
      ensures Folded(Idx(), [], [])
    {}

    lemma FoldedMore(start: Index, read: seq<LogOp>, victims: seq<string>, more: seq<LogOp>, v: seq<string>)
      requires |victims| == |read| && |v| == |more|
      requires Idx() == Replay(instance, Replay(instance, start, read, victims), more, v)
      ensures Folded(start, read + more, victims + v)
    {
      ReplayAppend(instance, start, read, victims, more, v);
    }

    /** The sibling a code's first letter names, if it has a log. */
    function OwnerOf(code: string, dir: map<nat, string>): (order: seq<nat>)
      ensures forall i :: 0 <= i < |order| ==> order[i] in dir
    {
      if code != "" && AlphaIdx(code[0]) >= 0 && AlphaIdx(code[0]) != instance && AlphaIdx(code[0]) in dir
      then [AlphaIdx(code[0])] else []
    }

    /** The letter of a generated code names the one sibling that is read. */
    lemma OwnersRead(code: string, dir: map<nat, string>, before: map<nat, string>)
      ensures forall after :: Caught(dir, before, after, OwnerOf(code, dir)) ==>
                forall j: Id, suffix :: code == Generated(j, suffix) && j != instance && j in dir ==>
                  SeenIn(after, j) == dir[j] && forall i :: i in dir && i != j ==> SeenIn(after, i) == SeenIn(before, i)
      ensures forall j: Id, suffix ::
                code == Generated(j, suffix) && j != instance && j in dir ==> OwnerOf(code, dir) == [j]
    {
      hide AlphaIdx;
      forall j: Id, suffix | code == Generated(j, suffix) && j != instance && j in dir
        ensures OwnerOf(code, dir) == [j]
      {
        OwnerLetter(j, j, suffix, suffix);
      }
    }

    /** `tailOwner`: reads the log of the instance a code's first letter names. */
    method TailOwner(code: string, dir: map<nat, string>, ghost logs: map<nat, seq<LogOp>>)
      returns (ghost read: seq<LogOp>, ghost victims: seq<string>)
      requires Valid() && Directory(dir, logs)
      modifies this`data, this`strayHits, this`tails, this`seen, tails.Values
      ensures Valid() && Directory(dir, logs) && fresh(tails.Values - old(tails.Values))
      ensures Caught(dir, old(seen), seen, OwnerOf(code, dir)) && Folded(old(Idx()), read, victims)
      ensures read == Gather(OwnerOf(code, dir), AllNews(old(seen), dir, logs))
      ensures forall j: Id, suffix :: code == Generated(j, suffix) && j != instance && j in dir ==>
                SeenOf(j) == dir[j] && forall i :: i in dir && i != j ==> SeenOf(i) == old(SeenOf(i))
    {
      hide PrintOps, AllLoggable, Tails, Logs, Codes, CountNL, Replay, NewsSince, AlphaIdx, Folded, Caught, Generated;
      NothingFolded();
      NothingCaught(dir, seen, AllNews(seen, dir, logs));
      OwnersRead(code, dir, seen);
      read, victims := [], [];
      if |code| == 0 {
        return;
      }
      var owner := AlphaIdx(code[0]);
      if owner < 0 || owner == instance {
        return;
      }
      if owner in dir {
        read, victims := TailKnown(owner, dir, logs);
      } else {
        victims := TailUnknown(owner, dir, logs);
      }
    }

    method TailKnown(j: nat, dir: map<nat, string>, ghost logs: map<nat, seq<LogOp>>)
      returns (ghost read: seq<LogOp>, ghost victims: seq<string>)
      requires Valid() && Directory(dir, logs) && j in dir
      modifies this`data, this`strayHits, this`tails, this`seen, tails.Values
      ensures Valid() && Directory(dir, logs) && fresh(tails.Values - old(tails.Values))
      ensures Caught(dir, old(seen), seen, [j]) && Folded(old(Idx()), read, victims)
      ensures read == Gather([j], AllNews(old(seen), dir, logs))
    {
      hide Valid, Directory, Gather, AllNews, Caught, Folded, NewsSince;
      ghost var news := AllNews(seen, dir, logs);
      NothingFolded();
      NothingCaught(dir, seen, news);
      victims := PollOne(j, dir, logs, Idx(), seen, [], [], []);
      GatherSnoc([], news, j);
      read := [] + news[j];
      assert [] + [j] == [j];
    }

    /** The log of a sibling that has none yet. */
    method TailUnknown(j: nat, dir: map<nat, string>, ghost logs: map<nat, seq<LogOp>>)
      returns (ghost victims: seq<string>)
      requires Valid() && Directory(dir, logs) && j !in dir
      modifies this`data, this`strayHits, this`tails, this`seen, tails.Values
      ensures Valid() && Directory(dir, logs) && fresh(tails.Values - old(tails.Values))
      ensures Caught(dir, old(seen), seen, []) && Folded(old(Idx()), [], victims)
    {
      hide PrintOps, AllLoggable, Tails, Logs, Codes, CountNL, Replay, NewsSince;
      NoLog(j);
      victims := TailOne(j, "", []);
    }

    lemma NoLog(j: nat)
      ensures AllLoggable([]) && PrintOps([]) == "" && News(j, "", []) == []
    {}

    /** `PollTails`: reads every sibling's log, in the order the map iteration gives. */
    method PollTails(dir: map<nat, string>, now: int64, ghost logs: map<nat, seq<LogOp>>)
      returns (ghost order: seq<nat>, ghost read: seq<LogOp>, ghost victims: seq<string>)
      requires Valid() && Directory(dir, logs)
      modifies this`data, this`strayHits, this`tails, this`seen, this`lastPoll, tails.Values
      ensures Valid() && Directory(dir, logs) && fresh(tails.Values - old(tails.Values))
      ensures Caught(dir, old(seen), seen, order) && forall j :: j in dir ==> j in order
      ensures read == Gather(order, AllNews(old(seen), dir, logs)) && Folded(old(Idx()), read, victims)
      ensures lastPoll == now && forall j :: j in dir ==> SeenOf(j) == dir[j]
    {
      hide Directory, Replay, Gather, AllNews, Caught, Tails, Logs, Codes;
      order, read, victims := PollAll(dir, logs);
      AllCaught(dir, old(seen), seen, order);
      lastPoll := now;
    }

    method PollAll(dir: map<nat, string>, ghost logs: map<nat, seq<LogOp>>)
      returns (ghost order: seq<nat>, ghost read: seq<LogOp>, ghost victims: seq<string>)
      requires Valid() && Directory(dir, logs)
      modifies this`data, this`strayHits, this`tails, this`seen, tails.Values
      ensures Valid() && Directory(dir, logs) && fresh(tails.Values - old(tails.Values))
      ensures Caught(dir, old(seen), seen, order) && forall j :: j in dir ==> j in order
      ensures read == Gather(order, AllNews(old(seen), dir, logs)) && Folded(old(Idx()), read, victims)
    {
      hide Valid, Directory, Gather, AllNews, Caught, Folded, NewsSince;
      order, read, victims := [], [], [];
      ghost var news := AllNews(seen, dir, logs);
      NothingFolded();
      NothingCaught(dir, seen, news);
      var keys := dir.Keys;
      while keys != {}
        invariant Valid() && Directory(dir, logs) && fresh(tails.Values - old(tails.Values))
        invariant keys <= dir.Keys && forall j :: j in dir ==> j in keys || j in order
        invariant (forall j :: j in keys ==> j !in order) && forall j :: j in order ==> j in dir
        invariant Caught(dir, old(seen), seen, order)
        invariant read == Gather(order, news) && Folded(old(Idx()), read, victims)
        decreases keys
      {
        var j :| j in keys;
        victims := PollOne(j, dir, logs, old(Idx()), old(seen), order, read, victims);
        GatherSnoc(order, news, j);
        order, read := order + [j], read + news[j];
        keys := keys - {j};
      }
    }

    /** One turn of the loop of `PollTails`, after `read` was applied to the table `start`. */
    method PollOne(j: nat, dir: map<nat, string>, ghost logs: map<nat, seq<LogOp>>, ghost start: Index,
                   ghost before: map<nat, string>, ghost order: seq<nat>, ghost read: seq<LogOp>,
                   ghost victims: seq<string>)
      returns (ghost victims': seq<string>)
      requires Valid() && Directory(dir, logs) && j in dir && j !in order
      requires Caught(dir, before, seen, order) && Folded(start, read, victims)
      modifies this`data, this`strayHits, this`tails, this`seen, tails.Values
      ensures Valid() && Directory(dir, logs) && fresh(tails.Values - old(tails.Values))
      ensures Caught(dir, before, seen, order + [j])
      ensures Folded(start, read + AllNews(before, dir, logs)[j], victims')
    {
      hide PrintOps, AllLoggable, Tails, Logs, Codes, CountNL, Replay, NewsSince, AllNews, Caught;
      ghost var news := News(j, dir[j], logs[j]);
      StillNews(dir, logs, before, seen, order, j);
      CaughtOne(dir, before, seen, order, j);
      ghost var v := TailOne(j, dir[j], logs[j]);
      ReplayAppend(instance, start, read, victims, news, v);
      victims' := victims + v;
    }

    /** `lazyPoll`: a poll, unless one was done less than 200 ms ago. */
    method LazyPoll(dir: map<nat, string>, now: int64, ghost logs: map<nat, seq<LogOp>>)
      returns (ghost order: seq<nat>, ghost read: seq<LogOp>, ghost victims: seq<string>)
      requires Valid() && Directory(dir, logs)
      modifies this`data, this`strayHits, this`tails, this`seen, this`lastPoll, tails.Values
      ensures Valid() && Directory(dir, logs) && fresh(tails.Values - old(tails.Values))
      ensures Caught(dir, old(seen), seen, order)
      ensures read == Gather(order, AllNews(old(seen), dir, logs)) && Folded(old(Idx()), read, victims)
      ensures if Wrap(now - old(lastPoll)) < TAIL_MIN_INTERVAL then lastPoll == old(lastPoll) && order == []
              else lastPoll == now && forall j :: j in dir ==> j in order
      ensures forall j :: j in dir ==>
                SeenOf(j) == if Wrap(now - old(lastPoll)) < 200 then old(SeenOf(j)) else dir[j]
    {
      hide Valid, Directory, Replay, AllNews, Caught;
      if Wrap(now - lastPoll) < TAIL_MIN_INTERVAL {
        NothingFolded();
        NothingCaught(dir, seen, AllNews(seen, dir, logs));
        return [], [], [];
      }
      order, read, victims := PollTails(dir, now, logs);
    }

    /** The part of `Resolve` on a table that holds all it will. */
    method Count(code: string, now: int64) returns (url: Option<string>)
      requires Valid()
      modifies this`data, this`dirty
      ensures Valid() && (View(), url) == Resolved(old(View()), code, now)
      ensures url.Some? <==> code in old(data) && (old(data)[code].e == 0 || now < old(data)[code].e)
      ensures url.Some? ==> url.value == old(data)[code].u
      ensures data.Keys == old(data).Keys && forall c :: c in data ==> data[c].Data() == old(data)[c].Data()
    {
      hide Logs, Tails, Wrap, CodeOK;
      if code !in data {
        return None;
      }
      var e := data[code];
      if e.e != 0 && e.e <= now {
        return None;
      }
      data := data[code := e.(h := Wrap(e.h + 1), oh := Wrap(e.oh + 1))];
      var d: int := if code in dirty then dirty[code] else 0;
      dirty := dirty[code := Wrap(d + 1)];
      url := Some(e.u);
    }

    lemma OwnerSeen(code: string, dir: map<nat, string>, before: map<nat, string>, order: seq<nat>)
      requires Caught(dir, before, seen, order)
      ensures OwnerOf(code, dir) <= order ==>
                forall j: Id, suffix ::
                  code == Generated(j, suffix) && j != instance && j in dir ==> SeenOf(j) == dir[j]
    {
      hide Generated, OwnerOf;
      OwnersRead(code, dir, before);
      if OwnerOf(code, dir) <= order {
        forall j: Id, suffix | code == Generated(j, suffix) && j != instance && j in dir ensures SeenOf(j) == dir[j] {
          assert OwnerOf(code, dir)[0] == order[0] == j;
        }
      }
    }

    /** `Resolve`: a code that is not in the table is looked for in its owner's log first, and
        then, if it still is not there, in all logs. The siblings read are `order`, and all they
        had logged was applied; the rest is the counted lookup. */
    method Resolve(code: string, now: int64, dir: map<nat, string>, ghost logs: map<nat, seq<LogOp>>)
      returns (url: Option<string>, ghost order: seq<nat>, ghost victims: seq<string>)
      requires Valid() && Directory(dir, logs)
      modifies this`data, this`strayHits, this`dirty, this`tails, this`seen, this`lastPoll, tails.Values
      ensures Valid() && Directory(dir, logs) && Caught(dir, old(seen), seen, order)
      ensures fresh(tails.Values - old(tails.Values))
      ensures var read := Gather(order, AllNews(old(seen), dir, logs));
              |victims| == |read| &&
              (View(), url) == Resolved(old(View()).(idx := Replay(instance, old(Idx()), read, victims)), code, now)
      ensures code in old(data) ==> order == []
      ensures code !in old(data) ==> OwnerOf(code, dir) <= order
      ensures code !in data && Wrap(now - old(lastPoll)) >= TAIL_MIN_INTERVAL ==> forall j :: j in dir ==> j in order
      ensures url.Some? <==> code in data && (data[code].e == 0 || now < data[code].e)
      ensures url.Some? ==> url.value == data[code].u
      ensures code !in old(data) ==>
                forall j: Id, suffix ::
                  code == Generated(j, suffix) && j != instance && j in dir ==> SeenOf(j) == dir[j]
      ensures code !in data && Wrap(now - old(lastPoll)) >= 200 ==> forall j :: j in dir ==> SeenOf(j) == dir[j]
      ensures code in old(data) ==> forall j :: j in dir ==> SeenOf(j) == old(SeenOf(j))
    {
      hide Caught, Gather, Replay, Directory, Logs, Codes, Tails, News, Generated, OwnerOf;
      ghost var read;
      order, read, victims := Search(code, now, dir, logs);
      AllCaught(dir, old(seen), seen, order);
      OwnerSeen(code, dir, old(seen), order);
      url := Count(code, now);
    }

    method Search(code: string, now: int64, dir: map<nat, string>, ghost logs: map<nat, seq<LogOp>>)
      returns (ghost order: seq<nat>, ghost read: seq<LogOp>, ghost victims: seq<string>)
      requires Valid() && Directory(dir, logs)
      modifies this`data, this`strayHits, this`tails, this`seen, this`lastPoll, tails.Values
      ensures Valid() && Directory(dir, logs) && Caught(dir, old(seen), seen, order)
      ensures fresh(tails.Values - old(tails.Values))
      ensures read == Gather(order, AllNews(old(seen), dir, logs)) && Folded(old(Idx()), read, victims)
      ensures code in old(data) ==> order == []
      ensures code !in old(data) ==> OwnerOf(code, dir) <= order
      ensures code !in data && Wrap(now - old(lastPoll)) >= TAIL_MIN_INTERVAL ==> forall j :: j in dir ==> j in order
    {
      hide Valid, Directory, Replay, AllNews, Caught, Gather;
      NothingFolded();
      NothingCaught(dir, seen, AllNews(seen, dir, logs));
      order, read, victims := [], [], [];
      if code !in data {
        read, victims := TailOwner(code, dir, logs);
        order := OwnerOf(code, dir);
        if code !in data {
          ghost var mid := seen;
          ghost var rest, more, v := LazyPoll(dir, now, logs);
          JoinedCaught(dir, old(seen), mid, seen, order, rest);
          JoinedRead(dir, logs, old(seen), mid, seen, order, rest);
          JoinedStarts(order, rest);
          FoldedMore(old(Idx()), read, victims, more, v);
          order, read, victims := Joined(order, rest), read + more, victims + v;
        }
      }
    }
  }
}
