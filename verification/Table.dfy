/** The in-memory table of an instance and how a parsed log line changes it. */
module Table {
  import opened Ints
  import opened Options
  import opened LogLine
  import opened LineRoundTrip
  import opened OpLog

  /** What is stored for a code, hit counters aside. */
  datatype RowData = RowData(u: string, a: int64, e: int64, i: int32)

  datatype Entry = Entry(u: string, a: int64, e: int64, i: int32, h: int64, oh: int64) {
    function Data(): RowData {
      RowData(u, a, e, i)
    }
  }

  datatype Stray = Stray(t: int64, o: int64)

  const NO_STRAY := Stray(0, 0)
  const MAX_STRAY := 10_000

  /** `data` is the index; `stray` holds hit deltas of codes whose row has not arrived. */
  datatype Index = Index(data: map<string, Entry>, stray: map<string, Stray>)

  const EMPTY := Index(map[], map[])

  function StrayOf(s: Index, c: string): Stray {
    if c in s.stray then s.stray[c] else NO_STRAY
  }

  /** The stray table once room is made; `victim` is the key the map iteration came upon. */
  function MakeRoom(stray: map<string, Stray>, victim: string): map<string, Stray> {
    if |stray| >= MAX_STRAY then stray - {victim} else stray
  }

  function ApplyHit(me: nat, s: Index, c: string, d: int64, i: int64, victim: string): Index {
    var own := me == i;
    if c in s.data then
      var e := s.data[c];
      s.(data := s.data[c := e.(h := Wrap(e.h + d), oh := if own then Wrap(e.oh + d) else e.oh)])
    else
      var room := MakeRoom(s.stray, victim);
      var st := if c in room then room[c] else NO_STRAY;
      s.(stray := room[c := Stray(Wrap(st.t + d), if own then Wrap(st.o + d) else st.o)])
  }

  function ApplyRow(s: Index, c: string, u: string, a: int64, e: int64, i: int64, n: int64): Index {
    var st := StrayOf(s, c);
    Index(s.data[c := Entry(u, a, e, Wrap32(i), Wrap(n + st.t), Wrap(n + st.o))], s.stray - {c})
  }

  /** `apply`: folds one parsed line into the table of instance `me`. */
  function Apply(me: nat, s: Index, o: Op, victim: string): Index {
    if o.x != "" then Index(s.data - {o.x}, s.stray - {o.x})
    else if o.h != "" then ApplyHit(me, s, o.h, o.d, o.i, victim)
    else if o.c == "" then s
    else ApplyRow(s, o.c, o.u, o.a, if o.hasE then o.e else 0, o.i, o.n)
  }

  function ApplyLog(me: nat, s: Index, o: LogOp, victim: string): Index {
    Apply(me, s, ToOp(o), victim)
  }

  /** The fold of a log over a table. `victims` are the keys that evictions hit, one for
      each operation whether it evicts or not. */
  function Replay(me: nat, s: Index, ops: seq<LogOp>, victims: seq<string>): Index
    requires |victims| == |ops|
    decreases |ops|
  {
    if ops == [] then s
    else
      var k := |ops| - 1;
      ApplyLog(me, Replay(me, s, ops[..k], victims[..k]), ops[k], victims[k])
  }

  lemma ReplaySnoc(me: nat, s: Index, ops: seq<LogOp>, victims: seq<string>, o: LogOp, v: string)
    requires |victims| == |ops|
    ensures Replay(me, s, ops + [o], victims + [v]) == ApplyLog(me, Replay(me, s, ops, victims), o, v)
  {
    assert (ops + [o])[..|ops|] == ops && (victims + [v])[..|ops|] == victims;
  }

  lemma {:induction false} ReplayAppend(me: nat, s: Index, a: seq<LogOp>, va: seq<string>, b: seq<LogOp>,
                                        vb: seq<string>)
    requires |va| == |a| && |vb| == |b|
    ensures Replay(me, s, a + b, va + vb) == Replay(me, Replay(me, s, a, va), b, vb)
    decreases |b|
  {
    hide ApplyLog;
    if b == [] {
      assert a + b == a && va + vb == va;
    } else {
      var k := |b| - 1;
      ReplayAppend(me, s, a, va, b[..k], vb[..k]);
      ReplaySnoc(me, s, a + b[..k], va + vb[..k], b[k], vb[k]);
      assert a + b == a + b[..k] + [b[k]] && va + vb == va + vb[..k] + [vb[k]];
    }
  }

  lemma ReplayCons(me: nat, s: Index, o: LogOp, v: string, ops: seq<LogOp>, victims: seq<string>)
    requires |victims| == |ops|
    ensures Replay(me, s, [o] + ops, [v] + victims) == Replay(me, ApplyLog(me, s, o, v), ops, victims)
  {
    hide ApplyLog;
    ReplayAppend(me, s, [o], [v], ops, victims);
    ReplaySnoc(me, s, [], [], o, v);
    assert [] + [o] == [o] && [] + [v] == [v];
  }

  // ---------- rows ----------

  function RowIn(s: Index, c: string): Option<RowData> {
    if c in s.data then Some(s.data[c].Data()) else None
  }

  /** The row a log leaves for `c`: its last row line, unless a tombstone comes later. */
  function RowAt(ops: seq<LogOp>, c: string): Option<RowData>
    decreases |ops|
  {
    if ops == [] then None
    else
      var o := ops[|ops| - 1];
      if o.c == c && o.Row? then Some(RowData(o.u, o.a, o.e, Wrap32(o.i)))
      else if o.c == c && o.Del? then None
      else RowAt(ops[..|ops| - 1], c)
  }

  /** A row or tombstone of `c` is in the log. */
  ghost predicate Settles(ops: seq<LogOp>, c: string) {
    exists j :: 0 <= j < |ops| && ops[j].c == c && !ops[j].Hit?
  }

  lemma SettlesSnoc(ops: seq<LogOp>, o: LogOp, c: string)
    ensures Settles(ops + [o], c) <==> Settles(ops, c) || (o.c == c && !o.Hit?)
  {
    var all := ops + [o];
    assert all[|ops|] == o;
    if Settles(ops, c) {
      var j :| 0 <= j < |ops| && ops[j].c == c && !ops[j].Hit?;
      assert all[j].c == c;
    }
    if Settles(all, c) {
      var j :| 0 <= j < |all| && all[j].c == c && !all[j].Hit?;
      assert j < |ops| ==> ops[j].c == c;
    }
  }

  lemma RowAtSnoc(ops: seq<LogOp>, o: LogOp, c: string)
    ensures RowAt(ops + [o], c) ==
            if o.c == c && o.Row? then Some(RowData(o.u, o.a, o.e, Wrap32(o.i)))
            else if o.c == c && o.Del? then None
            else RowAt(ops, c)
  {
    assert (ops + [o])[..|ops|] == ops;
  }

  lemma {:induction false} RowAtUnsettled(ops: seq<LogOp>, c: string)
    requires !Settles(ops, c)
    ensures RowAt(ops, c) == None
    decreases |ops|
  {
    if ops != [] {
      var k := |ops| - 1;
      assert ops == ops[..k] + [ops[k]];
      SettlesSnoc(ops[..k], ops[k], c);
      RowAtUnsettled(ops[..k], c);
    }
  }

  /** The later log wins for the codes it settles, and is silent on the others. */
  lemma {:induction false} RowAtAppend(a: seq<LogOp>, b: seq<LogOp>, c: string)
    ensures RowAt(a + b, c) == if Settles(b, c) then RowAt(b, c) else RowAt(a, c)
    decreases |b|
  {
    if b == [] {
      assert a + b == a;
    } else {
      var k := |b| - 1;
      var b0, o := b[..k], b[k];
      RowAtAppend(a, b0, c);
      assert b == b0 + [o] && a + b == (a + b0) + [o];
      RowAtSnoc(a + b0, o, c);
      RowAtSnoc(b0, o, c);
      SettlesSnoc(b0, o, c);
    }
  }

  lemma ApplyRowIn(me: nat, s: Index, o: LogOp, v: string, c: string)
    requires o.c != ""
    ensures RowIn(ApplyLog(me, s, o, v), c) ==
            if o.c == c && o.Row? then Some(RowData(o.u, o.a, o.e, Wrap32(o.i)))
            else if o.c == c && o.Del? then None
            else RowIn(s, c)
  {}

  /** Rows after a replay depend on the log alone, never on what was evicted. */
  lemma {:induction false} ReplayRows(me: nat, s: Index, ops: seq<LogOp>, victims: seq<string>, c: string)
    requires |victims| == |ops| && AllLoggable(ops)
    ensures RowIn(Replay(me, s, ops, victims), c) == if Settles(ops, c) then RowAt(ops, c) else RowIn(s, c)
    decreases |ops|
  {
    hide ApplyLog;
    if ops != [] {
      var k := |ops| - 1;
      ReplayRows(me, s, ops[..k], victims[..k], c);
      assert ops == ops[..k] + [ops[k]];
      SettlesSnoc(ops[..k], ops[k], c);
      assert Loggable(ops[k]);
      ApplyRowIn(me, Replay(me, s, ops[..k], victims[..k]), ops[k], victims[k], c);
    }
  }

  lemma RecoveredRows(me: nat, ops: seq<LogOp>, victims: seq<string>, c: string)
    requires |victims| == |ops| && AllLoggable(ops)
    ensures RowIn(Replay(me, EMPTY, ops, victims), c) == RowAt(ops, c)
  {
    ReplayRows(me, EMPTY, ops, victims, c);
    if !Settles(ops, c) {
      RowAtUnsettled(ops, c);
    }
  }

  // ---------- own hits ----------

  /** The own hits a log records for `c` since its last row line, that line's count included. */
  function OwnAt(me: nat, ops: seq<LogOp>, c: string): int
    decreases |ops|
  {
    if ops == [] then 0
    else
      var o := ops[|ops| - 1];
      var before := ops[..|ops| - 1];
      if o.c != c then OwnAt(me, before, c)
      else match o
           case Row(_, _, _, _, _, n) => n
           case Hit(_, d, i) => OwnAt(me, before, c) + if i == me then d else 0
           case Del(_) => 0
  }

  /** Hits of `c` are logged although its row is not there. */
  ghost predicate Orphaned(ops: seq<LogOp>, c: string)
    decreases |ops|
  {
    ops != [] &&
    var o := ops[|ops| - 1];
    var before := ops[..|ops| - 1];
    if o.c != c then Orphaned(before, c) else o.Hit? && (Orphaned(before, c) || RowAt(before, c) == None)
  }

  /** No row of `c` comes after hits of `c` that had no row. */
  ghost predicate Solid(ops: seq<LogOp>, c: string)
    decreases |ops|
  {
    ops != [] ==>
      var o := ops[|ops| - 1];
      var before := ops[..|ops| - 1];
      Solid(before, c) && (o.c == c && o.Row? ==> !Orphaned(before, c))
  }

  lemma OwnSnoc(me: nat, ops: seq<LogOp>, o: LogOp, c: string)
    ensures OwnAt(me, ops + [o], c) ==
            if o.c != c then OwnAt(me, ops, c)
            else if o.Row? then o.n
            else if o.Hit? then OwnAt(me, ops, c) + if o.i == me then o.d else 0
            else 0
    ensures Orphaned(ops + [o], c) ==
            if o.c != c then Orphaned(ops, c) else o.Hit? && (Orphaned(ops, c) || RowAt(ops, c) == None)
    ensures Solid(ops + [o], c) == (Solid(ops, c) && (o.c == c && o.Row? ==> !Orphaned(ops, c)))
  {
    assert (ops + [o])[..|ops|] == ops;
  }

  lemma {:induction false} OrphanedAbsent(ops: seq<LogOp>, c: string)
    requires Orphaned(ops, c)
    ensures RowAt(ops, c) == None
    decreases |ops|
  {
    var k := |ops| - 1;
    if Orphaned(ops[..k], c) {
      OrphanedAbsent(ops[..k], c);
    }
  }

  lemma WrapWhole(n: int64)
    ensures Wrap(n) == n
  {}

  lemma ApplyStray(me: nat, s: Index, o: LogOp, v: string, c: string)
    requires o.c != ""
    ensures var s' := ApplyLog(me, s, o, v);
            (c in s'.stray ==> c in s.stray || (o.c == c && o.Hit? && c !in s.data)) &&
            (c in s'.stray && o.c == c ==> o.Hit?)
  {}

  lemma ApplyOwn(me: nat, s: Index, o: LogOp, v: string, c: string)
    requires o.c != ""
    ensures var s' := ApplyLog(me, s, o, v);
            c in s'.data && c !in s.stray ==>
              s'.data[c].oh == if o.c != c then s.data[c].oh
                               else if o.Row? then o.n
                               else if o.i == me then Wrap(s.data[c].oh + o.d) else s.data[c].oh
  {
    hide MakeRoom, Wrap, Wrap32;
    if o.Row? {
      WrapWhole(o.n);
    }
  }

  /** Under replay a stray of `c` betrays orphaned hits, and an own-hit count is the one
      the log records, whatever was evicted on the way. */
  lemma {:induction false} ReplayOwn(me: nat, ops: seq<LogOp>, victims: seq<string>, c: string)
    requires |victims| == |ops| && AllLoggable(ops) && Solid(ops, c)
    ensures var s := Replay(me, EMPTY, ops, victims);
            (c in s.stray ==> Orphaned(ops, c)) &&
            (c in s.data ==> s.data[c].oh == Wrap(OwnAt(me, ops, c)))
    decreases |ops|
  {
    hide ApplyLog, Solid, Orphaned;
    if ops == [] {
    } else {
      var k := |ops| - 1;
      var before, o := ops[..k], ops[k];
      assert ops == before + [o];
      OwnSnoc(me, before, o, c);
      var s := Replay(me, EMPTY, before, victims[..k]);
      ReplayOwn(me, before, victims[..k], c);
      RecoveredRows(me, before, victims[..k], c);
      assert Loggable(o);
      ApplyStray(me, s, o, victims[k], c);
      ApplyOwn(me, s, o, victims[k], c);
      ApplyRowIn(me, s, o, victims[k], c);
      if c in s.data && c in s.stray {
        OrphanedAbsent(before, c);
      }
      WrapAdd(OwnAt(me, before, c), if o.Hit? then o.d else 0);
      assert o.Row? ==> Wrap(o.n) == o.n;
    }
  }

  /** The own hits a log records for `c`, those that came before its row included: they wait for
      the row, and a tombstone drops them. */
  function OwnOrWaiting(me: nat, ops: seq<LogOp>, c: string): int
    decreases |ops|
  {
    if ops == [] then 0
    else
      var o := ops[|ops| - 1];
      var before := ops[..|ops| - 1];
      if o.c != c then OwnOrWaiting(me, before, c)
      else match o
           case Row(_, _, _, _, _, n) => n + if RowAt(before, c) == None then OwnOrWaiting(me, before, c) else 0
           case Hit(_, d, i) => OwnOrWaiting(me, before, c) + if i == me then d else 0
           case Del(_) => 0
  }

  /** The own-hit counter of `c` in its row, or else among the strays. */
  function OwnIn(s: Index, c: string): int64 {
    if c in s.data then s.data[c].oh else StrayOf(s, c).o
  }

  lemma ApplyOwnIn(me: nat, s: Index, o: LogOp, v: string, c: string)
    requires o.c != "" && v != c && (c in s.data ==> c !in s.stray)
    ensures var s' := ApplyLog(me, s, o, v);
            (c in s'.data ==> c !in s'.stray) &&
            OwnIn(s', c) == if o.c != c then OwnIn(s, c)
                            else if o.Row? then Wrap(o.n + if c in s.data then 0 else OwnIn(s, c))
                            else if o.Del? then 0
                            else if o.i == me then Wrap(OwnIn(s, c) + o.d) else OwnIn(s, c)
  {
    hide Wrap, Wrap32, MakeRoom;
    if o.Hit? && o.c !in s.data {
      RoomMade(s.stray, v, o.c);
      RoomMade(s.stray, v, c);
    }
  }

  /** Making room drops the victim only. */
  lemma RoomMade(stray: map<string, Stray>, victim: string, c: string)
    ensures var room := MakeRoom(stray, victim);
            (c in room <==> c in stray && !(|stray| >= MAX_STRAY && c == victim)) && (c in room ==> room[c] == stray[c])
  {}

  /** Whatever the order of rows and hits: as long as the hits of `c` are not evicted, a replay
      counts its own hits just as the log records them. */
  lemma {:induction false} ReplayOwnInAnyOrder(me: nat, ops: seq<LogOp>, victims: seq<string>, c: string)
    requires |victims| == |ops| && AllLoggable(ops) && forall j :: 0 <= j < |ops| ==> victims[j] != c
    ensures var s := Replay(me, EMPTY, ops, victims);
            (c in s.data ==> c !in s.stray) && OwnIn(s, c) == Wrap(OwnOrWaiting(me, ops, c))
    decreases |ops|
  {
    hide ApplyLog, OwnIn, Wrap;
    if ops == [] {
      NothingOwn(c);
    } else {
      var k := |ops| - 1;
      var before, o := ops[..k], ops[k];
      var s := Replay(me, EMPTY, before, victims[..k]);
      ReplayOwnInAnyOrder(me, before, victims[..k], c);
      RecoveredRows(me, before, victims[..k], c);
      assert Loggable(o);
      ApplyOwnIn(me, s, o, victims[k], c);
      OwnStep(OwnOrWaiting(me, before, c), if o.Row? then o.n else if o.Hit? then o.d else 0);
    }
  }

  lemma NothingOwn(c: string)
    ensures OwnIn(EMPTY, c) == Wrap(0)
  {}

  lemma OwnStep(x: int, d: int64)
    ensures Wrap(Wrap(x) + d) == Wrap(x + d) == Wrap(d + Wrap(x)) && Wrap(d + x) == Wrap(x + d) && Wrap(0) == 0 &&
            Wrap(d) == d
  {
    WrapAdd(x, d);
  }
}
