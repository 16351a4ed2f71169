/** A sibling whose log is compacted: what a reader of that log gets across truncations, and
    exactly when its rows are still those of the owner. Rows of a code come from its owner's log
    alone, so one owner and one reader are enough. */
module Truncation {
  import opened Ints
  import opened LogLine
  import opened LineRoundTrip
  import opened LogFile
  import opened OpLog
  import opened Table

  // ---------- what the lines make of a table ----------

  /** `applyLine` on each of some lines, whatever they hold. */
  function TableOf(me: nat, lines: seq<string>, victims: seq<string>): Index
    requires |victims| == |lines|
    decreases |lines|
  {
    if lines == [] then EMPTY
    else
      var k := |lines| - 1;
      var s := TableOf(me, lines[..k], victims[..k]);
      match Parse(lines[k])
      case Good(o) => Apply(me, s, o, victims[k])
      case _ => s
  }

  lemma {:induction false} TableIsReplay(me: nat, lines: seq<string>, ops: seq<LogOp>, victims: seq<string>)
    requires |victims| == |lines| && ParseTo(lines, ops)
    ensures TableOf(me, lines, victims) == Replay(me, EMPTY, ops, victims)
    decreases |lines|
  {
    hide Apply, Parse;
    if lines != [] {
      var k := |lines| - 1;
      assert ParseTo(lines[..k], ops[..k]);
      TableIsReplay(me, lines[..k], ops[..k], victims[..k]);
    }
  }

  /** The lines leave these rows, whoever reads them and whatever is evicted on the way. */
  ghost predicate Leaves(lines: seq<string>, ops: seq<LogOp>) {
    forall me: nat, victims: seq<string>, c: string {:trigger RowIn(TableOf(me, lines, victims), c)} ::
      |victims| == |lines| ==> RowIn(TableOf(me, lines, victims), c) == RowAt(ops, c)
  }

  lemma ParsedLeaves(lines: seq<string>, ops: seq<LogOp>)
    requires ParseTo(lines, ops) && AllLoggable(ops)
    ensures Leaves(lines, ops)
  {
    hide ParseTo, TableOf, Replay, RowAt;
    forall me: nat, victims: seq<string>, c: string | |victims| == |lines|
      ensures RowIn(TableOf(me, lines, victims), c) == RowAt(ops, c)
    {
      TableIsReplay(me, lines, ops, victims);
      ParsedLength(lines, ops);
      RecoveredRows(me, ops, victims, c);
    }
  }

  lemma ParsedLength(lines: seq<string>, ops: seq<LogOp>)
    requires ParseTo(lines, ops)
    ensures |lines| == |ops|
  {}

  lemma ParseAppend(a: seq<string>, ops: seq<LogOp>, b: seq<string>, more: seq<LogOp>)
    requires ParseTo(a, ops) && ParseTo(b, more)
    ensures ParseTo(a + b, ops + more)
  {
    hide Parse;
  }

  lemma LoggableAppend(a: seq<LogOp>, b: seq<LogOp>)
    requires AllLoggable(a) && AllLoggable(b)
    ensures AllLoggable(a + b)
  {
    hide Loggable;
  }

  // ---------- any number of truncations ----------

  /** A look that finds the file shorter than what was read of it starts again. */
  lemma {:induction false} ResetReads(before: seq<string>, views: seq<string>)
    requires views != [] && |views[0]| < TailReads(before).0.offset
    ensures TailReads(before + views) == (TailReads(views).0, TailReads(before).1 + TailReads(views).1)
    decreases |views|
  {
    hide Feed;
    var k := |views| - 1;
    var all := before + views;
    assert all[..|all| - 1] == before + views[..k] && all[|all| - 1] == views[k];
    if k == 0 {
      assert before + views[..0] == before;
      assert TailReads(views[..0]) == (FROM_START, []);
      ResetOnce(TailReads(before).0, views[0]);
      var more := TailRead(FROM_START, views[0]).1;
      assert [] + more == more;
    } else {
      ResetReads(before, views[..k]);
      var (t, lines) := TailReads(views[..k]);
      var more := TailRead(t, views[k]).1;
      assert (TailReads(before).1 + lines) + more == TailReads(before).1 + (lines + more);
    }
  }

  lemma ResetOnce(t: Tail, file: string)
    requires |file| < t.offset
    ensures TailRead(t, file) == TailRead(FROM_START, file)
  {}

  /** One life of the file, from empty to what a compaction truncates: all that was logged, and
      what a reader saw of it. */
  datatype Life = Life(ops: seq<LogOp>, views: seq<string>)

  /** Looked at at least once, and grown in between. */
  ghost predicate Looked(l: Life) {
    AllLoggable(l.ops) && l.views != [] && Growing(l.views) && l.views[|l.views| - 1] <= PrintOps(l.ops)
  }

  /** All of it was read before the next life began, whose first look came while the file was
      still shorter than what had been read. */
  ghost predicate InTime(l: Life, next: Life) {
    Looked(l) && Looked(next) && l.views[|l.views| - 1] == PrintOps(l.ops) && |next.views[0]| < |PrintOps(l.ops)|
  }

  ghost predicate Orderly(lives: seq<Life>) {
    lives != [] && (forall g :: 0 <= g < |lives| ==> Looked(lives[g])) &&
    forall g :: 0 <= g < |lives| - 1 ==> InTime(lives[g], lives[g + 1])
  }

  /** All looks, one life after the other. */
  function Looks(lives: seq<Life>): seq<string>
    decreases |lives|
  {
    if lives == [] then [] else Looks(lives[..|lives| - 1]) + lives[|lives| - 1].views
  }

  /** All that was logged in the lives before the last, and what was seen of the last. */
  function Logged(lives: seq<Life>): seq<LogOp>
    requires lives != []
    decreases |lives|
  {
    var k := |lives| - 1;
    var views := lives[k].views;
    var seen := if views == [] then 0 else CountNL(views[|views| - 1]);
    Whole(lives[..k]) + if seen <= |lives[k].ops| then lives[k].ops[..seen] else lives[k].ops
  }

  function Whole(lives: seq<Life>): seq<LogOp>
    decreases |lives|
  {
    if lives == [] then [] else Whole(lives[..|lives| - 1]) + lives[|lives| - 1].ops
  }

  lemma LifeReads(l: Life)
    requires Looked(l)
    ensures var last := l.views[|l.views| - 1];
            TailReads(l.views).0.offset == |last| && CountNL(last) <= |l.ops| &&
            ParseTo(TailReads(l.views).1, l.ops[..CountNL(last)]) && AllLoggable(l.ops[..CountNL(last)])
    ensures l.views[|l.views| - 1] == PrintOps(l.ops) ==> CountNL(PrintOps(l.ops)) == |l.ops|
  {
    hide PrintOps, SplitOf, Parse;
    TailChunking(l.views);
    TailedPrefix(l.ops, l.views);
    CountOps(l.ops);
  }

  lemma CountOps(ops: seq<LogOp>)
    requires AllLoggable(ops)
    ensures CountNL(PrintOps(ops)) == |ops|
  {
    LinesClean(ops);
    CountPrint(Lines(ops));
  }

  lemma {:induction false} LivesRead(lives: seq<Life>)
    requires Orderly(lives)
    ensures var last := lives[|lives| - 1];
            TailReads(Looks(lives)).0.offset == |last.views[|last.views| - 1]| &&
            ParseTo(TailReads(Looks(lives)).1, Logged(lives)) && AllLoggable(Logged(lives)) && AllLoggable(Whole(lives))
    decreases |lives|
  {
    hide TailReads, ParseTo, AllLoggable, PrintOps, CountNL, Growing, Looks, Logged, Whole;
    var k := |lives| - 1;
    var l := lives[k];
    LifeReads(l);
    if k == 0 {
      OneLife(lives);
    } else {
      ShorterOrderly(lives);
      LivesRead(lives[..k]);
      assert InTime(lives[k - 1], lives[k]);
      LifeReads(lives[k - 1]);
      AllSeen(lives[..k]);
      Unfolded(lives);
      NextLife(Looks(lives[..k]), Whole(lives[..k]), l);
    }
  }

  lemma Unfolded(lives: seq<Life>)
    requires lives != [] && lives[|lives| - 1].views != []
    ensures var k := |lives| - 1; var l := lives[k];
            Looks(lives) == Looks(lives[..k]) + l.views && Whole(lives) == Whole(lives[..k]) + l.ops &&
            (CountNL(l.views[|l.views| - 1]) <= |l.ops| ==>
               Logged(lives) == Whole(lives[..k]) + l.ops[..CountNL(l.views[|l.views| - 1])])
  {
    hide CountNL;
  }

  /** One life more, when all before was read and the first look at it comes in time. */
  lemma NextLife(before: seq<string>, whole: seq<LogOp>, l: Life)
    requires Looked(l) && AllLoggable(whole) && ParseTo(TailReads(before).1, whole)
    requires |l.views[0]| < TailReads(before).0.offset
    ensures var last := l.views[|l.views| - 1];
            TailReads(before + l.views).0.offset == |last| && CountNL(last) <= |l.ops| &&
            ParseTo(TailReads(before + l.views).1, whole + l.ops[..CountNL(last)]) &&
            AllLoggable(whole + l.ops[..CountNL(last)]) && AllLoggable(whole + l.ops)
  {
    hide TailReads, ParseTo, Loggable, PrintOps, CountNL, Growing;
    LifeReads(l);
    ResetReads(before, l.views);
    ParseAppend(TailReads(before).1, whole, TailReads(l.views).1, l.ops[..CountNL(l.views[|l.views| - 1])]);
    LoggableAppend(whole, l.ops);
    LoggableAppend(whole, l.ops[..CountNL(l.views[|l.views| - 1])]);
  }

  lemma ShorterOrderly(lives: seq<Life>)
    requires Orderly(lives) && |lives| > 1
    ensures Orderly(lives[..|lives| - 1])
  {
    hide Looked;
    var before := lives[..|lives| - 1];
    forall g | 0 <= g < |before| - 1 ensures InTime(before[g], before[g + 1]) {
      assert InTime(lives[g], lives[g + 1]);
    }
  }

  lemma OneLife(lives: seq<Life>)
    requires |lives| == 1 && Looked(lives[0])
    ensures Looks(lives) == lives[0].views && Whole(lives) == lives[0].ops
    ensures CountNL(lives[0].views[|lives[0].views| - 1]) <= |lives[0].ops| ==>
              Logged(lives) == lives[0].ops[..CountNL(lives[0].views[|lives[0].views| - 1])]
  {
    hide AllLoggable, Growing, PrintOps;
    assert lives[..0] == [];
    assert [] + lives[0].views == lives[0].views && [] + lives[0].ops == lives[0].ops;
  }

  lemma AllSeen(lives: seq<Life>)
    requires lives != [] && lives[|lives| - 1].views != []
    requires var l := lives[|lives| - 1]; CountNL(l.views[|l.views| - 1]) == |l.ops|
    ensures Logged(lives) == Whole(lives)
  {
    var l := lives[|lives| - 1];
    assert l.ops[..|l.ops|] == l.ops;
  }

  /** Row convergence across truncations: however often the owner compacts, a reader that reads
      each life of the file to its end, and looks at the next before that has outgrown it, has
      the rows of all that was logged so far. */
  lemma RowsAcross(lives: seq<Life>)
    requires Orderly(lives)
    ensures Leaves(TailReads(Looks(lives)).1, Logged(lives))
  {
    hide Looked, InTime, TailReads, Leaves, ParseTo, AllLoggable;
    LivesRead(lives);
    ParsedLeaves(TailReads(Looks(lives)).1, Logged(lives));
  }

  // ---------- one truncation, exactly ----------

  /** A reader saw `seen` of a log, then, after the truncation, first `look` and in the end all
      of the new file. */
  function Delivered(seen: string, look: string, file: string): seq<string> {
    TailReads([seen, look, file]).1
  }

  /** Whatever is logged after the truncation, if the first look at it finds fewer than `bound`
      bytes, the reader ends up with the owner's rows. */
  ghost predicate Converges(ops: seq<LogOp>, seen: string, bound: nat) {
    forall more: seq<LogOp>, look: string {:trigger Delivered(seen, look, PrintOps(more))} ::
      AllLoggable(more) && look <= PrintOps(more) && |look| < bound ==>
        Leaves(Delivered(seen, look, PrintOps(more)), ops + more)
  }

  lemma DeliveredInTime(ops: seq<LogOp>, seen: string, more: seq<LogOp>, look: string)
    requires AllLoggable(ops) && seen <= PrintOps(ops) && AllLoggable(more) && look <= PrintOps(more)
    requires |look| < |seen|
    ensures CountNL(seen) <= |ops| && ParseTo(Delivered(seen, look, PrintOps(more)), ops[..CountNL(seen)] + more)
  {
    hide TailReads, Parse, Loggable, PrintOps, CountNL, Growing;
    var file := PrintOps(more);
    var first, second := Life(ops, [seen]), Life(more, [look, file]);
    assert Looked(first) && Looked(second) by { LooksFine(ops, seen, more, look); }
    LifeReads(first);
    LifeReads(second);
    CountOps(more);
    assert [seen, look, file] == first.views + second.views;
    ResetReads(first.views, second.views);
    assert more[..|more|] == more;
    ParseAppend(TailReads(first.views).1, ops[..CountNL(seen)], TailReads(second.views).1, more);
  }

  lemma LooksFine(ops: seq<LogOp>, seen: string, more: seq<LogOp>, look: string)
    requires AllLoggable(ops) && seen <= PrintOps(ops) && AllLoggable(more) && look <= PrintOps(more)
    ensures Looked(Life(ops, [seen])) && Looked(Life(more, [look, PrintOps(more)]))
  {}

  ghost predicate SameRows(a: seq<LogOp>, b: seq<LogOp>) {
    forall c :: RowAt(a, c) == RowAt(b, c)
  }

  lemma AgreeWhen(read: seq<LogOp>, ops: seq<LogOp>, more: seq<LogOp>, c: string)
    requires RowAt(read, c) == RowAt(ops, c)
    ensures RowAt(read + more, c) == RowAt(ops + more, c)
  {
    RowAtAppend(read, more, c);
    RowAtAppend(ops, more, c);
  }

  /** A look in time is sure to find the truncation. Then the reader converges if and only if
      what it had not read before changes no row. */
  lemma ReadEnough(ops: seq<LogOp>, seen: string)
    requires AllLoggable(ops) && seen <= PrintOps(ops) && seen != ""
    ensures CountNL(seen) <= |ops|
    ensures Converges(ops, seen, |seen|) <==> SameRows(ops[..CountNL(seen)], ops)
  {
    hide PrintOps, RowAt, CountNL, Loggable, ParseTo, Converges, SameRows;
    CrashPrefix(ops, seen);
    var read := ops[..CountNL(seen)];
    if SameRows(read, ops) {
      EnoughConverges(ops, seen, read);
    }
    if Converges(ops, seen, |seen|) {
      NothingMore(ops, seen, read);
    }
  }

  lemma EnoughConverges(ops: seq<LogOp>, seen: string, read: seq<LogOp>)
    requires AllLoggable(ops) && seen <= PrintOps(ops) && CountNL(seen) <= |ops| && read == ops[..CountNL(seen)]
    requires SameRows(read, ops)
    ensures Converges(ops, seen, |seen|)
  {
    hide Delivered, Leaves, PrintOps, RowAt, CountNL, Loggable, ParseTo;
    forall more: seq<LogOp>, look: string | AllLoggable(more) && look <= PrintOps(more) && |look| < |seen|
      ensures Leaves(Delivered(seen, look, PrintOps(more)), ops + more)
    {
      DeliveredInTime(ops, seen, more, look);
      LoggableAppend(read, more);
      ParsedLeaves(Delivered(seen, look, PrintOps(more)), read + more);
      forall c ensures RowAt(read + more, c) == RowAt(ops + more, c) {
        AgreeWhen(read, ops, more, c);
      }
      SameLeaves(Delivered(seen, look, PrintOps(more)), read + more, ops + more);
    }
  }

  lemma SameLeaves(lines: seq<string>, a: seq<LogOp>, b: seq<LogOp>)
    requires Leaves(lines, a) && SameRows(a, b)
    ensures Leaves(lines, b)
  {
    hide TableOf, RowAt;
  }

  lemma OnlyOneLeft(lines: seq<string>, a: seq<LogOp>, b: seq<LogOp>, c: string)
    requires Leaves(lines, a) && Leaves(lines, b)
    ensures RowAt(a, c) == RowAt(b, c)
  {
    hide TableOf, RowAt;
    var victims := seq(|lines|, _ => "");
    assert RowIn(TableOf(0, lines, victims), c) == RowAt(a, c);
    assert RowIn(TableOf(0, lines, victims), c) == RowAt(b, c);
  }

  /** When nothing more is logged the unread rest is all that matters. */
  lemma NothingMore(ops: seq<LogOp>, seen: string, read: seq<LogOp>)
    requires AllLoggable(ops) && seen <= PrintOps(ops) && seen != "" && Converges(ops, seen, |seen|)
    requires CountNL(seen) <= |ops| && read == ops[..CountNL(seen)]
    ensures SameRows(read, ops)
  {
    hide Delivered, Leaves, RowAt, CountNL, Loggable, ParseTo;
    var none: seq<LogOp> := [];
    assert PrintOps(none) == "" && "" <= PrintOps(none);
    var lines := Delivered(seen, "", PrintOps(none));
    assert Leaves(lines, ops + none);
    DeliveredInTime(ops, seen, none, "");
    assert read + none == read && ops + none == ops;
    ParsedLeaves(lines, read);
    forall c ensures RowAt(read, c) == RowAt(ops, c) {
      OnlyOneLeft(lines, read, ops, c);
    }
  }

  // ---------- a look that comes too late ----------

  /** A row of this many bytes, one of two. */
  function Filler(n: nat, a: int64): LogOp
  {
    Row("x", Us(n), a, 1, 0, 0)
  }

  function Us(n: nat): string {
    if n == 0 then "" else "u" + Us(n - 1)
  }

  const SHORTEST := |RowLine("x", "", 0, 1, 0, 0)|

  lemma {:induction false} UsPlain(n: nat)
    ensures |Us(n)| == n && Escaped(Us(n)) == Us(n)
  {
    if n > 0 {
      UsPlain(n - 1);
      assert Us(n)[0] == 'u' && Us(n)[1..] == Us(n - 1);
    }
  }

  lemma FillerLength(n: nat, a: int64)
    requires a == 0 || a == 1
    ensures |LineOf(Filler(n, a))| == SHORTEST + n && Loggable(Filler(n, a))
  {
    UsPlain(n);
    UsPlain(0);
  }

  lemma NumberWidth(n: int64)
    ensures |Dec(n)| >= 1
  {
    DecParse(n);
  }

  /** No row line is shorter. */
  lemma ShortestRow(o: LogOp)
    requires Loggable(o) && o.Row?
    ensures |LineOf(o)| >= SHORTEST
  {
    hide Dec, Escaped;
    NumberWidth(o.a);
    NumberWidth(o.e);
    NumberWidth(o.i);
    NumberWidth(o.n);
    ShortestIs();
  }

  lemma ShortestIs()
    ensures SHORTEST == |RowLine("x", "", 0, 1, 0, 0)| && Dec(0) == "0" && Dec(1) == "1" && Escaped("") == ""
  {}

  lemma {:induction false} RowInside(ops: seq<LogOp>, j: nat)
    requires AllLoggable(ops) && j < |ops| && ops[j].Row?
    ensures |PrintOps(ops)| >= SHORTEST + 1
    decreases |ops|
  {
    hide LineOf;
    assert Loggable(ops[j]);
    var first, rest := [ops[0]], ops[1..];
    assert ops == first + rest;
    LinesAppend(first, rest);
    PrintOne(ops[0]);
    if j == 0 {
      ShortestRow(ops[0]);
    } else {
      RowInside(rest, j - 1);
    }
  }

  /** A look that finds the new file just as long as the old one sees nothing. */
  lemma SeesNothing(ops: seq<LogOp>, file: string)
    requires AllLoggable(ops) && |file| == |PrintOps(ops)|
    ensures ParseTo(Delivered(PrintOps(ops), file, file), ops)
  {
    hide PrintOps, Parse, Loggable, CountNL;
    var seen := PrintOps(ops);
    assert Looked(Life(ops, [seen]));
    LifeReads(Life(ops, [seen]));
    assert ops[..|ops|] == ops;
    LogReadWhole(ops);
    SameLength(TailReads([seen]).0, file);
    var views := [seen, file, file];
    assert views[..2] == [seen, file] && views[..2][..1] == [seen];
    assert TailReads([seen, file]).1 == TailReads([seen]).1 + [];
    assert TailReads(views).1 == TailReads([seen]).1 + [] + [];
  }

  lemma LogReadWhole(ops: seq<LogOp>)
    requires AllLoggable(ops)
    ensures TailReads([PrintOps(ops)]).0 == Tail(|PrintOps(ops)|, "")
  {
    TailChunking([PrintOps(ops)]);
    LinesClean(ops);
    RestOfPrint(Split([], ""), Lines(ops));
  }

  lemma SameLength(t: Tail, file: string)
    requires t == Tail(|file|, "")
    ensures TailRead(t, file) == (t, [])
  {
    assert file[|file|..] == "";
  }

  /** A row that ends up with the owner and never with the reader. */
  lemma MissedRow(ops: seq<LogOp>, j: nat) returns (more: seq<LogOp>)
    requires AllLoggable(ops) && j < |ops| && ops[j].Row?
    ensures AllLoggable(more) && |PrintOps(more)| == |PrintOps(ops)| && RowAt(ops + more, "x") != RowAt(ops, "x")
  {
    hide LineOf, Filler;
    RowInside(ops, j);
    var n := |PrintOps(ops)| - 1 - SHORTEST;
    var a: int64 := if RowAt(ops, "x") == RowAt([Filler(n, 0)], "x") then 1 else 0;
    FillerLength(n, a);
    more := [Filler(n, a)];
    PrintOne(Filler(n, a));
    TwoFillers(ops, n);
  }

  lemma TwoFillers(ops: seq<LogOp>, n: nat)
    ensures RowAt([Filler(n, 0)], "x") != RowAt([Filler(n, 1)], "x")
    ensures forall a :: RowAt(ops + [Filler(n, a)], "x") == RowAt([Filler(n, a)], "x")
  {
    hide Us;
    forall a ensures RowAt(ops + [Filler(n, a)], "x") == RowAt([Filler(n, a)], "x") {
      RowAtSnoc(ops, Filler(n, a), "x");
    }
  }

  /** A reader that had read a whole log with a row in it converges if and only if the first look
      after the truncation is sure to come before the file is as long as it was. */
  lemma LookInTime(ops: seq<LogOp>, bound: nat)
    requires AllLoggable(ops) && exists j :: 0 <= j < |ops| && ops[j].Row?
    ensures Converges(ops, PrintOps(ops), bound) <==> bound <= |PrintOps(ops)|
  {
    hide PrintOps, RowAt, Loggable, Converges;
    var j :| 0 <= j < |ops| && ops[j].Row?;
    RowInside(ops, j);
    var seen := PrintOps(ops);
    if bound <= |seen| {
      CountOps(ops);
      assert ops[..|ops|] == ops;
      EnoughConverges(ops, seen, ops);
      LessBound(ops, seen, bound);
    } else {
      var more := MissedRow(ops, j);
      TooLate(ops, more, bound);
    }
  }

  lemma LessBound(ops: seq<LogOp>, seen: string, bound: nat)
    requires Converges(ops, seen, |seen|) && bound <= |seen|
    ensures Converges(ops, seen, bound)
  {
    hide Delivered, Leaves, PrintOps, AllLoggable;
  }

  lemma TooLate(ops: seq<LogOp>, more: seq<LogOp>, bound: nat)
    requires AllLoggable(ops) && AllLoggable(more) && |PrintOps(more)| == |PrintOps(ops)| < bound
    requires RowAt(ops + more, "x") != RowAt(ops, "x")
    ensures !Converges(ops, PrintOps(ops), bound)
  {
    hide Delivered, Leaves, PrintOps, RowAt, Loggable, ParseTo;
    var seen, file := PrintOps(ops), PrintOps(more);
    SeesNothing(ops, file);
    ParsedLeaves(Delivered(seen, file, file), ops);
    if Leaves(Delivered(seen, file, file), ops + more) {
      OnlyOneLeft(Delivered(seen, file, file), ops, ops + more, "x");
    }
    assert !Leaves(Delivered(seen, file, PrintOps(more)), ops + more);
  }
}
