/** Logs of operations: what a log file of printed operations says when it is read back,
    whole, torn by a crash, or piece by piece. */
module OpLog {
  import opened Ints
  import opened LogLine
  import opened LineRoundTrip
  import opened LogFile

  ghost predicate AllLoggable(ops: seq<LogOp>) {
    forall j :: 0 <= j < |ops| ==> Loggable(ops[j])
  }

  function Lines(ops: seq<LogOp>): (lines: seq<string>)
    ensures |lines| == |ops|
    ensures forall j :: 0 <= j < |ops| ==> lines[j] == LineOf(ops[j])
  {
    if ops == [] then [] else [LineOf(ops[0])] + Lines(ops[1..])
  }

  function PrintOps(ops: seq<LogOp>): string {
    Print(Lines(ops))
  }

  lemma LinesAppend(a: seq<LogOp>, b: seq<LogOp>)
    ensures Lines(a + b) == Lines(a) + Lines(b)
    ensures PrintOps(a + b) == PrintOps(a) + PrintOps(b)
  {
    hide LineOf, Print;
    var all := Lines(a + b);
    forall j | 0 <= j < |all| ensures all[j] == (Lines(a) + Lines(b))[j] {
      assert (a + b)[j] == if j < |a| then a[j] else b[j - |a|];
    }
    assert all == Lines(a) + Lines(b);
    hide Lines;
    PrintAppend(Lines(a), Lines(b));
  }

  lemma PrintOne(o: LogOp)
    ensures PrintOps([o]) == LineOf(o) + [NL]
  {
    assert Lines([o]) == [LineOf(o)];
    assert Print([LineOf(o)]) == LineOf(o) + [NL] + Print([]);
  }

  // ---------- printed lines hold no raw newline ----------

  lemma {:induction false} EscapedClean(u: string)
    ensures NL !in Escaped(u)
  {
    if u != "" {
      EscapedClean(u[1..]);
      EscapedCharClean(u[0]);
    }
  }

  lemma EscapedCharClean(c: char)
    ensures NL !in EscapedChar(c)
  {}

  lemma DecClean(n: int64)
    ensures NL !in Dec(n)
  {
    DecParse(n);
  }

  lemma FieldClean(f: Field)
    requires f.k != NL
    ensures NL !in FieldText(f)
  {
    if f.Text? {
      EscapedClean(f.s);
    } else if f.Num? {
      DecClean(f.v);
    }
  }

  lemma {:induction false} TailClean(fs: seq<Field>)
    requires forall j :: 0 <= j < |fs| ==> fs[j].k != NL
    ensures NL !in TailText(fs)
  {
    if fs != [] {
      FieldClean(fs[0]);
      TailClean(fs[1..]);
    }
  }

  lemma LineClean(o: LogOp)
    requires Loggable(o)
    ensures LineOf(o) != "" && NL !in LineOf(o)
  {
    var fs := FieldsOf(o);
    PrintedFields(o);
    FieldClean(fs[0]);
    TailClean(fs[1..]);
  }

  lemma LinesClean(ops: seq<LogOp>)
    requires AllLoggable(ops)
    ensures Clean(Lines(ops))
  {
    forall j | 0 <= j < |ops| ensures Lines(ops)[j] != "" && NL !in Lines(ops)[j] {
      LineClean(ops[j]);
    }
  }

  // ---------- reading logs back ----------

  /** `lines` parse to exactly `ops`. */
  ghost predicate ParseTo(lines: seq<string>, ops: seq<LogOp>) {
    |lines| == |ops| && forall j :: 0 <= j < |ops| ==> Parse(lines[j]) == Good(ToOp(ops[j]))
  }

  lemma LinesParse(ops: seq<LogOp>)
    requires AllLoggable(ops)
    ensures ParseTo(Lines(ops), ops)
  {
    forall j | 0 <= j < |ops| ensures Parse(Lines(ops)[j]) == Good(ToOp(ops[j])) {
      RoundTrip(ops[j]);
    }
  }

  /** A log that ends in a torn line replays as its whole lines do. */
  lemma WholeLog(ops: seq<LogOp>, torn: string)
    requires AllLoggable(ops) && NL !in torn
    ensures SplitOf(PrintOps(ops) + torn) == Split(Lines(ops), torn)
    ensures ParseTo(SplitOf(PrintOps(ops) + torn).lines, ops)
  {
    LinesClean(ops);
    LinesParse(ops);
    SplitPrint(Lines(ops), torn);
  }

  /** Crash-prefix consistency: any byte prefix of a printed log replays as its first k
      operations, k being the number of newlines that made it to disk. */
  lemma CrashPrefix(ops: seq<LogOp>, disk: string)
    requires AllLoggable(ops) && disk <= PrintOps(ops)
    ensures CountNL(disk) <= |ops|
    ensures ParseTo(SplitOf(disk).lines, ops[..CountNL(disk)])
  {
    LinesClean(ops);
    PrefixLines(Split([], ""), Lines(ops), disk);
    var k := CountNL(disk);
    assert SplitOf(disk).lines == Lines(ops)[..k];
    LinesParse(ops);
  }

  /** A reader that tails a log being written, cut anywhere between its reads, has
      delivered the first k operations and no other, k being the number of newlines seen. */
  lemma TailedPrefix(ops: seq<LogOp>, views: seq<string>)
    requires AllLoggable(ops) && views != [] && Growing(views)
    requires views[|views| - 1] <= PrintOps(ops)
    ensures CountNL(views[|views| - 1]) <= |ops|
    ensures ParseTo(TailReads(views).1, ops[..CountNL(views[|views| - 1])])
  {
    TailChunking(views);
    CrashPrefix(ops, views[|views| - 1]);
  }

  /** The lines a reader gets between two looks at a log are those written in between. */
  lemma TailedSlice(ops: seq<LogOp>, seen: string, file: string)
    requires AllLoggable(ops) && seen <= file <= PrintOps(ops)
    ensures CountNL(seen) <= CountNL(file) <= |ops|
    ensures var (t, lines) := TailRead(Tail(|seen|, SplitOf(seen).rest), file);
            t == Tail(|file|, SplitOf(file).rest) && ParseTo(lines, ops[CountNL(seen)..CountNL(file)])
  {
    hide PrintOps, SplitOf, CountNL, TailRead, AllLoggable;
    CrashPrefix(ops, seen);
    CrashPrefix(ops, file);
    ReadRest(seen, file);
    var lines := TailRead(Tail(|seen|, SplitOf(seen).rest), file).1;
    SliceParse(SplitOf(seen).lines, lines, SplitOf(file).lines, ops, CountNL(seen), CountNL(file));
  }

  lemma SliceParse(before: seq<string>, lines: seq<string>, all: seq<string>, ops: seq<LogOp>, a: nat, b: nat)
    requires a <= |ops| && b <= |ops| && all == before + lines
    requires ParseTo(before, ops[..a]) && ParseTo(all, ops[..b])
    ensures a <= b && ParseTo(lines, ops[a..b])
  {
    hide Parse, ToOp;
    forall j | 0 <= j < |lines| ensures Parse(lines[j]) == Good(ToOp(ops[a..b][j])) {
      assert lines[j] == all[a + j];
      assert ops[..b][a + j] == ops[a..b][j];
    }
  }
}
