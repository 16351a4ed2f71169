/** Append-only log files: buffered appends, replay of the complete lines of a file, and
    a reader that tails a file another instance appends to. */
module LogFile {
  const NL := '\n'

  // ---------- lines of a file ----------

  /** The non-empty complete lines of some bytes, and the bytes after the last newline. */
  datatype Split = Split(lines: seq<string>, rest: string)

  function FeedByte(s: Split, c: char): Split {
    if c != NL then s.(rest := s.rest + [c])
    else if s.rest == "" then s
    else Split(s.lines + [s.rest], "")
  }

  function Feed(s: Split, bytes: string): Split
    decreases |bytes|
  {
    if bytes == "" then s else Feed(FeedByte(s, bytes[0]), bytes[1..])
  }

  function SplitOf(bytes: string): Split {
    Feed(Split([], ""), bytes)
  }

  lemma {:induction false} FeedAppend(s: Split, a: string, b: string)
    ensures Feed(s, a + b) == Feed(Feed(s, a), b)
    decreases |a|
  {
    if a == "" {
      assert a + b == b;
    } else {
      assert (a + b)[0] == a[0] && (a + b)[1..] == a[1..] + b;
      FeedAppend(FeedByte(s, a[0]), a[1..], b);
    }
  }

  lemma FeedSnoc(s: Split, a: string, i: nat)
    requires i < |a|
    ensures Feed(s, a[..i + 1]) == FeedByte(Feed(s, a[..i]), a[i])
  {
    assert a[..i + 1] == a[..i] + [a[i]];
    FeedAppend(s, a[..i], [a[i]]);
    assert Feed(Feed(s, a[..i]), [a[i]]) == Feed(FeedByte(Feed(s, a[..i]), a[i]), "");
  }

  /** Lines that were complete before stay in front of the new ones. */
  lemma {:induction false} FeedLines(s: Split, bytes: string)
    ensures Feed(s, bytes) ==
            Split(s.lines + Feed(Split([], s.rest), bytes).lines, Feed(Split([], s.rest), bytes).rest)
    decreases |bytes|
  {
    if bytes != "" {
      var t, u := FeedByte(s, bytes[0]), FeedByte(Split([], s.rest), bytes[0]);
      FeedLines(t, bytes[1..]);
      FeedLines(u, bytes[1..]);
      assert t.lines == s.lines + u.lines && t.rest == u.rest;
    }
  }

  lemma {:induction false} FeedPlain(s: Split, bytes: string)
    requires NL !in bytes
    ensures Feed(s, bytes) == s.(rest := s.rest + bytes)
    decreases |bytes|
  {
    if bytes == "" {
      assert s.rest + bytes == s.rest;
    } else {
      FeedPlain(FeedByte(s, bytes[0]), bytes[1..]);
      assert s.rest + [bytes[0]] + bytes[1..] == s.rest + bytes;
    }
  }

  lemma {:induction false} RestClean(s: Split, bytes: string)
    requires NL !in s.rest
    ensures NL !in Feed(s, bytes).rest
    decreases |bytes|
  {
    if bytes != "" {
      RestClean(FeedByte(s, bytes[0]), bytes[1..]);
    }
  }

  lemma FeedLine(s: Split, line: string)
    requires NL !in line && s.rest == ""
    ensures Feed(s, line + [NL]) == if line == "" then s else Split(s.lines + [line], "")
  {
    FeedAppend(s, line, [NL]);
    FeedPlain(s, line);
    assert s.rest + line == line;
    var t := Feed(s, line);
    assert Feed(t, [NL]) == Feed(FeedByte(t, NL), "");
  }

  /** `ReplayFile`: the lines its callback gets, in order. */
  method ReplayFile(buf: string) returns (lines: seq<string>)
    ensures lines == SplitOf(buf).lines
  {
    lines := [];
    var start := 0;
    assert buf[..0] == "";
    while start < |buf|
      invariant start <= |buf|
      invariant SplitOf(buf[..start]) == Split(lines, "")
    {
      var i := start;
      while i < |buf| && buf[i] != NL
        invariant start <= i <= |buf| && NL !in buf[start..i]
      {
        assert buf[start..i + 1] == buf[start..i] + [buf[i]];
        i := i + 1;
      }
      var line := buf[start..i];
      if i == |buf| {
        TornTail(buf, start, lines);
        return;
      }
      assert buf[..i + 1] == buf[..start] + (line + [NL]);
      FeedAppend(Split([], ""), buf[..start], line + [NL]);
      FeedLine(Split(lines, ""), line);
      if i > start {
        lines := lines + [line];
      }
      start := i + 1;
    }
    assert buf[..|buf|] == buf;
  }

  lemma TornTail(buf: string, start: nat, lines: seq<string>)
    requires start <= |buf| && NL !in buf[start..]
    requires SplitOf(buf[..start]) == Split(lines, "")
    ensures SplitOf(buf).lines == lines
  {
    assert buf == buf[..start] + buf[start..];
    FeedAppend(Split([], ""), buf[..start], buf[start..]);
    FeedPlain(Split(lines, ""), buf[start..]);
  }

  // ---------- the log an instance writes ----------

  /** `Aof`: `buf` is queued, `file` is what the file on disk holds. */
  class Aof {
    var buf: string
    var file: string

    constructor (file: string)
      ensures this.buf == "" && this.file == file
    {
      this.buf, this.file := "", file;
    }

    method Push(line: string)
      modifies this`buf
      ensures buf == old(buf) + line + [NL]
    {
      buf := buf + line;
      buf := buf + [NL];
    }

    method PendingBytes() returns (n: nat)
      ensures n == |buf|
    {
      n := |buf|;
    }

    method Flush()
      modifies this
      ensures buf == "" && file == old(file) + old(buf)
    {
      if |buf| == 0 {
        return;
      }
      file := file + buf;
      buf := "";
    }

    /** Empties the file, after writing what was queued. */
    method Truncate()
      modifies this
      ensures buf == "" && file == ""
    {
      Flush();
      file := "";
    }
  }

  // ---------- tailing ----------

  /** What a tail reader remembers: how many bytes it has read, and those of them that
      are not yet a line. */
  datatype Tail = Tail(offset: nat, leftover: string)

  const FROM_START := Tail(0, "")

  /** One read of a file that holds `file`: the new state and the lines delivered. */
  function TailRead(t: Tail, file: string): (Tail, seq<string>) {
    var t0 := if |file| < t.offset then FROM_START else t;
    var s := Feed(Split([], t0.leftover), file[t0.offset..]);
    (Tail(|file|, s.rest), s.lines)
  }

  class TailReader {
    var offset: nat
    var leftover: string

    constructor FromStart()
      ensures View() == FROM_START && Valid()
    {
      offset, leftover := 0, "";
    }

    function View(): Tail
      reads this
    {
      Tail(offset, leftover)
    }

    predicate Valid()
      reads this
    {
      NL !in leftover
    }

    /** Reads what was appended since the last call; from the start if the file shrank. */
    method ReadNew(file: string) returns (lines: seq<string>)
      requires Valid()
      modifies this
      ensures Valid()
      ensures (View(), lines) == TailRead(old(View()), file)
    {
      lines := [];
      if |file| < offset {
        offset := 0;
        leftover := "";
      }
      ghost var start := leftover;
      FeedPlain(Split([], ""), start);
      assert "" + start == start;
      if |file| <= offset {
        return;
      }
      var buf := file[offset..];
      offset := offset + |buf|;
      var data := if |leftover| > 0 then leftover + buf else buf;
      assert data == start + buf;
      FeedAppend(Split([], ""), start, buf);
      RestClean(Split([], ""), data);
      lines, leftover := ScanLines(data);
    }
  }

  /** The loop of `ReadNew`. */
  method ScanLines(data: string) returns (lines: seq<string>, rest: string)
    ensures SplitOf(data) == Split(lines, rest)
  {
    lines := [];
    var start := 0;
    assert data[..0] == "";
    for i := 0 to |data|
      invariant start <= i
      invariant SplitOf(data[..i]) == Split(lines, data[start..i])
    {
      FeedSnoc(Split([], ""), data, i);
      assert data[start..i + 1] == data[start..i] + [data[i]];
      if data[i] == NL {
        if i > start {
          lines := lines + [data[start..i]];
        }
        start := i + 1;
      }
    }
    assert data[..|data|] == data;
    rest := data[start..];
  }

  // ---------- tail chunking ----------

  /** The files seen by successive reads only ever grow. */
  ghost predicate Growing(views: seq<string>) {
    forall i, j :: 0 <= i < j < |views| ==> views[i] <= views[j]
  }

  /** Successive reads, from the start of the file. */
  function TailReads(views: seq<string>): (Tail, seq<string>) {
    if views == [] then (FROM_START, [])
    else
      var (t, lines) := TailReads(views[..|views| - 1]);
      var (t', more) := TailRead(t, views[|views| - 1]);
      (t', lines + more)
  }

  /** However an append-only file is cut up between reads, a tail reader delivers each of
      its lines once and in order, just as a replay of the final file does. */
  lemma {:induction false} TailChunking(views: seq<string>)
    requires views != [] && Growing(views)
    ensures var final := views[|views| - 1];
            TailReads(views) == (Tail(|final|, SplitOf(final).rest), SplitOf(final).lines)
  {
    var final, before := views[|views| - 1], views[..|views| - 1];
    if before == [] {
      assert TailReads(before) == (FROM_START, []);
      assert final[0..] == final && [] + SplitOf(final).lines == SplitOf(final).lines;
    } else {
      TailChunking(before);
      var prev := before[|before| - 1];
      assert prev == views[|views| - 2] <= final;
      assert final == prev + final[|prev|..];
      FeedAppend(Split([], ""), prev, final[|prev|..]);
      FeedLines(SplitOf(prev), final[|prev|..]);
    }
  }

  /** A reader that has read `seen` reads the rest of `file`. */
  lemma ReadRest(seen: string, file: string)
    requires seen <= file
    ensures TailRead(Tail(|seen|, SplitOf(seen).rest), file).0 == Tail(|file|, SplitOf(file).rest)
    ensures SplitOf(file).lines == SplitOf(seen).lines + TailRead(Tail(|seen|, SplitOf(seen).rest), file).1
  {
    assert file == seen + file[|seen|..];
    FeedAppend(Split([], ""), seen, file[|seen|..]);
    FeedLines(SplitOf(seen), file[|seen|..]);
  }

  // ---------- printed logs ----------

  function Print(lines: seq<string>): string {
    if lines == [] then "" else lines[0] + [NL] + Print(lines[1..])
  }

  ghost predicate Clean(lines: seq<string>) {
    forall j :: 0 <= j < |lines| ==> lines[j] != "" && NL !in lines[j]
  }

  function CountNL(bytes: string): nat {
    if bytes == "" then 0 else (if bytes[0] == NL then 1 else 0) + CountNL(bytes[1..])
  }

  lemma {:induction false} PrintAppend(a: seq<string>, b: seq<string>)
    ensures Print(a + b) == Print(a) + Print(b)
  {
    if a == [] {
      assert a + b == b;
    } else {
      assert (a + b)[0] == a[0] && (a + b)[1..] == a[1..] + b;
      PrintAppend(a[1..], b);
      assert a[0] + [NL] + (Print(a[1..]) + Print(b)) == Print(a) + Print(b);
    }
  }

  lemma {:induction false} CountPlain(a: string, b: string)
    requires NL !in a
    ensures CountNL(a + b) == CountNL(b)
  {
    if a == "" {
      assert a + b == b;
    } else {
      assert (a + b)[1..] == a[1..] + b;
      CountPlain(a[1..], b);
    }
  }

  /** Any prefix of a printed log splits into the lines whose newline it contains; the
      torn rest is dropped. */
  lemma {:induction false} PrefixLines(s: Split, lines: seq<string>, p: string)
    requires Clean(lines) && s.rest == "" && p <= Print(lines)
    ensures CountNL(p) <= |lines|
    ensures Feed(s, p).lines == s.lines + lines[..CountNL(p)]
    decreases |lines|
  {
    if lines == [] {
      assert p == "";
    } else if |p| <= |lines[0]| {
      assert p == lines[0][..|p|];
      assert NL !in p;
      CountPlain(p, "");
      assert p + "" == p;
      FeedPlain(s, p);
    } else {
      var head, q := lines[0] + [NL], p[|lines[0]| + 1..];
      assert p == head + q by {
        assert p[..|head|] == Print(lines)[..|head|] == head;
      }
      assert q <= Print(lines[1..]) by {
        assert Print(lines) == head + Print(lines[1..]);
      }
      FeedAppend(s, head, q);
      FeedLine(s, lines[0]);
      var s' := Split(s.lines + [lines[0]], "");
      PrefixLines(s', lines[1..], q);
      CountPlain(lines[0], [NL] + q);
      assert p == lines[0] + ([NL] + q) && ([NL] + q)[1..] == q;
      assert lines[..CountNL(p)] == [lines[0]] + lines[1..][..CountNL(q)];
    }
  }

  lemma {:induction false} CountPrint(lines: seq<string>)
    requires Clean(lines)
    ensures CountNL(Print(lines)) == |lines|
  {
    if lines != [] {
      CountPrint(lines[1..]);
      CountPlain(lines[0], [NL] + Print(lines[1..]));
      assert Print(lines) == lines[0] + ([NL] + Print(lines[1..]));
      assert ([NL] + Print(lines[1..]))[1..] == Print(lines[1..]);
    }
  }

  /** A whole printed log, followed by a torn line, gives back its lines and that rest. */
  lemma SplitPrint(lines: seq<string>, torn: string)
    requires Clean(lines) && NL !in torn
    ensures SplitOf(Print(lines) + torn) == Split(lines, torn)
  {
    FeedAppend(Split([], ""), Print(lines), torn);
    PrefixLines(Split([], ""), lines, Print(lines));
    CountPrint(lines);
    RestOfPrint(Split([], ""), lines);
    FeedPlain(SplitOf(Print(lines)), torn);
    assert [] + lines[..|lines|] == lines && "" + torn == torn;
  }

  lemma {:induction false} RestOfPrint(s: Split, lines: seq<string>)
    requires Clean(lines) && s.rest == ""
    ensures Feed(s, Print(lines)).rest == ""
    decreases |lines|
  {
    if lines != [] {
      FeedAppend(s, lines[0] + [NL], Print(lines[1..]));
      FeedLine(s, lines[0]);
      RestOfPrint(Split(s.lines + [lines[0]], ""), lines[1..]);
    }
  }
}
