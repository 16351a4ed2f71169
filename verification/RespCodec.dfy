/** The wire format spoken with a key-value server (RESP2): commands out, replies in, both on
    one stream. */
module RespCodec {
  import opened Ints
  import opened Options
  import opened LogLine
  import opened LineRoundTrip

  /** A decoded reply. A null has no text, or no elements; an empty one has. */
  datatype Resp = Resp(kind: char, str: Option<string>, n: int64, arr: Elems)
  {
    predicate IsNull() {
      (kind == '$' && str.None?) || (kind == '*' && arr.NoElems?)
    }
  }

  datatype Elems = NoElems | Elems(value: seq<Resp>)

  /** The largest block `make` can be asked for, on a 64-bit platform, and the bytes one `Resp`
      takes in it. */
  const MAX_ALLOC := 0x1_0000_0000_0000
  const RESP_BYTES := 64

  /** Reading stops at the end of the stream, at bytes that are no reply, or in the panic of
      `make` at a length it cannot be asked for. */
  datatype Failure = Eof | Malformed | Panic

  datatype Reply = Got(r: Resp, next: nat) | Fail(why: Failure)
  datatype Replies = GotAll(rs: seq<Resp>, next: nat) | FailAll(why: Failure)
  datatype Header = Header(text: string, next: nat) | NoHeader(why: Failure)

  // ---------- what the bytes from a position on say ----------

  function HeaderAt(b: string, pos: nat): (r: Header)
    requires pos <= |b|
    ensures r.Header? ==> pos < r.next <= |b|
  {
    var k := Find(b, pos, '\n');
    if k == |b| then NoHeader(Eof)
    else if k == pos || b[k - 1] != '\r' then NoHeader(Malformed)
    else Header(b[pos..k - 1], k + 1)
  }

  function BulkBody(b: string, pos: nat, n: int64): (r: Reply)
    requires pos <= |b|
    ensures r.Got? ==> pos <= r.next <= |b|
  {
    if n < 0 then Got(Resp('$', None, 0, NoElems), pos)
    else if n + 2 > MAX_ALLOC then Fail(Panic)
    else if pos + n + 2 > |b| then Fail(Eof)
    else Got(Resp('$', Some(b[pos..pos + n]), 0, NoElems), pos + n + 2)
  }

  function Decode(b: string, pos: nat): (r: Reply)
    requires pos <= |b|
    ensures r.Got? ==> pos < r.next <= |b|
    decreases |b| - pos, 0
  {
    if pos == |b| then Fail(Eof)
    else if b[pos] !in "+-:$*" then Fail(Malformed)
    else
      match HeaderAt(b, pos + 1)
      case NoHeader(why) => Fail(why)
      case Header(text, next) =>
        var p := ParseInt(text);
        if b[pos] == '+' || b[pos] == '-' then Got(Resp(b[pos], Some(text), 0, NoElems), next)
        else if b[pos] == ':' then (if p.ok then Got(Resp(':', None, p.value, NoElems), next) else Fail(Malformed))
        else if b[pos] == '$' then BulkBody(b, next, p.value)
        else if p.value < 0 then Got(Resp('*', None, 0, NoElems), next)
        else if p.value * RESP_BYTES > MAX_ALLOC then Fail(Panic)
        else
          match DecodeAll(b, next, p.value)
          case FailAll(why) => Fail(why)
          case GotAll(rs, end) => Got(Resp('*', None, 0, Elems(rs)), end)
  }

  /** The next `n` replies. */
  function DecodeAll(b: string, pos: nat, n: nat): (r: Replies)
    requires pos <= |b|
    ensures r.GotAll? ==> pos <= r.next <= |b| && |r.rs| == n
    decreases |b| - pos, n + 1
  {
    if n == 0 then GotAll([], pos)
    else
      match Decode(b, pos)
      case Fail(why) => FailAll(why)
      case Got(r, next) =>
        match DecodeAll(b, next, n - 1)
        case FailAll(why) => FailAll(why)
        case GotAll(rs, end) => GotAll([r] + rs, end)
  }

  // ---------- how the protocol writes it ----------

  const CRLF := "\r\n"

  /** A bulk string. */
  function Arg(a: string): string {
    "$" + (Dec(|a|) + (CRLF + (a + CRLF)))
  }

  function Wire(r: Resp): string
    decreases r, 0
  {
    if r.kind == '$' then (if r.str.None? then "$-1\r\n" else Arg(r.str.value))
    else if r.kind == '*' then
      (if r.arr.NoElems? then "*-1\r\n" else "*" + (Dec(|r.arr.value|) + (CRLF + WireAll(r.arr.value))))
    else if r.kind == ':' then ":" + (Dec(r.n) + CRLF)
    else [r.kind] + ((if r.str.None? then "" else r.str.value) + CRLF)
  }

  function WireAll(rs: seq<Resp>): string
    decreases rs, 0
  {
    if rs == [] then "" else Wire(rs[0]) + WireAll(rs[1..])
  }

  /** A reply of the protocol: simple texts hold no line feed, and lengths fit in memory. */
  ghost predicate Proper(r: Resp)
    decreases r, 0
  {
    if r.kind == '$' then r.n == 0 && r.arr == NoElems && (r.str.Some? ==> |r.str.value| + 2 <= MAX_ALLOC)
    else if r.kind == '*' then r.n == 0 && r.str == None && (r.arr.Elems? ==>
        |r.arr.value| * RESP_BYTES <= MAX_ALLOC && ProperAll(r.arr.value))
    else if r.kind == ':' then r.str == None && r.arr == NoElems
    else (r.kind == '+' || r.kind == '-') && r.n == 0 && r.arr == NoElems && r.str.Some? && '\n' !in r.str.value
  }

  ghost predicate ProperAll(rs: seq<Resp>)
    decreases rs, 0
  {
    rs == [] || (Proper(rs[0]) && ProperAll(rs[1..]))
  }

  // ---------- what is written is read back, and no more ----------

  lemma LineReads(b: string, p: nat, t: string)
    requires Sits(b, p, t + CRLF) && '\n' !in t
    ensures HeaderAt(b, p) == Header(t, p + |t| + 2)
  {
    SitsSplit(b, p, t, CRLF);
    SitsSlice(b, p, t);
    var k := p + |t| + 1;
    assert b[k - 1] == CRLF[0] && b[k] == CRLF[1];
    FindAt(b, p, k, '\n');
  }

  /** A header line with a number. */
  lemma NumberReads(b: string, p: nat, n: int64, t: string)
    requires Sits(b, p, Dec(n) + (CRLF + t))
    ensures HeaderAt(b, p) == Header(Dec(n), p + |Dec(n)| + 2) && ParseInt(Dec(n)) == Parsed(n, true)
    ensures Sits(b, p + |Dec(n)| + 2, t)
  {
    hide Dec, ParseInt, HeaderAt;
    assert Dec(n) + (CRLF + t) == (Dec(n) + CRLF) + t;
    SitsSplit(b, p, Dec(n) + CRLF, t);
    DecParse(n);
    LineReads(b, p, Dec(n));
  }

  lemma HeadReads(b: string, p: nat, c: char, t: string)
    requires Sits(b, p, [c] + t)
    ensures p < |b| && b[p] == c && Sits(b, p + 1, t)
  {
    SitsSplit(b, p, [c], t);
    assert b[p + 0] == [c][0];
  }

  lemma BulkReads(b: string, p: nat, a: string)
    requires Sits(b, p, Arg(a)) && |a| + 2 <= MAX_ALLOC
    ensures Decode(b, p) == Got(Resp('$', Some(a), 0, NoElems), p + |Arg(a)|)
  {
    hide Dec, ParseInt, HeaderAt;
    HeadReads(b, p, '$', Dec(|a|) + (CRLF + (a + CRLF)));
    NumberReads(b, p + 1, |a|, a + CRLF);
    var q := p + 1 + |Dec(|a|)| + 2;
    SitsSplit(b, q, a, CRLF);
    SitsSlice(b, q, a);
  }

  lemma NullReads(b: string, p: nat, c: char)
    requires Sits(b, p, [c] + "-1\r\n") && (c == '$' || c == '*')
    ensures Decode(b, p) == Got(Resp(c, None, 0, NoElems), p + 5)
  {
    hide ParseInt, HeaderAt;
    MinusOne();
    HeadReads(b, p, c, "-1\r\n");
    assert "-1\r\n" == Dec(-1) + (CRLF + "");
    NumberReads(b, p + 1, -1, "");
  }

  lemma MinusOne()
    ensures Dec(-1) == "-1"
  {}

  lemma IntReads(b: string, p: nat, n: int64)
    requires Sits(b, p, ":" + (Dec(n) + CRLF))
    ensures Decode(b, p) == Got(Resp(':', None, n, NoElems), p + 1 + |Dec(n)| + 2)
  {
    hide Dec, ParseInt, HeaderAt;
    HeadReads(b, p, ':', Dec(n) + CRLF);
    assert CRLF == CRLF + "";
    NumberReads(b, p + 1, n, "");
  }

  lemma SimpleReads(b: string, p: nat, c: char, t: string)
    requires Sits(b, p, [c] + (t + CRLF)) && (c == '+' || c == '-') && '\n' !in t
    ensures Decode(b, p) == Got(Resp(c, Some(t), 0, NoElems), p + 1 + |t| + 2)
  {
    hide ParseInt, HeaderAt;
    HeadReads(b, p, c, t + CRLF);
    LineReads(b, p + 1, t);
  }

  /** Every reply of the protocol, however nested, is read back from wherever it stands in the
      stream, and its last byte is the last that is consumed. */
  lemma {:induction false} WireReads(b: string, p: nat, r: Resp)
    requires Proper(r) && Sits(b, p, Wire(r))
    ensures Decode(b, p) == Got(r, p + |Wire(r)|)
    decreases r, 0
  {
    hide Dec, ParseInt, HeaderAt, Arg, Sits;
    if r.kind == '$' && r.str.Some? {
      BulkReads(b, p, r.str.value);
    } else if r.kind == '$' || (r.kind == '*' && r.arr.NoElems?) {
      assert Wire(r) == [r.kind] + "-1\r\n";
      NullReads(b, p, r.kind);
    } else if r.kind == '*' {
      var rs := r.arr.value;
      HeadReads(b, p, '*', Dec(|rs|) + (CRLF + WireAll(rs)));
      NumberReads(b, p + 1, |rs|, WireAll(rs));
      WireAllReads(b, p + 1 + |Dec(|rs|)| + 2, rs);
    } else if r.kind == ':' {
      IntReads(b, p, r.n);
    } else {
      SimpleReads(b, p, r.kind, r.str.value);
    }
  }

  lemma {:induction false} WireAllReads(b: string, p: nat, rs: seq<Resp>)
    requires ProperAll(rs) && Sits(b, p, WireAll(rs))
    ensures DecodeAll(b, p, |rs|) == GotAll(rs, p + |WireAll(rs)|)
    decreases rs, 0
  {
    hide Decode, Wire, Proper;
    if rs != [] {
      SitsSplit(b, p, Wire(rs[0]), WireAll(rs[1..]));
      WireReads(b, p, rs[0]);
      WireAllReads(b, p + |Wire(rs[0])|, rs[1..]);
      assert [rs[0]] + rs[1..] == rs;
    }
  }

  /** No two replies look alike, whatever follows them. */
  lemma WirePrefixFree(r: Resp, x: string, r': Resp, x': string)
    requires Proper(r) && Proper(r') && Wire(r) + x == Wire(r') + x'
    ensures r == r' && x == x'
  {
    hide Wire, Proper, Decode;
    var b := Wire(r) + x;
    WireReads(b, 0, r);
    WireReads(b, 0, r');
    assert b[|Wire(r)|..] == x && b[|Wire(r')|..] == x';
  }

  // ---------- commands ----------

  function Bulks(args: seq<string>): (rs: seq<Resp>)
    ensures |rs| == |args|
  {
    if args == [] then [] else [Resp('$', Some(args[0]), 0, NoElems)] + Bulks(args[1..])
  }

  /** A command is an array of bulk strings. */
  function Command(args: seq<string>): Resp {
    Resp('*', None, 0, Elems(Bulks(args)))
  }

  function Commands(cmds: seq<seq<string>>): (rs: seq<Resp>)
    ensures |rs| == |cmds|
  {
    if cmds == [] then [] else [Command(cmds[0])] + Commands(cmds[1..])
  }

  /** What memory can hold when it is read back. */
  ghost predicate Fits(args: seq<string>) {
    |args| * RESP_BYTES <= MAX_ALLOC && forall i :: 0 <= i < |args| ==> |args[i]| + 2 <= MAX_ALLOC
  }

  lemma {:induction false} BulksProper(args: seq<string>)
    requires forall i :: 0 <= i < |args| ==> |args[i]| + 2 <= MAX_ALLOC
    ensures ProperAll(Bulks(args))
  {
    if args != [] {
      BulksProper(args[1..]);
      var rs := Bulks(args);
      assert rs[0] == Resp('$', Some(args[0]), 0, NoElems) && rs[1..] == Bulks(args[1..]);
    }
  }

  lemma {:induction false} CommandsProper(cmds: seq<seq<string>>)
    requires forall i :: 0 <= i < |cmds| ==> Fits(cmds[i])
    ensures ProperAll(Commands(cmds))
  {
    if cmds != [] {
      BulksProper(cmds[0]);
      CommandsProper(cmds[1..]);
      var rs := Commands(cmds);
      assert rs[0] == Command(cmds[0]) && rs[1..] == Commands(cmds[1..]);
    }
  }

  /** Commands written in one go are read back one by one, whatever bytes their arguments hold
      and whatever comes after. */
  lemma PipeRoundTrip(cmds: seq<seq<string>>, rest: string)
    requires forall i :: 0 <= i < |cmds| ==> Fits(cmds[i])
    ensures var text := WireAll(Commands(cmds));
            DecodeAll(text + rest, 0, |cmds|) == GotAll(Commands(cmds), |text|)
  {
    hide WireAll, DecodeAll, Commands, ProperAll, Fits;
    CommandsProper(cmds);
    WireAllReads(WireAll(Commands(cmds)) + rest, 0, Commands(cmds));
  }

  // ---------- framing ----------

  lemma {:induction false} FindIs(b: string, pos: nat, ch: char)
    requires pos <= |b|
    ensures forall j :: pos <= j < Find(b, pos, ch) ==> b[j] != ch
    ensures Find(b, pos, ch) < |b| ==> b[Find(b, pos, ch)] == ch
    decreases |b| - pos
  {
    if pos < |b| && b[pos] != ch {
      FindIs(b, pos + 1, ch);
    }
  }

  lemma LineFrame(b: string, b': string, pos: nat)
    requires pos <= |b| && HeaderAt(b, pos).Header? && b' <= b && pos <= |b'|
    ensures HeaderAt(b', pos) == if HeaderAt(b, pos).next <= |b'| then HeaderAt(b, pos) else NoHeader(Eof)
  {
    FindIs(b, pos, '\n');
    var f := Find(b, pos, '\n');
    FindAt(b', pos, if f < |b'| then f else |b'|, '\n');
  }

  lemma BulkFrame(b: string, b': string, pos: nat, n: int64)
    requires pos <= |b'| && b' <= b && BulkBody(b, pos, n).Got?
    ensures BulkBody(b', pos, n) == if BulkBody(b, pos, n).next <= |b'| then BulkBody(b, pos, n) else Fail(Eof)
  {
    if n >= 0 && pos + n + 2 <= |b'| {
      assert b'[pos..pos + n] == b[pos..pos + n];
    }
  }

  /** Of a stream cut short, a reply is read if and only if all of it is there; else the reader
      waits for more. */
  lemma {:induction false} Framing(b: string, b': string, pos: nat)
    requires pos <= |b'| && b' <= b && Decode(b, pos).Got?
    ensures Decode(b', pos) == if Decode(b, pos).next <= |b'| then Decode(b, pos) else Fail(Eof)
    decreases |b| - pos, 0
  {
    hide HeaderAt, ParseInt, BulkBody;
    if pos < |b'| {
      LineFrame(b, b', pos + 1);
      var line := HeaderAt(b, pos + 1);
      if b[pos] == '$' && line.next <= |b'| {
        BulkFrame(b, b', line.next, ParseInt(line.text).value);
      }
      if b[pos] == '*' && line.next <= |b'| && ParseInt(line.text).value >= 0 {
        FramingAll(b, b', line.next, ParseInt(line.text).value);
      }
    }
  }

  lemma {:induction false} FramingAll(b: string, b': string, pos: nat, n: nat)
    requires pos <= |b'| && b' <= b && DecodeAll(b, pos, n).GotAll?
    ensures DecodeAll(b', pos, n) == if DecodeAll(b, pos, n).next <= |b'| then DecodeAll(b, pos, n) else FailAll(Eof)
    decreases |b| - pos, n + 1
  {
    hide Decode;
    if n > 0 {
      Framing(b, b', pos);
      var next := Decode(b, pos).next;
      if next <= |b'| {
        FramingAll(b, b', next, n - 1);
      }
    }
  }

  /** A null is a length below zero; nothing else reads as one. */
  lemma NullIs(b: string, pos: nat)
    requires pos <= |b| && Decode(b, pos).Got?
    ensures Decode(b, pos).r.IsNull() <==>
            (b[pos] == '$' || b[pos] == '*') && ParseInt(HeaderAt(b, pos + 1).text).value < 0
  {
    hide HeaderAt, ParseInt;
  }

  // ---------- the reader and the writer ----------

  /** The reading end of a connection. */
  class Reader {
    const data: string
    var pos: nat

    predicate Valid()
      reads this
    {
      pos <= |data|
    }

    constructor (data: string)
      ensures Valid() && pos == 0 && this.data == data
    {
      this.data, pos := data, 0;
    }

    method ReadLine() returns (line: Header)
      requires Valid()
      modifies this
      ensures Valid() && line == HeaderAt(data, old(pos)) && (line.Header? ==> pos == line.next)
    {
      var start := pos;
      pos := FindFrom(data, start, '\n');
      if pos == |data| {
        return NoHeader(Eof);
      }
      pos := pos + 1;
      if pos - start < 2 || data[pos - 2] != '\r' {
        return NoHeader(Malformed);
      }
      line := Header(data[start..pos - 2], pos);
    }

    method ReadBulk(n: int64) returns (reply: Reply)
      requires Valid()
      modifies this
      ensures Valid() && reply == BulkBody(data, old(pos), n) && (reply.Got? ==> pos == reply.next)
    {
      if n < 0 {
        return Got(Resp('$', None, 0, NoElems), pos);
      }
      if n + 2 > MAX_ALLOC {
        return Fail(Panic);
      }
      if |data| - pos < n + 2 {
        pos := |data|;
        return Fail(Eof);
      }
      var buf := data[pos..pos + n + 2];
      pos := pos + n + 2;
      assert buf[..n] == data[old(pos)..old(pos) + n];
      reply := Got(Resp('$', Some(buf[..n]), 0, NoElems), pos);
    }

    /** `readResp`: one reply off the stream. */
    method ReadResp() returns (reply: Reply)
      requires Valid()
      modifies this
      ensures Valid() && reply == Decode(data, old(pos)) && (reply.Got? ==> pos == reply.next)
      decreases |data| - pos, 0
    {
      hide HeaderAt, ParseInt, BulkBody;
      if pos == |data| {
        return Fail(Eof);
      }
      var c := data[pos];
      pos := pos + 1;
      if c !in "+-:$*" {
        return Fail(Malformed);
      }
      var line := ReadLine();
      if line.NoHeader? {
        return Fail(line.why);
      }
      var p := ParseInt(line.text);
      if c == '+' || c == '-' {
        return Got(Resp(c, Some(line.text), 0, NoElems), pos);
      }
      if c == ':' {
        return if p.ok then Got(Resp(':', None, p.value, NoElems), pos) else Fail(Malformed);
      }
      if c == '$' {
        reply := ReadBulk(p.value);
        return;
      }
      if p.value < 0 {
        return Got(Resp('*', None, 0, NoElems), pos);
      }
      if p.value * RESP_BYTES > MAX_ALLOC {
        return Fail(Panic);
      }
      var rs := ReadMany(p.value);
      reply := if rs.FailAll? then Fail(rs.why) else Got(Resp('*', None, 0, Elems(rs.rs)), pos);
    }

    /** Fills an array with the next `n` replies, as an array reply and a pipe of commands do. */
    method ReadMany(n: nat) returns (replies: Replies)
      requires Valid()
      modifies this
      ensures Valid() && replies == DecodeAll(data, old(pos), n) && (replies.GotAll? ==> pos == replies.next)
      decreases |data| - pos, n + 1
    {
      hide Decode;
      ghost var start := pos;
      var arr := new Resp[n](_ => Resp('\0', None, 0, NoElems));
      for i := 0 to n
        invariant Valid() && start <= pos && fresh(arr)
        invariant DecodeAll(data, start, n) == After(arr[..i], DecodeAll(data, pos, n - i))
      {
        ghost var before, done := pos, arr[..i];
        var r := ReadResp();
        if r.Fail? {
          return FailAll(r.why);
        }
        arr[i] := r.r;
        assert arr[..i + 1] == done + [r.r];
        AfterSnoc(done, r.r, DecodeAll(data, pos, n - i - 1));
      }
      assert arr[..] == arr[..n];
      replies := GotAll(arr[..], pos);
    }
  }

  /** Some replies, and then those of a reading that goes on. */
  function After(rs: seq<Resp>, more: Replies): Replies {
    match more
    case FailAll(why) => more
    case GotAll(ms, next) => GotAll(rs + ms, next)
  }

  lemma AfterSnoc(rs: seq<Resp>, r: Resp, more: Replies)
    ensures After(rs, After([r], more)) == After(rs + [r], more)
  {
    if more.GotAll? {
      assert rs + ([r] + more.rs) == rs + [r] + more.rs;
    }
  }

  /** `appendArg`. */
  method AppendArg(dst: string, a: string) returns (out: string)
    ensures out == dst + Arg(a)
  {
    hide Dec;
    out := dst + "$";
    out := out + Dec(|a|);
    out := out + CRLF;
    out := out + a;
    out := out + CRLF;
  }

  /** The bytes `pipe` writes for its commands. */
  method PipeBytes(cmds: seq<seq<string>>) returns (buf: string)
    ensures buf == WireAll(Commands(cmds))
  {
    hide Wire, Arg, Command;
    buf := "";
    for i := 0 to |cmds|
      invariant WireAll(Commands(cmds)) == buf + WireAll(Commands(cmds[i..]))
    {
      buf := AppendCommand(buf, cmds[i]);
      NextCommand(cmds, i);
    }
  }

  lemma NextCommand(cmds: seq<seq<string>>, i: nat)
    requires i < |cmds|
    ensures WireAll(Commands(cmds[i..])) == Wire(Command(cmds[i])) + WireAll(Commands(cmds[i + 1..]))
  {
    hide Wire, Command;
    assert cmds[i..][1..] == cmds[i + 1..];
    var rs := Commands(cmds[i..]);
    assert rs[0] == Command(cmds[i]) && rs[1..] == Commands(cmds[i + 1..]);
  }

  lemma NextArg(args: seq<string>, i: nat)
    requires i < |args|
    ensures WireAll(Bulks(args[i..])) == Arg(args[i]) + WireAll(Bulks(args[i + 1..]))
  {
    hide Arg;
    assert args[i..][1..] == args[i + 1..];
    var rs := Bulks(args[i..]);
    assert rs[1..] == Bulks(args[i + 1..]);
  }

  lemma Regroup(dst: string, n: string, t: string)
    ensures dst + "*" + n + CRLF + t == dst + ("*" + (n + (CRLF + t)))
  {}

  method AppendCommand(dst: string, args: seq<string>) returns (buf: string)
    ensures buf == dst + Wire(Command(args))
  {
    hide Arg, Dec;
    buf := dst + "*";
    buf := buf + Dec(|args|);
    buf := buf + CRLF;
    ghost var head := buf;
    Regroup(dst, Dec(|args|), WireAll(Bulks(args)));
    for i := 0 to |args|
      invariant head + WireAll(Bulks(args)) == buf + WireAll(Bulks(args[i..]))
    {
      buf := AppendArg(buf, args[i]);
      NextArg(args, i);
    }
  }
}
