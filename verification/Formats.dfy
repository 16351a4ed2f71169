/** Byte compatibility: what other programs find in the log, in a key-value server and on the wire,
    written out byte by byte. */
module Formats {
  import opened Ints
  import opened LogLine
  import opened Options
  import opened Instance
  import opened Codes
  import opened RowValue
  import opened RespCodec
  import RateLimit

  lemma Numbers()
    ensures Dec(0) == "0" && Dec(-1) == "-1" && Dec(10) == "10" && Dec(44) == "44" && Dec(789) == "789"
  {
    assert Digits(78) == "78";
  }

  // ---------- the log ----------

  /** No byte of a URL without quotes, backslashes and control bytes is escaped. */
  lemma {:induction false} PlainText(u: string)
    requires forall k :: 0 <= k < |u| ==> u[k] != '"' && u[k] != '\\' && ' ' <= u[k]
    ensures Escaped(u) == u
  {
    if u != "" {
      PlainText(u[1..]);
      assert u == [u[0]] + u[1..];
    }
  }

  lemma EscapeBytes(c: char)
    ensures Escaped("\"") == "\\\"" && Escaped("\\") == "\\\\"
    ensures Escaped("\n") == "\\n" && Escaped("\r") == "\\r" && Escaped("\t") == "\\t"
    ensures Escaped("\U{0008}") == "\\b" && Escaped("\U{000C}") == "\\f" && Escaped("\U{001F}") == "\\u001f"
  {
    assert Escaped("") == "";
  }

  /** The lines of the log, for any code and any such URL. */
  lemma RowBytes(c: string, u: string, a: int64, e: int64, i: int64, n: int64)
    requires forall k :: 0 <= k < |u| ==> u[k] != '"' && u[k] != '\\' && ' ' <= u[k]
    ensures LineOf(Row(c, u, a, e, i, n)) ==
            "{\"c\":\"" + c + "\",\"u\":\"" + u + "\"" +
            (",\"a\":" + Dec(a) + ",\"e\":" + (if e == 0 then "null" else Dec(e)) + ",\"i\":" + Dec(i) +
             ",\"n\":" + Dec(n) + "}")
  {
    hide Dec, Escaped;
    PlainText(u);
    var x := if e == 0 then "null" else Dec(e);
    var tail := ",\"a\":" + (Dec(a) + (",\"e\":" + (x + (",\"i\":" + (Dec(i) + (",\"n\":" + (Dec(n) + "}")))))));
    RowTail(a, x, i, n, tail);
    RowHead(c, u, tail);
  }

  lemma RowHead(c: string, u: string, tail: string)
    ensures "{\"c\":\"" + (c + ("\"" + (",\"u\":\"" + (u + ("\"" + tail))))) ==
            "{\"c\":\"" + c + "\",\"u\":\"" + u + "\"" + tail
  {
    assert "\"" + ",\"u\":\"" == "\",\"u\":\"";
    assert "\"" + (",\"u\":\"" + (u + ("\"" + tail))) == "\",\"u\":\"" + (u + ("\"" + tail));
  }

  lemma RowTail(a: int64, x: string, i: int64, n: int64, tail: string)
    requires tail == ",\"a\":" + (Dec(a) + (",\"e\":" + (x + (",\"i\":" + (Dec(i) + (",\"n\":" + (Dec(n) + "}")))))))
    ensures tail == ",\"a\":" + Dec(a) + ",\"e\":" + x + ",\"i\":" + Dec(i) + ",\"n\":" + Dec(n) + "}"
  {
    hide Dec;
  }

  lemma HitBytes(c: string, d: int64, i: int64)
    ensures LineOf(Hit(c, d, i)) == "{\"h\":\"" + c + "\",\"d\":" + Dec(d) + ",\"i\":" + Dec(i) + "}"
    ensures LineOf(Del(c)) == "{\"x\":\"" + c + "\"}"
  {
    hide Dec;
  }

  /** The alphabet: digits, lower case, upper case. */
  lemma Alphabet(i: Id)
    ensures Letter(0) == '0' && Letter(9) == '9' && Letter(10) == 'a' && Letter(35) == 'z'
    ensures Letter(36) == 'A' && Letter(61) == 'Z'
    ensures i != 9 && i != 35 && i < 61 ==> Letter(i + 1) as int == Letter(i) as int + 1
  {}

  // ---------- the key-value server ----------

  lemma ValueBytes(e: int64, c: int64, u: string)
    ensures EncVal(Rec(e, c, u)) == "v1|" + Dec(e) + "|" + Dec(c) + "|" + u
  {
    hide Dec;
  }

  lemma PlaceBytes(code: string)
    ensures RowPlace(Plain, code) == Key("l:" + code) && HitPlace(Plain, code) == Key("h:" + code)
    ensures RowPlace(Hash(1_000_000), "a") == Field("l:44", "a")
    ensures HitPlace(Hash(1_000_000), "a") == Field("l:44", "h:a")
  {
    Numbers();
    ShardBytes();
    hide ShardOf, Digits;
  }

  lemma ShardBytes()
    ensures ShardOf("a") == 44
  {
    FnvBytes();
    hide Fnv;
  }

  /** The published values of FNV-1a. */
  lemma FnvBytes()
    ensures Fnv("a", 2166136261) == 0xe40c292c
  {
    FirstByte();
    Mixed(97);
    assert "a"[1..] == "";
  }

  lemma FirstByte()
    ensures ("a"[0] as int % 256) as bv32 == 97
  {}

  lemma Mixed(b: bv32)
    requires b == 97
    ensures (2166136261 ^ b) * 16777619 == 0xe40c292c
  {}

  lemma FnvBytes64()
    ensures RateLimit.IpKey("a") == 0xaf63dc4c8601ec8c
  {
    assert ('a' as int % 256) as bv64 == 97;
    assert (0xcbf29ce484222325 as bv64 ^ 97) * 0x100000001b3 == 0xaf63dc4c8601ec8c;
  }

  // ---------- the wire ----------

  /** A command on the wire. */
  lemma CommandBytes(k: string)
    ensures WireAll(Commands([["GET", k]])) ==
            "*2\r\n" + ("$3\r\nGET\r\n" + ("$" + (Dec(|k|) + ("\r\n" + (k + "\r\n")))))
  {
    var args := ["GET", k];
    GetBytes();
    ArgsBytes(k);
    hide Dec;
    assert Commands([args]) == [Command(args)];
    assert WireAll([Command(args)]) == Wire(Command(args)) + WireAll([]);
  }

  lemma GetBytes()
    ensures Arg("GET") == "$3\r\nGET\r\n"
  {
    assert Dec(3) == "3";
  }

  lemma ArgsBytes(k: string)
    ensures Wire(Command(["GET", k])) == "*2\r\n" + (Arg("GET") + Arg(k))
  {
    assert Dec(2) == "2";
    hide Dec, Arg;
    var args := ["GET", k];
    assert args[1..] == [k] && [k][1..] == [];
    assert Bulks([k]) == [Resp('$', Some(k), 0, NoElems)];
    assert Bulks(args) == [Resp('$', Some("GET"), 0, NoElems), Resp('$', Some(k), 0, NoElems)];
    assert WireAll([Resp('$', Some(k), 0, NoElems)]) == Arg(k) + WireAll([]);
    assert WireAll(Bulks(args)) == Arg("GET") + Arg(k);
  }

  lemma ReplyBytes(n: int64, t: string)
    ensures Wire(Resp('$', None, 0, NoElems)) == "$-1\r\n" && Wire(Resp('*', None, 0, NoElems)) == "*-1\r\n"
    ensures Wire(Resp(':', None, n, NoElems)) == ":" + (Dec(n) + "\r\n")
    ensures Wire(Resp('+', Some(t), 0, NoElems)) == "+" + (t + "\r\n")
    ensures Wire(Resp('-', Some(t), 0, NoElems)) == "-" + (t + "\r\n")
  {
    hide Dec;
  }
}
