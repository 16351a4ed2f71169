/** The text of one log line: how rows, hit deltas and tombstones are printed, and
    how a line is parsed back. A Go byte string is a `string` with one char a byte. */
module LogLine {
  import opened Ints

  // ---------- escaping ----------

  const BS := '\U{0008}'
  const FF := '\U{000C}'

  function HexDigit(d: nat): char
    requires d < 16
  {
    if d < 10 then ('0' as int + d) as char else ('a' as int + d - 10) as char
  }

  function EscapedChar(c: char): string {
    if c == '"' || c == '\\' then ['\\', c]
    else if c == '\n' then "\\n"
    else if c == '\r' then "\\r"
    else if c == '\t' then "\\t"
    else if c == BS then "\\b"
    else if c == FF then "\\f"
    else if c < ' ' then ['\\', 'u', '0', '0', HexDigit(c as int / 16), HexDigit(c as int % 16)]
    else [c]
  }

  function Escaped(u: string): string {
    if u == "" then "" else EscapedChar(u[0]) + Escaped(u[1..])
  }

  lemma {:induction false} EscapedAppend(u: string, v: string)
    ensures Escaped(u + v) == Escaped(u) + Escaped(v)
  {
    if u == "" {
      assert u + v == v;
    } else {
      assert (u + v)[0] == u[0] && (u + v)[1..] == u[1..] + v;
      EscapedAppend(u[1..], v);
    }
  }

  lemma EscapedSnoc(u: string, i: nat)
    requires i < |u|
    ensures Escaped(u[..i + 1]) == Escaped(u[..i]) + EscapedChar(u[i])
  {
    EscapedAppend(u[..i], [u[i]]);
    assert u[..i + 1] == u[..i] + [u[i]];
    assert Escaped([u[i]]) == EscapedChar(u[i]) + Escaped("");
  }

  /** The switch in the loop of `esc`. */
  method EscByte(dst: string, c: char) returns (b: string)
    ensures b == dst + EscapedChar(c)
  {
    if c == '"' || c == '\\' {
      b := dst + ['\\', c];
    } else if c == '\n' {
      b := dst + "\\n";
    } else if c == '\r' {
      b := dst + "\\r";
    } else if c == '\t' {
      b := dst + "\\t";
    } else if c == BS {
      b := dst + "\\b";
    } else if c == FF {
      b := dst + "\\f";
    } else if c < ' ' {
      b := dst + ['\\', 'u', '0', '0', HexDigit(c as int / 16), HexDigit(c as int % 16)];
    } else {
      b := dst + [c];
    }
  }

  /** `esc`: appends `u`, escaped, to `dst`. */
  method Esc(dst: string, u: string) returns (b: string)
    ensures b == dst + Escaped(u)
  {
    b := dst;
    for i := 0 to |u|
      invariant b == dst + Escaped(u[..i])
    {
      EscapedSnoc(u, i);
      b := EscByte(b, u[i]);
    }
    assert u[..|u|] == u;
  }

  // ---------- printing ----------

  /** What the program logs: a whole row, a hit delta, or a tombstone. */
  datatype LogOp =
    | Row(c: string, u: string, a: int64, e: int64, i: int64, n: int64)
    | Hit(c: string, d: int64, i: int64)
    | Del(c: string)

  predicate CodeChar(c: char) {
    '0' <= c <= '9' || 'a' <= c <= 'z' || 'A' <= c <= 'Z' || c == '_' || c == '-'
  }

  /** The codes the HTTP layer lets through to the store. */
  predicate CodeOK(s: string) {
    0 < |s| <= 64 && forall k :: 0 <= k < |s| ==> CodeChar(s[k])
  }

  function RowLine(c: string, u: string, a: int64, e: int64, i: int64, n: int64): string {
    "{\"c\":\"" + (c + ("\"" +
    (",\"u\":\"" + (Escaped(u) + ("\"" +
    (",\"a\":" + (Dec(a) +
    (",\"e\":" + ((if e == 0 then "null" else Dec(e)) +
    (",\"i\":" + (Dec(i) +
    (",\"n\":" + (Dec(n) + "}")))))))))))))
  }

  function HitLine(c: string, d: int64, i: int64): string {
    "{\"h\":\"" + (c + ("\"" +
    (",\"d\":" + (Dec(d) +
    (",\"i\":" + (Dec(i) + "}"))))))
  }

  function DelLine(c: string): string {
    "{\"x\":\"" + (c + ("\"" + "}"))
  }

  function LineOf(o: LogOp): string {
    match o
    case Row(c, u, a, e, i, n) => RowLine(c, u, a, e, i, n)
    case Hit(c, d, i) => HitLine(c, d, i)
    case Del(c) => DelLine(c)
  }

  // ---------- unescaping ----------

  function HexValue(c: char): int {
    if '0' <= c <= '9' then c as int - '0' as int
    else if 'a' <= c <= 'f' then c as int - 'a' as int + 10
    else if 'A' <= c <= 'F' then c as int - 'A' as int + 10
    else -1
  }

  predicate IsHex4(s: string) {
    |s| == 4 && forall k :: 0 <= k < 4 ==> HexValue(s[k]) >= 0
  }

  function Hex4(s: string): nat
    requires IsHex4(s)
  {
    ((HexValue(s[0]) * 16 + HexValue(s[1])) * 16 + HexValue(s[2])) * 16 + HexValue(s[3])
  }

  /** The UTF-8 bytes of a code point below 0x10000; a surrogate becomes U+FFFD. */
  function Utf8(v: nat): string
    requires v < 0x10000
  {
    if v < 0x80 then [v as char]
    else if v < 0x800 then [(0xC0 + v / 64) as char, (0x80 + v % 64) as char]
    else if 0xD800 <= v < 0xE000 then [0xEF as char, 0xBF as char, 0xBD as char]
    else [(0xE0 + v / 4096) as char, (0x80 + v / 64 % 64) as char, (0x80 + v % 64) as char]
  }

  lemma Hex4Bound(s: string)
    requires IsHex4(s)
    ensures Hex4(s) < 0x10000
  {
    assert forall k :: 0 <= k < 4 ==> HexValue(s[k]) < 16;
  }

  /** What `b` starts with, unescaped, and how many bytes of `b` that took. */
  function Unit(b: string): (r: (string, nat))
    requires b != ""
    ensures 0 < r.1 <= |b|
  {
    if b[0] != '\\' || |b| < 2 then ([b[0]], 1)
    else if b[1] == 'n' then ("\n", 2)
    else if b[1] == 'r' then ("\r", 2)
    else if b[1] == 't' then ("\t", 2)
    else if b[1] == 'b' then ([BS], 2)
    else if b[1] == 'f' then ([FF], 2)
    else if b[1] == 'u' && |b| > 5 && IsHex4(b[2..6]) then
      Hex4Bound(b[2..6]);
      (Utf8(Hex4(b[2..6])), 6)
    else ([b[1]], 2)
  }

  function Unescaped(b: string): string {
    if b == "" then "" else Unit(b).0 + Unescaped(b[Unit(b).1..])
  }

  /** One turn of the loop of `unescape`, at position `at`. */
  method UnescapeUnit(b: string, at: nat) returns (out: string, i: nat)
    requires at < |b|
    ensures (out, i - at) == Unit(b[at..])
  {
    i := at;
    if b[i] != '\\' || i + 1 >= |b| {
      return [b[i]], i + 1;
    }
    i := i + 1;
    match b[i] {
      case 'n' => out := "\n";
      case 'r' => out := "\r";
      case 't' => out := "\t";
      case 'b' => out := [BS];
      case 'f' => out := [FF];
      case 'u' =>
        if i + 4 < |b| {
          var h := b[i + 1..i + 5];
          assert b[at..][2..6] == h;
          if IsHex4(h) {
            Hex4Bound(h);
            return Utf8(Hex4(h)), i + 5;
          }
        }
        out := "u";
      case _ => out := [b[i]];
    }
    i := i + 1;
  }

  method Unescape(b: string) returns (out: string)
    ensures out == Unescaped(b)
  {
    out := "";
    var i := 0;
    while i < |b|
      invariant i <= |b|
      invariant out + Unescaped(b[i..]) == Unescaped(b)
    {
      var e, next := UnescapeUnit(b, i);
      UnescapeMove(b, i, next);
      assert out + Unescaped(b[i..]) == (out + e) + Unescaped(b[next..]);
      out, i := out + e, next;
    }
  }

  lemma UnescapeMove(b: string, i: nat, next: nat)
    requires i < |b| && next == i + Unit(b[i..]).1
    ensures Unescaped(b[i..]) == Unit(b[i..]).0 + Unescaped(b[next..])
  {
    assert b[i..][next - i..] == b[next..];
  }

  /** Escaping loses nothing, whatever bytes the URL holds. */
  lemma {:induction false} UnescapeEscaped(u: string)
    ensures Unescaped(Escaped(u)) == u
  {
    if u != "" {
      UnescapeEscaped(u[1..]);
      UnescapeChar(u[0], Escaped(u[1..]));
    }
  }

  lemma UnescapeChar(c: char, t: string)
    ensures Unescaped(EscapedChar(c) + t) == [c] + Unescaped(t)
  {
    var e := EscapedChar(c);
    assert (e + t)[0] == e[0] && (e + t)[|e|..] == t;
    if c < ' ' && |e| == 6 {
      HexRoundTrip(c);
      assert (e + t)[2..6] == e[2..];
      assert IsHex4(e[2..]) && Utf8(Hex4(e[2..])) == [c];
    }
  }

  lemma HexRoundTrip(c: char)
    requires c < ' '
    ensures HexValue(HexDigit(c as int / 16)) == c as int / 16
    ensures HexValue(HexDigit(c as int % 16)) == c as int % 16
  {}

  // ---------- parsing ----------

  /** One parsed line, field by field; empty strings and zeros for what is absent. */
  datatype Op = Op(c: string, u: string, h: string, x: string,
                   a: int64, e: int64, i: int64, n: int64, d: int64, hasE: bool)

  const EMPTY_OP := Op("", "", "", "", 0, 0, 0, 0, 0, false)

  /** `Fault` is the run-time panic of an empty key. */
  datatype Outcome = Good(o: Op) | Bad | Fault

  function Finish(o: Op): Outcome {
    if o.c != "" || o.h != "" || o.x != "" then Good(o) else Bad
  }

  function SetString(o: Op, k: char, val: string): Op {
    Op(if k == 'c' then val else o.c,
       if k == 'u' then val else o.u,
       if k == 'h' then val else o.h,
       if k == 'x' then val else o.x,
       o.a, o.e, o.i, o.n, o.d, o.hasE)
  }

  function SetInt(o: Op, k: char, v: int64, isNull: bool): Op {
    Op(o.c, o.u, o.h, o.x,
       if k == 'a' then v else o.a,
       if k == 'e' && !isNull then v else o.e,
       if k == 'i' then v else o.i,
       if k == 'n' then v else o.n,
       if k == 'd' then v else o.d,
       o.hasE || (k == 'e' && !isNull))
  }

  function SetNumber(o: Op, k: char, num: string): Op {
    SetInt(o, k, ParseInt(num).value, num == "null")
  }

  /** The first position from `pos` on that holds `ch`, or `|b|`. */
  function Find(b: string, pos: nat, ch: char): (k: nat)
    requires pos <= |b|
    ensures pos <= k <= |b|
    decreases |b| - pos
  {
    if pos == |b| || b[pos] == ch then pos else Find(b, pos + 1, ch)
  }

  /** The first position from `pos` on that holds `,` or `}`, or `|b|`. */
  function FindEnd(b: string, pos: nat): (k: nat)
    requires pos <= |b|
    ensures pos <= k <= |b|
    decreases |b| - pos
  {
    if pos == |b| || b[pos] == ',' || b[pos] == '}' then pos else FindEnd(b, pos + 1)
  }

  function SkipBlanks(b: string, pos: nat): (k: nat)
    requires pos <= |b|
    ensures pos <= k <= |b|
    decreases |b| - pos
  {
    if pos < |b| && (b[pos] == ' ' || b[pos] == '\t') then SkipBlanks(b, pos + 1) else pos
  }

  /** Where the scan of a string value stops: at its closing quote, at `|b|` if there is
      none, or past the end if the last char is a backslash. */
  function StringEnd(b: string, pos: nat): (k: nat)
    requires pos <= |b|
    ensures pos <= k <= |b| + 1
    decreases |b| - pos
  {
    if pos == |b| || b[pos] == '"' then pos
    else if b[pos] == '\\' then if pos + 1 == |b| then pos + 2 else StringEnd(b, pos + 2)
    else StringEnd(b, pos + 1)
  }

  predicate IsSpace(c: char) {
    c == ' ' || c == '\t' || c == '\n' || c == '\r' || c == '\U{000B}' || c == FF
  }

  /** The UTF-8 bytes of U+0085 or U+00A0. */
  predicate IsSpace2(c: char, d: char) {
    c == '\U{00C2}' && (d == '\U{0085}' || d == '\U{00A0}')
  }

  /** The UTF-8 bytes of U+1680, U+2000 to U+200A, U+2028, U+2029, U+202F, U+205F or U+3000. */
  predicate IsSpace3(c: char, d: char, e: char) {
    (c == '\U{00E1}' && d == '\U{009A}' && e == '\U{0080}') ||
    (c == '\U{00E2}' && d == '\U{0080}' &&
     ('\U{0080}' <= e <= '\U{008A}' || e == '\U{00A8}' || e == '\U{00A9}' || e == '\U{00AF}')) ||
    (c == '\U{00E2}' && d == '\U{0081}' && e == '\U{009F}') ||
    (c == '\U{00E3}' && d == '\U{0080}' && e == '\U{0080}')
  }

  /** The bytes of the Unicode space that stands at `p`, or 0. */
  function SpaceAt(s: string, p: nat): (n: nat)
    ensures p + n <= |s| || n == 0
  {
    if p < |s| && IsSpace(s[p]) then 1
    else if p + 1 < |s| && IsSpace2(s[p], s[p + 1]) then 2
    else if p + 2 < |s| && IsSpace3(s[p], s[p + 1], s[p + 2]) then 3
    else 0
  }

  /** The bytes of the Unicode space that ends at the end of `s`, or 0. */
  function SpaceBefore(s: string): (n: nat)
    ensures n <= |s|
  {
    if |s| >= 1 && SpaceAt(s, |s| - 1) == 1 then 1
    else if |s| >= 2 && SpaceAt(s, |s| - 2) == 2 then 2
    else if |s| >= 3 && SpaceAt(s, |s| - 3) == 3 then 3
    else 0
  }

  function TrimLeft(s: string): string {
    if SpaceAt(s, 0) > 0 then TrimLeft(s[SpaceAt(s, 0)..]) else s
  }

  function TrimRight(s: string): string {
    if SpaceBefore(s) > 0 then TrimRight(s[..|s| - SpaceBefore(s)]) else s
  }

  /** `strings.TrimSpace`. */
  function TrimSpace(s: string): string {
    TrimRight(TrimLeft(s))
  }

  /** The bytes of a line from `start` up to `end`; the byte behind the line, in the buffer it was
      cut from, is its newline. */
  function Cut(b: string, start: nat, end: nat): string
    requires start <= |b| && start <= end <= |b| + 1
  {
    if end <= |b| then b[start..end] else b[start..] + "\n"
  }

  /** One turn of the loop of `parseOp`: it ends the parse, or reads one field. */
  datatype Turn = Stop(r: Outcome) | More(pos: nat, o: Op)

  /** A string value whose opening quote comes just before `vs`. */
  function ParseString(b: string, vs: nat, key: string, o: Op): (t: Turn)
    requires vs <= |b|
    ensures t.More? ==> vs < t.pos
  {
    var z := StringEnd(b, vs);
    if key == "" then Stop(Fault)
    else
      var val := if '\\' in Cut(b, vs, z) then Unescaped(Cut(b, vs, z)) else Cut(b, vs, z);
      More(z + 1, SetString(o, key[0], val))
  }

  function ParseNumber(b: string, vs: nat, key: string, o: Op): (t: Turn)
    requires vs <= |b|
    ensures t.More? ==> vs <= t.pos <= |b|
  {
    var z := FindEnd(b, vs);
    if key == "" then Stop(Fault) else More(z, SetNumber(o, key[0], TrimSpace(b[vs..z])))
  }

  /** The value of field `key`, whose name ends just before `pos`. */
  function ParseValue(b: string, pos: nat, key: string, o: Op): (t: Turn)
    requires pos <= |b|
    ensures t.More? ==> pos < t.pos
  {
    var p := Find(b, pos, ':');
    if p == |b| then Stop(Bad)
    else
      var v := SkipBlanks(b, p + 1);
      if v == |b| then Stop(Bad)
      else if b[v] == '"' then ParseString(b, v + 1, key, o)
      else ParseNumber(b, v, key, o)
  }

  function ParseField(b: string, pos: nat, o: Op): (t: Turn)
    requires pos <= |b|
    ensures t.More? ==> pos < t.pos
  {
    var k := Find(b, pos, '"');
    if k == |b| then Stop(Finish(o))
    else
      var q := Find(b, k + 1, '"');
      if q == |b| then Stop(Bad) else ParseValue(b, q + 1, b[k + 1..q], o)
  }

  /** What the rest of a line, from `pos` on, makes of the fields read so far. */
  function ParseFrom(b: string, pos: nat, o: Op): Outcome
    decreases if pos <= |b| then |b| - pos + 1 else 0
  {
    if pos >= |b| then Finish(o)
    else
      match ParseField(b, pos, o)
      case Stop(r) => r
      case More(next, o') => ParseFrom(b, next, o')
  }

  function Parse(b: string): Outcome {
    ParseFrom(b, 0, EMPTY_OP)
  }

  method FindFrom(b: string, start: nat, ch: char) returns (pos: nat)
    requires start <= |b|
    ensures pos == Find(b, start, ch)
  {
    pos := start;
    while pos < |b| && b[pos] != ch
      invariant pos <= |b| && Find(b, start, ch) == Find(b, pos, ch)
    {
      pos := pos + 1;
    }
  }

  /** Scans a string value that starts at `vs`. */
  method ScanString(b: string, vs: nat) returns (pos: nat, escapes: bool)
    requires vs <= |b|
    ensures pos == StringEnd(b, vs)
    ensures escapes <==> '\\' in Cut(b, vs, pos)
  {
    pos, escapes := vs, false;
    while pos < |b|
      invariant vs <= pos <= |b| + 1
      invariant StringEnd(b, vs) == if pos <= |b| then StringEnd(b, pos) else pos
      invariant escapes <==> exists k :: vs <= k < pos && k < |b| && b[k] == '\\'
      decreases |b| - pos
    {
      if b[pos] == '\\' {
        escapes := true;
        pos := pos + 2;
        continue;
      }
      if b[pos] == '"' {
        break;
      }
      pos := pos + 1;
    }
  }

  method ScanNumber(b: string, vs: nat) returns (pos: nat)
    requires vs <= |b|
    ensures pos == FindEnd(b, vs)
  {
    pos := vs;
    while pos < |b| && b[pos] != ',' && b[pos] != '}'
      invariant pos <= |b| && FindEnd(b, vs) == FindEnd(b, pos)
    {
      pos := pos + 1;
    }
  }

  /** The value of a field, from the end of its name on. */
  method ParseValueAt(b: string, start: nat, key: string, o: Op) returns (t: Turn)
    requires start <= |b|
    ensures t == ParseValue(b, start, key, o)
  {
    var pos := FindFrom(b, start, ':');
    if pos >= |b| {
      return Stop(Bad);
    }
    pos := pos + 1;
    ghost var v := SkipBlanks(b, pos);
    while pos < |b| && (b[pos] == ' ' || b[pos] == '\t')
      invariant pos <= |b| && SkipBlanks(b, pos) == v
    {
      pos := pos + 1;
    }
    if pos >= |b| {
      return Stop(Bad);
    }
    if b[pos] == '"' {
      var vs := pos + 1;
      var end, escapes := ScanString(b, vs);
      if key == "" {
        return Stop(Fault);
      }
      var val := Cut(b, vs, end);
      if escapes {
        val := Unescape(val);
      }
      t := More(end + 1, SetString(o, key[0], val));
    } else {
      var end := ScanNumber(b, pos);
      var num := TrimSpace(b[pos..end]);
      if key == "" {
        return Stop(Fault);
      }
      t := More(end, SetNumber(o, key[0], num));
    }
  }

  /** One turn of the loop of `parseOp`. */
  method ParseFieldAt(b: string, start: nat, o: Op) returns (t: Turn)
    requires start <= |b|
    ensures t == ParseField(b, start, o)
  {
    var pos := FindFrom(b, start, '"');
    if pos >= |b| {
      return Stop(Finish(o));
    }
    var ks := pos + 1;
    pos := FindFrom(b, ks, '"');
    if pos >= |b| {
      return Stop(Bad);
    }
    t := ParseValueAt(b, pos + 1, b[ks..pos], o);
  }

  /** `parseOp`. */
  method ParseOp(b: string) returns (r: Outcome)
    ensures r == Parse(b)
  {
    var o := EMPTY_OP;
    var pos := 0;
    while pos < |b|
      invariant ParseFrom(b, pos, o) == Parse(b)
      decreases |b| - pos
    {
      var t := ParseFieldAt(b, pos, o);
      if t.Stop? {
        return t.r;
      }
      pos, o := t.pos, t.o;
    }
    r := Finish(o);
  }
}
