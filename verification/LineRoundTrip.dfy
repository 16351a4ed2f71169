/** Parsing a printed line gives back what was printed, in whatever order the fields of
    the line stand. A line is seen here as a list of fields between braces. */
module LineRoundTrip {
  import opened Ints
  import opened LogLine

  datatype Field = Text(k: char, s: string) | Num(k: char, v: int64) | Null(k: char)

  function Name(k: char): string {
    ['"', k, '"', ':']
  }

  function ValueText(f: Field): string {
    match f
    case Text(_, s) => "\"" + (Escaped(s) + "\"")
    case Num(_, v) => Dec(v)
    case Null(_) => "null"
  }

  function FieldText(f: Field): string {
    Name(f.k) + ValueText(f)
  }

  /** The text after the first field. */
  function TailText(fs: seq<Field>): string {
    if fs == [] then "}" else "," + (FieldText(fs[0]) + TailText(fs[1..]))
  }

  function Line(fs: seq<Field>): string
    requires fs != []
  {
    "{" + (FieldText(fs[0]) + TailText(fs[1..]))
  }

  function SetField(o: Op, f: Field): Op {
    match f
    case Text(k, s) => SetString(o, k, s)
    case Num(k, v) => SetNumber(o, k, Dec(v))
    case Null(k) => SetNumber(o, k, "null")
  }

  function SetFields(o: Op, fs: seq<Field>): Op
    decreases |fs|
  {
    if fs == [] then o else SetFields(SetField(o, fs[0]), fs[1..])
  }

  ghost predicate Named(fs: seq<Field>) {
    forall j :: 0 <= j < |fs| ==> fs[j].k != '"'
  }

  // ---------- the scans ----------

  lemma {:induction false} FindAt(b: string, pos: nat, k: nat, ch: char)
    requires pos <= k <= |b|
    requires forall j :: pos <= j < k ==> b[j] != ch
    requires k < |b| ==> b[k] == ch
    ensures Find(b, pos, ch) == k
    decreases k - pos
  {
    if pos < k {
      FindAt(b, pos + 1, k, ch);
    }
  }

  lemma {:induction false} FindEndAt(b: string, pos: nat, k: nat)
    requires pos <= k < |b|
    requires forall j :: pos <= j < k ==> b[j] != ',' && b[j] != '}'
    requires b[k] == ',' || b[k] == '}'
    ensures FindEnd(b, pos) == k
    decreases k - pos
  {
    if pos < k {
      FindEndAt(b, pos + 1, k);
    }
  }

  /** `t` stands in `b` at position `p`. */
  ghost predicate Sits(b: string, p: nat, t: string) {
    p + |t| <= |b| && forall j {:trigger t[j]} :: 0 <= j < |t| ==> b[p + j] == t[j]
  }

  lemma SitsSplit(b: string, p: nat, s: string, t: string)
    requires Sits(b, p, s + t)
    ensures Sits(b, p, s) && Sits(b, p + |s|, t)
  {
    var st := s + t;
    assert forall j :: 0 <= j < |s| ==> st[j] == s[j];
    assert forall j :: 0 <= j < |t| ==> st[|s| + j] == t[j];
  }

  lemma SitsSlice(b: string, p: nat, t: string)
    requires Sits(b, p, t)
    ensures b[p..p + |t|] == t
  {}

  /** The scan of a string value runs over an escaped text to the quote after it. */
  lemma {:induction false} StringEndAt(b: string, pos: nat, u: string)
    requires Sits(b, pos, Escaped(u)) && pos + |Escaped(u)| < |b|
    requires b[pos + |Escaped(u)|] == '"'
    ensures StringEnd(b, pos) == pos + |Escaped(u)|
    decreases |u|
  {
    hide EscapedChar;
    if u != "" {
      var e := EscapedChar(u[0]);
      SitsSplit(b, pos, e, Escaped(u[1..]));
      EscapedCharSteps(b, pos, u[0]);
      StringEndAt(b, pos + |e|, u[1..]);
    }
  }

  lemma EscapedCharSteps(b: string, pos: nat, c: char)
    requires Sits(b, pos, EscapedChar(c)) && pos + |EscapedChar(c)| < |b|
    ensures StringEnd(b, pos) == StringEnd(b, pos + |EscapedChar(c)|)
  {
    var e := EscapedChar(c);
    assert b[pos] == e[0];
    if |e| == 6 {
      assert b[pos + 1] == e[1] && b[pos + 2] == e[2] && b[pos + 3] == e[3] && b[pos + 4] == e[4] && b[pos + 5] == e[5];
      HexDigitPlain(c as int / 16);
      HexDigitPlain(c as int % 16);
      PlainSteps(b, pos + 2, 4);
    }
  }

  lemma {:induction false} PlainSteps(b: string, pos: nat, n: nat)
    requires pos + n <= |b|
    requires forall j :: pos <= j < pos + n ==> b[j] != '"' && b[j] != '\\'
    ensures StringEnd(b, pos) == StringEnd(b, pos + n)
    decreases n
  {
    if n > 0 {
      PlainSteps(b, pos + 1, n - 1);
    }
  }

  lemma HexDigitPlain(d: nat)
    requires d < 16
    ensures HexDigit(d) != '"' && HexDigit(d) != '\\'
  {}

  lemma {:induction false} PlainEscaped(u: string)
    requires '\\' !in Escaped(u)
    ensures Escaped(u) == u
  {
    if u != "" {
      assert EscapedChar(u[0])[0] in Escaped(u);
      assert forall x :: x in Escaped(u[1..]) ==> x in Escaped(u);
      PlainEscaped(u[1..]);
    }
  }

  // ---------- one field ----------

  lemma FieldName(b: string, p: nat, k: char, t: string, o: Op)
    requires k != '"' && t != "" && t[0] != ' ' && t[0] != '\t'
    requires p < |b| && b[p] != '"'
    requires Sits(b, p + 1, Name(k) + t)
    ensures Sits(b, p + 5, t)
    ensures ParseField(b, p, o) ==
            if t[0] == '"' then ParseString(b, p + 6, [k], o) else ParseNumber(b, p + 5, [k], o)
  {
    hide ParseString, ParseNumber;
    SitsSplit(b, p + 1, Name(k), t);
    var s := Name(k);
    assert b[p + 1] == s[0] && b[p + 2] == s[1] && b[p + 3] == s[2] && b[p + 4] == s[3];
    assert b[p + 5] == t[0];
    FindAt(b, p, p + 1, '"');
    FindAt(b, p + 2, p + 3, '"');
    FindAt(b, p + 4, p + 4, ':');
    assert b[p + 2..p + 3] == [k];
  }

  lemma StringStep(b: string, p: nat, k: char, s: string, o: Op)
    requires p < |b| && Sits(b, p + 1, Escaped(s) + "\"")
    ensures ParseString(b, p + 1, [k], o) == More(p + 2 + |Escaped(s)|, SetString(o, k, s))
  {
    hide Escaped, Unescaped, SetString;
    var e, q := Escaped(s), "\"";
    SitsSplit(b, p + 1, e, q);
    assert b[p + 1 + |e|] == q[0];
    StringEndAt(b, p + 1, s);
    SitsSlice(b, p + 1, e);
    UnescapeEscaped(s);
    if '\\' !in e {
      PlainEscaped(s);
    }
  }

  lemma TextStep(b: string, p: nat, k: char, s: string, o: Op)
    requires k != '"' && p < |b| && b[p] != '"'
    requires Sits(b, p + 1, FieldText(Text(k, s)))
    ensures ParseField(b, p, o) == More(p + 1 + |FieldText(Text(k, s))|, SetString(o, k, s))
  {
    var t := ValueText(Text(k, s));
    FieldName(b, p, k, t, o);
    SitsSplit(b, p + 5, "\"", Escaped(s) + "\"");
    StringStep(b, p + 5, k, s, o);
  }

  lemma NumberStep(b: string, p: nat, k: char, t: string, o: Op)
    requires Sits(b, p, t) && p + |t| < |b|
    requires b[p + |t|] == ',' || b[p + |t|] == '}'
    requires forall j :: 0 <= j < |t| ==> t[j] != ',' && t[j] != '}'
    requires TrimSpace(t) == t
    ensures ParseNumber(b, p, [k], o) == More(p + |t|, SetNumber(o, k, t))
  {
    SitsSlice(b, p, t);
    forall j | p <= j < p + |t| ensures b[j] != ',' && b[j] != '}' {
      assert b[j] == t[j - p];
    }
    FindEndAt(b, p, p + |t|);
  }

  lemma TrimPlain(t: string)
    requires t != "" && '!' <= t[0] <= '~' && '!' <= t[|t| - 1] <= '~'
    ensures TrimSpace(t) == t
  {}

  /** The text of a number or `null`. */
  ghost predicate Plain(t: string) {
    t != "" && !IsSpace(t[0]) && t[0] != '"' && TrimSpace(t) == t &&
    forall j :: 0 <= j < |t| ==> t[j] != ',' && t[j] != '}'
  }

  lemma ValuePlain(f: Field)
    requires !f.Text?
    ensures Plain(ValueText(f))
  {
    if f.Num? {
      DecParse(f.v);
    }
    TrimPlain(ValueText(f));
  }

  lemma BareStep(b: string, p: nat, k: char, t: string, o: Op)
    requires k != '"' && p < |b| && b[p] != '"'
    requires Sits(b, p + 1, Name(k) + t) && Plain(t)
    requires Ends(b, p + 5 + |t|)
    ensures ParseField(b, p, o) == More(p + 5 + |t|, SetNumber(o, k, t))
  {
    FieldName(b, p, k, t, o);
    NumberStep(b, p + 5, k, t, o);
  }

  /** A field ends at `q`. */
  ghost predicate Ends(b: string, q: nat) {
    q < |b| && (b[q] == ',' || b[q] == '}')
  }

  lemma FieldStep(b: string, p: nat, f: Field, o: Op)
    requires f.k != '"' && p < |b| && b[p] != '"'
    requires Sits(b, p + 1, FieldText(f)) && Ends(b, p + 1 + |FieldText(f)|)
    ensures ParseField(b, p, o) == More(p + 1 + |FieldText(f)|, SetField(o, f))
  {
    if f.Text? {
      TextStep(b, p, f.k, f.s, o);
    } else {
      ValuePlain(f);
      BareStep(b, p, f.k, ValueText(f), o);
    }
  }

  // ---------- whole lines ----------

  lemma TailSits(b: string, p: nat, fs: seq<Field>)
    requires fs != [] && Sits(b, p, TailText(fs))
    ensures p < |b| && b[p] == ','
    ensures Sits(b, p + 1, FieldText(fs[0]) + TailText(fs[1..]))
    ensures p + |TailText(fs)| == p + 1 + |FieldText(fs[0])| + |TailText(fs[1..])|
  {
    SitsSplit(b, p, ",", FieldText(fs[0]) + TailText(fs[1..]));
    assert b[p] == ","[0];
  }

  lemma TailEnd(b: string, p: nat, o: Op)
    requires Sits(b, p, TailText([])) && p + 1 == |b|
    ensures ParseFrom(b, p, o) == Finish(o)
  {
    assert b[p] == "}"[0];
    FindAt(b, p, |b|, '"');
  }

  lemma TailStarts(fs: seq<Field>)
    ensures TailText(fs) != "" && (TailText(fs)[0] == ',' || TailText(fs)[0] == '}')
  {}

  lemma SetFieldsStep(o: Op, fs: seq<Field>)
    requires fs != []
    ensures SetFields(o, fs) == SetFields(SetField(o, fs[0]), fs[1..])
  {}

  lemma {:induction false} TailParse(b: string, p: nat, fs: seq<Field>, o: Op)
    requires Sits(b, p, TailText(fs)) && p + |TailText(fs)| == |b| && Named(fs)
    ensures ParseFrom(b, p, o) == Finish(SetFields(o, fs))
    decreases |fs|
  {
    hide ParseFrom, FieldText, SetField, Sits;
    if fs == [] {
      TailEnd(b, p, o);
    } else {
      TailSits(b, p, fs);
      TailStarts(fs[1..]);
      HeadParse(b, p, fs[0], TailText(fs[1..]), o);
      SetFieldsStep(o, fs);
      TailParse(b, p + 1 + |FieldText(fs[0])|, fs[1..], SetField(o, fs[0]));
    }
  }

  lemma HeadParse(b: string, p: nat, f: Field, rest: string, o: Op)
    requires f.k != '"' && p < |b| && b[p] != '"'
    requires rest != "" && (rest[0] == ',' || rest[0] == '}')
    requires Sits(b, p + 1, FieldText(f) + rest)
    ensures Sits(b, p + 1 + |FieldText(f)|, rest)
    ensures ParseFrom(b, p, o) == ParseFrom(b, p + 1 + |FieldText(f)|, SetField(o, f))
  {
    hide ParseField, SetField, ParseFrom, FieldText;
    SitsSplit(b, p + 1, FieldText(f), rest);
    assert Ends(b, p + 1 + |FieldText(f)|) by {
      assert b[p + 1 + |FieldText(f)|] == rest[0];
    }
    FieldStep(b, p, f, o);
    FromField(b, p, o);
  }

  lemma FromField(b: string, p: nat, o: Op)
    requires p < |b| && ParseField(b, p, o).More?
    ensures var t := ParseField(b, p, o); ParseFrom(b, p, o) == ParseFrom(b, t.pos, t.o)
  {}

  lemma LineSits(fs: seq<Field>)
    requires fs != []
    ensures Line(fs)[0] == '{' && Sits(Line(fs), 1, FieldText(fs[0]) + TailText(fs[1..]))
    ensures |Line(fs)| == 1 + |FieldText(fs[0])| + |TailText(fs[1..])|
  {
    var b := Line(fs);
    SitsSplit(b, 0, "{", FieldText(fs[0]) + TailText(fs[1..]));
    assert b[0] == "{"[0];
  }

  /** A line of fields parses to the fold of its fields. */
  lemma LineParse(fs: seq<Field>)
    requires fs != [] && Named(fs)
    ensures Parse(Line(fs)) == Finish(SetFields(EMPTY_OP, fs))
  {
    hide ParseFrom, TailText, Line, FieldText, SetField, SetFields, Sits;
    LineSits(fs);
    TailStarts(fs[1..]);
    HeadParse(Line(fs), 0, fs[0], TailText(fs[1..]), EMPTY_OP);
    SetFieldsStep(EMPTY_OP, fs);
    TailParse(Line(fs), 1 + |FieldText(fs[0])|, fs[1..], SetField(EMPTY_OP, fs[0]));
  }

  // ---------- logged operations ----------

  function FieldsOf(o: LogOp): (fs: seq<Field>)
    ensures fs != [] && Named(fs)
  {
    match o
    case Row(c, u, a, e, i, n) =>
      [Text('c', c), Text('u', u), Num('a', a), if e == 0 then Null('e') else Num('e', e), Num('i', i), Num('n', n)]
    case Hit(c, d, i) => [Text('h', c), Num('d', d), Num('i', i)]
    case Del(c) => [Text('x', c)]
  }

  /** The printed fields, as the parser should report them. */
  function ToOp(o: LogOp): Op {
    match o
    case Row(c, u, a, e, i, n) => Op(c, u, "", "", a, e, i, n, 0, e != 0)
    case Hit(c, d, i) => Op("", "", c, "", 0, 0, i, 0, d, false)
    case Del(c) => Op("", "", "", c, 0, 0, 0, 0, 0, false)
  }

  ghost predicate Loggable(o: LogOp) {
    CodeOK(o.c)
  }

  lemma {:induction false} CodeEscaped(c: string)
    requires forall k :: 0 <= k < |c| ==> CodeChar(c[k])
    ensures Escaped(c) == c
  {
    if c != "" {
      CodeEscaped(c[1..]);
    }
  }

  lemma TailCons(f: Field, rest: seq<Field>)
    ensures TailText([f] + rest) == "," + FieldText(f) + TailText(rest)
  {
    assert ([f] + rest)[1..] == rest;
  }

  lemma NumTail(lit: string, k: char, t: string, rest: string)
    requires lit == "," + Name(k)
    ensures "," + ((Name(k) + t) + rest) == lit + (t + rest)
  {}

  lemma TextTail(lit: string, sep: string, k: char, e: string, rest: string)
    requires lit == sep + (Name(k) + "\"")
    ensures sep + ((Name(k) + ("\"" + (e + "\""))) + rest) == lit + (e + ("\"" + rest))
  {}

  lemma PrintedHit(c: string, d: int64, i: int64)
    requires Escaped(c) == c
    ensures HitLine(c, d, i) == Line(FieldsOf(Hit(c, d, i)))
  {
    var fs := FieldsOf(Hit(c, d, i));
    TailCons(fs[2], []);
    TailCons(fs[1], [fs[2]]);
    assert fs[1..] == [fs[1]] + [fs[2]] && [fs[2]] == [fs[2]] + [];
    var t2, t1 := TailText([fs[2]]), TailText(fs[1..]);
    NumTail(",\"i\":", 'i', Dec(i), "}");
    NumTail(",\"d\":", 'd', Dec(d), t2);
    TextTail("{\"h\":\"", "{", 'h', c, t1);
  }

  lemma PrintedDel(c: string)
    requires Escaped(c) == c
    ensures DelLine(c) == Line(FieldsOf(Del(c)))
  {
    TextTail("{\"x\":\"", "{", 'x', c, "}");
  }

  /** The four number fields of a row. */
  lemma PrintedNumbers(a: int64, e: int64, i: int64, n: int64)
    ensures var fe := if e == 0 then Null('e') else Num('e', e);
            TailText([Num('a', a), fe, Num('i', i), Num('n', n)]) ==
            ",\"a\":" + (Dec(a) +
            (",\"e\":" + ((if e == 0 then "null" else Dec(e)) +
            (",\"i\":" + (Dec(i) +
            (",\"n\":" + (Dec(n) + "}")))))))
  {
    hide Dec;
    var fa, fe := Num('a', a), if e == 0 then Null('e') else Num('e', e);
    var fi, fn := Num('i', i), Num('n', n);
    TailCons(fn, []);
    TailCons(fi, [fn]);
    TailCons(fe, [fi, fn]);
    TailCons(fa, [fe, fi, fn]);
    assert [fn] + [] == [fn] && [fi] + [fn] == [fi, fn] && [fe] + [fi, fn] == [fe, fi, fn];
    assert [fa] + [fe, fi, fn] == [fa, fe, fi, fn];
    NumTail(",\"n\":", 'n', Dec(n), "}");
    NumTail(",\"i\":", 'i', Dec(i), TailText([fn]));
    NumTail(",\"e\":", 'e', ValueText(fe), TailText([fi, fn]));
    NumTail(",\"a\":", 'a', Dec(a), TailText([fe, fi, fn]));
  }

  lemma PrintedRow(c: string, u: string, a: int64, e: int64, i: int64, n: int64)
    requires Escaped(c) == c
    ensures RowLine(c, u, a, e, i, n) == Line(FieldsOf(Row(c, u, a, e, i, n)))
  {
    hide Dec, Escaped;
    var fs := FieldsOf(Row(c, u, a, e, i, n));
    var nums := fs[2..];
    PrintedNumbers(a, e, i, n);
    assert nums == [fs[2], fs[3], fs[4], fs[5]];
    TailCons(fs[1], nums);
    assert fs[1..] == [fs[1]] + nums;
    TextTail(",\"u\":\"", ",", 'u', Escaped(u), TailText(nums));
    TextTail("{\"c\":\"", "{", 'c', c, TailText(fs[1..]));
  }

  /** The line printers write their fields one after the other. */
  lemma PrintedFields(o: LogOp)
    requires Loggable(o)
    ensures LineOf(o) == Line(FieldsOf(o))
  {
    CodeEscaped(o.c);
    match o
    case Row(c, u, a, e, i, n) => PrintedRow(c, u, a, e, i, n);
    case Hit(c, d, i) => PrintedHit(c, d, i);
    case Del(c) => PrintedDel(c);
  }

  lemma FieldsFold(o: LogOp)
    requires o.c != ""
    ensures Finish(SetFields(EMPTY_OP, FieldsOf(o))) == Good(ToOp(o))
  {
    var fs := FieldsOf(o);
    match o
    case Row(c, u, a, e, i, n) =>
      DecParse(a); DecParse(e); DecParse(i); DecParse(n);
      NotNull(e);
      SixFields(EMPTY_OP, fs);
    case Hit(c, d, i) =>
      DecParse(d); DecParse(i);
      SetFieldsCons(EMPTY_OP, fs, 0);
      SetFieldsCons(SetField(EMPTY_OP, fs[0]), fs, 1);
      SetFieldsCons(SetField(SetField(EMPTY_OP, fs[0]), fs[1]), fs, 2);
    case Del(c) =>
      SetFieldsCons(EMPTY_OP, fs, 0);
  }

  lemma NotNull(n: int64)
    ensures Dec(n) != "null"
  {
    DecParse(n);
    assert Dec(n)[0] in Dec(n);
  }

  lemma SixFields(o: Op, fs: seq<Field>)
    requires |fs| == 6
    ensures SetFields(o, fs) ==
            SetField(SetField(SetField(SetField(SetField(SetField(o, fs[0]), fs[1]), fs[2]), fs[3]), fs[4]), fs[5])
  {
    SetFieldsCons(o, fs, 0);
    SetFieldsCons(SetField(o, fs[0]), fs, 1);
    SetFieldsCons(SetField(SetField(o, fs[0]), fs[1]), fs, 2);
    var o3 := SetField(SetField(SetField(o, fs[0]), fs[1]), fs[2]);
    SetFieldsCons(o3, fs, 3);
    SetFieldsCons(SetField(o3, fs[3]), fs, 4);
    SetFieldsCons(SetField(SetField(o3, fs[3]), fs[4]), fs, 5);
    assert fs[0..] == fs;
  }

  lemma SetFieldsCons(o: Op, fs: seq<Field>, j: nat)
    requires j < |fs|
    ensures SetFields(o, fs[j..]) == SetFields(SetField(o, fs[j]), fs[j + 1..])
  {
    assert fs[j..][1..] == fs[j + 1..];
  }

  /** Log-line round trip: every URL, every int64 field, every legal code. */
  lemma RoundTrip(o: LogOp)
    requires Loggable(o)
    ensures Parse(LineOf(o)) == Good(ToOp(o))
  {
    PrintedFields(o);
    LineParse(FieldsOf(o));
    FieldsFold(o);
  }

  // ---------- field order ----------

  ghost predicate DistinctKeys(fs: seq<Field>) {
    forall j, k :: 0 <= j < k < |fs| ==> fs[j].k != fs[k].k
  }

  lemma StringsCommute(o: Op, k: char, s: string, l: char, t: string)
    requires k != l
    ensures SetString(SetString(o, k, s), l, t) == SetString(SetString(o, l, t), k, s)
  {}

  lemma StringIntCommute(o: Op, k: char, s: string, l: char, v: int64, isNull: bool)
    requires k != l
    ensures SetInt(SetString(o, k, s), l, v, isNull) == SetString(SetInt(o, l, v, isNull), k, s)
  {}

  lemma IntsCommute(o: Op, k: char, v: int64, b: bool, l: char, w: int64, c: bool)
    requires k != l
    ensures SetInt(SetInt(o, k, v, b), l, w, c) == SetInt(SetInt(o, l, w, c), k, v, b)
  {}

  lemma SetFieldCommutes(o: Op, f: Field, g: Field)
    requires f.k != g.k
    ensures SetField(SetField(o, f), g) == SetField(SetField(o, g), f)
  {
    var s, t := ValueText(f), ValueText(g);
    var v, w := ParseInt(s).value, ParseInt(t).value;
    if f.Text? && g.Text? {
      StringsCommute(o, f.k, f.s, g.k, g.s);
    } else if f.Text? {
      StringIntCommute(o, f.k, f.s, g.k, w, t == "null");
    } else if g.Text? {
      StringIntCommute(o, g.k, g.s, f.k, v, s == "null");
    } else {
      IntsCommute(o, f.k, v, s == "null", g.k, w, t == "null");
    }
  }

  /** A field may be moved to the front when no other has its key. */
  lemma {:induction false} Hoist(o: Op, fs: seq<Field>, p: nat)
    requires p < |fs| && DistinctKeys(fs)
    ensures SetFields(o, fs) == SetFields(SetField(o, fs[p]), fs[..p] + fs[p + 1..])
    decreases p
  {
    hide SetField;
    var gs := fs[..p] + fs[p + 1..];
    if p == 0 {
      assert gs == fs[1..];
    } else {
      Hoist(SetField(o, fs[0]), fs[1..], p - 1);
      assert gs[0] == fs[0] && gs[1..] == fs[1..][..p - 1] + fs[1..][p..];
      SetFieldCommutes(o, fs[0], fs[p]);
    }
  }

  lemma Without(fs: seq<Field>, p: nat)
    requires p < |fs|
    ensures multiset(fs) == multiset(fs[..p] + fs[p + 1..]) + multiset{fs[p]}
    ensures DistinctKeys(fs) ==> DistinctKeys(fs[..p] + fs[p + 1..])
  {
    assert fs == fs[..p] + [fs[p]] + fs[p + 1..];
  }

  lemma Cancel(a: multiset<Field>, b: multiset<Field>, f: Field)
    requires a + multiset{f} == b + multiset{f}
    ensures a == b
  {
    assert a == (a + multiset{f}) - multiset{f};
    assert b == (b + multiset{f}) - multiset{f};
  }

  lemma KeysDistinct(o: LogOp)
    ensures DistinctKeys(FieldsOf(o))
  {}

  lemma {:induction false} FoldPermuted(o: Op, fs: seq<Field>, gs: seq<Field>)
    requires multiset(fs) == multiset(gs) && DistinctKeys(fs)
    ensures SetFields(o, fs) == SetFields(o, gs)
    decreases |gs|
  {
    hide SetField;
    if gs == [] {
      assert |multiset(fs)| == 0;
    } else {
      assert gs[0] in multiset(fs);
      var p :| 0 <= p < |fs| && fs[p] == gs[0];
      var rest := fs[..p] + fs[p + 1..];
      Hoist(o, fs, p);
      Without(fs, p);
      assert gs == [gs[0]] + gs[1..];
      assert multiset(gs) == multiset(gs[1..]) + multiset{gs[0]};
      Cancel(multiset(rest), multiset(gs[1..]), gs[0]);
      FoldPermuted(SetField(o, gs[0]), rest, gs[1..]);
    }
  }

  /** The order of the fields on a line does not matter to the parser. */
  lemma AnyFieldOrder(o: LogOp, fs: seq<Field>)
    requires Loggable(o) && multiset(fs) == multiset(FieldsOf(o))
    ensures fs != [] && Parse(Line(fs)) == Parse(LineOf(o)) == Good(ToOp(o))
  {
    var gs := FieldsOf(o);
    assert |multiset(fs)| == |fs| && |multiset(gs)| == |gs|;
    KeysDistinct(o);
    forall j | 0 <= j < |fs| ensures fs[j].k != '"' {
      assert fs[j] in multiset(gs);
    }
    FoldPermuted(EMPTY_OP, gs, fs);
    LineParse(fs);
    FieldsFold(o);
    RoundTrip(o);
  }
}
