/** How a link is stored in a key-value server: the text of its value, and the places of its
    row and of its hit counter in the two layouts. */
module RowValue {
  import opened Ints
  import opened LogLine
  import opened LineRoundTrip
  import opened Options

  /** Expiry, creation time, URL. */
  datatype Rec = Rec(e: int64, c: int64, u: string)

  const VERSION := "v1|"

  function EncVal(r: Rec): string {
    VERSION + (Dec(r.e) + ("|" + (Dec(r.c) + ("|" + r.u))))
  }

  function TrimVersion(s: string): string {
    if VERSION <= s then s[3..] else s
  }

  function DecRest(e: int64, rest: string): Option<Rec> {
    var q := Find(rest, 0, '|');
    if q == |rest| then Some(Rec(e, 0, rest))
    else
      var c := ParseInt(rest[..q]);
      if c.ok then Some(Rec(e, c.value, rest[q + 1..])) else None
  }

  function DecVal(v: string): Option<Rec> {
    var s := TrimVersion(v);
    var p := Find(s, 0, '|');
    if p == |s| then None
    else
      var e := ParseInt(s[..p]);
      if e.ok then DecRest(e.value, s[p + 1..]) else None
  }

  lemma FindBar(n: int64, rest: string)
    ensures Find(Dec(n) + ("|" + rest), 0, '|') == |Dec(n)|
    ensures (Dec(n) + ("|" + rest))[..|Dec(n)|] == Dec(n)
    ensures (Dec(n) + ("|" + rest))[|Dec(n)| + 1..] == rest
  {
    DecParse(n);
    var s := Dec(n) + ("|" + rest);
    assert s[|Dec(n)|] == ("|" + rest)[0];
    assert forall j :: 0 <= j < |Dec(n)| ==> s[j] == Dec(n)[j];
    FindAt(s, 0, |Dec(n)|, '|');
  }

  lemma Unversioned(n: int64, rest: string)
    ensures TrimVersion(Dec(n) + rest) == Dec(n) + rest
  {
    DecParse(n);
    assert (Dec(n) + rest)[0] == Dec(n)[0];
    assert VERSION[0] == 'v';
  }

  lemma RestRoundTrip(e: int64, c: int64, u: string)
    ensures DecRest(e, Dec(c) + ("|" + u)) == Some(Rec(e, c, u))
  {
    FindBar(c, u);
    DecParse(c);
  }

  lemma BodyRoundTrip(e: int64, rest: string)
    ensures var s := Dec(e) + ("|" + rest);
            Find(s, 0, '|') < |s| && ParseInt(s[..Find(s, 0, '|')]) == Parsed(e, true) &&
            s[Find(s, 0, '|') + 1..] == rest
  {
    FindBar(e, rest);
    DecParse(e);
  }

  /** Whatever the URL holds, bars included, a stored value decodes to what was stored. */
  lemma ValueRoundTrip(r: Rec)
    ensures DecVal(EncVal(r)) == Some(r)
  {
    hide Dec, ParseInt, Find, DecRest;
    var rest := Dec(r.c) + ("|" + r.u);
    var body := Dec(r.e) + ("|" + rest);
    assert EncVal(r)[3..] == body;
    BodyRoundTrip(r.e, rest);
    RestRoundTrip(r.e, r.c, r.u);
  }

  /** Values of the layout without a version tag decode as well. */
  lemma UntaggedRoundTrip(r: Rec)
    ensures DecVal(Dec(r.e) + ("|" + (Dec(r.c) + ("|" + r.u)))) == Some(r)
  {
    hide Dec, ParseInt, Find, DecRest;
    var rest := Dec(r.c) + ("|" + r.u);
    Unversioned(r.e, "|" + rest);
    BodyRoundTrip(r.e, rest);
    RestRoundTrip(r.e, r.c, r.u);
  }

  /** The oldest layout had no creation time. It is read back, with 0 for that time, if and
      only if there is no bar in the URL. */
  lemma OldestLayout(e: int64, u: string)
    ensures DecVal(Dec(e) + ("|" + u)) == Some(Rec(e, 0, u)) <==> '|' !in u
  {
    hide Dec, ParseInt;
    Unversioned(e, "|" + u);
    BodyRoundTrip(e, u);
    FindFirst(u, '|');
    var q := Find(u, 0, '|');
    if q < |u| {
      assert |u[q + 1..]| < |u|;
    }
  }

  lemma {:induction false} FindFirst(s: string, ch: char)
    ensures Find(s, 0, ch) == |s| <==> ch !in s
  {
    FindFrom(s, 0, ch);
    assert s[0..] == s;
  }

  lemma {:induction false} FindFrom(s: string, pos: nat, ch: char)
    requires pos <= |s|
    ensures Find(s, pos, ch) == |s| <==> ch !in s[pos..]
    decreases |s| - pos
  {
    if pos < |s| {
      assert s[pos..] == [s[pos]] + s[pos + 1..];
      FindFrom(s, pos + 1, ch);
    }
  }

  // ---------- places ----------

  const NUM_SHARDS := 256

  function Fnv(code: string, h: bv32): bv32 {
    if code == "" then h
    else Fnv(code[1..], (h ^ ((code[0] as int % 256) as bv32)) * 16777619)
  }

  /** FNV-1a, the last eight bits. */
  function ShardOf(code: string): (n: nat)
    ensures n < NUM_SHARDS
  {
    Fnv(code, 2166136261) as int % NUM_SHARDS
  }

  /** A plain key, or a field of a hash. */
  datatype Place = Key(k: string) | Field(bucket: string, f: string)

  type Pos = x: nat | 0 < x witness 1

  /** The `KV_LAYOUT` setting and the number of buckets. */
  datatype Layout = Plain | Hash(buckets: Pos)

  function Bucket(l: Layout, code: string): string
    requires l.Hash?
  {
    "l:" + Digits(ShardOf(code) % l.buckets)
  }

  function RowPlace(l: Layout, code: string): Place
  {
    if l.Plain? then Key("l:" + code) else Field(Bucket(l, code), code)
  }

  function HitPlace(l: Layout, code: string): Place
  {
    if l.Plain? then Key("h:" + code) else Field(Bucket(l, code), "h:" + code)
  }

  /** No two codes share a place, and no row lies where a counter does. */
  lemma PlacesApart(l: Layout, c: string, d: string)
    requires CodeOK(c) && CodeOK(d)
    ensures RowPlace(l, c) == RowPlace(l, d) <==> c == d
    ensures HitPlace(l, c) == HitPlace(l, d) <==> c == d
    ensures RowPlace(l, c) != HitPlace(l, d)
  {
    assert ("l:" + c)[2..] == c && ("l:" + d)[2..] == d;
    assert ("h:" + c)[2..] == c && ("h:" + d)[2..] == d;
    assert ("l:" + c)[0] == 'l' && ("h:" + d)[0] == 'h';
    if c == "h:" + d {
      assert c[1] == ':';
      assert CodeChar(c[1]);
    }
  }
}
