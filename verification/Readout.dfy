/** What a reader of the metrics text gets: the numbers behind its names, and the list at its end. */
module Readout {
  import opened Ints
  import opened LogLine
  import opened RowValue
  import opened Metrics

  /** The pieces of a text between its commas. */
  function Split(s: string): seq<string>
    decreases |s|
  {
    var k := Find(s, 0, ',');
    if k == |s| then [s] else [s[..k]] + Split(s[k + 1..])
  }

  /** One more piece. */
  lemma {:induction false} SplitSnoc(s: string, t: string)
    requires ',' !in t
    ensures Split(s + ("," + t)) == Split(s) + [t]
    decreases |s|
  {
    var b := s + ("," + t);
    var k := Find(s, 0, ',');
    FindIn(s, t);
    assert b[..k] == s[..k];
    if k == |s| {
      assert b[k + 1..] == t;
      SplitOne(t);
    } else {
      assert b[k + 1..] == s[k + 1..] + ("," + t);
      SplitSnoc(s[k + 1..], t);
    }
  }

  lemma SplitOne(t: string)
    requires ',' !in t
    ensures Split(t) == [t]
  {
    FindFirst(t, ',');
  }

  lemma FindIn(s: string, t: string)
    ensures Find(s + ("," + t), 0, ',') == Find(s, 0, ',')
  {
    FindInFrom(s, t, 0);
  }

  lemma {:induction false} FindInFrom(s: string, t: string, p: nat)
    requires p <= |s|
    ensures Find(s + ("," + t), p, ',') == Find(s, p, ',')
    decreases |s| - p
  {
    if p < |s| && s[p] != ',' {
      FindInFrom(s, t, p + 1);
    }
  }

  lemma NoComma(n: int64)
    ensures ',' !in Dec(n)
  {
    hide Dec, ParseInt;
    DecParse(n);
  }

  /** Between the commas stand the numbers. */
  lemma {:induction false} NumbersRead(w: seq<int64>)
    requires w != []
    ensures |Split(Numbers(w))| == |w|
    ensures forall i :: 0 <= i < |w| ==> Split(Numbers(w))[i] == Dec(w[i])
  {
    hide Dec, Split;
    var n := |w| - 1;
    NoComma(w[n]);
    if n == 0 {
      assert w[..0] == [];
      assert Numbers(w) == Dec(w[0]);
      SplitOne(Dec(w[0]));
    } else {
      NumbersRead(w[..n]);
      SplitSnoc(Numbers(w[..n]), Dec(w[n]));
    }
  }

  /** The numbers of a snapshot in the order of the text. */
  datatype Numerals = Numerals(rate: string, total: string, uptime: string, list: string)

  lemma JsonParts(r: Ring, now: nat, started: nat) returns (x: Numerals)
    requires |r.buckets| == N
    ensures x.rate == Tenths(Rounded(Sum(Shown(r, now / 1000)[25..30]))) && x.total == Dec(r.total)
    ensures x.uptime == Dec(Seconds(now - started)) && x.list == Numbers(Shown(r, now / 1000))
    ensures Json(r, now, started) == "{\"req_s\":" + x.rate + ",\"total\":" + x.total + ",\"uptime_s\":" + x.uptime +
                                     ",\"per_second\":[" + x.list + "]}"
  {
    hide Tenths, Rounded, Sum, Shown, Dec, Seconds, Numbers;
    x := Numerals(Tenths(Rounded(Sum(Shown(r, now / 1000)[25..30]))), Dec(r.total), Dec(Seconds(now - started)),
                  Numbers(Shown(r, now / 1000)));
  }

  /** The text of a snapshot after the requests of the seconds `h`: behind "total" their number, behind
      "uptime_s" the whole seconds since the start, behind "req_s" a fifth of the requests of the last
      five whole seconds, and at the end the counts of the last thirty seconds and the present one. */
  lemma ReadBack(start: nat, h: seq<nat>, now: nat, started: nat) returns (x: Numerals)
    requires Ordered(h + [now / 1000]) && |h| < TWO63 && 30000 <= now < TWO63 && started <= now
    ensures Json(Run(start, h), now, started) ==
            "{\"req_s\":" + x.rate + ",\"total\":" + x.total + ",\"uptime_s\":" + x.uptime +
            ",\"per_second\":[" + x.list + "]}"
    ensures ParseInt(x.total) == Parsed(|h|, true)
    ensures ParseInt(x.uptime) == Parsed((now - started) / 1000, true)
    ensures var fifth := Between(h, now / 1000 - 5, now / 1000);
            x.rate == Dec(fifth / 5) + if fifth % 5 == 0 then "" else "." + Dec(fifth % 5 * 2)
    ensures |Split(x.list)| == 31
    ensures forall i :: 0 <= i < 31 ==>
              ParseInt(Split(x.list)[i]).ok && ParseInt(Split(x.list)[i]).value == Count(h, now / 1000 - 30 + i)
  {
    hide Json, Run, Ordered, Tenths, Rounded, Sum, Shown, Dec, ParseInt, Numbers, Split, Count, Between, SlotAt;
    x := JsonParts(Run(start, h), now, started);
    TotalIs(start, h);
    DecParse(|h|);
    DecParse((now - started) / 1000);
    RateRead(start, h, now / 1000);
    NumbersRead(Shown(Run(start, h), now / 1000));
    forall i | 0 <= i < 31
      ensures ParseInt(Split(x.list)[i]).ok && ParseInt(Split(x.list)[i]).value == Count(h, now / 1000 - 30 + i)
    {
      EntryRead(start, h, now / 1000, i);
    }
  }

  lemma TotalIs(start: nat, h: seq<nat>)
    requires |h| < TWO63
    ensures Run(start, h).total == |h|
  {
    TotalWraps(start, h);
  }

  lemma {:induction false} TotalWraps(start: nat, h: seq<nat>)
    ensures Run(start, h).total == Wrap(|h|)
  {
    hide Wrap, Cleared;
    if h == [] {
      WrapZero();
    } else {
      TotalWraps(start, h[..|h| - 1]);
      WrapAdd(|h| - 1, 1);
    }
  }

  lemma EntryRead(start: nat, h: seq<nat>, s: nat, i: nat)
    requires Ordered(h + [s]) && |h| < TWO63 && WINDOW - 1 <= s && i < WINDOW
    ensures Shown(Run(start, h), s)[i] == Count(h, s - 30 + i)
    ensures ParseInt(Dec(Shown(Run(start, h), s)[i])).ok &&
            ParseInt(Dec(Shown(Run(start, h), s)[i])).value == Count(h, s - 30 + i)
  {
    hide Run, Ordered, Dec, ParseInt, Count, SlotAt;
    RingRefines(start, h, s, i);
    CountWithin(h, s - 30 + i);
    DecParse(Shown(Run(start, h), s)[i]);
  }

  /** Tenths are read as a whole number and one decimal. */
  lemma RateRead(start: nat, h: seq<nat>, s: nat)
    requires Ordered(h + [s]) && |h| < TWO63 && WINDOW - 1 <= s
    ensures var fifth := Between(h, s - 5, s);
            Tenths(Rounded(Sum(Shown(Run(start, h), s)[25..30]))) ==
            Dec(fifth / 5) + if fifth % 5 == 0 then "" else "." + Dec(fifth % 5 * 2)
  {
    hide Run, Ordered, Digits, Rounded, Sum, Shown, Between;
    var fifth := Between(h, s - 5, s);
    RateCounts(start, h, s);
    BetweenBound(h, s - 5, s);
    RateExact(fifth);
    FifthTenths(fifth);
    OneDigit(fifth % 5 * 2);
  }

  lemma FifthTenths(n: nat)
    ensures 2 * n / 10 == n / 5 && 2 * n % 10 == n % 5 * 2
  {}

  lemma OneDigit(d: nat)
    requires d < 10
    ensures Dec(d) == [Digit(d)]
  {}
}
