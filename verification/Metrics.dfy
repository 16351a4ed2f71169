/** The request counter: a ring of sixty slots, one for each second, that stands for the whole
    history of requests. */
module Metrics {
  import opened Ints
  import opened Options

  const N := 60
  const WINDOW := 31

  datatype Ring = Ring(buckets: seq<int64>, cur: nat, total: int64)

  /** The slots of the seconds lo..hi-1 set to zero. */
  function Cleared(b: seq<int64>, lo: nat, hi: nat): (r: seq<int64>)
    requires |b| == N
    ensures |r| == N
    decreases hi
  {
    if lo >= hi then b else Cleared(b, lo, hi - 1)[(hi - 1) % N := 0]
  }

  /** One request in second `s`. */
  function Ticked(r: Ring, s: nat): (r': Ring)
    requires |r.buckets| == N
    ensures |r'.buckets| == N
  {
    var b := if r.cur < s then Cleared(r.buckets, r.cur + 1, s + 1) else r.buckets;
    Ring(b[s % N := Wrap(b[s % N] + 1)], s, Wrap(r.total + 1))
  }

  function Fresh(start: nat): (r: Ring)
    ensures |r.buckets| == N
  {
    Ring(seq(N, _ => 0), start, 0)
  }

  /** The ring after requests in the seconds `h`. */
  function Run(start: nat, h: seq<nat>): (r: Ring)
    ensures |r.buckets| == N
  {
    if h == [] then Fresh(start) else Ticked(Run(start, h[..|h| - 1]), h[|h| - 1])
  }

  /** What a snapshot in second `s` shows for second `t`. */
  function SlotAt(r: Ring, t: nat): int64
    requires |r.buckets| == N
  {
    if t <= r.cur && r.cur - t < N then r.buckets[t % N] else 0
  }

  // ---------- the history ----------

  /** The requests of second `t`. */
  function Count(h: seq<nat>, t: int): nat {
    if t >= 0 then multiset(h)[t] else 0
  }

  /** A clock that never goes back. */
  ghost predicate Ordered(h: seq<nat>) {
    forall i, j :: 0 <= i < j < |h| ==> h[i] <= h[j]
  }

  /** The sixty slots are the counts of the last sixty seconds. */
  ghost predicate Holds(b: seq<int64>, cur: nat, h: seq<nat>) {
    |b| == N && forall u: int :: cur - N < u <= cur ==> b[u % N] == Wrap(Count(h, u))
  }

  ghost predicate Tracks(r: Ring, h: seq<nat>) {
    Holds(r.buckets, r.cur, h) && (forall i :: 0 <= i < |h| ==> h[i] <= r.cur) && r.total == Wrap(|h|)
  }

  lemma SlotsApart(u: int, v: int)
    requires u < v < u + N
    ensures u % N != v % N
  {}

  lemma NoneLater(h: seq<nat>, cur: nat, t: int)
    requires (forall i :: 0 <= i < |h| ==> h[i] <= cur) && cur < t
    ensures Count(h, t) == 0
  {
    assert multiset(h)[t] > 0 ==> t in h;
  }

  /** Clearing moves the window on, however far. */
  lemma {:induction false} ClearedHolds(b: seq<int64>, cur: nat, s: nat, h: seq<nat>)
    requires Holds(b, cur, h) && cur <= s && forall i :: 0 <= i < |h| ==> h[i] <= cur
    ensures Holds(Cleared(b, cur + 1, s + 1), s, h)
    decreases s
  {
    if cur < s {
      ClearedHolds(b, cur, s - 1, h);
      NoneLater(h, cur, s);
      var before, after := Cleared(b, cur + 1, s), Cleared(b, cur + 1, s + 1);
      forall u: int | s - N < u <= s ensures after[u % N] == Wrap(Count(h, u)) {
        if u < s {
          SlotsApart(u, s);
        }
      }
    }
  }

  lemma CountSnoc(h: seq<nat>, s: nat, t: int)
    ensures Count(h + [s], t) == Count(h, t) + if t == s then 1 else 0
  {}

  lemma TickTracks(r: Ring, h: seq<nat>, s: nat)
    requires Tracks(r, h) && r.cur <= s
    ensures Tracks(Ticked(r, s), h + [s])
  {
    hide Wrap, Count, Cleared;
    ClearedHolds(r.buckets, r.cur, s, h);
    var b := if r.cur < s then Cleared(r.buckets, r.cur + 1, s + 1) else r.buckets;
    assert Holds(b, s, h);
    WrapAdd(Count(h, s), 1);
    WrapAdd(|h|, 1);
    forall u: int | s - N < u <= s ensures Ticked(r, s).buckets[u % N] == Wrap(Count(h + [s], u)) {
      CountSnoc(h, s, u);
      if u < s {
        SlotsApart(u, s);
      }
    }
  }

  lemma FreshTracks(start: nat)
    ensures Tracks(Fresh(start), [])
  {}

  lemma {:induction false} RunTracks(start: nat, h: seq<nat>)
    requires Ordered(h) && h != []
    ensures Tracks(Run(start, h), h) && Run(start, h).cur == h[|h| - 1]
  {
    hide Tracks, Ticked, Fresh;
    var i := |h| - 1;
    TickedCur(Run(start, h[..i]), h[i]);
    assert h == h[..i] + [h[i]];
    if i == 0 {
      FirstTick(start, h[0]);
      FreshTracks(h[0]);
      TickTracks(Fresh(h[0]), [], h[0]);
    } else {
      RunTracks(start, h[..i]);
      TickTracks(Run(start, h[..i]), h[..i], h[i]);
    }
  }

  /** When the ring starts does not matter: it is empty. */
  lemma FirstTick(start: nat, s: nat)
    ensures Ticked(Fresh(start), s) == Ticked(Fresh(s), s) && Fresh(s).cur == s
  {
    if start < s {
      ClearedEmpty(start, s);
    }
  }

  lemma {:induction false} ClearedEmpty(start: nat, s: nat)
    requires start <= s
    ensures Cleared(Fresh(start).buckets, start + 1, s + 1) == Fresh(start).buckets
    decreases s
  {
    if start < s {
      ClearedEmpty(start, s - 1);
    }
  }

  lemma TickedCur(r: Ring, s: nat)
    requires |r.buckets| == N
    ensures Ticked(r, s).cur == s
  {}

  /** The ring refines the history: after any requests, whatever the gaps between them, each of
      the 31 entries of a snapshot is the exact number of requests in its second. */
  lemma RingRefines(start: nat, h: seq<nat>, s: nat, i: nat)
    requires Ordered(h + [s]) && WINDOW - 1 <= s && i < WINDOW
    ensures SlotAt(Run(start, h), s - (WINDOW - 1) + i) == Wrap(Count(h, s - (WINDOW - 1) + i))
  {
    hide Run, Wrap, Count;
    assert forall k :: 0 <= k < |h| ==> h[k] == (h + [s])[k];
    var t := s - (WINDOW - 1) + i;
    var r := Run(start, h);
    WrapZero();
    if h == [] {
      EmptyRing(start, t);
    } else {
      RunTracks(start, h);
      assert (h + [s])[|h| - 1] <= (h + [s])[|h|];
      if r.cur < t {
        NoneLater(h, r.cur, t);
      }
    }
  }

  lemma WrapZero()
    ensures Wrap(0) == 0
  {}

  lemma EmptyRing(start: nat, t: nat)
    ensures SlotAt(Run(start, []), t) == 0 && Count([], t) == 0
  {}

  /** Entry `i` of a snapshot in second `s`, after the requests `p`, is exact. */
  ghost predicate ExactAt(start: nat, p: seq<nat>, s: nat, i: nat) {
    i < WINDOW && WINDOW - 1 <= s ==>
      SlotAt(Run(start, p), s - (WINDOW - 1) + i) == Wrap(Count(p, s - (WINDOW - 1) + i))
  }

  /** At any point of the requests `h`, any snapshot that is not taken before the last request
      is exact. */
  ghost predicate AlwaysExact(start: nat, h: seq<nat>) {
    forall m: nat, s: nat, i: nat :: m <= |h| && (m > 0 ==> h[m - 1] <= s) ==> ExactAt(start, h[..m], s, i)
  }

  /** The ring is exact all along if and only if the clock never goes back. */
  lemma ExactIffOrdered(start: nat, h: seq<nat>)
    requires |h| < TWO63 && forall i :: 0 <= i < |h| ==> WINDOW - 1 <= h[i]
    ensures AlwaysExact(start, h) <==> Ordered(h)
  {
    hide ExactAt;
    if Ordered(h) {
      forall m: nat, s: nat, i: nat | m <= |h| && (m > 0 ==> h[m - 1] <= s) ensures ExactAt(start, h[..m], s, i) {
        PrefixExact(start, h, m, s, i);
      }
    } else {
      var m := Descent(h);
      DescentShows(start, h, m);
      assert h[..m + 1][m] == h[m];
    }
  }

  lemma PrefixExact(start: nat, h: seq<nat>, m: nat, s: nat, i: nat)
    requires Ordered(h) && m <= |h| && (m > 0 ==> h[m - 1] <= s)
    ensures ExactAt(start, h[..m], s, i)
  {
    hide Run, Wrap, Count, SlotAt;
    if i < WINDOW && WINDOW - 1 <= s {
      assert Ordered(h[..m] + [s]);
      RingRefines(start, h[..m], s, i);
    }
  }

  /** Where a clock first goes back. */
  lemma Descent(h: seq<nat>) returns (m: nat)
    requires !Ordered(h)
    ensures 0 < m < |h| && h[m] < h[m - 1]
  {
    var j :| 0 <= j < |h| && exists i :: 0 <= i < j && h[i] > h[j];
    var i :| 0 <= i < j && h[i] > h[j];
    m := i + 1;
    while h[m - 1] <= h[m]
      invariant i < m <= j && h[i] <= h[m - 1]
      decreases j - m
    {
      m := m + 1;
    }
  }

  /** The second the clock went back from has its requests, but a snapshot in it shows none. */
  lemma DescentShows(start: nat, h: seq<nat>, m: nat)
    requires 0 < m < |h| < TWO63 && h[m] < h[m - 1] && WINDOW - 1 <= h[m - 1]
    ensures h[..m + 1][m] <= h[m - 1] && !ExactAt(start, h[..m + 1], h[m - 1], WINDOW - 1)
  {
    hide Wrap;
    var p, t := h[..m + 1], h[m - 1];
    assert p[..m] == h[..m] && p[m] == h[m] && p[m - 1] == t;
    TickedCur(Run(start, h[..m]), h[m]);
    assert Run(start, p).cur == h[m];
    assert SlotAt(Run(start, p), t) == 0;
    CountWithin(p, t);
    assert t in p;
    WrapPositive(Count(p, t));
  }

  lemma CountWithin(h: seq<nat>, t: nat)
    ensures Count(h, t) <= |h| && (t in h ==> Count(h, t) > 0)
  {
    assert multiset(h)[t] <= |multiset(h)|;
  }

  lemma WrapPositive(n: nat)
    requires 0 < n < TWO63
    ensures Wrap(n) != 0
  {}

  /** With a clock that goes back the ring loses requests: of two in second 11, one is shown. */
  lemma ClockBackLoses()
    ensures var h := [10, 11, 10, 11]; Count(h, 11) == 2 && SlotAt(Run(10, h), 11) == 1
  {
    hide Wrap;
    assert [10, 11, 10, 11][..3] == [10, 11, 10];
    assert [10, 11, 10][..2] == [10, 11];
    assert [10, 11][..1] == [10];
    assert [10][..0] == [];
    assert Run(10, [10]) == Ticked(Run(10, []), 10);
    assert Run(10, [10, 11]) == Ticked(Run(10, [10]), 11);
    assert Run(10, [10, 11, 10]) == Ticked(Run(10, [10, 11]), 10);
    var r := Run(10, [10, 11, 10]);
    assert Run(10, [10, 11, 10, 11]) == Ticked(r, 11);
    assert Cleared(r.buckets, 11, 12) == Cleared(r.buckets, 11, 11)[11 := 0];
    WrapOne();
  }

  lemma WrapOne()
    ensures Wrap(1) == 1
  {}

  // ---------- the recent rate ----------

  /** The requests of the seconds lo..hi-1. */
  function Between(h: seq<nat>, lo: int, hi: int): nat
    decreases hi - lo
  {
    if lo >= hi then 0 else Between(h, lo, hi - 1) + Count(h, hi - 1)
  }

  lemma {:induction false} BetweenSnoc(h: seq<nat>, s: nat, lo: int, hi: int)
    ensures Between(h + [s], lo, hi) == Between(h, lo, hi) + if lo <= s < hi then 1 else 0
    decreases hi - lo
  {
    if lo < hi {
      BetweenSnoc(h, s, lo, hi - 1);
      CountSnoc(h, s, hi - 1);
    }
  }

  /** No more than all of them. */
  lemma {:induction false} BetweenBound(h: seq<nat>, lo: int, hi: int)
    ensures Between(h, lo, hi) <= |h|
    decreases |h|
  {
    if h == [] {
      BetweenNone(lo, hi);
    } else {
      var i := |h| - 1;
      assert h == h[..i] + [h[i]];
      BetweenBound(h[..i], lo, hi);
      BetweenSnoc(h[..i], h[i], lo, hi);
    }
  }

  lemma {:induction false} BetweenNone(lo: int, hi: int)
    ensures Between([], lo, hi) == 0
    decreases hi - lo
  {
    if lo < hi {
      BetweenNone(lo, hi - 1);
    }
  }

  // ---------- the counters ----------

  class Counters {
    const buckets: array<int64>
    var cur: nat
    var total: int64

    predicate Valid() {
      buckets.Length == N
    }

    function State(): (r: Ring)
      reads this, buckets
      requires Valid()
      ensures |r.buckets| == N
    {
      Ring(buckets[..], cur, total)
    }

    constructor (start: nat)
      ensures Valid() && State() == Fresh(start) && fresh(buckets)
    {
      buckets := new int64[N](_ => 0);
      cur, total := start, 0;
    }

    /** Moves on to second `s`, dropping what the ring held for the seconds in between. */
    method Advance(s: nat)
      requires Valid()
      modifies this`cur, buckets
      ensures cur == s
      ensures buckets[..] ==
              if old(cur) < s then Cleared(old(buckets[..]), old(cur) + 1, s + 1) else old(buckets[..])
    {
      var c := cur;
      cur := s;
      var t := c + 1;
      while t <= s
        invariant cur == s && c < t <= (if c < s then s else c) + 1
        invariant buckets[..] == Cleared(old(buckets[..]), c + 1, t)
      {
        buckets[t % N] := 0;
        t := t + 1;
      }
    }

    method Tick(s: nat)
      requires Valid()
      modifies this, buckets
      ensures State() == Ticked(old(State()), s)
    {
      hide Wrap, Cleared;
      total := Wrap(total + 1);
      if s != cur {
        Advance(s);
      }
      ghost var b := buckets[..];
      buckets[s % N] := Wrap(buckets[s % N] as int + 1);
      assert buckets[..] == b[s % N := Wrap(b[s % N] + 1)];
    }

    /** The window of the last thirty seconds and the present one; a panic where a second before
        1970 falls on the ring. */
    method Window(s: nat) returns (panic: bool, window: array<int64>)
      requires Valid()
      ensures panic <==> s < WINDOW - 1 && cur < N - 1
      ensures fresh(window) && window.Length == WINDOW
      ensures !panic ==> window[..] == Shown(State(), s)
    {
      window := new int64[WINDOW](_ => 0);
      for i := 0 to WINDOW
        invariant forall j :: 0 <= j < i ==> window[j] == Entry(State(), s, j)
        invariant forall j :: i <= j < WINDOW ==> window[j] == 0
        invariant s < WINDOW - 1 && cur < N - 1 ==> i < WINDOW - 1 - s
      {
        var t: int := s - (WINDOW - 1) + i;
        if t <= cur && cur - t < N {
          if t < 0 {
            return true, window;
          }
          window[i] := buckets[t % N];
        }
      }
      panic := false;
    }

    /** `Snapshot`: the text with the recent rate, the total, the uptime and the window. */
    method Snapshot(now: nat, started: nat) returns (text: Option<string>)
      requires Valid()
      ensures text == if now / 1000 < WINDOW - 1 && cur < N - 1 then None
                      else Some(Json(State(), now, started))
    {
      hide Dec, Shown, SlotAt;
      var panic, window := Window(now / 1000);
      if panic {
        return None;
      }
      var last5 := LastFive(window);
      var b := "{\"req_s\":";
      b := b + Tenths(Rounded(last5));
      b := b + ",\"total\":";
      b := b + Dec(total);
      b := b + ",\"uptime_s\":";
      b := b + Dec(Seconds(now - started));
      b := b + ",\"per_second\":[";
      b := AppendNumbers(b, window);
      text := Some(b + "]}");
    }
  }

  /** Entry `i` of a snapshot in second `s`; seconds before 1970 have none. */
  function Entry(r: Ring, s: nat, i: nat): int64
    requires |r.buckets| == N
  {
    var t: int := s - (WINDOW - 1) + i;
    if t < 0 then 0 else SlotAt(r, t)
  }

  function Shown(r: Ring, s: nat): (w: seq<int64>)
    requires |r.buckets| == N
    ensures |w| == WINDOW && forall i :: 0 <= i < WINDOW ==> w[i] == Entry(r, s, i)
  {
    seq(WINDOW, i requires 0 <= i < WINDOW => Entry(r, s, i))
  }

  function Sum(w: seq<int64>): int64 {
    if w == [] then 0 else Wrap(Sum(w[..|w| - 1]) + w[|w| - 1])
  }

  /** The requests of the five whole seconds before the present one. */
  method LastFive(window: array<int64>) returns (last5: int64)
    requires window.Length == WINDOW
    ensures last5 == Sum(window[25..30])
  {
    hide Wrap;
    last5 := 0;
    for k := 25 to 30
      invariant last5 == Sum(window[25..k])
    {
      assert window[25..k + 1][..k - 25] == window[25..k];
      last5 := Wrap(last5 + window[k]);
    }
  }

  // ---------- the text ----------

  /** Go's conversion of a float to an integer. */
  function Truncated(x: real): int {
    if x >= 0.0 then x.Floor else -((-x).Floor)
  }

  /** The rate of five seconds, rounded to tenths. */
  function Rounded(last5: int64): int {
    Truncated(last5 as real / 5.0 * 10.0 + 0.5)
  }

  /** `AppendFloat` of a number of tenths. */
  function Tenths(t: int): string {
    var m := if t < 0 then -t else t;
    (if t < 0 then "-" else "") + Digits(m / 10) + if m % 10 == 0 then "" else "." + [Digit(m % 10)]
  }

  function Seconds(ms: int): int {
    if ms >= 0 then ms / 1000 else -(-ms / 1000)
  }

  /** Numbers with commas between them. */
  function Numbers(w: seq<int64>): string {
    if w == [] then ""
    else Numbers(w[..|w| - 1]) + ((if |w| > 1 then "," else "") + Dec(w[|w| - 1]))
  }

  method AppendNumbers(dst: string, window: array<int64>) returns (b: string)
    ensures b == dst + Numbers(window[..])
  {
    hide Dec;
    b := dst;
    for i := 0 to window.Length
      invariant b == dst + Numbers(window[..i])
    {
      assert window[..i + 1][..i] == window[..i];
      b := b + ((if i > 0 then "," else "") + Dec(window[i]));
    }
    assert window[..window.Length] == window[..];
  }

  function Json(r: Ring, now: nat, started: nat): string
    requires |r.buckets| == N
  {
    var w := Shown(r, now / 1000);
    "{\"req_s\":" + Tenths(Rounded(Sum(w[25..30]))) + ",\"total\":" + Dec(r.total) +
    ",\"uptime_s\":" + Dec(Seconds(now - started)) + ",\"per_second\":[" + Numbers(w) + "]}"
  }

  /** Nothing is lost in rounding: the rate that is shown, in tenths, is that of five seconds. */
  lemma RateExact(last5: int64)
    requires 0 <= last5
    ensures Rounded(last5) == 2 * last5 && Rounded(last5) as real / 10.0 == last5 as real / 5.0
  {
    assert last5 as real / 5.0 * 10.0 == (2 * last5) as real;
  }

  /** The requests of the last five whole seconds are what the rate is made of. */
  lemma RateCounts(start: nat, h: seq<nat>, s: nat)
    requires Ordered(h + [s]) && |h| < TWO63 && WINDOW - 1 <= s
    ensures Sum(Shown(Run(start, h), s)[25..30]) == Between(h, s - 5, s)
  {
    var w := Shown(Run(start, h), s);
    FiveSeconds(start, h, s, 5);
  }

  lemma {:induction false} FiveSeconds(start: nat, h: seq<nat>, s: nat, n: nat)
    requires Ordered(h + [s]) && |h| < TWO63 && WINDOW - 1 <= s && n <= 5
    ensures Sum(Shown(Run(start, h), s)[25..25 + n]) == Between(h, s - 5, s - 5 + n)
  {
    hide Run, SlotAt, Count, Ordered, Wrap;
    var w := Shown(Run(start, h), s);
    if n > 0 {
      FiveSeconds(start, h, s, n - 1);
      assert w[25..25 + n][..n - 1] == w[25..25 + n - 1];
      NextSecond(start, h, s, 25 + n - 1, Sum(w[25..25 + n - 1]));
    }
  }

  lemma NextSecond(start: nat, h: seq<nat>, s: nat, k: nat, last5: int64)
    requires Ordered(h + [s]) && |h| < TWO63 && WINDOW - 1 <= s && 25 <= k < 30
    requires last5 == Between(h, s - 5, s - 30 + k)
    ensures Wrap(last5 + SlotAt(Run(start, h), s - (WINDOW - 1) + k)) == Between(h, s - 5, s - 30 + k + 1)
  {
    hide Run, SlotAt, Count, Ordered;
    var t := s - 30 + k;
    RingRefines(start, h, s, k);
    BetweenBound(h, s - 5, t + 1);
    assert Between(h, s - 5, t + 1) == Between(h, s - 5, t) + Count(h, t);
  }
}
