/** Links made in bulk on a key-value server: which URL ends up under which code, and when the
    codes given out are distinct. */
module BulkRows {
  import opened Ints
  import opened Options
  import opened LogLine
  import opened Instance
  import opened Codes
  import opened RowValue
  import opened KvRows

  /** The last URL of the first `n` that was given this code; "" is no code yet. */
  function LastUrl(codes: seq<string>, urls: seq<string>, n: nat, c: string): Option<string>
    requires n <= |codes| == |urls|
  {
    if n == 0 then None
    else if codes[n - 1] == c then Some(urls[n - 1])
    else LastUrl(codes, urls, n - 1, c)
  }

  lemma {:induction false} LastUrlIs(codes: seq<string>, urls: seq<string>, n: nat, c: string)
    requires n <= |codes| == |urls|
    ensures LastUrl(codes, urls, n, c).Some? <==> exists k :: 0 <= k < n && codes[k] == c
    ensures forall k :: 0 <= k < n && codes[k] == c && (forall j :: k < j < n ==> codes[j] != c) ==>
              LastUrl(codes, urls, n, c) == Some(urls[k])
  {
    if n > 0 && codes[n - 1] != c {
      LastUrlIs(codes, urls, n - 1, c);
    }
  }

  lemma {:induction false} LastUrlSet(codes: seq<string>, urls: seq<string>, n: nat, i: nat, code: string, c: string)
    requires i < |codes| == |urls| && n <= |codes| && codes[i] == "" && c != "" && code != ""
    requires forall k :: i < k < |codes| ==> codes[k] != code
    ensures LastUrl(codes[i := code], urls, n, c) ==
            if c == code && i < n then Some(urls[i]) else LastUrl(codes, urls, n, c)
  {
    if n > 0 {
      LastUrlSet(codes, urls, n - 1, i, code, c);
    }
  }

  /** The server's rows are what they were, but for the codes given out, which hold their URLs. */
  ghost predicate Overlaid(l: Layout, kv0: map<Place, string>, kv: map<Place, string>, codes: seq<string>,
                           urls: seq<string>,
                           now: int64, exp: int64)
    requires |codes| == |urls|
  {
    forall c :: CodeOK(c) ==>
      match LastUrl(codes, urls, |codes|, c)
      case Some(u) => RowPlace(l, c) in kv && RowOf(l, kv, c) == Some(Rec(exp, now, u))
      case None => (RowPlace(l, c) in kv <==> RowPlace(l, c) in kv0) && RowOf(l, kv, c) == RowOf(l, kv0, c)
  }

  lemma {:induction false} NoCodes(codes: seq<string>, urls: seq<string>, n: nat, c: string)
    requires n <= |codes| == |urls| && c != "" && forall k :: 0 <= k < n ==> codes[k] == ""
    ensures LastUrl(codes, urls, n, c) == None
  {
    if n > 0 {
      NoCodes(codes, urls, n - 1, c);
    }
  }

  lemma OverlaidNone(l: Layout, kv: map<Place, string>, codes: seq<string>, urls: seq<string>, now: int64, exp: int64)
    requires |codes| == |urls| && forall k :: 0 <= k < |codes| ==> codes[k] == ""
    ensures Overlaid(l, kv, kv, codes, urls, now, exp)
  {
    hide RowPlace, RowOf;
    forall c | CodeOK(c) ensures LastUrl(codes, urls, |codes|, c) == None {
      NoCodes(codes, urls, |codes|, c);
    }
  }

  /** One more code is given out. */
  lemma OverlaidSet(l: Layout, kv0: map<Place, string>, kv: map<Place, string>, codes: seq<string>, urls: seq<string>,
                    now: int64, exp: int64, i: nat, code: string)
    requires i < |codes| == |urls| && codes[i] == "" && CodeOK(code) && Overlaid(l, kv0, kv, codes, urls, now, exp)
    requires forall k :: i < k < |codes| ==> codes[k] != code
    ensures Overlaid(l, kv0, kv[RowPlace(l, code) := EncVal(Rec(exp, now, urls[i]))], codes[i := code], urls, now, exp)
  {
    hide RowPlace, RowOf, EncVal, CodeOK;
    CodeNotEmpty();
    RowWritten(l, kv, code, Rec(exp, now, urls[i]));
    var kv' := kv[RowPlace(l, code) := EncVal(Rec(exp, now, urls[i]))];
    forall c | CodeOK(c)
      ensures LastUrl(codes[i := code], urls, |codes|, c) ==
              if c == code then Some(urls[i]) else LastUrl(codes, urls, |codes|, c)
      ensures RowPlace(l, c) in kv' <==> c == code || RowPlace(l, c) in kv
    {
      LastUrlSet(codes, urls, |codes|, i, code, c);
      PlacesApart(l, c, code);
    }
  }

  lemma CodeNotEmpty()
    ensures !CodeOK("")
  {}

  /** Where codes come from: the bulk draw of the URL, or the draws of its retry. */
  predicate Source(me: Id, draws: seq<string>, rand: seq<seq<string>>, k: nat, code: string)
    requires k < |draws| == |rand|
  {
    code == Generated(me, draws[k]) || Drawn(me, rand[k], code)
  }

  /** The retry of the `i`-th URL comes upon a code that is free and that no bulk draw and no
      other retry yields. */
  predicate NewDraw(l: Layout, me: Id, kv: map<Place, string>, draws: seq<string>, rand: seq<seq<string>>, i: nat)
    requires i < |draws| == |rand|
  {
    exists m :: 0 <= m < |rand[i]| && RowPlace(l, Generated(me, rand[i][m])) !in kv &&
      forall k :: 0 <= k < |draws| ==> !OtherSource(me, draws, rand, i, k, Generated(me, rand[i][m]))
  }

  predicate OtherSource(me: Id, draws: seq<string>, rand: seq<seq<string>>, i: nat, k: nat, code: string)
    requires k < |draws| == |rand|
  {
    code == Generated(me, draws[k]) || (k != i && Drawn(me, rand[k], code))
  }

  /** Every code so far has its source. */
  ghost predicate FromSources(me: Id, draws: seq<string>, rand: seq<seq<string>>, codes: seq<string>)
    requires |codes| == |draws| == |rand|
  {
    forall k :: 0 <= k < |codes| && codes[k] != "" ==> Source(me, draws, rand, k, codes[k])
  }

  lemma RetryIsFree(l: Layout, me: Id, kv0: map<Place, string>, kv: map<Place, string>, draws: seq<string>,
                    rand: seq<seq<string>>, codes: seq<string>, urls: seq<string>, now: int64, exp: int64, i: nat)
    requires |codes| == |draws| == |rand| == |urls| && i < |codes| && codes[i] == ""
    requires FromSources(me, draws, rand, codes) && Overlaid(l, kv0, kv, codes, urls, now, exp)
    requires NewDraw(l, me, kv0, draws, rand, i) && forall m :: 0 <= m < |rand[i]| ==> Suffix(rand[i][m])
    ensures exists m :: 0 <= m < |rand[i]| && RowPlace(l, Generated(me, rand[i][m])) !in kv
  {
    hide RowPlace, RowOf, Suffix, Drawn, Generated;
    var m :| 0 <= m < |rand[i]| && RowPlace(l, Generated(me, rand[i][m])) !in kv0 &&
      forall k :: 0 <= k < |draws| ==> !OtherSource(me, draws, rand, i, k, Generated(me, rand[i][m]));
    var g := Generated(me, rand[i][m]);
    GeneratedOK(me, rand[i][m]);
    CodeNotEmpty();
    forall k | 0 <= k < |codes| ensures codes[k] != g {
      assert !OtherSource(me, draws, rand, i, k, g);
      assert codes[k] != "" ==> Source(me, draws, rand, k, codes[k]);
    }
    LastUrlIs(codes, urls, |codes|, g);
    assert LastUrl(codes, urls, |codes|, g) == None;
  }

  /** A free code is none of those given out. */
  lemma FreeIsNew(l: Layout, kv0: map<Place, string>, kv: map<Place, string>, codes: seq<string>, urls: seq<string>,
                  now: int64, exp: int64, code: string)
    requires |codes| == |urls| && Overlaid(l, kv0, kv, codes, urls, now, exp) && CodeOK(code) &&
             RowPlace(l, code) !in kv
    ensures code !in codes && RowPlace(l, code) !in kv0
  {
    hide RowPlace, RowOf, CodeOK;
    LastUrlIs(codes, urls, |codes|, code);
  }

  /** Bulk creation under way. */
  ghost predicate Partial(l: Layout, me: Id, kv0: map<Place, string>, kv: map<Place, string>, draws: seq<string>,
                          rand: seq<seq<string>>, codes: seq<string>, urls: seq<string>, now: int64, exp: int64)
  {
    |codes| == |urls| == |draws| == |rand| && Overlaid(l, kv0, kv, codes, urls, now, exp) &&
    FromSources(me, draws, rand, codes) &&
    forall k :: 0 <= k < |codes| && codes[k] != "" ==> CodeOK(codes[k]) && RowPlace(l, codes[k]) !in kv0
  }

  /** Bulk creation may yield this code. */
  predicate MadeBy(me: Id, draws: seq<string>, rand: seq<seq<string>>, code: string) {
    |draws| == |rand| && exists k :: 0 <= k < |draws| && Source(me, draws, rand, k, code)
  }

  /** The rows there were, and those under codes never drawn, are left alone. */
  lemma PartialSpares(l: Layout, me: Id, kv0: map<Place, string>, kv: map<Place, string>, draws: seq<string>,
                      rand: seq<seq<string>>, codes: seq<string>, urls: seq<string>, now: int64, exp: int64, c: string)
    requires Partial(l, me, kv0, kv, draws, rand, codes, urls, now, exp)
    requires CodeOK(c) && (RowPlace(l, c) in kv0 || !MadeBy(me, draws, rand, c))
    ensures RowOf(l, kv, c) == RowOf(l, kv0, c) && (RowPlace(l, c) in kv <==> RowPlace(l, c) in kv0)
  {
    hide RowPlace, RowOf, CodeOK, Source;
    CodeNotEmpty();
    LastUrlIs(codes, urls, |codes|, c);
  }

  /** A code that nobody holds is given to the `i`-th URL. */
  lemma PartialSet(l: Layout, me: Id, kv0: map<Place, string>, kv: map<Place, string>, draws: seq<string>,
                   rand: seq<seq<string>>, codes: seq<string>, urls: seq<string>, now: int64, exp: int64, i: nat,
                   code: string)
    requires Partial(l, me, kv0, kv, draws, rand, codes, urls, now, exp) && i < |codes| && codes[i] == "" &&
             CodeOK(code)
    requires RowPlace(l, code) !in kv && Source(me, draws, rand, i, code)
    ensures Partial(l, me, kv0, kv[RowPlace(l, code) := EncVal(Rec(exp, now, urls[i]))], draws, rand,
                    codes[i := code], urls, now, exp)
    ensures code !in codes
  {
    hide Overlaid, RowPlace, RowOf, CodeOK, Source, EncVal;
    FreeIsNew(l, kv0, kv, codes, urls, now, exp, code);
    OverlaidSet(l, kv0, kv, codes, urls, now, exp, i, code);
  }

  /** Codes given out so far, no two alike. */
  ghost predicate Apart(codes: seq<string>) {
    forall i, j :: 0 <= i < j < |codes| && codes[i] != "" ==> codes[i] != codes[j]
  }

  lemma ApartNone(codes: seq<string>)
    requires forall k :: 0 <= k < |codes| ==> codes[k] == ""
    ensures Apart(codes)
  {}

  lemma ApartSet(codes: seq<string>, i: nat, code: string)
    requires Apart(codes) && i < |codes| && code !in codes
    ensures Apart(codes[i := code])
  {}

  /** The codes given out so far are bulk draws. */
  ghost predicate ByDraw(me: Id, draws: seq<string>, codes: seq<string>) {
    |codes| == |draws| && forall k :: 0 <= k < |codes| && codes[k] != "" ==> codes[k] == Generated(me, draws[k])
  }

  /** Links made under bulk draws leave every retry its code. */
  lemma DrawStillNew(l: Layout, me: Id, kv0: map<Place, string>, kv: map<Place, string>, draws: seq<string>,
                     rand: seq<seq<string>>, codes: seq<string>, urls: seq<string>, now: int64, exp: int64, i: nat)
    requires |codes| == |draws| == |rand| == |urls| && i < |draws|
    requires ByDraw(me, draws, codes) && Overlaid(l, kv0, kv, codes, urls, now, exp)
    requires NewDraw(l, me, kv0, draws, rand, i) && forall m :: 0 <= m < |rand[i]| ==> Suffix(rand[i][m])
    ensures NewDraw(l, me, kv, draws, rand, i)
  {
    hide RowPlace, RowOf, Suffix, Drawn, Generated;
    var m :| 0 <= m < |rand[i]| && RowPlace(l, Generated(me, rand[i][m])) !in kv0 &&
      forall k :: 0 <= k < |draws| ==> !OtherSource(me, draws, rand, i, k, Generated(me, rand[i][m]));
    var g := Generated(me, rand[i][m]);
    GeneratedOK(me, rand[i][m]);
    CodeNotEmpty();
    forall k | 0 <= k < |codes| ensures codes[k] != g {
      assert !OtherSource(me, draws, rand, i, k, g);
    }
    LastUrlIs(codes, urls, |codes|, g);
    assert LastUrl(codes, urls, |codes|, g) == None;
  }

  /** What bulk creation comes to: every code is new and holds the last URL it was given to;
      every other row is as before. */
  ghost predicate BulkMade(l: Layout, kv0: map<Place, string>, kv: map<Place, string>, codes: seq<string>,
                           urls: seq<string>,
                           now: int64, exp: int64)
  {
    |codes| == |urls| &&
    (forall i :: 0 <= i < |codes| ==> CodeOK(codes[i]) && RowPlace(l, codes[i]) !in kv0) &&
    (forall i :: 0 <= i < |codes| && codes[i] !in codes[i + 1..] ==>
        RowOf(l, kv, codes[i]) == Some(Rec(exp, now, urls[i]))) &&
    (forall c :: CodeOK(c) && c !in codes ==> RowOf(l, kv, c) == RowOf(l, kv0, c))
  }

  lemma AllSpared(l: Layout, me: Id, kv0: map<Place, string>, kv: map<Place, string>, draws: seq<string>,
                  rand: seq<seq<string>>, codes: seq<string>, urls: seq<string>, now: int64, exp: int64)
    requires Partial(l, me, kv0, kv, draws, rand, codes, urls, now, exp)
    ensures forall c :: CodeOK(c) && (RowPlace(l, c) in kv0 || !MadeBy(me, draws, rand, c)) ==>
              RowOf(l, kv, c) == RowOf(l, kv0, c) && (RowPlace(l, c) in kv <==> RowPlace(l, c) in kv0)
  {
    hide RowPlace, RowOf, Partial, CodeOK, MadeBy;
    forall c | CodeOK(c) && (RowPlace(l, c) in kv0 || !MadeBy(me, draws, rand, c))
      ensures RowOf(l, kv, c) == RowOf(l, kv0, c) && (RowPlace(l, c) in kv <==> RowPlace(l, c) in kv0)
    {
      PartialSpares(l, me, kv0, kv, draws, rand, codes, urls, now, exp, c);
    }
  }

  /** Every code is new, and holds its URL where it is given out only once or for the last time. */
  lemma RowsMade(l: Layout, kv0: map<Place, string>, kv: map<Place, string>, codes: seq<string>, urls: seq<string>,
                 now: int64, ttl: int64)
    requires BulkMade(l, kv0, kv, codes, urls, now, Expiry(now, ttl))
    ensures forall i :: 0 <= i < |codes| ==> CodeOK(codes[i]) && RowPlace(l, codes[i]) !in kv0
    ensures 0 <= now && now + ttl < TWO63 ==>
              forall i :: 0 <= i < |codes| && codes[i] !in codes[i + 1..] ==>
                RowOf(l, kv, codes[i]) == Some(Rec(if ttl > 0 then now + ttl else 0, now, urls[i]))
    ensures Distinct(codes) ==> forall i :: 0 <= i < |codes| ==> codes[i] !in codes[i + 1..]
  {
    hide RowPlace, RowOf, CodeOK;
  }

  lemma MadeByOverlay(l: Layout, kv0: map<Place, string>, kv: map<Place, string>, codes: seq<string>, urls: seq<string>,
                      now: int64, exp: int64)
    requires |codes| == |urls| && Overlaid(l, kv0, kv, codes, urls, now, exp)
    requires forall i :: 0 <= i < |codes| ==> CodeOK(codes[i]) && RowPlace(l, codes[i]) !in kv0
    ensures BulkMade(l, kv0, kv, codes, urls, now, exp)
  {
    hide RowPlace, RowOf, CodeOK;
    forall i | 0 <= i < |codes| && codes[i] !in codes[i + 1..]
      ensures RowOf(l, kv, codes[i]) == Some(Rec(exp, now, urls[i]))
    {
      LastUrlIs(codes, urls, |codes|, codes[i]);
      assert forall j :: i < j < |codes| ==> codes[j] == codes[i + 1..][j - i - 1];
    }
    forall c | CodeOK(c) && c !in codes ensures RowOf(l, kv, c) == RowOf(l, kv0, c) {
      LastUrlIs(codes, urls, |codes|, c);
    }
  }
}
