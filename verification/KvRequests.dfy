/** What may be asked of the two stores with a cache, which of it may end the life of a link, and what
    is known of a link until then. */
module KvRequests {
  import opened Ints
  import opened LogLine
  import opened Options
  import opened Instance
  import opened Codes
  import opened RowValue
  import opened BulkRows

  /** What may be asked of either store, and what its timers and its server may do; `served` and
      `failed` say how a bulk creation fares, `gone` what the server might expire. */
  datatype Request =
    | Create(now: int64, url: string, alias: string, hasAlias: bool, ttl: int64, rand: seq<string>)
    | Many(now: int64, urls: seq<string>, ttl: int64, draws: seq<string>, rands: seq<seq<string>>, failed: bool,
           served: nat)
    | Edit(now: int64, code: string, url: string, ttl: int64, hasTTL: bool)
    | Delete(now: int64, code: string)
    | Visit(now: int64, code: string)
    | Flush(now: int64)
    | Sweep(now: int64)
    | Expire(now: int64, gone: set<Place>)

  /** What the HTTP layer lets through, and what the random source yields. */
  ghost predicate Askable(r: Request) {
    match r
    case Create(_, _, alias, hasAlias, _, rand) =>
      (hasAlias ==> CodeOK(alias)) && forall i :: 0 <= i < |rand| ==> Suffix(rand[i])
    case Many(_, urls, _, draws, rands, failed, served) =>
      |draws| == |rands| == |urls| && (if failed then served <= |urls| else served == |urls|) &&
      (forall i :: 0 <= i < |draws| ==> Suffix(draws[i])) &&
      forall i, m :: 0 <= i < |rands| && 0 <= m < |rands[i]| ==> Suffix(rands[i][m])
    case Edit(_, code, _, _, _) => CodeOK(code)
    case Delete(_, code) => CodeOK(code)
    case Visit(_, code) => CodeOK(code)
    case _ => true
  }

  /** The requests come in this order between the two times. */
  ghost predicate InTime(requests: seq<Request>, start: int64, end: int64) {
    start <= end && (forall i :: 0 <= i < |requests| ==> start <= requests[i].now <= end && Askable(requests[i])) &&
    forall i, j :: 0 <= i < j < |requests| ==> requests[i].now <= requests[j].now
  }

  /** The request may make a link under the code. */
  predicate Makes(me: Id, r: Request, code: string) {
    match r
    case Create(_, _, alias, hasAlias, _, rand) => if hasAlias then alias == code else Drawn(me, rand, code)
    case Many(_, _, _, draws, rands, _, _) => MadeBy(me, draws, rands, code)
    case _ => false
  }

  /** What is known of a link: it is not there, or was left with this URL and expiry. */
  datatype Link = Gone | Left(u: string, e: int64)

  /** The request may end what is known: it updates or removes the link, or makes one under the
      code of a link that is not there or whose time is up. */
  predicate Disturbs(me: Id, r: Request, code: string, x: Link) {
    match x
    case Gone => Makes(me, r, code)
    case Left(u, e) => ((r.Edit? || r.Delete?) && r.code == code) || (e != 0 && e <= r.now && Makes(me, r, code))
  }

  /** The row stored for the link; it may be gone once its time is up. */
  ghost predicate Holds(row: Option<Rec>, x: Link, clock: int64) {
    match x
    case Gone => row == None
    case Left(u, e) => if row.Some? then row.value.u == u && row.value.e == e else e != 0 && e <= clock
  }

  /** The link answers at this time. */
  predicate Answers(row: Option<Rec>, t: int64) {
    row.Some? && (row.value.e == 0 || t < row.value.e)
  }

  /** How many of the requests were visits of the code that got an answer. */
  function Visits(requests: seq<Request>, answers: seq<Option<string>>, code: string): nat
    requires |requests| == |answers|
  {
    |set i | 0 <= i < |requests| && requests[i].Visit? && requests[i].code == code && answers[i].Some?|
  }

  lemma VisitsSnoc(requests: seq<Request>, answers: seq<Option<string>>, r: Request, a: Option<string>, code: string)
    requires |requests| == |answers|
    ensures Visits(requests + [r], answers + [a], code) ==
            Visits(requests, answers, code) + (if r.Visit? && r.code == code && a.Some? then 1 else 0)
  {
    var n, rs, xs := |requests|, requests + [r], answers + [a];
    var before := set i | 0 <= i < n && requests[i].Visit? && requests[i].code == code && answers[i].Some?;
    var after := set i | 0 <= i < n + 1 && rs[i].Visit? && rs[i].code == code && xs[i].Some?;
    assert after == before + if r.Visit? && r.code == code && a.Some? then {n} else {};
  }

  /** What there is of a row that a request does not disturb. */
  lemma NotMade(me: Id, r: Request, code: string, x: Link, row: Option<Rec>, clock: int64, now: int64)
    requires Makes(me, r, code) && !Disturbs(me, r, code, x) && Holds(row, x, clock) && clock <= now == r.now
    ensures row.Some?
  {}

  lemma NoVisits(code: string)
    ensures Visits([], [], code) == 0
  {}
}
