/** Which siblings' logs were read, in what order, and what came of it in all. */
module Polls {
  import opened LogLine
  import opened LogFile
  import opened Instance

  /** The news of some siblings, one after the other. */
  ghost function Gather(order: seq<nat>, news: map<nat, seq<LogOp>>): seq<LogOp>
  {
    if order == [] then [] else Gather(order[..|order| - 1], news) + NewsOf(news, order[|order| - 1])
  }

  function NewsOf(news: map<nat, seq<LogOp>>, j: nat): seq<LogOp> {
    if j in news then news[j] else []
  }

  lemma GatherNone(news: map<nat, seq<LogOp>>)
    ensures Gather([], news) == []
  {}

  lemma GatherSnoc(order: seq<nat>, news: map<nat, seq<LogOp>>, j: nat)
    ensures Gather(order + [j], news) == Gather(order, news) + NewsOf(news, j)
  {
    assert (order + [j])[..|order|] == order;
  }

  /** First some siblings, then some more of those left. */
  function Joined(first: seq<nat>, rest: seq<nat>): (order: seq<nat>)
    ensures forall j :: j in order <==> j in first || j in rest
  {
    if rest == [] then first
    else
      var j := rest[|rest| - 1];
      var order := Joined(first, rest[..|rest| - 1]);
      if j in first then order else order + [j]
  }

  lemma {:induction false} JoinedDistinct(first: seq<nat>, rest: seq<nat>)
    requires Distinct(first) && Distinct(rest)
    ensures Distinct(Joined(first, rest))
  {
    if rest != [] {
      var k := |rest| - 1;
      JoinedDistinct(first, rest[..k]);
      assert rest[k] !in rest[..k];
    }
  }

  /** Reading again what was just read brings nothing, so all that was read are the news that
      each sibling had at the start. */
  lemma {:induction false} JoinedGather(first: seq<nat>, rest: seq<nat>, news: map<nat, seq<LogOp>>,
                                        later: map<nat, seq<LogOp>>)
    requires forall j :: j in rest ==> NewsOf(later, j) == if j in first then [] else NewsOf(news, j)
    ensures Gather(first, news) + Gather(rest, later) == Gather(Joined(first, rest), news)
  {
    hide NewsOf;
    if rest != [] {
      var k := |rest| - 1;
      assert rest[k] in rest;
      JoinedGather(first, rest[..k], news, later);
      JoinedStep(Gather(first, news), Gather(rest[..k], later), NewsOf(later, rest[k]));
      if rest[k] !in first {
        GatherSnoc(Joined(first, rest[..k]), news, rest[k]);
      }
    }
  }

  lemma JoinedStep(a: seq<LogOp>, b: seq<LogOp>, c: seq<LogOp>)
    ensures a + (b + c) == (a + b) + c && a + [] == a
  {}

  // ---------- what was read of each log ----------

  function SeenIn(seen: map<nat, string>, j: nat): string {
    if j in seen then seen[j] else ""
  }

  /** What a sibling that logged `ops` has in its log since `seen`, now that it holds `file`. */
  function NewsSince(seen: string, file: string, ops: seq<LogOp>): seq<LogOp> {
    var a, b := CountNL(seen), CountNL(file);
    if a <= b <= |ops| then ops[a..b] else []
  }

  ghost function AllNews(seen: map<nat, string>, dir: map<nat, string>, logs: map<nat, seq<LogOp>>)
    : (news: map<nat, seq<LogOp>>)
    ensures news.Keys == dir.Keys
  {
    map j | j in dir :: NewsSince(SeenIn(seen, j), dir[j], if j in logs then logs[j] else [])
  }

  /** Of the siblings in `order`, each once, all that is on disk has been read; of the others
      no more than before. */
  ghost predicate Caught(dir: map<nat, string>, before: map<nat, string>, after: map<nat, string>, order: seq<nat>) {
    Distinct(order) && (forall i :: 0 <= i < |order| ==> order[i] in dir) &&
    forall j :: j in dir ==> SeenIn(after, j) == if j in order then dir[j] else SeenIn(before, j)
  }

  lemma AllCaught(dir: map<nat, string>, before: map<nat, string>, after: map<nat, string>, order: seq<nat>)
    requires Caught(dir, before, after, order)
    ensures (forall j :: j in dir ==> j in order) ==> forall j :: j in dir ==> SeenIn(after, j) == dir[j]
    ensures order == [] ==> forall j :: j in dir ==> SeenIn(after, j) == SeenIn(before, j)
  {}

  lemma NothingCaught(dir: map<nat, string>, seen: map<nat, string>, news: map<nat, seq<LogOp>>)
    ensures Caught(dir, seen, seen, []) && Gather([], news) == []
  {}

  lemma CaughtOne(dir: map<nat, string>, before: map<nat, string>, seen: map<nat, string>, order: seq<nat>, j: nat)
    requires Caught(dir, before, seen, order) && j in dir && j !in order
    ensures Caught(dir, before, seen[j := dir[j]], order + [j])
  {}

  /** The news of a sibling not read yet are what they were. */
  lemma StillNews(dir: map<nat, string>, logs: map<nat, seq<LogOp>>, before: map<nat, string>, seen: map<nat, string>,
                  order: seq<nat>, j: nat)
    requires j in dir && j in logs && j !in order && Caught(dir, before, seen, order)
    ensures NewsSince(SeenIn(seen, j), dir[j], logs[j]) == AllNews(before, dir, logs)[j]
  {}

  lemma ReadAgain(dir: map<nat, string>, logs: map<nat, seq<LogOp>>, s0: map<nat, string>, s1: map<nat, string>,
                  first: seq<nat>, j: nat)
    requires Caught(dir, s0, s1, first) && j in dir
    ensures NewsOf(AllNews(s1, dir, logs), j) == if j in first then [] else NewsOf(AllNews(s0, dir, logs), j)
  {
    hide CountNL;
  }

  /** Two rounds of reading deliver the news that each sibling had at the start, each once. */
  lemma JoinedRead(dir: map<nat, string>, logs: map<nat, seq<LogOp>>, s0: map<nat, string>, s1: map<nat, string>,
                   s2: map<nat, string>, first: seq<nat>, rest: seq<nat>)
    requires Caught(dir, s0, s1, first) && Caught(dir, s1, s2, rest)
    ensures Gather(first, AllNews(s0, dir, logs)) + Gather(rest, AllNews(s1, dir, logs)) ==
            Gather(Joined(first, rest), AllNews(s0, dir, logs))
  {
    hide AllNews, Gather, NewsOf;
    forall j | j in rest
      ensures NewsOf(AllNews(s1, dir, logs), j) == if j in first then [] else NewsOf(AllNews(s0, dir, logs), j)
    {
      ReadAgain(dir, logs, s0, s1, first, j);
    }
    JoinedGather(first, rest, AllNews(s0, dir, logs), AllNews(s1, dir, logs));
  }

  lemma JoinedCaught(dir: map<nat, string>, s0: map<nat, string>, s1: map<nat, string>, s2: map<nat, string>,
                     first: seq<nat>, rest: seq<nat>)
    requires Caught(dir, s0, s1, first) && Caught(dir, s1, s2, rest)
    ensures Caught(dir, s0, s2, Joined(first, rest))
  {
    hide Joined;
    JoinedDistinct(first, rest);
    var order := Joined(first, rest);
    forall i | 0 <= i < |order| ensures order[i] in dir {
      assert order[i] in order;
    }
  }

  lemma {:induction false} JoinedStarts(first: seq<nat>, rest: seq<nat>)
    ensures first <= Joined(first, rest)
  {
    if rest != [] {
      JoinedStarts(first, rest[..|rest| - 1]);
    }
  }
}
