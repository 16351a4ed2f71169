/** The bounded hot cache in front of a key-value server: first in, first out, with a limit
    on how long an entry is served. */
module Cache {
  import opened Ints
  import opened Options
  import opened RowValue

  datatype CacheEnt = CacheEnt(u: string, e: int64, at: int64)

  /** The entry is too old to be served. */
  predicate TooOld(x: CacheEnt, ttl: int64, now: int64) {
    ttl > 0 && Wrap(now - x.at) > ttl
  }

  predicate Expired(e: int64, now: int64) {
    e != 0 && e <= now
  }

  class CacheShard {
    const cap: nat
    const ttlMs: int64
    var m: map<string, CacheEnt>
    var order: seq<string>
    var head: nat

    /** The queue that is still to be evicted, oldest first; it may hold codes no longer
        mapped, and a code more than once. */
    function Live(): seq<string>
      reads this
      requires head <= |order|
    {
      order[head..]
    }

    /** Every mapped code is in the queue, and the map is within bounds. */
    predicate Valid()
      reads this
    {
      0 < cap && head <= |order| && |m| <= cap && forall c :: c in m ==> c in Live()
    }

    constructor (cap: nat, ttlMs: int64)
      requires 0 < cap
      ensures Valid() && m == map[] && this.cap == cap && this.ttlMs == ttlMs
    {
      this.cap, this.ttlMs := cap, ttlMs;
      m, order, head := map[], [], 0;
    }

    method Get(code: string, now: int64) returns (r: Option<CacheEnt>)
      requires Valid()
      modifies this`m
      ensures Valid()
      ensures m == if code in old(m) && ttlMs > 0 && Wrap(now - old(m)[code].at) > ttlMs then old(m) - {code}
                   else old(m)
      ensures r.Some? <==> code in old(m) && (ttlMs <= 0 || Wrap(now - old(m)[code].at) <= ttlMs) &&
                           (old(m)[code].e == 0 || now < old(m)[code].e)
      ensures r.Some? ==> r.value == old(m)[code]
    {
      if code !in m {
        return None;
      }
      var e := m[code];
      if ttlMs > 0 && Wrap(now - e.at) > ttlMs {
        m := m - {code};
        return None;
      }
      if e.e != 0 && e.e <= now {
        return None;
      }
      r := Some(e);
    }

    /** Stores an entry. When the code is new and there is no room, the queue is popped until
        one mapped code has gone; `popped` are the codes taken off it. */
    method Put(code: string, u: string, e: int64, now: int64) returns (ghost popped: seq<string>)
      requires Valid()
      modifies this
      ensures Valid()
      ensures m == Without(old(m), popped)[code := CacheEnt(u, e, now)]
      ensures forall c :: c in m && c != code ==> c in old(m) && m[c] == old(m)[c]
      ensures popped + Live() == if code in old(m) then old(Live()) else old(Live()) + [code]
      ensures if code in old(m) then popped == [] else FirstMapped(old(m), cap, popped)
    {
      hide Without;
      popped := [];
      WithoutNone(m);
      if code in m {
        m := m[code := CacheEnt(u, e, now)];
        return;
      }
      popped := Evict();
      WithoutWithin(old(m), popped);
      Regroup(popped, Live(), code);
      Append(code, CacheEnt(u, e, now));
    }

    /** Maps a new code and queues it; first drops the dead part of the queue if it is long. */
    method Append(code: string, x: CacheEnt)
      requires Valid() && code !in m && |m| < cap
      modifies this
      ensures Valid() && m == old(m)[code := x] && Live() == old(Live()) + [code]
    {
      ghost var live := Live();
      if head > 1024 && head * 2 >= |order| {
        order := order[head..];
        head := 0;
      }
      assert Live() == live;
      order := order + [code];
      assert Live() == live + [code];
      m := m[code := x];
      forall c | c in m ensures c in Live() {
        assert c != code ==> c in live;
      }
    }

    /** Takes the oldest code off the queue. */
    method Pop() returns (ghost first: string)
      requires Valid() && head < |order|
      modifies this`m, this`head
      ensures Valid() && m == old(m) - {first} && old(Live()) == [first] + Live()
      ensures if first in old(m) then |m| == |old(m)| - 1 else m == old(m)
    {
      var oldest := order[head];
      first := oldest;
      StillQueued(m, order, head);
      Dropped(m, oldest);
      head := head + 1;
      m := m - {oldest};
    }

    /** Makes room: pops until a mapped code goes. */
    method Evict() returns (ghost popped: seq<string>)
      requires Valid()
      modifies this`m, this`head
      ensures Valid() && |m| < cap && m == Without(old(m), popped) && popped + Live() == old(Live())
      ensures FirstMapped(old(m), cap, popped)
    {
      hide Without;
      popped := [];
      WithoutNone(m);
      while |m| >= cap && head < |order|
        invariant Valid() && m == Without(old(m), popped) && popped + Live() == old(Live())
        invariant Popping(old(m), m, cap, popped)
        decreases |Live()|
      {
        ghost var before, live := m, Live();
        ghost var first := Pop();
        WithoutSnoc(old(m), popped, first);
        PoppingSnoc(old(m), before, m, cap, popped, first);
        Shift(popped, first, Live());
        popped := popped + [first];
      }
      if head == |order| {
        EmptyQueue(m, Live());
      }
    }

    /** While the map is full nothing mapped has been popped. */
    ghost predicate Popping(was: map<string, CacheEnt>, left: map<string, CacheEnt>, cap: nat, popped: seq<string>) {
      if |left| == cap then left == was && forall i :: 0 <= i < |popped| ==> popped[i] !in was
      else FirstMapped(was, cap, popped)
    }

    lemma PoppingSnoc(was: map<string, CacheEnt>, m0: map<string, CacheEnt>, m1: map<string, CacheEnt>, cap: nat,
                      popped: seq<string>, first: string)
      requires |m0| == cap && |was| <= cap && Popping(was, m0, cap, popped)
      requires if first in m0 then |m1| == |m0| - 1 else m1 == m0
      ensures Popping(was, m1, cap, popped + [first])
    {}

    /** Below the bound nothing is popped; at it, all up to the first code that is mapped. */
    ghost predicate FirstMapped(was: map<string, CacheEnt>, cap: nat, popped: seq<string>) {
      (|was| < cap ==> popped == []) &&
      (|was| == cap ==>
         popped != [] && popped[|popped| - 1] in was &&
         forall i :: 0 <= i < |popped| - 1 ==> popped[i] !in was)
    }

    method Remove(code: string)
      requires Valid()
      modifies this`m
      ensures Valid() && m == old(m) - {code}
    {
      m := m - {code};
    }
  }

  /** The cache: one shard for each hash of a code. */
  class KvCache {
    const ttlMs: int64
    const shards: seq<CacheShard>

    ghost predicate Valid()
      reads this, shards
    {
      |shards| == NUM_SHARDS &&
      (forall i :: 0 <= i < NUM_SHARDS ==> shards[i].Valid() && shards[i].ttlMs == ttlMs) &&
      (forall i, j :: 0 <= i < j < NUM_SHARDS ==> shards[i] != shards[j])
    }

    /** `newKvCache`: the room is divided among the shards, at least 16 entries each. */
    constructor (capTotal: nat, ttlMs: int64)
      ensures Valid() && this.ttlMs == ttlMs && (forall x :: x in shards ==> fresh(x))
      ensures forall c :: Lookup(c) == None
      ensures forall i :: 0 <= i < NUM_SHARDS ==>
                shards[i].cap == if capTotal / NUM_SHARDS < 16 then 16 else capTotal / NUM_SHARDS
    {
      var cap := capTotal / NUM_SHARDS;
      if cap < 16 {
        cap := 16;
      }
      var made: seq<CacheShard> := [];
      while |made| < NUM_SHARDS
        invariant |made| <= NUM_SHARDS
        invariant forall i :: 0 <= i < |made| ==>
                    made[i].Valid() && made[i].ttlMs == ttlMs && made[i].cap == cap && made[i].m == map[] &&
                      fresh(made[i])
        invariant forall i, j :: 0 <= i < j < |made| ==> made[i] != made[j]
        decreases NUM_SHARDS - |made|
      {
        var x := new CacheShard(cap, ttlMs);
        made := made + [x];
      }
      this.ttlMs, shards := ttlMs, made;
    }

    /** What is cached for a code. */
    ghost function Lookup(code: string): Option<CacheEnt>
      reads this, shards
      requires |shards| == NUM_SHARDS
    {
      var m := shards[ShardOf(code)].m;
      if code in m then Some(m[code]) else None
    }

    method Get(code: string, now: int64) returns (r: Option<CacheEnt>)
      requires Valid()
      modifies shards
      ensures Valid()
      ensures r.Some? <==> old(Lookup(code)).Some? &&
                           (ttlMs <= 0 || Wrap(now - old(Lookup(code)).value.at) <= ttlMs) &&
                           (old(Lookup(code)).value.e == 0 || now < old(Lookup(code)).value.e)
      ensures r.Some? ==> r == old(Lookup(code))
      ensures forall c :: Lookup(c) == old(Lookup(c)) || Lookup(c) == None
    {
      r := shards[ShardOf(code)].Get(code, now);
    }

    method Put(code: string, u: string, e: int64, now: int64)
      requires Valid()
      modifies shards
      ensures Valid()
      ensures Lookup(code) == Some(CacheEnt(u, e, now))
      ensures forall c :: c != code ==> Lookup(c) == old(Lookup(c)) || Lookup(c) == None
    {
      hide Without, CacheShard.FirstMapped, CacheShard.Live, ShardOf;
      ghost var popped := shards[ShardOf(code)].Put(code, u, e, now);
    }

    method Remove(code: string)
      requires Valid()
      modifies shards
      ensures Valid() && Lookup(code) == None
      ensures forall c :: c != code ==> Lookup(c) == old(Lookup(c))
    {
      shards[ShardOf(code)].Remove(code);
    }
  }

  /** A map without some keys. */
  function Without(m: map<string, CacheEnt>, keys: seq<string>): map<string, CacheEnt> {
    map c | c in m && c !in keys :: m[c]
  }

  lemma WithoutSnoc(m: map<string, CacheEnt>, keys: seq<string>, k: string)
    ensures Without(m, keys + [k]) == Without(m, keys) - {k}
  {}

  lemma Dropped(m: map<string, CacheEnt>, c: string)
    ensures if c in m then |m - {c}| == |m| - 1 else m - {c} == m
  {
    if c in m {
      assert (m - {c}).Keys == m.Keys - {c};
      assert |m - {c}| == |(m - {c}).Keys| && |m| == |m.Keys|;
    } else {
      assert m - {c} == m;
    }
  }

  lemma StillQueued(m: map<string, CacheEnt>, order: seq<string>, head: nat)
    requires head < |order| && forall c :: c in m ==> c in order[head..]
    ensures order[head..] == [order[head]] + order[head + 1..]
    ensures forall c :: c in m && c != order[head] ==> c in order[head + 1..]
  {
    assert order[head..] == [order[head]] + order[head + 1..];
  }

  lemma WithoutWithin(m: map<string, CacheEnt>, keys: seq<string>)
    ensures forall c :: c in Without(m, keys) ==> c in m && Without(m, keys)[c] == m[c]
  {}

  lemma WithoutNone(m: map<string, CacheEnt>)
    ensures Without(m, []) == m
  {}

  lemma EmptyQueue(m: map<string, CacheEnt>, live: seq<string>)
    requires live == [] && forall c :: c in m ==> c in live
    ensures |m| == 0
  {
    assert m == map[];
  }

  lemma Regroup(a: seq<string>, b: seq<string>, x: string)
    ensures a + (b + [x]) == (a + b) + [x]
  {}

  lemma Shift(a: seq<string>, x: string, b: seq<string>)
    ensures a + ([x] + b) == (a + [x]) + b
  {}
}
