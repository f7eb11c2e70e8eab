/** The bounded cache with per-entry deadlines: src/lib/cache/ttl-cache.ts.

    A JavaScript Map is its entries and the order its keys were inserted in, oldest first. */
module Caching {
  import opened Text

  datatype Entry<+T> = Entry(value: T, expiresAt: int)
  datatype Cache<+T> = Cache(order: seq<string>, data: map<string, Entry<T>>)

  predicate Distinct(order: seq<string>) {
    forall i, j :: 0 <= i < j < |order| ==> order[i] != order[j]
  }

  ghost predicate WellFormed<T>(c: Cache<T>) {
    Distinct(c.order) && forall key :: key in c.data <==> key in c.order
  }

  function Drop(order: seq<string>, key: string): seq<string> {
    if order == [] then []
    else if order[0] == key then Drop(order[1..], key)
    else [order[0]] + Drop(order[1..], key)
  }

  /** `Map.delete`. */
  function Without<T>(c: Cache<T>, key: string): Cache<T> {
    Cache(Drop(c.order, key), c.data - {key})
  }

  /** `Map.set` of a key that is not there. */
  function Append<T>(c: Cache<T>, key: string, entry: Entry<T>): Cache<T> {
    Cache(c.order + [key], c.data[key := entry])
  }

  /** The eviction loop: drop from the front until the cap is respected. */
  function Evict<T>(c: Cache<T>, cap: int): Cache<T>
    decreases |c.order|
  {
    if |c.order| <= cap || c.order == [] then c
    else Evict(Cache(c.order[1..], c.data - {c.order[0]}), cap)
  }

  function CacheGet<T>(c: Cache<T>, key: string, now: int): (Cache<T>, Option<T>) {
    if key !in c.data then (c, None)
    else if c.data[key].expiresAt <= now then (Without(c, key), None)
    else (Append(Without(c, key), key, c.data[key]), Some(c.data[key].value))
  }

  function CacheSet<T>(c: Cache<T>, key: string, value: T, expiresAt: int, cap: int): Cache<T> {
    Evict(Append(Without(c, key), key, Entry(value, expiresAt)), cap)
  }

  function Bound(cap: int): nat {
    if cap < 0 then 0 else cap
  }

  class TtlCache<T> {
    const maxEntries: int
    const ttlMs: int
    var order: seq<string>
    var data: map<string, Entry<T>>

    ghost function Contents(): Cache<T>
      reads this
    {
      Cache(order, data)
    }

    ghost predicate Valid()
      reads this
    {
      WellFormed(Contents()) && |order| <= Bound(maxEntries)
    }

    constructor (maxEntries: int, ttlMs: int)
      ensures Valid() && Contents() == Cache([], map[])
      ensures this.maxEntries == maxEntries && this.ttlMs == ttlMs
    {
      this.maxEntries := maxEntries;
      this.ttlMs := ttlMs;
      order := [];
      data := map[];
    }

    method Get(key: string, now: int) returns (r: Option<T>)
      requires Valid()
      modifies this
      ensures Valid()
      ensures (Contents(), r) == CacheGet(old(Contents()), key, now)
    {
      GetKeepsShape(Contents(), key, now);
      if key !in data {
        return None;
      }
      var entry := data[key];
      if entry.expiresAt <= now {
        order, data := Drop(order, key), data - {key};
        return None;
      }
      order, data := Drop(order, key), data - {key};
      order, data := order + [key], data[key := entry];
      return Some(entry.value);
    }

    method Set(key: string, value: T, now: int, ttlMsOverride: Option<int>)
      requires Valid()
      modifies this
      ensures Valid()
      ensures Contents() == CacheSet(old(Contents()), key, value,
                                     now + (if ttlMsOverride.Some? then ttlMsOverride.value else ttlMs),
                                     maxEntries)
    {
      var ttl := if ttlMsOverride.Some? then ttlMsOverride.value else ttlMs;
      SetKeepsShape(Contents(), key, value, now + ttl, maxEntries);
      order, data := Drop(order, key), data - {key};
      order, data := order + [key], data[key := Entry(value, now + ttl)];
      ghost var full := Contents();
      while |order| > maxEntries
        invariant Evict(Contents(), maxEntries) == Evict(full, maxEntries)
        decreases |order|
      {
        if order == [] {
          break;
        }
        var oldest := order[0];
        order, data := order[1..], data - {oldest};
      }
    }

    method Delete(key: string)
      requires Valid()
      modifies this
      ensures Valid() && Contents() == Without(old(Contents()), key)
    {
      DropFacts(order, key);
      order, data := Drop(order, key), data - {key};
    }

    method Clear()
      modifies this
      ensures Valid() && Contents() == Cache([], map[])
    {
      order, data := [], map[];
    }
  }

  // ---- What every operation keeps ---------------------------------------------------

  lemma {:induction false} DropFacts(order: seq<string>, key: string)
    requires Distinct(order)
    ensures Distinct(Drop(order, key)) && key !in Drop(order, key)
    ensures forall k :: k != key ==> (k in Drop(order, key) <==> k in order)
    ensures |Drop(order, key)| == |order| - (if key in order then 1 else 0)
    ensures key !in order ==> Drop(order, key) == order
  {
    if order != [] {
      var rest := order[1..];
      DropFacts(rest, key);
      assert order == [order[0]] + rest;
      assert order[0] !in rest;
      if order[0] != key {
        assert order[0] !in Drop(rest, key);
      }
    }
  }

  lemma WithoutKeepsShape<T>(c: Cache<T>, key: string)
    requires WellFormed(c)
    ensures WellFormed(Without(c, key)) && key !in Without(c, key).data
    ensures |Without(c, key).order| == |c.order| - (if key in c.data then 1 else 0)
  {
    DropFacts(c.order, key);
  }

  lemma AppendKeepsShape<T>(c: Cache<T>, key: string, entry: Entry<T>)
    requires WellFormed(c) && key !in c.data
    ensures WellFormed(Append(c, key, entry))
  {
  }

  lemma GetKeepsShape<T>(c: Cache<T>, key: string, now: int)
    requires WellFormed(c)
    ensures WellFormed(CacheGet(c, key, now).0)
    ensures |CacheGet(c, key, now).0.order| <= |c.order|
  {
    WithoutKeepsShape(c, key);
    if key in c.data {
      AppendKeepsShape(Without(c, key), key, c.data[key]);
    }
  }

  lemma {:induction false} EvictKeepsShape<T>(c: Cache<T>, cap: int)
    requires WellFormed(c)
    ensures var e := Evict(c, cap);
            WellFormed(e) && |e.order| <= |c.order| && e.order == c.order[|c.order| - |e.order|..] &&
            |e.order| == (if |c.order| <= cap then |c.order| else Bound(cap)) &&
            forall key :: key in e.data ==> key in c.data && e.data[key] == c.data[key]
    decreases |c.order|
  {
    if !(|c.order| <= cap || c.order == []) {
      EvictKeepsShape(Cache(c.order[1..], c.data - {c.order[0]}), cap);
    }
  }

  lemma SetKeepsShape<T>(c: Cache<T>, key: string, value: T, expiresAt: int, cap: int)
    requires WellFormed(c)
    ensures WellFormed(CacheSet(c, key, value, expiresAt, cap))
    ensures |CacheSet(c, key, value, expiresAt, cap).order| <= Bound(cap)
    ensures var d := CacheSet(c, key, value, expiresAt, cap).data;
            forall k :: k in d ==> if k == key then d[k] == Entry(value, expiresAt)
                                   else k in c.data && d[k] == c.data[k]
  {
    WithoutKeepsShape(c, key);
    AppendKeepsShape(Without(c, key), key, Entry(value, expiresAt));
    EvictKeepsShape(Append(Without(c, key), key, Entry(value, expiresAt)), cap);
  }

  // ---- Runs of operations -----------------------------------------------------------

  datatype Op<+T> =
    | GetOp(key: string, now: int)
    | SetOp(key: string, value: T, now: int, ttl: int)
    | DeleteOp(key: string)
    | ClearOp

  function Apply<T>(c: Cache<T>, op: Op<T>, cap: int): (Cache<T>, Option<T>) {
    match op
    case GetOp(key, now) => CacheGet(c, key, now)
    case SetOp(key, value, now, ttl) => (CacheSet(c, key, value, now + ttl, cap), None)
    case DeleteOp(key) => (Without(c, key), None)
    case ClearOp => (Cache([], map[]), None)
  }

  function Run<T>(ops: seq<Op<T>>, cap: int): Cache<T> {
    if ops == [] then Cache([], map[])
    else Apply(Run(ops[..|ops| - 1], cap), ops[|ops| - 1], cap).0
  }

  lemma ApplyKeepsShape<T>(c: Cache<T>, op: Op<T>, cap: int)
    requires WellFormed(c) && |c.order| <= Bound(cap)
    ensures WellFormed(Apply(c, op, cap).0) && |Apply(c, op, cap).0.order| <= Bound(cap)
  {
    match op
    case GetOp(key, now) => GetKeepsShape(c, key, now);
    case SetOp(key, value, now, ttl) => SetKeepsShape(c, key, value, now + ttl, cap);
    case DeleteOp(key) => WithoutKeepsShape(c, key);
    case ClearOp =>
  }

  lemma {:induction false} RunKeepsShape<T>(ops: seq<Op<T>>, cap: int)
    ensures WellFormed(Run(ops, cap)) && |Run(ops, cap).order| <= Bound(cap)
  {
    if ops != [] {
      RunKeepsShape(ops[..|ops| - 1], cap);
      ApplyKeepsShape(Run(ops[..|ops| - 1], cap), ops[|ops| - 1], cap);
    }
  }

  /** `at` is the last write of the key in this history. */
  ghost predicate LastWrite<T>(ops: seq<Op<T>>, at: int, key: string) {
    0 <= at < |ops| && ops[at].SetOp? && ops[at].key == key &&
    forall i :: at < i < |ops| && ops[i].SetOp? ==> ops[i].key != key
  }

  /** Reads never extend a deadline: in every history an entry carries the value and the
      deadline of the last write of its key, however often it has been read since. */
  lemma {:induction false} DeadlineIsFromLastWrite<T>(ops: seq<Op<T>>, cap: int, key: string)
    requires key in Run(ops, cap).data
    ensures exists at :: LastWrite(ops, at, key) &&
                         Run(ops, cap).data[key] == Entry(ops[at].value, ops[at].now + ops[at].ttl)
  {
    var n := |ops| - 1;
    var before := ops[..n];
    var c := Run(before, cap);
    RunKeepsShape(before, cap);
    if ops[n].SetOp? {
      SetKeepsShape(c, ops[n].key, ops[n].value, ops[n].now + ops[n].ttl, cap);
    }
    if ops[n].SetOp? && ops[n].key == key {
      assert LastWrite(ops, n, key);
    } else {
      DeadlineIsFromLastWrite(before, cap, key);
      var at :| LastWrite(before, at, key) &&
                c.data[key] == Entry(before[at].value, before[at].now + before[at].ttl);
      assert ops[at] == before[at];
      forall i | at < i < |ops| && ops[i].SetOp? ensures ops[i].key != key {
        if i < n { assert before[i] == ops[i]; }
      }
      assert LastWrite(ops, at, key);
    }
  }
}
