/** What the cache's eviction order means: least recently used, and a stack algorithm. */
module LruTheory {
  import opened Text
  import opened Caching

  // ---- The reference: explicit stamps of the last touch, no order at all -------------

  datatype Stamped<+T> = Stamped(entry: Entry<T>, touched: nat)
  datatype Lru<+T> = Lru(entries: map<string, Stamped<T>>, clock: nat)

  ghost predicate IsOldest<T>(m: map<string, Stamped<T>>, key: string) {
    key in m && forall k :: k in m ==> m[key].touched <= m[k].touched
  }

  lemma {:induction false} OldestExists<T>(m: map<string, Stamped<T>>)
    requires m != map[]
    ensures exists key :: IsOldest(m, key)
    decreases |m|
  {
    var some :| some in m;
    var rest := m - {some};
    if rest == map[] {
      assert forall k :: k in m && k != some ==> k in rest;
      assert IsOldest(m, some);
    } else {
      OldestExists(rest);
      var key :| IsOldest(rest, key);
      var older := if m[some].touched <= m[key].touched then some else key;
      assert forall k :: k in m ==> k == some || k in rest;
      assert IsOldest(m, older);
    }
  }

  ghost function EvictOldest<T>(m: map<string, Stamped<T>>, cap: int): map<string, Stamped<T>>
    decreases |m|
  {
    if |m| <= cap || m == map[] then m
    else
      OldestExists(m);
      var key :| IsOldest(m, key);
      EvictOldest(m - {key}, cap)
  }

  function Stamp<T>(r: Lru<T>, key: string, entry: Entry<T>): Lru<T> {
    Lru(r.entries[key := Stamped(entry, r.clock)], r.clock + 1)
  }

  ghost function EvictStamped<T>(r: Lru<T>, cap: int): Lru<T> {
    Lru(EvictOldest(r.entries, cap), r.clock)
  }

  ghost function LruApply<T>(r: Lru<T>, op: Op<T>, cap: int): (Lru<T>, Option<T>) {
    match op
    case GetOp(key, now) =>
      if key !in r.entries then (r, None)
      else
        var entry := r.entries[key].entry;
        if entry.expiresAt <= now then (r.(entries := r.entries - {key}), None)
        else (Stamp(r, key, entry), Some(entry.value))
    case SetOp(key, value, now, ttl) =>
      (EvictStamped(Stamp(r, key, Entry(value, now + ttl)), cap), None)
    case DeleteOp(key) => (r.(entries := r.entries - {key}), None)
    case ClearOp => (Lru(map[], r.clock), None)
  }

  ghost function LruRun<T>(ops: seq<Op<T>>, cap: int): Lru<T> {
    if ops == [] then Lru(map[], 0)
    else LruApply(LruRun(ops[..|ops| - 1], cap), ops[|ops| - 1], cap).0
  }

  ghost function Touched<T>(m: map<string, Stamped<T>>, key: string): int {
    if key in m then m[key].touched else -1
  }

  ghost predicate Increasing<T>(m: map<string, Stamped<T>>, order: seq<string>) {
    forall i, j :: 0 <= i < j < |order| ==> Touched(m, order[i]) < Touched(m, order[j])
  }

  ghost predicate SameEntries<T>(m: map<string, Stamped<T>>, data: map<string, Entry<T>>) {
    m.Keys == data.Keys && forall key :: key in m ==> m[key].entry == data[key]
  }

  /** Same entries, and the order of the Map is exactly the order of the last touches. */
  ghost predicate InTouchOrder<T>(c: Cache<T>, m: map<string, Stamped<T>>) {
    WellFormed(c) && SameEntries(m, c.data) && Increasing(m, c.order)
  }

  ghost predicate Simulates<T>(c: Cache<T>, r: Lru<T>) {
    InTouchOrder(c, r.entries) && forall key :: key in r.entries ==> r.entries[key].touched < r.clock
  }

  lemma {:induction false} OrderCountsKeys<T>(order: seq<string>, m: map<string, T>)
    requires Distinct(order) && forall key :: key in m <==> key in order
    ensures |m| == |order|
  {
    if order == [] {
      assert m == map[];
    } else {
      var rest := order[1..];
      assert order == [order[0]] + rest;
      var fewer := m - {order[0]};
      forall key ensures key in fewer <==> key in rest {
        if key == order[0] { assert key !in rest; }
      }
      OrderCountsKeys(rest, fewer);
    }
  }

  lemma {:induction false} EvictsTheOldest<T>(c: Cache<T>, m: map<string, Stamped<T>>, cap: int)
    requires InTouchOrder(c, m)
    ensures InTouchOrder(Evict(c, cap), EvictOldest(m, cap))
    ensures forall key :: key in EvictOldest(m, cap) ==> key in m && EvictOldest(m, cap)[key] == m[key]
    decreases |c.order|
  {
    OrderCountsKeys(c.order, m);
    if !(|c.order| <= cap || c.order == []) {
      var first := c.order[0];
      OldestExists(m);
      OldestIsFirst(c, m);
      assert EvictOldest(m, cap) == EvictOldest(m - {first}, cap);
      var rest := Cache(c.order[1..], c.data - {first});
      FirstDropped(c, m);
      EvictsTheOldest(rest, m - {first}, cap);
    } else if c.order == [] {
      assert m == map[];
    }
  }

  lemma FirstDroppedShape<T>(c: Cache<T>)
    requires WellFormed(c) && c.order != []
    ensures WellFormed(Cache(c.order[1..], c.data - {c.order[0]}))
  {
  }

  lemma FirstDropped<T>(c: Cache<T>, m: map<string, Stamped<T>>)
    requires InTouchOrder(c, m) && c.order != []
    ensures InTouchOrder(Cache(c.order[1..], c.data - {c.order[0]}), m - {c.order[0]})
  {
    FirstDroppedShape(c);
    TailKeepsIncreasing(m, c.order);
  }

  lemma TailKeepsIncreasing<T>(m: map<string, Stamped<T>>, order: seq<string>)
    requires Distinct(order) && Increasing(m, order) && order != []
    ensures Distinct(order[1..]) && Increasing(m - {order[0]}, order[1..])
  {
    var first, rest := order[0], order[1..];
    forall i, j | 0 <= i < j < |rest|
      ensures Touched(m - {first}, rest[i]) < Touched(m - {first}, rest[j])
    {
      assert rest[i] == order[i + 1] && rest[j] == order[j + 1];
      assert order[0] != order[i + 1] && order[0] != order[j + 1];
    }
  }

  lemma OldestIsFirst<T>(c: Cache<T>, m: map<string, Stamped<T>>)
    requires InTouchOrder(c, m) && c.order != []
    ensures forall key :: IsOldest(m, key) ==> key == c.order[0]
  {
    var first := c.order[0];
    assert first in m;
    forall key | IsOldest(m, key) ensures key == first {
      assert key in c.order;
      var i :| 0 <= i < |c.order| && c.order[i] == key;
      assert i > 0 ==> Touched(m, c.order[0]) < Touched(m, c.order[i]);
    }
  }

  lemma DropKeepsTouchOrder<T>(c: Cache<T>, m: map<string, Stamped<T>>, key: string)
    requires InTouchOrder(c, m)
    ensures InTouchOrder(Without(c, key), m - {key})
  {
    WithoutKeepsShape(c, key);
    DropKeepsIncreasing(c.order, m, key);
  }

  lemma HeadIsOlder<T>(m: map<string, Stamped<T>>, order: seq<string>, key: string)
    requires Increasing(m, order) && order != [] && key in order[1..]
    ensures Touched(m, order[0]) < Touched(m, key)
  {
  }

  lemma OlderInFront<T>(m: map<string, Stamped<T>>, first: string, rest: seq<string>)
    requires Increasing(m, rest) && forall k :: k in rest ==> Touched(m, first) < Touched(m, k)
    ensures Increasing(m, [first] + rest)
  {
    var order := [first] + rest;
    forall i, j | 0 <= i < j < |order| ensures Touched(m, order[i]) < Touched(m, order[j]) {
      assert order[j] == rest[j - 1] && rest[j - 1] in rest;
      if i > 0 { assert order[i] == rest[i - 1]; }
    }
  }

  lemma TailIsIncreasing<T>(m: map<string, Stamped<T>>, order: seq<string>)
    requires Distinct(order) && Increasing(m, order) && order != []
    ensures Distinct(order[1..]) && Increasing(m, order[1..])
  {
    var rest := order[1..];
    forall i, j | 0 <= i < j < |rest| ensures Touched(m, rest[i]) < Touched(m, rest[j]) && rest[i] != rest[j] {
      assert rest[i] == order[i + 1] && rest[j] == order[j + 1];
    }
  }

  lemma {:induction false} DropKeepsIncreasing<T>(order: seq<string>, m: map<string, Stamped<T>>, key: string)
    requires Distinct(order) && Increasing(m, order)
    ensures Increasing(m - {key}, Drop(order, key))
  {
    if order != [] {
      var first, rest := order[0], order[1..];
      TailIsIncreasing(m, order);
      DropKeepsIncreasing(rest, m, key);
      if first != key {
        DropFacts(rest, key);
        forall k | k in Drop(rest, key) ensures Touched(m - {key}, first) < Touched(m - {key}, k) {
          HeadIsOlder(m, order, k);
        }
        OlderInFront(m - {key}, first, Drop(rest, key));
      }
    }
  }

  /** The newest stamp goes to the end; nobody else's moves. */
  lemma NewestAtTheEnd<T>(order: seq<string>, m: map<string, Stamped<T>>, key: string, stamped: Stamped<T>)
    requires Increasing(m, order) && key !in order
    requires forall k :: k in order ==> k in m && m[k].touched < stamped.touched
    ensures Increasing(m[key := stamped], order + [key])
  {
    var longer, later := order + [key], m[key := stamped];
    forall i, j | 0 <= i < j < |longer| ensures Touched(later, longer[i]) < Touched(later, longer[j]) {
      assert longer[i] == order[i] && order[i] in order;
      assert Touched(later, longer[i]) == Touched(m, order[i]);
      if j < |order| {
        assert longer[j] == order[j] && order[j] in order;
        assert Touched(later, longer[j]) == Touched(m, order[j]);
      }
    }
  }

  lemma OlderThanTheClock<T>(w: Cache<T>, r: Lru<T>, key: string)
    requires InTouchOrder(w, r.entries - {key})
    requires forall k :: k in r.entries ==> r.entries[k].touched < r.clock
    ensures forall k :: k in w.order ==> k in r.entries - {key} && (r.entries - {key})[k].touched < r.clock
  {
    forall k | k in w.order ensures k in r.entries - {key} { assert k in w.data; }
  }

  lemma TouchAtTheEnd<T>(c: Cache<T>, r: Lru<T>, key: string, entry: Entry<T>)
    requires Simulates(c, r)
    ensures Simulates(Append(Without(c, key), key, entry), Stamp(r, key, entry))
  {
    DropKeepsTouchOrder(c, r.entries, key);
    WithoutKeepsShape(c, key);
    var w := Without(c, key);
    AppendKeepsShape(w, key, entry);
    OlderThanTheClock(w, r, key);
    NewestAtTheEnd(w.order, r.entries - {key}, key, Stamped(entry, r.clock));
    assert (r.entries - {key})[key := Stamped(entry, r.clock)] == r.entries[key := Stamped(entry, r.clock)];
  }

  lemma GetSimulates<T>(c: Cache<T>, r: Lru<T>, key: string, now: int, cap: int)
    requires Simulates(c, r)
    ensures var op := GetOp(key, now);
            Simulates(Apply(c, op, cap).0, LruApply(r, op, cap).0) &&
            Apply(c, op, cap).1 == LruApply(r, op, cap).1
  {
    DropKeepsTouchOrder(c, r.entries, key);
    if key in c.data {
      TouchAtTheEnd(c, r, key, c.data[key]);
    }
  }

  lemma SetSimulates<T>(c: Cache<T>, r: Lru<T>, key: string, value: T, now: int, ttl: int, cap: int)
    requires Simulates(c, r)
    ensures var op := SetOp(key, value, now, ttl);
            Simulates(Apply(c, op, cap).0, LruApply(r, op, cap).0) &&
            Apply(c, op, cap).1 == LruApply(r, op, cap).1
  {
    var entry := Entry(value, now + ttl);
    TouchAtTheEnd(c, r, key, entry);
    EvictionSimulates(Append(Without(c, key), key, entry), Stamp(r, key, entry), cap);
  }

  lemma EvictionSimulates<T>(c: Cache<T>, r: Lru<T>, cap: int)
    requires Simulates(c, r)
    ensures Simulates(Evict(c, cap), EvictStamped(r, cap))
  {
    EvictsTheOldest(c, r.entries, cap);
  }

  lemma DeleteSimulates<T>(c: Cache<T>, r: Lru<T>, key: string, cap: int)
    requires Simulates(c, r)
    ensures var op := DeleteOp(key);
            Simulates(Apply(c, op, cap).0, LruApply(r, op, cap).0) &&
            Apply(c, op, cap).1 == LruApply(r, op, cap).1
  {
    DropKeepsTouchOrder(c, r.entries, key);
  }

  lemma ClearSimulates<T>(c: Cache<T>, r: Lru<T>, cap: int)
    ensures Simulates(Apply(c, ClearOp, cap).0, LruApply(r, ClearOp, cap).0) &&
            Apply(c, ClearOp, cap).1 == LruApply(r, ClearOp, cap).1
  {
  }

  lemma StepSimulates<T>(c: Cache<T>, r: Lru<T>, op: Op<T>, cap: int)
    requires Simulates(c, r)
    ensures Simulates(Apply(c, op, cap).0, LruApply(r, op, cap).0)
    ensures Apply(c, op, cap).1 == LruApply(r, op, cap).1
  {
    match op
    case GetOp(key, now) => GetSimulates(c, r, key, now, cap);
    case SetOp(key, value, now, ttl) => SetSimulates(c, r, key, value, now, ttl, cap);
    case DeleteOp(key) => DeleteSimulates(c, r, key, cap);
    case ClearOp => ClearSimulates(c, r, cap);
  }

  /** Insertion order doubles as recency: over every history the Map answers each read as
      a cache would that stamps every touch and evicts the smallest stamp. */
  lemma {:induction false} MapOrderIsTouchOrder<T>(ops: seq<Op<T>>, cap: int, next: Op<T>)
    ensures Simulates(Run(ops, cap), LruRun(ops, cap))
    ensures Apply(Run(ops, cap), next, cap).1 == LruApply(LruRun(ops, cap), next, cap).1
  {
    if ops != [] {
      var before := ops[..|ops| - 1];
      MapOrderIsTouchOrder(before, cap, next);
      StepSimulates(Run(before, cap), LruRun(before, cap), ops[|ops| - 1], cap);
    }
    StepSimulates(Run(ops, cap), LruRun(ops, cap), next, cap);
  }

  // ---- A stack algorithm ------------------------------------------------------------

  /** One whole resolve call against the cache (src/lib/tenancy/resolve.ts, 71-86): a hit
      is only a read, a miss ends in a write of whatever the database answered. */
  datatype Call<+T> =
    | Resolve(host: string, now: int, answer: T, writtenAt: int, ttl: int)
    | Invalidate(key: string)
    | InvalidateAll

  function Serve<T>(c: Cache<T>, call: Call<T>, cap: int): Cache<T> {
    match call
    case Resolve(host, now, answer, writtenAt, ttl) =>
      var (read, hit) := CacheGet(c, host, now);
      if hit.Some? then read else CacheSet(read, host, answer, writtenAt + ttl, cap)
    case Invalidate(key) => Without(c, key)
    case InvalidateAll => Cache([], map[])
  }

  function ServeAll<T>(calls: seq<Call<T>>, cap: int): Cache<T> {
    if calls == [] then Cache([], map[])
    else Serve(ServeAll(calls[..|calls| - 1], cap), calls[|calls| - 1], cap)
  }

  /** The key order after a call, from the key order alone: hits, misses, expiries and
      answers make no difference to it. */
  function NextOrder<T>(order: seq<string>, call: Call<T>, cap: int): seq<string> {
    match call
    case Resolve(host, _, _, _, _) => Newest(Drop(order, host) + [host], cap)
    case Invalidate(key) => Drop(order, key)
    case InvalidateAll => []
  }

  function Newest(order: seq<string>, cap: int): seq<string> {
    if |order| <= cap then order else order[|order| - Bound(cap)..]
  }

  lemma OrderIgnoresContents<T>(c: Cache<T>, call: Call<T>, cap: int)
    requires WellFormed(c) && |c.order| <= Bound(cap)
    ensures Serve(c, call, cap).order == NextOrder(c.order, call, cap)
    ensures WellFormed(Serve(c, call, cap)) && |Serve(c, call, cap).order| <= Bound(cap)
  {
    match call
    case Resolve(host, now, answer, writtenAt, ttl) =>
      GetKeepsShape(c, host, now);
      WithoutKeepsShape(c, host);
      if CacheGet(c, host, now).1.None? {
        MissWrites(c, host, now, answer, writtenAt + ttl, cap);
      }
    case Invalidate(key) => WithoutKeepsShape(c, key);
    case InvalidateAll =>
  }

  lemma MissWrites<T>(c: Cache<T>, host: string, now: int, answer: T, expiresAt: int, cap: int)
    requires WellFormed(c) && |c.order| <= Bound(cap) && CacheGet(c, host, now).1.None?
    ensures var written := CacheSet(CacheGet(c, host, now).0, host, answer, expiresAt, cap);
            written.order == Newest(Drop(c.order, host) + [host], cap) &&
            WellFormed(written) && |written.order| <= Bound(cap)
  {
    var read := CacheGet(c, host, now).0;
    GetKeepsShape(c, host, now);
    WithoutKeepsShape(c, host);
    DropFacts(c.order, host);
    assert read.order == Drop(c.order, host);
    DropFacts(read.order, host);
    SetKeepsShape(read, host, answer, expiresAt, cap);
    WithoutKeepsShape(read, host);
    var full := Append(Without(read, host), host, Entry(answer, expiresAt));
    AppendKeepsShape(Without(read, host), host, Entry(answer, expiresAt));
    EvictKeepsShape(full, cap);
  }

  predicate IsSuffix(small: seq<string>, large: seq<string>) {
    |small| <= |large| && small == large[|large| - |small|..]
  }

  lemma {:induction false} DropKeepsSuffix(small: seq<string>, large: seq<string>, key: string)
    requires IsSuffix(small, large)
    ensures IsSuffix(Drop(small, key), Drop(large, key))
  {
    if |small| < |large| {
      assert small == large[1..][|large| - 1 - |small|..];
      DropKeepsSuffix(small, large[1..], key);
      var d, e := Drop(small, key), Drop(large[1..], key);
      assert ([large[0]] + e)[|e| + 1 - |d|..] == e[|e| - |d|..];
    } else {
      assert small == large;
    }
  }

  lemma NewestKeepsSuffix(small: seq<string>, large: seq<string>, capS: int, capL: int)
    requires IsSuffix(small, large) && capS <= capL
    ensures IsSuffix(Newest(small, capS), Newest(large, capL))
  {
  }

  /** A larger cache holds everything a smaller one does, in the same order, at its newer
      end: for every sequence of non-overlapping resolves that do not throw. */
  lemma {:induction false} StackProperty<T>(calls: seq<Call<T>>, capS: int, capL: int)
    requires capS <= capL
    ensures IsSuffix(ServeAll(calls, capS).order, ServeAll(calls, capL).order)
    ensures WellFormed(ServeAll(calls, capS)) && |ServeAll(calls, capS).order| <= Bound(capS)
    ensures WellFormed(ServeAll(calls, capL)) && |ServeAll(calls, capL).order| <= Bound(capL)
  {
    if calls != [] {
      var before, last := calls[..|calls| - 1], calls[|calls| - 1];
      StackProperty(before, capS, capL);
      var s, l := ServeAll(before, capS), ServeAll(before, capL);
      OrderIgnoresContents(s, last, capS);
      OrderIgnoresContents(l, last, capL);
      match last
      case Resolve(host, now, answer, writtenAt, ttl) =>
        DropKeepsSuffix(s.order, l.order, host);
        var ds, dl := Drop(s.order, host), Drop(l.order, host);
        assert (dl + [host])[|dl| + 1 - (|ds| + 1)..] == ds + [host];
        NewestKeepsSuffix(ds + [host], dl + [host], capS, capL);
      case Invalidate(key) => DropKeepsSuffix(s.order, l.order, key);
      case InvalidateAll =>
    }
  }

  /** The suffix says nothing about deadlines: an entry the smaller cache had to write
      again outlives its copy in the larger one, which misses where the smaller hits. */
  lemma LargerCacheMayMissWhereSmallerHits()
    ensures var calls := [Resolve("a", 0, 1, 0, 60), Resolve("b", 1, 2, 1, 60), Resolve("a", 50, 3, 50, 60)];
            CacheGet(ServeAll(calls, 1), "a", 70).1 == Some(3) &&
            CacheGet(ServeAll(calls, 2), "a", 70).1 == None
  {
    ServedByTheSmaller();
    ServedByTheLarger();
  }

  lemma ServeLast<T>(calls: seq<Call<T>>, call: Call<T>, cap: int)
    ensures ServeAll(calls + [call], cap) == Serve(ServeAll(calls, cap), call, cap)
  {
  }

  lemma ServedByTheSmaller()
    ensures var calls := [Resolve("a", 0, 1, 0, 60), Resolve("b", 1, 2, 1, 60), Resolve("a", 50, 3, 50, 60)];
            ServeAll(calls, 1) == Cache(["a"], map["a" := Entry(3, 110)])
  {
    var a, b, c := Resolve("a", 0, 1, 0, 60), Resolve("b", 1, 2, 1, 60), Resolve("a", 50, 3, 50, 60);
    ServeLast([], a, 1);
    assert ServeAll([a], 1) == Cache(["a"], map["a" := Entry(1, 60)]);
    ServeLast([a], b, 1);
    assert Drop(["a"], "b") == ["a"];
    assert ServeAll([a, b], 1) == Cache(["b"], map["b" := Entry(2, 61)]);
    ServeLast([a, b], c, 1);
    assert Drop(["b"], "a") == ["b"];
    assert [a, b] + [c] == [a, b, c];
  }

  lemma ServedByTheLarger()
    ensures var calls := [Resolve("a", 0, 1, 0, 60), Resolve("b", 1, 2, 1, 60), Resolve("a", 50, 3, 50, 60)];
            ServeAll(calls, 2) == Cache(["b", "a"], map["a" := Entry(1, 60), "b" := Entry(2, 61)])
  {
    var a, b, c := Resolve("a", 0, 1, 0, 60), Resolve("b", 1, 2, 1, 60), Resolve("a", 50, 3, 50, 60);
    ServeLast([], a, 2);
    assert ServeAll([a], 2) == Cache(["a"], map["a" := Entry(1, 60)]);
    ServeLast([a], b, 2);
    assert Drop(["a"], "b") == ["a"];
    assert ServeAll([a, b], 2) == Cache(["a", "b"], map["a" := Entry(1, 60), "b" := Entry(2, 61)]);
    ServeLast([a, b], c, 2);
    assert Drop(["a", "b"], "a") == ["b"];
    assert [a, b] + [c] == [a, b, c];
  }
}
