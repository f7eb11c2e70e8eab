/** Host to tenant resolution over a changing database: src/lib/tenancy/resolve.ts.

    Every await is a point where time passes, the database changes, other lookups move and
    invalidations arrive. `lookupUncached` awaits twice, so a lookup is four steps. */
module Resolving {
  import opened Text
  import opened Host
  import opened Caching
  import opened Domains
  import NameOwnership

  const CACHE_MAX_ENTRIES := 1000
  const HIT_TTL_MS := 60000
  const MISS_TTL_MS := 5000

  /** A tenant, or a remembered miss. */
  type Answer = Option<Resolved>

  function Ttl(answer: Answer): int {
    if answer.Some? then HIT_TTL_MS else MISS_TTL_MS
  }

  function Store(c: Cache<Answer>, host: string, answer: Answer, now: int): Cache<Answer> {
    CacheSet(c, host, answer, now + Ttl(answer), CACHE_MAX_ENTRIES)
  }

  function Forget(c: Cache<Answer>, raw: string): Cache<Answer> {
    if raw == "" then Cache([], map[])
    else
      var host := NormalizeHost(Some(raw));
      if host.None? then c else Without(c, host.value)
  }

  /** Whether a miss by host is followed by a lookup by slug. */
  predicate AsksSlug(host: string, root: string) {
    ClassifyHost(host, root).Subdomain? && IsValidSlug(ClassifyHost(host, root).slug)
  }

  // ---- The resolver's own code, between its awaits ----------------------------------

  class HostResolver {
    const root: string
    const cache: TtlCache<Answer>

    ghost predicate Valid()
      reads cache
    {
      cache.Valid() && cache.maxEntries == CACHE_MAX_ENTRIES && cache.ttlMs == HIT_TTL_MS
    }

    constructor (root: string)
      ensures Valid() && fresh(cache) && this.root == root && cache.Contents() == Cache([], map[])
      ensures cache.maxEntries == 1000 && cache.ttlMs == 60 * 1000
    {
      this.root := root;
      this.cache := new TtlCache(CACHE_MAX_ENTRIES, HIT_TTL_MS);
    }

    /** Up to the first await: the host to look up, or what the cache said. */
    method Begin(raw: Option<string>, now: int) returns (host: Option<string>, cached: Option<Answer>)
      requires Valid()
      modifies cache
      ensures Valid() && host == NormalizeHost(raw)
      ensures host.None? ==> cached.None? && cache.Contents() == old(cache.Contents())
      ensures host.Some? ==> (cache.Contents(), cached) == CacheGet(old(cache.Contents()), host.value, now)
    {
      host := NormalizeHost(raw);
      if host.None? {
        return host, None;
      }
      cached := cache.Get(host.value, now);
    }

    /** After the last await: remember the answer, misses for less time. */
    method Complete(host: string, resolved: Answer, now: int)
      requires Valid()
      modifies cache
      ensures Valid() && cache.Contents() == Store(old(cache.Contents()), host, resolved, now)
    {
      if resolved.None? {
        cache.Set(host, None, now, Some(MISS_TTL_MS));
      } else {
        cache.Set(host, resolved, now, None);
      }
    }

    method Invalidate(raw: string)
      requires Valid()
      modifies cache
      ensures Valid() && cache.Contents() == Forget(old(cache.Contents()), raw)
      ensures raw == "" ==> cache.data == map[]
      ensures raw != "" && NormalizeHost(Some(raw)).None? ==> cache.Contents() == old(cache.Contents())
      ensures raw != "" && NormalizeHost(Some(raw)).Some? ==>
                cache.data == old(cache.data) - {NormalizeHost(Some(raw)).value}
    {
      if raw != "" {
        var normalized := NormalizeHost(Some(raw));
        if normalized.Some? {
          cache.Delete(normalized.value);
        }
        return;
      }
      cache.Clear();
    }
  }

  // ---- The world it runs in ---------------------------------------------------------

  datatype Flight =
    | AskingHost(host: string, since: int)
    | HeardHost(host: string, since: int, answer: Answer)
    | AskingSlug(host: string, since: int)
    | Answered(host: string, since: int, answer: Answer)

  datatype World = World(now: int, db: Db, cache: Cache<Answer>, flights: map<nat, Flight>)

  datatype Event =
    | Tick(ms: nat)
    | Write(step: Step)
    | Request(id: nat, raw: Option<string>)
    | ReadHost(id: nat)
    | ResumeHost(id: nat)
    | ReadSlug(id: nat)
    | Finish(id: nat)
    | Throw(id: nat)
    | Invalidate(name: string)
    | Restart

  datatype Served = Served(host: string, answer: Answer)

  function Takeoff(w: World, id: nat, raw: Option<string>, root: string): World {
    var host := NormalizeHost(raw);
    if host.None? then w
    else
      var (cache, cached) := CacheGet(w.cache, host.value, w.now);
      if cached.Some? then w.(cache := cache)
      else
        var f := if ClassifyHost(host.value, root).Apex? then Answered(host.value, w.now, None)
                 else AskingHost(host.value, w.now);
        w.(cache := cache, flights := w.flights[id := f])
  }

  ghost function Moved(w: World, f: Flight, e: Event, root: string): Flight {
    match f
    case AskingHost(host, since) =>
      if e.ReadHost? then HeardHost(host, since, LookupByHost(w.db, host)) else f
    case HeardHost(host, since, answer) =>
      if !e.ResumeHost? then f
      else if answer.None? && AsksSlug(host, root) then AskingSlug(host, since)
      else Answered(host, since, answer)
    case AskingSlug(host, since) =>
      if e.ReadSlug? && AsksSlug(host, root) then
        Answered(host, since, LookupBySlug(w.db, ClassifyHost(host, root).slug))
      else f
    case Answered(_, _, _) => f
  }

  ghost function Next(w: World, e: Event, root: string): World {
    match e
    case Tick(ms) => w.(now := w.now + ms)
    case Write(step) => w.(db := Domains.Apply(w.db, step, root))
    case Request(id, raw) => if id in w.flights then w else Takeoff(w, id, raw, root)
    case ReadHost(id) => Advance(w, id, e, root)
    case ResumeHost(id) => Advance(w, id, e, root)
    case ReadSlug(id) => Advance(w, id, e, root)
    case Finish(id) =>
      if id in w.flights && w.flights[id].Answered? then
        var f := w.flights[id];
        w.(cache := Store(w.cache, f.host, f.answer, w.now), flights := w.flights - {id})
      else w
    case Throw(id) => w.(flights := w.flights - {id})
    case Invalidate(raw) => w.(cache := Forget(w.cache, raw))
    case Restart => w.(cache := Cache([], map[]), flights := map[])
  }

  ghost function Advance(w: World, id: nat, e: Event, root: string): World {
    if id in w.flights then w.(flights := w.flights[id := Moved(w, w.flights[id], e, root)]) else w
  }

  /** What the event hands to a caller, if anything. */
  function Output(w: World, e: Event): Option<Served> {
    match e
    case Request(id, raw) =>
      var host := NormalizeHost(raw);
      if host.None? || id in w.flights then None
      else
        var cached := CacheGet(w.cache, host.value, w.now).1;
        if cached.None? then None else Some(Served(host.value, cached.value))
    case Finish(id) =>
      if id in w.flights && w.flights[id].Answered? then
        Some(Served(w.flights[id].host, w.flights[id].answer))
      else None
    case _ => None
  }

  ghost predicate IsRun(b: seq<World>, es: seq<Event>, root: string) {
    |b| == |es| + 1 && forall i :: 0 <= i < |es| ==> b[i + 1] == Next(b[i], es[i], root)
  }

  /** No lookup of this run took longer than `latency` from its request to its answer. */
  ghost predicate LookupsWithin(b: seq<World>, es: seq<Event>, latency: int)
    requires |b| > |es|
  {
    forall i :: 0 <= i < |es| && es[i].Finish? && es[i].id in b[i].flights ==>
      b[i].now - b[i].flights[es[i].id].since <= latency
  }

  /** The cache does not know the host and no lookup for it is in flight. */
  ghost predicate Untouched(w: World, host: string) {
    host !in w.cache.data && forall id :: id in w.flights ==> w.flights[id].host != host
  }

  /** At some instant from `m` to `k`, and not before `floor`, this was the database's answer. */
  ghost predicate WasAnswer(b: seq<World>, host: string, answer: Answer, m: nat, k: nat, floor: int, root: string)
    requires k < |b|
  {
    exists i :: m <= i <= k && LookupUncached(b[i].db, host, root) == answer && floor <= b[i].now
  }

  /** A request is answered from the cache or begins a lookup, never both; a lookup ends with an
      answer or with nothing, and is then gone. */
  lemma OneAnswerEach(w: World, id: nat, raw: Option<string>, root: string)
    requires id !in w.flights
    ensures var e := Request(id, raw);
            && Next(w, e, root).flights - {id} == w.flights
            && (id in Next(w, e, root).flights <==> NormalizeHost(raw).Some? && Output(w, e).None?)
  {
  }

  lemma LookupsEnd(w: World, id: nat, root: string)
    ensures Output(w, Finish(id)).Some? ==> Next(w, Finish(id), root).flights == w.flights - {id}
    ensures Output(w, Finish(id)).None? ==> Next(w, Finish(id), root) == w
    ensures Output(w, Throw(id)).None? && Next(w, Throw(id), root) == w.(flights := w.flights - {id})
    ensures Output(w, Restart).None? && Next(w, Restart, root).flights == map[]
    ensures Next(w, Restart, root).cache.data == map[] && Next(w, Restart, root).db == w.db
  {
  }

  // ---- Bounded staleness ------------------------------------------------------------

  ghost predicate FlightOk(b: seq<World>, f: Flight, m: nat, k: nat, root: string)
    requires k < |b|
  {
    f.since <= b[k].now &&
    match f
    case AskingHost(host, _) => !ClassifyHost(host, root).Apex?
    case HeardHost(host, since, answer) =>
      !ClassifyHost(host, root).Apex? &&
      (answer.Some? || !AsksSlug(host, root) ==> WasAnswer(b, host, answer, m, k, since, root))
    case AskingSlug(host, _) => AsksSlug(host, root)
    case Answered(host, since, answer) => WasAnswer(b, host, answer, m, k, since, root)
  }

  ghost predicate EntryOk(b: seq<World>, c: Cache<Answer>, host: string, m: nat, k: nat, latency: int, root: string)
    requires k < |b|
  {
    host in c.data ==>
      var entry := c.data[host];
      WasAnswer(b, host, entry.value, m, k, entry.expiresAt - Ttl(entry.value) - latency, root)
  }

  ghost predicate HostOk(b: seq<World>, host: string, m: nat, k: nat, latency: int, root: string)
    requires k < |b|
  {
    EntryOk(b, b[k].cache, host, m, k, latency, root) &&
    forall id :: id in b[k].flights && b[k].flights[id].host == host ==> FlightOk(b, b[k].flights[id], m, k, root)
  }

  lemma WasAnswerLater(b: seq<World>, host: string, answer: Answer, m: nat, k: nat, floor: int, root: string)
    requires k + 1 < |b| && WasAnswer(b, host, answer, m, k, floor, root)
    ensures WasAnswer(b, host, answer, m, k + 1, floor, root)
  {
  }

  lemma FlightOkLater(b: seq<World>, f: Flight, m: nat, k: nat, root: string)
    requires k + 1 < |b| && FlightOk(b, f, m, k, root) && b[k].now <= b[k + 1].now
    ensures FlightOk(b, f, m, k + 1, root)
  {
    if f.HeardHost? || f.Answered? {
      if WasAnswer(b, f.host, f.answer, m, k, f.since, root) {
        WasAnswerLater(b, f.host, f.answer, m, k, f.since, root);
      }
    }
  }

  lemma EntryOkLater(b: seq<World>, c: Cache<Answer>, host: string, m: nat, k: nat, latency: int, root: string)
    requires k + 1 < |b| && EntryOk(b, c, host, m, k, latency, root)
    ensures EntryOk(b, c, host, m, k + 1, latency, root)
  {
    if host in c.data {
      var entry := c.data[host];
      WasAnswerLater(b, host, entry.value, m, k, entry.expiresAt - Ttl(entry.value) - latency, root);
    }
  }

  /** The two reads of a lookup are taken at different instants, yet what they say together
      is what the database said at the second: a name under the root is its owner's. */
  lemma SlugReadIsTheAnswer(db: Db, host: string, root: string)
    requires Inv(db, root) && RootOk(root) && AsksSlug(host, root)
    ensures LookupUncached(db, host, root) == LookupBySlug(db, ClassifyHost(host, root).slug)
  {
    var slug := ClassifyHost(host, root).slug;
    SlugRoundTrip(slug, root);
    NameOwnership.OwnedName(db, slug, root);
  }

  lemma MovedFlightOk(b: seq<World>, f: Flight, e: Event, m: nat, k: nat, root: string)
    requires k + 1 < |b| && m <= k && FlightOk(b, f, m, k, root) && b[k].now <= b[k + 1].now
    requires Inv(b[k].db, root) && RootOk(root)
    ensures FlightOk(b, Moved(b[k], f, e, root), m, k + 1, root)
  {
    var g := Moved(b[k], f, e, root);
    if g == f || f.HeardHost? {
      FlightOkLater(b, f, m, k, root);
    } else if f.AskingHost? {
      if g.answer.Some? || !AsksSlug(f.host, root) {
        assert LookupUncached(b[k].db, f.host, root) == g.answer;
        assert WasAnswer(b, f.host, g.answer, m, k + 1, f.since, root);
      }
    } else {
      SlugReadIsTheAnswer(b[k].db, f.host, root);
      assert WasAnswer(b, f.host, g.answer, m, k + 1, f.since, root);
    }
  }

  lemma CacheReadOk(b: seq<World>, c: Cache<Answer>, key: string, host: string, m: nat, k: nat, latency: int,
                    root: string)
    requires k < |b| && EntryOk(b, c, host, m, k, latency, root)
    ensures EntryOk(b, CacheGet(c, key, b[k].now).0, host, m, k, latency, root)
  {
  }

  lemma CacheStoreOk(b: seq<World>, c: Cache<Answer>, f: Flight, host: string, m: nat, k: nat, latency: int,
                     root: string)
    requires k < |b| && WellFormed(c) && EntryOk(b, c, host, m, k, latency, root)
    requires f.Answered? && b[k].now - f.since <= latency
    requires f.host == host ==> WasAnswer(b, host, f.answer, m, k, f.since, root)
    ensures EntryOk(b, Store(c, f.host, f.answer, b[k].now), host, m, k, latency, root)
  {
    SetKeepsShape(c, f.host, f.answer, b[k].now + Ttl(f.answer), CACHE_MAX_ENTRIES);
  }

  ghost predicate WorldOk(w: World, root: string) {
    Inv(w.db, root) && WellFormed(w.cache)
  }

  lemma NextKeepsWorld(w: World, e: Event, root: string)
    requires WorldOk(w, root) && RootOk(root)
    ensures WorldOk(Next(w, e, root), root) && w.now <= Next(w, e, root).now
  {
    match e
    case Write(step) => StepKeeps(w.db, step, root);
    case Request(id, raw) =>
      if NormalizeHost(raw).Some? { GetKeepsShape(w.cache, NormalizeHost(raw).value, w.now); }
    case Finish(id) =>
      if id in w.flights && w.flights[id].Answered? {
        var f := w.flights[id];
        SetKeepsShape(w.cache, f.host, f.answer, w.now + Ttl(f.answer), CACHE_MAX_ENTRIES);
      }
    case Invalidate(raw) =>
      if NormalizeHost(Some(raw)).Some? { WithoutKeepsShape(w.cache, NormalizeHost(Some(raw)).value); }
    case _ =>
  }

  /** The part of a step that concerns the cache. */
  lemma EntryStaysOk(b: seq<World>, es: seq<Event>, host: string, m: nat, k: nat, latency: int, root: string)
    requires IsRun(b, es, root) && LookupsWithin(b, es, latency) && m <= k < |es|
    requires WorldOk(b[k], root) && HostOk(b, host, m, k, latency, root)
    ensures EntryOk(b, b[k + 1].cache, host, m, k + 1, latency, root)
  {
    var w := b[k];
    match es[k]
    case Request(id, raw) =>
      if NormalizeHost(raw).Some? {
        CacheReadOk(b, w.cache, NormalizeHost(raw).value, host, m, k, latency, root);
      }
      EntryOkLater(b, b[k + 1].cache, host, m, k, latency, root);
    case Finish(id) =>
      if id in w.flights && w.flights[id].Answered? {
        CacheStoreOk(b, w.cache, w.flights[id], host, m, k, latency, root);
      }
      EntryOkLater(b, b[k + 1].cache, host, m, k, latency, root);
    case _ =>
      EntryOkLater(b, b[k + 1].cache, host, m, k, latency, root);
  }

  /** The part of a step that concerns the lookups in flight. */
  lemma FlightsStayOk(b: seq<World>, es: seq<Event>, host: string, m: nat, k: nat, latency: int, root: string, id: nat)
    requires IsRun(b, es, root) && m <= k < |es| && RootOk(root)
    requires WorldOk(b[k], root) && HostOk(b, host, m, k, latency, root)
    requires id in b[k + 1].flights && b[k + 1].flights[id].host == host
    ensures FlightOk(b, b[k + 1].flights[id], m, k + 1, root)
  {
    var w, e := b[k], es[k];
    NextKeepsWorld(w, e, root);
    assert b[k + 1] == Next(w, e, root);
    var g := b[k + 1].flights[id];
    if id in w.flights && (g == w.flights[id] || g == Moved(w, w.flights[id], e, root)) {
      MovedFlightOk(b, w.flights[id], e, m, k, root);
      FlightOkLater(b, w.flights[id], m, k, root);
    } else {
      TakenOff(w, e, id, host, root);
      if g.Answered? {
        assert LookupUncached(b[k + 1].db, host, root) == None;
        assert WasAnswer(b, host, None, m, k + 1, g.since, root);
      }
    }
  }

  lemma TakenOff(w: World, e: Event, id: nat, host: string, root: string)
    requires id in Next(w, e, root).flights && Next(w, e, root).flights[id].host == host
    requires !(id in w.flights && (Next(w, e, root).flights[id] == w.flights[id] ||
                                   Next(w, e, root).flights[id] == Moved(w, w.flights[id], e, root)))
    ensures Next(w, e, root).flights[id]
            == if ClassifyHost(host, root).Apex? then Answered(host, w.now, None) else AskingHost(host, w.now)
    ensures Next(w, e, root).db == w.db && Next(w, e, root).now == w.now
  {
  }

  lemma {:induction false} WorldStaysOk(b: seq<World>, es: seq<Event>, m: nat, k: nat, root: string)
    requires IsRun(b, es, root) && m <= k <= |es| && RootOk(root) && WorldOk(b[m], root)
    ensures WorldOk(b[k], root)
    decreases k
  {
    if k > m {
      WorldStaysOk(b, es, m, k - 1, root);
      NextKeepsWorld(b[k - 1], es[k - 1], root);
    }
  }

  lemma HostOkNext(b: seq<World>, es: seq<Event>, host: string, m: nat, k: nat, latency: int, root: string)
    requires IsRun(b, es, root) && LookupsWithin(b, es, latency) && m <= k < |es| && RootOk(root)
    requires WorldOk(b[k], root) && HostOk(b, host, m, k, latency, root)
    ensures HostOk(b, host, m, k + 1, latency, root)
  {
    EntryStaysOk(b, es, host, m, k, latency, root);
    var flights := b[k + 1].flights;
    forall id | id in flights && flights[id].host == host
      ensures FlightOk(b, flights[id], m, k + 1, root)
    {
      FlightsStayOk(b, es, host, m, k, latency, root, id);
    }
  }

  lemma {:induction false} HostStaysOk(b: seq<World>, es: seq<Event>, host: string, m: nat, k: nat, latency: int,
                                       root: string)
    requires IsRun(b, es, root) && LookupsWithin(b, es, latency) && m <= k <= |es| && RootOk(root)
    requires WorldOk(b[m], root) && Untouched(b[m], host)
    ensures HostOk(b, host, m, k, latency, root)
    decreases k
  {
    if k > m {
      HostStaysOk(b, es, host, m, k - 1, latency, root);
      WorldStaysOk(b, es, m, k - 1, root);
      HostOkNext(b, es, host, m, k - 1, latency, root);
    }
  }

  /** Bounded staleness. From any moment `m` at which the host is neither cached nor being
      looked up, whatever then happens: an answer served for it at step `n` was the
      database's own answer at some instant of the run from `m` on, less than the answer's
      time to live plus the longest lookup ago.

      With `m` the start of the run this bounds every answer ever served; with `m` just
      after an invalidation it says later answers come from reads made after it. */
  lemma BoundedStaleness(b: seq<World>, es: seq<Event>, m: nat, n: nat, host: string, answer: Answer,
                         latency: int, root: string)
    requires IsRun(b, es, root) && LookupsWithin(b, es, latency) && RootOk(root)
    requires m <= n < |es| && WorldOk(b[m], root) && Untouched(b[m], host)
    requires Output(b[n], es[n]) == Some(Served(host, answer))
    ensures exists i :: m <= i <= n && LookupUncached(b[i].db, host, root) == answer &&
                        b[n].now - b[i].now < Ttl(answer) + latency
  {
    HostStaysOk(b, es, host, m, n, latency, root);
    var w := b[n];
    var floor := if es[n].Finish? then w.flights[es[n].id].since
                 else w.cache.data[host].expiresAt - Ttl(answer) - latency;
    assert WasAnswer(b, host, answer, m, n, floor, root);
    var i :| m <= i <= n && LookupUncached(b[i].db, host, root) == answer && floor <= b[i].now;
  }

  /** So a tenant that is served was active, under the slug it is served with, little more than
      a minute ago. */
  lemma ServedTenantsWereActive(b: seq<World>, es: seq<Event>, m: nat, n: nat, host: string, who: Resolved,
                                latency: int, root: string)
    requires IsRun(b, es, root) && LookupsWithin(b, es, latency) && RootOk(root)
    requires m <= n < |es| && WorldOk(b[m], root) && Untouched(b[m], host)
    requires Output(b[n], es[n]) == Some(Served(host, Some(who)))
    ensures exists i :: m <= i <= n && b[n].now - b[i].now < 60000 + latency &&
                        who.id in b[i].db.tenants && b[i].db.tenants[who.id] == Tenant(who.slug, ActiveTenant)
  {
    BoundedStaleness(b, es, m, n, host, Some(who), latency, root);
    var i :| m <= i <= n && LookupUncached(b[i].db, host, root) == Some(who) && b[n].now - b[i].now < 60000 + latency;
    AnswersAreActiveTenants(b[i].db, host, root, who);
  }

  lemma {:induction false} TimeGoesOn(b: seq<World>, es: seq<Event>, i: nat, k: nat, root: string)
    requires IsRun(b, es, root) && i <= k < |b|
    ensures b[i].now <= b[k].now
    decreases k
  {
    if i < k {
      TimeGoesOn(b, es, i, k - 1, root);
      assert b[k - 1 + 1] == Next(b[k - 1], es[k - 1], root);
    }
  }

  /** A tenant that has stopped being active is gone from every cache a minute and one lookup
      later, whether or not anything was invalidated. */
  lemma InactiveTenantsFadeOut(b: seq<World>, es: seq<Event>, m: nat, k: nat, n: nat, host: string, who: Resolved,
                               latency: int, root: string)
    requires IsRun(b, es, root) && LookupsWithin(b, es, latency) && RootOk(root)
    requires m <= k <= n < |es| && WorldOk(b[m], root) && Untouched(b[m], host)
    requires forall i :: k <= i <= n ==> !TenantActive(b[i].db, who.id)
    requires b[n].now >= b[k].now + 60000 + latency
    ensures Output(b[n], es[n]) != Some(Served(host, Some(who)))
  {
    if Output(b[n], es[n]) == Some(Served(host, Some(who))) {
      ServedTenantsWereActive(b, es, m, n, host, who, latency, root);
      var i :| m <= i <= n && b[n].now - b[i].now < 60000 + latency && TenantActive(b[i].db, who.id);
      TimeGoesOn(b, es, i, n, root);
      if i < k { TimeGoesOn(b, es, i, k, root); }
      assert false;
    }
  }

  /** Left alone, a stored answer is read back for exactly sixty seconds, a miss for five. */
  lemma StoredAnswersLast(c: Cache<Answer>, host: string, answer: Answer, now: int, at: int)
    requires WellFormed(c)
    ensures CacheGet(Store(c, host, answer, now), host, at).1 == Some(answer)
            <==> at < now + (if answer.Some? then 60 * 1000 else 5 * 1000)
  {
    StoredIsCached(c, host, answer, now);
  }

  lemma ForgottenHostIsUncached(w: World, raw: string)
    requires WellFormed(w.cache)
    ensures raw == "" ==> Forget(w.cache, raw).data == map[]
    ensures NormalizeHost(Some(raw)).Some? ==> NormalizeHost(Some(raw)).value !in Forget(w.cache, raw).data
  {
  }

  /** Invalidation works when nothing is in flight: every later answer for that name is what
      the database said at some instant after it. */
  lemma InvalidationIsFinal(b: seq<World>, es: seq<Event>, m: nat, n: nat, raw: string, host: string, answer: Answer,
                            latency: int, root: string)
    requires IsRun(b, es, root) && LookupsWithin(b, es, latency) && RootOk(root)
    requires m < n < |es| && WorldOk(b[m], root)
    requires es[m] == Invalidate(raw) && (raw == "" || NormalizeHost(Some(raw)) == Some(host))
    requires forall id :: id in b[m].flights ==> b[m].flights[id].host != host
    requires Output(b[n], es[n]) == Some(Served(host, answer))
    ensures exists i :: m < i <= n && LookupUncached(b[i].db, host, root) == answer &&
                        b[n].now - b[i].now < Ttl(answer) + latency
  {
    NextKeepsWorld(b[m], es[m], root);
    ForgottenHostIsUncached(b[m], raw);
    assert b[m + 1] == Next(b[m], es[m], root);
    BoundedStaleness(b, es, m + 1, n, host, answer, latency, root);
  }

  /** ... and needs it: a lookup that read before the invalidation stores after it, and the
      stale answer is then served although the database never gave it again. */
  lemma InvalidationLosesToALookupInFlight(w: World, id: nat, step: Step, host: string, root: string)
    requires NormalizeHost(Some(host)) == Some(host) && ClassifyHost(host, root) == Foreign(host)
    requires Untouched(w, host) && id !in w.flights && WellFormed(w.cache)
    requires LookupByHost(w.db, host) == None && LookupByHost(Domains.Apply(w.db, step, root), host).Some?
    ensures var heard := Next(Next(w, Request(id, Some(host)), root), ReadHost(id), root);
            var forgotten := Next(Next(heard, Write(step), root), Invalidate(host), root);
            var stored := Next(Next(forgotten, ResumeHost(id), root), Finish(id), root);
            stored.db == forgotten.db && LookupUncached(forgotten.db, host, root).Some? &&
            Output(stored, Request(id, Some(host))) == Some(Served(host, None))
  {
    var heard := MissHeard(w, id, host, root);
    var forgotten := WrittenThenForgotten(heard, step, host, root);
    var stored := MissStored(forgotten, id, host, root);
    CachedIsServed(stored, id, host);
  }

  lemma WrittenThenForgotten(w: World, step: Step, host: string, root: string) returns (w2: World)
    requires WellFormed(w.cache) && NormalizeHost(Some(host)) == Some(host)
    ensures w2 == Next(Next(w, Write(step), root), Invalidate(host), root)
    ensures w2.db == Domains.Apply(w.db, step, root) && w2.now == w.now && w2.flights == w.flights
    ensures WellFormed(w2.cache)
  {
    WithoutKeepsShape(w.cache, host);
    w2 := w.(db := Domains.Apply(w.db, step, root), cache := Forget(w.cache, host));
  }

  lemma MissHeard(w: World, id: nat, host: string, root: string) returns (w2: World)
    requires NormalizeHost(Some(host)) == Some(host) && ClassifyHost(host, root) == Foreign(host)
    requires host !in w.cache.data && id !in w.flights && LookupByHost(w.db, host) == None
    ensures w2 == Next(Next(w, Request(id, Some(host)), root), ReadHost(id), root)
    ensures w2 == w.(flights := w.flights[id := HeardHost(host, w.now, None)])
  {
    var w1 := Next(w, Request(id, Some(host)), root);
    assert w1 == w.(flights := w.flights[id := AskingHost(host, w.now)]);
    w2 := Next(w1, ReadHost(id), root);
    assert w1.flights[id := HeardHost(host, w.now, None)] == w.flights[id := HeardHost(host, w.now, None)];
  }

  lemma MissStored(w: World, id: nat, host: string, root: string) returns (w6: World)
    requires !AsksSlug(host, root)
    requires WellFormed(w.cache) && id in w.flights && w.flights[id] == HeardHost(host, w.now, None)
    ensures w6 == Next(Next(w, ResumeHost(id), root), Finish(id), root)
    ensures w6.db == w.db && w6.now == w.now && id !in w6.flights
    ensures host in w6.cache.data && w6.cache.data[host] == Entry(None, w.now + MISS_TTL_MS)
  {
    var w5 := Next(w, ResumeHost(id), root);
    assert w5 == w.(flights := w.flights[id := Answered(host, w.now, None)]);
    w6 := Next(w5, Finish(id), root);
    StoredIsCached(w.cache, host, None, w.now);
  }

  lemma CachedIsServed(w: World, id: nat, host: string)
    requires NormalizeHost(Some(host)) == Some(host) && id !in w.flights
    requires host in w.cache.data && w.now < w.cache.data[host].expiresAt
    ensures Output(w, Request(id, Some(host))) == Some(Served(host, w.cache.data[host].value))
  {
  }

  lemma StoredIsCached(c: Cache<Answer>, host: string, answer: Answer, now: int)
    requires WellFormed(c)
    ensures var s := Store(c, host, answer, now);
            host in s.data && s.data[host] == Entry(answer, now + Ttl(answer))
  {
    WithoutKeepsShape(c, host);
    var full := Append(Without(c, host), host, Entry(answer, now + Ttl(answer)));
    AppendKeepsShape(Without(c, host), host, Entry(answer, now + Ttl(answer)));
    EvictKeepsShape(full, CACHE_MAX_ENTRIES);
    var e := Evict(full, CACHE_MAX_ENTRIES);
    assert e.order[|e.order| - 1] == full.order[|full.order| - 1] == host;
  }
}
