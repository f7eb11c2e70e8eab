/** Who answers for a name, and where the canonical redirect leads
    (src/lib/tenancy/resolve.ts, 89-112; src/lib/domains/redirect.ts). */
module NameOwnership {
  import opened Text
  import opened Host
  import opened Domains

  /** A row that serves `slug.root` belongs to the tenant with that slug: nobody else can
      have it, whatever was attached, verified, removed or made primary. */
  lemma ServingRowIsTheOwners(db: Db, d: DomainId, slug: string, root: string)
    requires Inv(db, root) && RootOk(root) && IsValidSlug(slug)
    requires Serves(db, d, SlugHost(slug, root))
    ensures db.tenants[db.domains[d].tenant].slug == slug
  {
    var host := SlugHost(slug, root);
    SlugHostIsPlausible(slug, root);
    PlausibleIsClean(host);
    var row := db.domains[d];
    assert RowOk(db.tenants, row, root);
    SlugHostIsInjective(db.tenants[row.tenant].slug, slug, root);
  }

  lemma SlugHostIsInjective(one: string, other: string, root: string)
    ensures SlugHost(one, root) == SlugHost(other, root) ==> one == other
  {
    if SlugHost(one, root) == SlugHost(other, root) {
      assert |one| == |other|;
      assert SlugHost(one, root)[..|one|] == one;
    }
  }

  lemma HostAnswerIsTheOwners(db: Db, slug: string, root: string)
    requires Inv(db, root) && RootOk(root) && IsValidSlug(slug)
    ensures var byHost := LookupByHost(db, SlugHost(slug, root));
            byHost.Some? ==> byHost == LookupBySlug(db, slug)
  {
    var host := SlugHost(slug, root);
    if exists d :: Serves(db, d, host) {
      var d :| Serves(db, d, host) && LookupByHost(db, host)
              == Some(Resolved(db.domains[d].tenant, db.tenants[db.domains[d].tenant].slug));
      ServingRowIsTheOwners(db, d, slug, root);
      assert IsSlugOf(db, db.domains[d].tenant, slug);
    }
  }

  lemma OwnedName(db: Db, slug: string, root: string)
    requires Inv(db, root) && RootOk(root) && IsValidSlug(slug)
    ensures LookupUncached(db, SlugHost(slug, root), root)
            == if slug == "www" then None else LookupBySlug(db, slug)
  {
    SlugRoundTrip(slug, root);
    HostAnswerIsTheOwners(db, slug, root);
  }

  /** Subdomain ownership, in every reachable state: `slug.root` resolves to a tenant if and
      only if that tenant is active, has that slug, and the slug is not `www`. Removing the
      tenant's own row for the name changes nothing. */
  lemma SubdomainOwnership(steps: seq<Step>, slug: string, root: string, who: Resolved)
    requires RootOk(root) && IsValidSlug(slug)
    ensures var db := Run(steps, root);
            LookupUncached(db, SlugHost(slug, root), root) == Some(who)
            <==> slug != "www" && who.slug == slug && IsSlugOf(db, who.id, slug)
  {
    var db := Run(steps, root);
    RunKeeps(steps, root);
    OwnedName(db, slug, root);
    assert forall t, u :: IsSlugOf(db, t, slug) && IsSlugOf(db, u, slug) ==> t == u;
  }

  // ---- The canonical redirect -------------------------------------------------------

  predicate IsLocal(hostname: string) {
    hostname == "localhost" || EndsWith(hostname, ".localhost") || hostname == "127.0.0.1" || hostname == "[::1]"
  }

  function AbsoluteUrl(host: string, path: string): string {
    (if IsLocal(StripPort(host)) then "http" else "https") + "://" + host + path
  }

  /** `path` is the x-lamplight-path header: absent or empty means no redirect. */
  ghost function PrimaryRedirectFor(db: Db, t: TenantId, host: string, path: Option<string>): Option<string> {
    var primary := FindPrimaryDomain(db, t);
    if primary.None? || primary.value == host then None
    else if path.None? || path.value == "" then None
    else Some(AbsoluteUrl(primary.value, path.value))
  }

  /** How a browser reads the address back: the authority ends at the first slash. */
  function UrlAfterScheme(url: string): string {
    var colon := IndexOf(url, ':');
    if colon == -1 || colon + 3 > |url| then "" else url[colon + 3..]
  }

  function UrlHost(url: string): string {
    var rest := UrlAfterScheme(url);
    var slash := IndexOf(rest, '/');
    if slash == -1 then rest else rest[..slash]
  }

  function UrlTarget(url: string): string {
    var rest := UrlAfterScheme(url);
    var slash := IndexOf(rest, '/');
    if slash == -1 then "" else rest[slash..]
  }

  lemma UrlReadsBack(scheme: string, host: string, path: string)
    requires ':' !in scheme && '/' !in host && path != "" && path[0] == '/'
    ensures var url := scheme + "://" + host + path; UrlHost(url) == host && UrlTarget(url) == path
  {
    var url := scheme + "://" + host + path;
    assert url[|scheme|] == ':' && url[..|scheme|] == scheme;
    assert forall i :: 0 <= i < |scheme| ==> url[i] == scheme[i];
    assert IndexOf(url, ':') == |scheme|;
    var rest := host + path;
    assert url[|scheme| + 3..] == rest;
    assert rest[|host|] == '/' && forall i :: 0 <= i < |host| ==> rest[i] == host[i];
    assert IndexOf(rest, '/') == |host|;
  }

  lemma AbsoluteUrlReadsBack(host: string, path: string)
    requires '/' !in host && path != "" && path[0] == '/'
    ensures UrlHost(AbsoluteUrl(host, path)) == host && UrlTarget(AbsoluteUrl(host, path)) == path
  {
    UrlReadsBack(if IsLocal(StripPort(host)) then "http" else "https", host, path);
  }

  lemma PlausibleHasNoSlash(h: string)
    requires IsPlausible(h)
    ensures '/' !in h
  {
  }

  lemma PrimaryHostResolves(db: Db, t: TenantId, p: string, root: string)
    requires Inv(db, root) && RootOk(root) && TenantActive(db, t)
    requires FindPrimaryDomain(db, t) == Some(p)
    ensures NormalizeHost(Some(p)) == Some(p) && IsPlausible(p)
    ensures LookupUncached(db, p, root) == Some(Resolved(t, db.tenants[t].slug)) <==> p != "www." + root
  {
    var d :| IsPrimaryRow(db, t, d) && db.domains[d].hostname == p;
    assert RowOk(db.tenants, db.domains[d], root);
    RowNameIsSettled(db, d, root);
    PlausibleAgain(p);
    RowNameClassifies(db.domains[d], db.tenants[t].slug, root);
    ActiveRowAnswers(db, d, root);
  }

  lemma RowNameIsSettled(db: Db, d: DomainId, root: string)
    requires Inv(db, root) && RootOk(root) && d in db.domains
    ensures IsPlausible(db.domains[d].hostname) && !EndsInDot(db.domains[d].hostname)
  {
    assert RowOk(db.tenants, db.domains[d], root);
    if db.domains[d].cfId.None? {
      SlugHostIsPlausible(db.tenants[db.domains[d].tenant].slug, root);
    }
  }

  lemma ActiveRowAnswers(db: Db, d: DomainId, root: string)
    requires Inv(db, root) && RootOk(root) && d in db.domains
    requires db.domains[d].status == Active && TenantActive(db, db.domains[d].tenant)
    ensures var t := db.domains[d].tenant;
            LookupByHost(db, db.domains[d].hostname) == Some(Resolved(t, db.tenants[t].slug))
  {
    var p := db.domains[d].hostname;
    RowNameIsSettled(db, d, root);
    PlausibleIsClean(p);
    assert Serves(db, d, p);
    assert forall e :: Serves(db, e, p) ==> e == d;
  }

  lemma RowNameClassifies(row: Row, slug: string, root: string)
    requires RootOk(root) && IsValidSlug(slug)
    requires if row.cfId.None? then row.hostname == SlugHost(slug, root) else !UnderApex(row.hostname, root)
    ensures ClassifyHost(row.hostname, root).Apex? <==> row.hostname == "www." + root
  {
    RootIsClean(root);
    if row.cfId.None? {
      SlugRoundTrip(slug, root);
      SlugHostIsInjective(slug, "www", root);
      assert SlugHost("www", root) == "www." + root;
    } else {
      UnclaimedIsForeign(row.hostname, root);
      assert ("www." + root)[3..] == "." + root;
    }
  }

  /** One hop, in every reachable state. A redirect for an active tenant goes to its primary
      name with the path and query as they were; that name resolves, uncached, to the same
      tenant exactly when it is not `www` under the root; and there nothing redirects. */
  lemma RedirectEndsInOneHop(steps: seq<Step>, t: TenantId, host: string, path: string, root: string)
    requires RootOk(root) && TenantActive(Run(steps, root), t) && path != "" && path[0] == '/'
    requires PrimaryRedirectFor(Run(steps, root), t, host, Some(path)).Some?
    ensures var db := Run(steps, root);
            var url := PrimaryRedirectFor(db, t, host, Some(path)).value;
            var landed := UrlHost(url);
            UrlTarget(url) == path && landed != host &&
            NormalizeHost(Some(landed)) == Some(landed) &&
            (LookupUncached(db, landed, root) == Some(Resolved(t, db.tenants[t].slug)) <==> landed != "www." + root) &&
            forall next :: PrimaryRedirectFor(db, t, landed, next) == None
  {
    var db := Run(steps, root);
    RunKeeps(steps, root);
    var p := FindPrimaryDomain(db, t).value;
    PrimaryHostResolves(db, t, p, root);
    PlausibleHasNoSlash(p);
    AbsoluteUrlReadsBack(p, path);
  }

  /** There is never a choice of primary: two primary rows of one tenant are one row, and a
      tenant that has just chosen one has exactly that one. */
  lemma AtMostOnePrimary(steps: seq<Step>, t: TenantId, d: DomainId, e: DomainId, root: string)
    requires RootOk(root)
    ensures var db := Run(steps, root);
            IsPrimaryRow(db, t, d) && IsPrimaryRow(db, t, e) ==> d == e
    ensures var db := Run(steps + [SetPrimary(t, d)], root);
            Owns(Run(steps, root), t, d) && Run(steps, root).domains[d].status == Active ==>
              FindPrimaryDomain(db, t) == Some(Run(steps, root).domains[d].hostname)
  {
    RunKeeps(steps, root);
    var more := steps + [SetPrimary(t, d)];
    RunKeeps(more, root);
    assert more[..|more| - 1] == steps;
    var db := Run(more, root);
    if Owns(Run(steps, root), t, d) && Run(steps, root).domains[d].status == Active {
      assert IsPrimaryRow(db, t, d);
      assert forall f :: IsPrimaryRow(db, t, f) ==> f == d;
    }
  }
}
