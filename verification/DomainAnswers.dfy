/** Who gets an answer and who does not, in terms of the tables alone: the two bootstrap reads
    (src/db/client.ts:97-127), src/lib/tenancy/resolve.ts:89-112 and
    src/lib/domains/redirect.ts. */
module DomainAnswers {
  import opened Text
  import opened Host
  import opened Domains
  import opened NameOwnership

  /** A live row of this tenant's for this name. */
  predicate HasLiveRow(db: Db, t: TenantId, host: string) {
    exists d :: d in db.domains && db.domains[d].hostname == host && db.domains[d].status == Active &&
      db.domains[d].tenant == t
  }

  predicate IsActiveAs(db: Db, who: Resolved) {
    who.id in db.tenants && db.tenants[who.id] == Tenant(who.slug, ActiveTenant)
  }

  lemma HostReadIff(db: Db, host: string, root: string, who: Resolved)
    requires Inv(db, root) && Lower(host) == host
    ensures LookupByHost(db, host) == Some(who) <==> IsActiveAs(db, who) && HasLiveRow(db, who.id, host)
  {
    if LookupByHost(db, host) == Some(who) {
      var d :| Serves(db, d, host) && db.domains[d].tenant == who.id;
    }
    if IsActiveAs(db, who) && HasLiveRow(db, who.id, host) {
      var d :| d in db.domains && db.domains[d].hostname == host && db.domains[d].status == Active &&
               db.domains[d].tenant == who.id;
      assert Serves(db, d, host);
      assert forall e :: Serves(db, e, host) ==> e == d;
    }
  }

  /** Under the root only slug hosts have rows. */
  lemma RowsUnderRootAreSlugHosts(db: Db, t: TenantId, host: string, root: string)
    requires Inv(db, root) && RootOk(root) && UnderApex(host, root) && HasLiveRow(db, t, host)
    ensures host == SlugHost(db.tenants[t].slug, root)
  {
    var d :| d in db.domains && db.domains[d].hostname == host && db.domains[d].status == Active &&
             db.domains[d].tenant == t;
    assert RowOk(db.tenants, db.domains[d], root);
  }

  lemma SlugHostAnswers(db: Db, host: string, root: string, who: Resolved)
    requires Inv(db, root) && RootOk(root) && IsActiveAs(db, who) && host == SlugHost(who.slug, root)
    ensures LookupUncached(db, host, root) == Some(who) <==> who.slug != "www"
  {
    OwnedName(db, who.slug, root);
    assert IsSlugOf(db, who.id, who.slug);
    assert forall t :: IsSlugOf(db, t, who.slug) ==> t == who.id;
  }

  lemma ForeignAnswers(db: Db, host: string, root: string, who: Resolved)
    requires Inv(db, root) && RootOk(root) && Lower(host) == host && !UnderApex(host, root)
    ensures LookupUncached(db, host, root) == Some(who) <==> IsActiveAs(db, who) && HasLiveRow(db, who.id, host)
  {
    RootIsClean(root);
    UnclaimedIsForeign(host, root);
    HostReadIff(db, host, root, who);
  }

  lemma UnderRootAnswers(db: Db, host: string, root: string, who: Resolved)
    requires Inv(db, root) && RootOk(root) && Lower(host) == host && UnderApex(host, root)
    requires LookupUncached(db, host, root) == Some(who)
    ensures host == SlugHost(who.slug, root)
  {
    AnswersAreActiveTenants(db, host, root, who);
    HostReadIff(db, host, root, who);
    if HasLiveRow(db, who.id, host) {
      RowsUnderRootAreSlugHosts(db, who.id, host, root);
    } else {
      OnlySlugHostReads(host, ClassifyHost(host, root).slug, root);
    }
  }

  /** The whole of resolution, in every reachable state and for every name in lower case: a
      tenant answers if and only if it is active and the name is its own subdomain, `www` apart,
      or a name outside the root for which it has a live row. */
  lemma ResolvesExactly(steps: seq<Step>, host: string, root: string, who: Resolved)
    requires RootOk(root) && Lower(host) == host
    ensures var db := Run(steps, root);
            LookupUncached(db, host, root) == Some(who) <==>
              && who.id in db.tenants && db.tenants[who.id] == Tenant(who.slug, ActiveTenant)
              && if host == root || EndsWith(host, "." + root) then host == who.slug + "." + root && who.slug != "www"
                 else HasLiveRow(db, who.id, host)
  {
    var db := Run(steps, root);
    RunKeeps(steps, root);
    if UnderApex(host, root) {
      if LookupUncached(db, host, root) == Some(who) {
        AnswersAreActiveTenants(db, host, root, who);
        UnderRootAnswers(db, host, root, who);
      }
      if IsActiveAs(db, who) && host == SlugHost(who.slug, root) { SlugHostAnswers(db, host, root, who); }
    } else {
      ForeignAnswers(db, host, root, who);
    }
  }

  // ---- Suspension -------------------------------------------------------------------

  lemma {:induction false} StaysSuspended(db: Db, more: seq<Step>, before: seq<Step>, t: TenantId, root: string)
    requires db == Run(before, root) && t in db.tenants && db.tenants[t].status == SuspendedTenant
    requires forall i :: 0 <= i < |more| ==> !(more[i].SetTenantStatus? && more[i].owner == t)
    ensures var n := Run(before + more, root); t in n.tenants && n.tenants[t].status == SuspendedTenant
  {
    if more == [] {
      assert before + more == before;
    } else {
      var fewer := more[..|more| - 1];
      StaysSuspended(db, fewer, before, t, root);
      assert (before + more)[..|before + more| - 1] == before + fewer;
    }
  }

  /** From its suspension on, whatever anybody does, no name resolves to a suspended tenant
      until its status is set again. */
  lemma SuspendedAnswersNobody(steps: seq<Step>, more: seq<Step>, t: TenantId, host: string, root: string)
    requires t in Run(steps, root).tenants
    requires forall i :: 0 <= i < |more| ==> !(more[i].SetTenantStatus? && more[i].owner == t)
    ensures var found := LookupUncached(Run(steps + [SetTenantStatus(t, SuspendedTenant)] + more, root), host, root);
            found.Some? ==> found.value.id != t
  {
    var before := steps + [SetTenantStatus(t, SuspendedTenant)];
    assert before[..|before| - 1] == steps;
    StaysSuspended(Run(before, root), more, before, t, root);
    var db := Run(before + more, root);
    var found := LookupUncached(db, host, root);
    if found.Some? { AnswersAreActiveTenants(db, host, root, found.value); }
  }

  /** A tenant's subdomain answers exactly while its status is active. */
  lemma StatusDecides(steps: seq<Step>, t: TenantId, to: TenantStatus, root: string)
    requires RootOk(root) && t in Run(steps, root).tenants && Run(steps, root).tenants[t].slug != "www"
    ensures var slug := Run(steps, root).tenants[t].slug;
            var n := Run(steps + [SetTenantStatus(t, to)], root);
            LookupUncached(n, slug + "." + root, root) == Some(Resolved(t, slug)) <==> to == ActiveTenant
  {
    var more := steps + [SetTenantStatus(t, to)];
    assert more[..|more| - 1] == steps;
    RunKeeps(more, root);
    var n, slug := Run(more, root), Run(steps, root).tenants[t].slug;
    if to == ActiveTenant {
      SlugHostAnswers(n, SlugHost(slug, root), root, Resolved(t, slug));
    } else if LookupUncached(n, slug + "." + root, root) == Some(Resolved(t, slug)) {
      AnswersAreActiveTenants(n, slug + "." + root, root, Resolved(t, slug));
    }
  }

  // ---- Provisioning -----------------------------------------------------------------

  /** Provisioning succeeds exactly for a well formed slug nobody has, and then the tenant
      answers at its subdomain at once, which is its primary name. */
  lemma ProvisionedAnswersAtOnce(steps: seq<Step>, rawSlug: string, t: TenantId, d: DomainId, root: string)
    requires RootOk(root) && t !in Run(steps, root).tenants && d !in Run(steps, root).domains
    ensures var db, slug := Run(steps, root), Lower(Trim(rawSlug));
            var n := Apply(db, Provision(rawSlug, t, d), root);
            && (t in n.tenants <==> IsValidSlug(slug) && forall u :: u in db.tenants ==> db.tenants[u].slug != slug)
            && (t !in n.tenants ==> n == db)
            && (t in n.tenants ==>
                  && FindPrimaryDomain(n, t) == Some(slug + "." + root)
                  && (LookupUncached(n, slug + "." + root, root) == Some(Resolved(t, slug)) <==> slug != "www"))
  {
    var db, slug := Run(steps, root), Lower(Trim(rawSlug));
    RunKeeps(steps, root);
    ProvisionKeeps(db, rawSlug, t, d, root);
    var n := Apply(db, Provision(rawSlug, t, d), root);
    if IsValidSlug(slug) && !SlugTaken(db, slug) {
      NewSlugHostIsFree(db, slug, root);
      assert t in n.tenants && n.tenants[t] == Tenant(slug, ActiveTenant);
      SlugHostAnswers(n, SlugHost(slug, root), root, Resolved(t, slug));
      assert IsPrimaryRow(n, t, d);
      assert forall e :: IsPrimaryRow(n, t, e) ==> e == d;
    }
  }

  lemma NewSlugHostIsFree(db: Db, slug: string, root: string)
    requires Inv(db, root) && RootOk(root) && IsValidSlug(slug) && !SlugTaken(db, slug)
    ensures forall e :: e in db.domains ==> db.domains[e].hostname != SlugHost(slug, root)
  {
    SlugHostIsPlausible(slug, root);
    forall e | e in db.domains ensures db.domains[e].hostname != SlugHost(slug, root) {
      assert RowOk(db.tenants, db.domains[e], root);
      SlugHostIsInjective(db.tenants[db.domains[e].tenant].slug, slug, root);
    }
  }

  // ---- The redirect -----------------------------------------------------------------

  /** A visitor is redirected exactly when the tenant has a live primary row under another
      name and the path is known; to that name, over https unless it is a loopback's. */
  lemma RedirectsExactly(db: Db, t: TenantId, host: string, path: Option<string>, root: string, url: string)
    requires Inv(db, root) && RootOk(root)
    ensures PrimaryRedirectFor(db, t, host, path) == Some(url) <==>
              path.Some? && path.value != "" &&
              exists d :: IsRedirectTo(db, d, t, host, path.value, url)
  {
    if path.Some? && path.value != "" {
      assert forall e :: IsRedirectTo(db, e, t, host, path.value, url) ==> IsPrimaryRow(db, t, e);
      if d :| IsPrimaryRow(db, t, d) {
        PrimaryRowIsFound(db, t, d, root);
        RowNameIsSettled(db, d, root);
        RedirectIsTo(db, d, t, host, path.value, url);
      }
    }
  }

  lemma PrimaryRowIsFound(db: Db, t: TenantId, d: DomainId, root: string)
    requires Inv(db, root) && IsPrimaryRow(db, t, d)
    ensures FindPrimaryDomain(db, t) == Some(db.domains[d].hostname)
    ensures forall e :: IsPrimaryRow(db, t, e) ==> e == d
  {
  }

  lemma RedirectIsTo(db: Db, d: DomainId, t: TenantId, host: string, path: string, url: string)
    requires IsPrimaryRow(db, t, d) && IsPlausible(db.domains[d].hostname)
    ensures var name := db.domains[d].hostname;
            IsRedirectTo(db, d, t, host, path, url) <==> name != host && url == AbsoluteUrl(name, path)
  {
    UrlIs(db.domains[d].hostname, path);
  }

  lemma UrlIs(name: string, path: string)
    requires IsPlausible(name)
    ensures AbsoluteUrl(name, path)
            == if name == "localhost" || EndsWith(name, ".localhost") || name == "127.0.0.1" || name == "[::1]"
               then "http://" + name + path else "https://" + name + path
  {
    PlausibleIsClean(name);
    assert StripPort(name) == name;
    assert "http" + "://" == "http://" && "https" + "://" == "https://";
  }

  predicate IsRedirectTo(db: Db, d: DomainId, t: TenantId, host: string, path: string, url: string) {
    d in db.domains && db.domains[d].tenant == t && db.domains[d].isPrimary && db.domains[d].status == Active &&
    db.domains[d].hostname != host &&
    var name := db.domains[d].hostname;
    url == if name == "localhost" || EndsWith(name, ".localhost") || name == "127.0.0.1" || name == "[::1]"
           then "http://" + name + path else "https://" + name + path
  }
}
