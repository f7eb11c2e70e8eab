/** Tenants, their hostnames, and who answers for a name: the table behind
    src/lib/domains/service.ts, the two bootstrap reads of src/db/client.ts and
    `lookupUncached` of src/lib/tenancy/resolve.ts.

    Each transaction is one function on the database. A constraint violation rolls the
    transaction back, so the database it leaves is the one it found. */
module Domains {
  import opened Text
  import opened Host

  type TenantId = nat
  type DomainId = nat
  type CfId = nat

  /** Fourteen days, in milliseconds (service.ts, 27). */
  const CLAIM_TTL_MS := 14 * 24 * 60 * 60 * 1000

  datatype TenantStatus = PendingTenant | ActiveTenant | SuspendedTenant
  datatype Tenant = Tenant(slug: string, status: TenantStatus)

  datatype Status = Pending | Verifying | Active | Failed
  datatype Row = Row(tenant: TenantId, hostname: string, isPrimary: bool, status: Status,
                     cfId: Option<CfId>, claimExpiresAt: Option<int>)

  datatype Db = Db(tenants: map<TenantId, Tenant>, domains: map<DomainId, Row>)

  const EMPTY := Db(map[], map[])

  // ---- Reads ------------------------------------------------------------------------

  datatype Resolved = Resolved(id: TenantId, slug: string)

  predicate TenantActive(db: Db, t: TenantId) {
    t in db.tenants && db.tenants[t].status == ActiveTenant
  }

  /** The row `resolve_tenant_by_host` may answer with. */
  predicate Serves(db: Db, d: DomainId, host: string) {
    d in db.domains && db.domains[d].hostname == Lower(host) &&
    db.domains[d].status == Active && TenantActive(db, db.domains[d].tenant)
  }

  ghost function LookupByHost(db: Db, host: string): Option<Resolved> {
    if exists d :: Serves(db, d, host) then
      var d :| Serves(db, d, host);
      var t := db.domains[d].tenant;
      Some(Resolved(t, db.tenants[t].slug))
    else None
  }

  predicate IsSlugOf(db: Db, t: TenantId, slug: string) {
    TenantActive(db, t) && db.tenants[t].slug == slug
  }

  ghost function LookupBySlug(db: Db, slug: string): Option<Resolved> {
    if exists t :: IsSlugOf(db, t, slug) then
      var t :| IsSlugOf(db, t, slug);
      Some(Resolved(t, slug))
    else None
  }

  /** `lookupUncached`, both of its reads taken at one instant. */
  ghost function LookupUncached(db: Db, host: string, root: string): Option<Resolved> {
    var c := ClassifyHost(host, root);
    if c.Apex? then None
    else
      var byHost := LookupByHost(db, host);
      if byHost.Some? then byHost
      else if c.Subdomain? && IsValidSlug(c.slug) then LookupBySlug(db, c.slug)
      else None
  }

  /** Whoever a name resolves to is there, active, and goes by the slug that is given. */
  lemma AnswersAreActiveTenants(db: Db, host: string, root: string, who: Resolved)
    requires LookupUncached(db, host, root) == Some(who)
    ensures who.id in db.tenants && db.tenants[who.id].status == ActiveTenant && db.tenants[who.id].slug == who.slug
  {
  }

  predicate IsPrimaryRow(db: Db, t: TenantId, d: DomainId) {
    d in db.domains && db.domains[d].tenant == t && db.domains[d].isPrimary &&
    db.domains[d].status == Active
  }

  ghost function FindPrimaryDomain(db: Db, t: TenantId): Option<string> {
    if exists d :: IsPrimaryRow(db, t, d) then
      var d :| IsPrimaryRow(db, t, d);
      Some(db.domains[d].hostname)
    else None
  }

  // ---- Transactions -----------------------------------------------------------------

  /** What the two unique indexes and the foreign key on tenant_domains allow. */
  predicate RowAllowed(db: Db, d: DomainId, row: Row) {
    row.tenant in db.tenants &&
    (forall other :: other in db.domains && other != d && db.domains[other].tenant == row.tenant
       ==> db.domains[other].hostname != row.hostname) &&
    (row.status == Active ==>
      forall other :: other in db.domains && other != d && db.domains[other].hostname == row.hostname
        ==> db.domains[other].status != Active)
  }

  datatype Step =
    | Provision(slug: string, tenant: TenantId, domain: DomainId)
    | Attach(owner: TenantId, raw: string, domain: DomainId, status: Status, cfId: CfId, at: int)
    | Refresh(owner: TenantId, domain: DomainId, status: Status, at: int)
    | RecordError(owner: TenantId, domain: DomainId)
    | Remove(owner: TenantId, domain: DomainId)
    | SetPrimary(owner: TenantId, domain: DomainId)
    | SetTenantStatus(owner: TenantId, to: TenantStatus)

  predicate Owns(db: Db, t: TenantId, d: DomainId) {
    d in db.domains && db.domains[d].tenant == t
  }

  predicate SlugTaken(db: Db, slug: string) {
    exists t :: t in db.tenants && db.tenants[t].slug == slug
  }

  function ProvisionTenant(db: Db, rawSlug: string, t: TenantId, d: DomainId, root: string): Db {
    var slug := Lower(Trim(rawSlug));
    var row := Row(t, SlugHost(slug, root), true, Active, None, None);
    var withTenant := db.(tenants := db.tenants[t := Tenant(slug, ActiveTenant)]);
    if IsValidSlug(slug) && !SlugTaken(db, slug) && t !in db.tenants && d !in db.domains &&
       RowAllowed(withTenant, d, row)
    then withTenant.(domains := db.domains[d := row])
    else db
  }

  function AttachDomain(db: Db, t: TenantId, raw: string, d: DomainId, status: Status, cfId: CfId,
                        at: int, apex: string): Db {
    var claim := ClaimableHostname(raw, apex);
    if claim.Refused? then db
    else
      var row := Row(t, claim.hostname, false, status, Some(cfId), Some(at + CLAIM_TTL_MS));
      if d !in db.domains && RowAllowed(db, d, row) then db.(domains := db.domains[d := row]) else db
  }

  function Refreshed(row: Row, status: Status, at: int): Row {
    row.(status := status, claimExpiresAt := if status == Active then None else Some(at + CLAIM_TTL_MS))
  }

  /** The update of `refreshDomain`. Only rows Cloudflare knows are ever refreshed; the id
      is read in an earlier transaction and no statement changes it afterwards. */
  function RefreshDomain(db: Db, t: TenantId, d: DomainId, status: Status, at: int): Db {
    if !Owns(db, t, d) || db.domains[d].cfId.None? then db
    else
      var row := Refreshed(db.domains[d], status, at);
      if RowAllowed(db, d, row) then db.(domains := db.domains[d := row]) else db
  }

  function RecordDomainError(db: Db, t: TenantId, d: DomainId): Db {
    if !Owns(db, t, d) || db.domains[d].cfId.None? then db
    else db.(domains := db.domains[d := db.domains[d].(status := Failed)])
  }

  function RemoveDomain(db: Db, t: TenantId, d: DomainId): Db {
    if Owns(db, t, d) then db.(domains := db.domains - {d}) else db
  }

  function SetPrimaryDomain(db: Db, t: TenantId, d: DomainId): Db {
    if !Owns(db, t, d) || db.domains[d].status != Active then db
    else db.(domains := WithPrimary(db.domains, t, d))
  }

  function WithPrimary(rows: map<DomainId, Row>, t: TenantId, d: DomainId): map<DomainId, Row> {
    map e | e in rows :: if rows[e].tenant == t then rows[e].(isPrimary := e == d) else rows[e]
  }

  function SetStatus(db: Db, t: TenantId, to: TenantStatus): Db {
    if t in db.tenants then db.(tenants := db.tenants[t := db.tenants[t].(status := to)]) else db
  }

  function Apply(db: Db, step: Step, root: string): Db {
    match step
    case Provision(slug, t, d) => ProvisionTenant(db, slug, t, d, root)
    case Attach(t, raw, d, status, cfId, at) => AttachDomain(db, t, raw, d, status, cfId, at, root)
    case Refresh(t, d, status, at) => RefreshDomain(db, t, d, status, at)
    case RecordError(t, d) => RecordDomainError(db, t, d)
    case Remove(t, d) => RemoveDomain(db, t, d)
    case SetPrimary(t, d) => SetPrimaryDomain(db, t, d)
    case SetTenantStatus(t, to) => SetStatus(db, t, to)
  }

  function Run(steps: seq<Step>, root: string): Db {
    if steps == [] then EMPTY else Apply(Run(steps[..|steps| - 1], root), steps[|steps| - 1], root)
  }

  // ---- What every step keeps --------------------------------------------------------

  ghost predicate TenantsOk(tenants: map<TenantId, Tenant>) {
    (forall t :: t in tenants ==> IsValidSlug(tenants[t].slug)) &&
    (forall t, u :: t in tenants && u in tenants && tenants[t].slug == tenants[u].slug ==> t == u)
  }

  ghost predicate ActiveNamesUnique(rows: map<DomainId, Row>) {
    forall d, e | d in rows && e in rows && rows[d].status == Active && rows[e].status == Active &&
                  rows[d].hostname == rows[e].hostname :: d == e
  }

  ghost predicate OwnNamesUnique(rows: map<DomainId, Row>) {
    forall d, e | d in rows && e in rows && rows[d].tenant == rows[e].tenant &&
                  rows[d].hostname == rows[e].hostname :: d == e
  }

  ghost predicate OnePrimaryEach(rows: map<DomainId, Row>) {
    forall d, e | d in rows && e in rows && rows[d].tenant == rows[e].tenant &&
                  rows[d].isPrimary && rows[e].isPrimary :: d == e
  }

  /** A row is either the subdomain its tenant was provisioned with, which Cloudflare does
      not know and which has no deadline, or a claim on a name that is not the platform's.
      A claim without a deadline has been active at some time. */
  ghost predicate RowOk(tenants: map<TenantId, Tenant>, row: Row, root: string) {
    row.tenant in tenants &&
    if row.cfId.None? then
      row.hostname == SlugHost(tenants[row.tenant].slug, root) && row.status == Active &&
      row.claimExpiresAt.None?
    else
      IsPlausible(row.hostname) && !EndsInDot(row.hostname) && !UnderApex(row.hostname, root) &&
      (row.status == Pending || row.status == Verifying ==> row.claimExpiresAt.Some?)
  }

  ghost predicate RowsOk(tenants: map<TenantId, Tenant>, rows: map<DomainId, Row>, root: string) {
    forall d :: d in rows ==> RowOk(tenants, rows[d], root)
  }

  ghost predicate Inv(db: Db, root: string) {
    TenantsOk(db.tenants) && RowsOk(db.tenants, db.domains, root) &&
    ActiveNamesUnique(db.domains) && OwnNamesUnique(db.domains) && OnePrimaryEach(db.domains)
  }

  lemma PutKeeps(db: Db, d: DomainId, row: Row, root: string)
    requires Inv(db, root) && RowAllowed(db, d, row) && RowOk(db.tenants, row, root)
    requires row.isPrimary ==>
               forall e :: e in db.domains && e != d && db.domains[e].tenant == row.tenant ==> !db.domains[e].isPrimary
    ensures Inv(db.(domains := db.domains[d := row]), root)
  {
  }

  lemma ProvisionKeeps(db: Db, rawSlug: string, t: TenantId, d: DomainId, root: string)
    requires Inv(db, root)
    ensures Inv(ProvisionTenant(db, rawSlug, t, d, root), root)
  {
    var slug := Lower(Trim(rawSlug));
    var row := Row(t, SlugHost(slug, root), true, Active, None, None);
    if IsValidSlug(slug) && !SlugTaken(db, slug) && t !in db.tenants {
      var withTenant := db.(tenants := db.tenants[t := Tenant(slug, ActiveTenant)]);
      TenantAdded(db, t, slug, root);
      if RowAllowed(withTenant, d, row) {
        assert forall e :: e in db.domains ==> RowOk(db.tenants, db.domains[e], root);
        PutKeeps(withTenant, d, row, root);
      }
    }
  }

  lemma TenantAdded(db: Db, t: TenantId, slug: string, root: string)
    requires Inv(db, root) && IsValidSlug(slug) && !SlugTaken(db, slug) && t !in db.tenants
    ensures Inv(db.(tenants := db.tenants[t := Tenant(slug, ActiveTenant)]), root)
  {
    var tenants := db.tenants[t := Tenant(slug, ActiveTenant)];
    assert TenantsOk(tenants);
    forall e | e in db.domains ensures RowOk(tenants, db.domains[e], root) {
      assert RowOk(db.tenants, db.domains[e], root);
    }
  }

  lemma AttachKeeps(db: Db, t: TenantId, raw: string, d: DomainId, status: Status, cfId: CfId, at: int, root: string)
    requires Inv(db, root) && RootOk(root)
    ensures Inv(AttachDomain(db, t, raw, d, status, cfId, at, root), root)
  {
    var claim := ClaimableHostname(raw, root);
    if claim.Claimed? {
      AcceptedClaimIsSettled(raw, root);
      ClaimIsNotUnderRoot(raw, root);
      var row := Row(t, claim.hostname, false, status, Some(cfId), Some(at + CLAIM_TTL_MS));
      if RowAllowed(db, d, row) {
        PutKeeps(db, d, row, root);
      }
    }
  }

  lemma ClaimIsNotUnderRoot(raw: string, root: string)
    requires RootOk(root) && ClaimableHostname(raw, root).Claimed?
    ensures !UnderApex(ClaimableHostname(raw, root).hostname, root)
  {
    RootIsClean(root);
  }

  lemma RefreshKeeps(db: Db, t: TenantId, d: DomainId, status: Status, at: int, root: string)
    requires Inv(db, root)
    ensures Inv(RefreshDomain(db, t, d, status, at), root)
  {
    if Owns(db, t, d) && db.domains[d].cfId.Some? {
      var row := Refreshed(db.domains[d], status, at);
      assert RowOk(db.tenants, db.domains[d], root);
      if RowAllowed(db, d, row) {
        PutKeeps(db, d, row, root);
      }
    }
  }

  lemma RecordErrorKeeps(db: Db, t: TenantId, d: DomainId, root: string)
    requires Inv(db, root)
    ensures Inv(RecordDomainError(db, t, d), root)
  {
    if Owns(db, t, d) && db.domains[d].cfId.Some? {
      assert RowOk(db.tenants, db.domains[d], root);
      PutKeeps(db, d, db.domains[d].(status := Failed), root);
    }
  }

  lemma RemoveKeeps(db: Db, t: TenantId, d: DomainId, root: string)
    requires Inv(db, root)
    ensures Inv(RemoveDomain(db, t, d), root)
  {
  }

  lemma SetPrimaryKeeps(db: Db, t: TenantId, d: DomainId, root: string)
    requires Inv(db, root)
    ensures Inv(SetPrimaryDomain(db, t, d), root)
  {
    if Owns(db, t, d) && db.domains[d].status == Active {
      var rows := WithPrimary(db.domains, t, d);
      SameButForPrimary(db, rows, root);
      assert OnePrimaryEach(rows);
    }
  }

  lemma SameButForPrimary(db: Db, rows: map<DomainId, Row>, root: string)
    requires Inv(db, root) && rows.Keys == db.domains.Keys
    requires forall e :: e in rows ==> rows[e] == db.domains[e].(isPrimary := rows[e].isPrimary)
    ensures RowsOk(db.tenants, rows, root) && ActiveNamesUnique(rows) && OwnNamesUnique(rows)
  {
    forall e | e in rows ensures RowOk(db.tenants, rows[e], root) {
      assert RowOk(db.tenants, db.domains[e], root);
    }
  }

  lemma SetStatusKeeps(db: Db, t: TenantId, to: TenantStatus, root: string)
    requires Inv(db, root)
    ensures Inv(SetStatus(db, t, to), root)
  {
    var tenants := SetStatus(db, t, to).tenants;
    forall e | e in db.domains ensures RowOk(tenants, db.domains[e], root) {
      assert RowOk(db.tenants, db.domains[e], root);
    }
  }

  lemma StepKeeps(db: Db, step: Step, root: string)
    requires Inv(db, root) && RootOk(root)
    ensures Inv(Apply(db, step, root), root)
  {
    match step
    case Provision(slug, t, d) => ProvisionKeeps(db, slug, t, d, root);
    case Attach(t, raw, d, status, cfId, at) => AttachKeeps(db, t, raw, d, status, cfId, at, root);
    case Refresh(t, d, status, at) => RefreshKeeps(db, t, d, status, at, root);
    case RecordError(t, d) => RecordErrorKeeps(db, t, d, root);
    case Remove(t, d) => RemoveKeeps(db, t, d, root);
    case SetPrimary(t, d) => SetPrimaryKeeps(db, t, d, root);
    case SetTenantStatus(t, to) => SetStatusKeeps(db, t, to, root);
  }

  /** In every reachable state slugs are unique, an active name has one row, rows under the
      platform's name belong to the tenant with that slug, and each tenant has at most one
      primary row. */
  lemma {:induction false} RunKeeps(steps: seq<Step>, root: string)
    requires RootOk(root)
    ensures Inv(Run(steps, root), root)
  {
    if steps != [] {
      RunKeeps(steps[..|steps| - 1], root);
      StepKeeps(Run(steps[..|steps| - 1], root), steps[|steps| - 1], root);
    }
  }
}
