/** The domain service as it runs when nothing overlaps it: src/lib/domains/service.ts and
    the domain half of src/app/api/platform/sweep/route.ts.

    Cloudflare's answers are parameters. Where custom hostnames are not configured nobody is
    asked, and the calls go on as after CreateFailed, GetUnavailable and RemoveRefused. A method
    that throws says so and stops there. */
module DomainLifecycle {
  import opened Text
  import opened Host
  import opened Domains

  datatype CfCreate = Created(status: Status, id: CfId) | CreateFailed
  datatype CfGet = Latest(status: Status, at: int) | GetUnavailable | GetRefused
  datatype CfRemove = Removed | RemoveRefused | RemoveUnavailable

  /** What a call tells the resolver's cache to forget. */
  datatype Invalidation = Nothing | Only(host: string) | Everything

  datatype AttachOutcome = Attached | AttachError | AttachThrew

  type GetAnswers = DomainId -> CfGet
  type RemoveAnswers = DomainId -> CfRemove

  // ---- What one pass does to each row -----------------------------------------------

  function RefreshedRow(row: Row, t: TenantId, answer: CfGet): Row {
    if row.tenant != t || row.status == Active || row.cfId.None? then row
    else
      match answer
      case Latest(status, at) => Refreshed(row, status, at)
      case GetUnavailable => row
      case GetRefused => row.(status := Failed)
  }

  function RefreshRows(rows: map<DomainId, Row>, t: TenantId, answers: GetAnswers): map<DomainId, Row> {
    map d | d in rows :: RefreshedRow(rows[d], t, answers(d))
  }

  /** The first of the two updates that move the primary flag. */
  function OthersNotPrimary(rows: map<DomainId, Row>, t: TenantId, d: DomainId): map<DomainId, Row> {
    map e | e in rows :: if rows[e].tenant == t && e != d then rows[e].(isPrimary := false) else rows[e]
  }

  lemma PrimaryMoved(rows: map<DomainId, Row>, t: TenantId, d: DomainId)
    requires d in rows && rows[d].tenant == t
    ensures var moved := OthersNotPrimary(rows, t, d);
            moved[d := moved[d].(isPrimary := true)] == WithPrimary(rows, t, d)
  {
  }

  predicate Lapsed(row: Row, t: TenantId, now: int) {
    row.tenant == t && row.status != Active && row.claimExpiresAt.Some? && row.claimExpiresAt.value <= now
  }

  function LapsedIds(rows: map<DomainId, Row>, t: TenantId, now: int): set<DomainId> {
    set d | d in rows && Lapsed(rows[d], t, now)
  }

  function SweepRows(rows: map<DomainId, Row>, t: TenantId, answers: GetAnswers, now: int): map<DomainId, Row> {
    var refreshed := RefreshRows(rows, t, answers);
    refreshed - LapsedIds(refreshed, t, now)
  }

  /** Part of the way through a refresh: the listed rows are done, the others as before. */
  ghost predicate RefreshedPart(before: map<DomainId, Row>, rows: map<DomainId, Row>, t: TenantId,
                                answers: GetAnswers, done: seq<DomainId>) {
    rows.Keys == before.Keys &&
    forall d :: d in rows ==>
      rows[d] == if d in done then RefreshedRow(before[d], t, answers(d)) else before[d]
  }

  lemma RefreshOneMore(before: map<DomainId, Row>, rows: map<DomainId, Row>, t: TenantId,
                       answers: GetAnswers, ids: seq<DomainId>, n: nat)
    requires n < |ids| && ids[n] in before && ids[n] !in ids[..n]
    requires RefreshedPart(before, rows, t, answers, ids[..n])
    ensures rows[ids[n]] == before[ids[n]]
    ensures var d := ids[n];
            RefreshedPart(before, rows[d := RefreshedRow(rows[d], t, answers(d))], t, answers, ids[..n + 1])
    ensures rows[ids[n]].status == Active ==> RefreshedPart(before, rows, t, answers, ids[..n + 1])
  {
  }

  lemma AllRefreshed(before: map<DomainId, Row>, rows: map<DomainId, Row>, t: TenantId,
                     answers: GetAnswers, ids: seq<DomainId>, n: nat)
    requires n == |ids| && RefreshedPart(before, rows, t, answers, ids[..n])
    requires forall d :: d in before && before[d].tenant == t ==> d in ids
    ensures rows == RefreshRows(before, t, answers)
  {
  }

  lemma StillOwned(before: map<DomainId, Row>, db: Db, t: TenantId, answers: GetAnswers, ids: seq<DomainId>, n: nat)
    requires n < |ids| && RefreshedPart(before, db.domains, t, answers, ids[..n])
    requires ids[n] in before && before[ids[n]].tenant == t
    ensures Owns(db, t, ids[n])
  {
  }

  function LapsedAmong(rows: map<DomainId, Row>, t: TenantId, now: int, ids: seq<DomainId>): set<DomainId> {
    set d | d in rows && d in ids && Lapsed(rows[d], t, now)
  }

  lemma NothingYet(rows: map<DomainId, Row>, t: TenantId, now: int, ids: seq<DomainId>)
    ensures LapsedAmong(rows, t, now, ids[..0]) == {} && rows - {} == rows
  {
  }

  lemma AllLapsed(rows: map<DomainId, Row>, t: TenantId, now: int, ids: seq<DomainId>)
    requires forall d :: d in rows && rows[d].tenant == t ==> d in ids
    ensures LapsedAmong(rows, t, now, ids) == LapsedIds(rows, t, now)
  {
  }

  lemma LapsedOneMore(rows: map<DomainId, Row>, t: TenantId, now: int, ids: seq<DomainId>, n: nat)
    requires n < |ids| && ids[n] in rows && ids[n] !in ids[..n]
    ensures ids[n] !in LapsedAmong(rows, t, now, ids[..n])
    ensures LapsedAmong(rows, t, now, ids[..n + 1])
            == LapsedAmong(rows, t, now, ids[..n]) + (if Lapsed(rows[ids[n]], t, now) then {ids[n]} else {})
  {
  }

  // ---- The service ------------------------------------------------------------------

  /** The rows of one tenant, each once. */
  ghost predicate IsListing(rows: map<DomainId, Row>, t: TenantId, ids: seq<DomainId>) {
    (forall d :: d in ids ==> d in rows && rows[d].tenant == t) &&
    forall i, j :: 0 <= i < j < |ids| ==> ids[i] != ids[j]
  }

  lemma NextListed(rows: map<DomainId, Row>, t: TenantId, ids: seq<DomainId>, n: nat)
    requires IsListing(rows, t, ids) && n < |ids|
    ensures ids[n] !in ids[..n] && ids[n] in rows && rows[ids[n]].tenant == t
  {
  }

  /** Whatever happened, it happened to this tenant's rows. */
  ghost predicate OnlyOf(before: map<DomainId, Row>, after: map<DomainId, Row>, t: TenantId) {
    (forall d :: d in after ==> d in before && after[d].tenant == before[d].tenant) &&
    forall d :: d in before && before[d].tenant != t ==> d in after && after[d] == before[d]
  }

  lemma PartIsOnlyOf(before: map<DomainId, Row>, rows: map<DomainId, Row>, t: TenantId, answers: GetAnswers,
                     done: seq<DomainId>, now: int, some: seq<DomainId>)
    requires RefreshedPart(before, rows, t, answers, done)
    ensures OnlyOf(before, rows, t) && OnlyOf(before, rows - LapsedAmong(rows, t, now, some), t)
  {
  }

  /** One row may have changed; nothing else did. */
  ghost predicate OnlyRow(before: Db, after: Db, d: DomainId) {
    after.tenants == before.tenants && after.domains.Keys == before.domains.Keys &&
    forall e :: e in after.domains && e != d ==> after.domains[e] == before.domains[e]
  }

  /** The refresh transaction on a claim of the tenant's: status and deadline as Cloudflare's
      answer has them, unless the name is live elsewhere already; and on anything else, nothing. */
  lemma RefreshWritesTheAnswer(db: Db, t: TenantId, d: DomainId, status: Status, at: int)
    ensures var n := RefreshDomain(db, t, d, status, at);
            OnlyRow(db, n, d) &&
            if Owns(db, t, d) && db.domains[d].cfId.Some? && RowAllowed(db, d, db.domains[d].(status := status)) then
              n.domains[d] == db.domains[d].(status := status, claimExpiresAt :=
                                             if status == Active then None else Some(at + 14 * 24 * 60 * 60 * 1000))
            else n == db
  {
  }

  lemma ErrorMarksTheClaim(db: Db, t: TenantId, d: DomainId)
    ensures var n := RecordDomainError(db, t, d);
            OnlyRow(db, n, d) &&
            if Owns(db, t, d) && db.domains[d].cfId.Some? then n.domains[d] == db.domains[d].(status := Failed)
            else n == db
  {
  }

  /** One row has gone; nothing else changed. */
  ghost predicate IsRemoval(before: Db, after: Db, d: DomainId) {
    after.tenants == before.tenants && d !in after.domains &&
    forall e :: e != d ==> (e in after.domains <==> e in before.domains) &&
                           (e in after.domains ==> after.domains[e] == before.domains[e])
  }

  /** Taking a live row away silences its name, and a primary one leaves no primary. */
  lemma RemovedRowIsSilent(before: Db, after: Db, t: TenantId, d: DomainId, root: string)
    requires Inv(before, root) && RootOk(root) && Owns(before, t, d) && IsRemoval(before, after, d)
    ensures before.domains[d].status == Active ==> LookupByHost(after, before.domains[d].hostname).None?
    ensures IsPrimaryRow(before, t, d) ==> FindPrimaryDomain(after, t).None?
  {
    var row := before.domains[d];
    assert RowOk(before.tenants, row, root);
    if row.cfId.None? { SlugHostIsPlausible(before.tenants[row.tenant].slug, root); }
    PlausibleIsClean(row.hostname);
    if row.status == Active {
      forall e ensures !Serves(after, e, row.hostname) {}
    }
  }

  /** Another row has the name live. */
  predicate IsLiveElsewhere(db: Db, d: DomainId, hostname: string) {
    exists e :: e in db.domains && e != d && db.domains[e].hostname == hostname && db.domains[e].status == Active
  }

  /** The tenant has this name already, live or not. */
  predicate HasName(db: Db, t: TenantId, hostname: string) {
    exists e :: e in db.domains && db.domains[e].tenant == t && db.domains[e].hostname == hostname
  }

  lemma RowRefusedOnlyFor(db: Db, d: DomainId, row: Row)
    requires !HasName(db, row.tenant, row.hostname)
    ensures RowAllowed(db, d, row) <==>
              row.tenant in db.tenants && !(row.status == Active && IsLiveElsewhere(db, d, row.hostname))
  {
  }

  lemma AddedRow(rows: map<DomainId, Row>, d: DomainId, row: Row)
    requires d !in rows
    ensures rows[d := row] - {d} == rows
  {
  }

  /** The one refresh that throws: a claim found active whose name is live elsewhere. */
  lemma RefreshThrowsIff(db: Db, t: TenantId, d: DomainId, status: Status, at: int, root: string)
    requires Inv(db, root) && Owns(db, t, d)
    ensures !RowAllowed(db, d, Refreshed(db.domains[d], status, at))
            <==> status == Active && IsLiveElsewhere(db, d, db.domains[d].hostname)
  {
    assert RowOk(db.tenants, db.domains[d], root);
  }

  ghost predicate BecameActive(before: Db, after: Db, t: TenantId, d: DomainId) {
    Owns(before, t, d) && before.domains[d].status != Active && Owns(after, t, d) && after.domains[d].status == Active
  }

  class DomainService {
    const apex: string
    var db: Db

    ghost predicate Valid()
      reads this
    {
      RootOk(apex) && Inv(db, apex)
    }

    constructor (apex: string, db: Db)
      requires RootOk(apex) && Inv(db, apex)
      ensures Valid() && this.db == db && this.apex == apex
    {
      this.apex, this.db := apex, db;
    }

    method Attach(t: TenantId, raw: string, created: CfCreate, d: DomainId, now: int)
      returns (outcome: AttachOutcome)
      requires Valid() && d !in db.domains
      modifies this
      ensures Valid()
      ensures outcome == Attached ==>
                created.Created? &&
                db == AttachDomain(old(db), t, raw, d, created.status, created.id, now, apex) &&
                Owns(db, t, d) && ClaimableHostname(raw, apex) == Claimed(db.domains[d].hostname)
      ensures outcome == Attached ==>
                db.tenants == old(db).tenants && db.domains - {d} == old(db).domains &&
                db.domains[d] == Row(t, ClaimableHostname(raw, apex).hostname, false, created.status, Some(created.id),
                                     Some(now + 14 * 24 * 60 * 60 * 1000))
      ensures outcome != Attached ==> db == old(db)
      ensures outcome == AttachError <==>
                ClaimableHostname(raw, apex).Refused? || created.CreateFailed? ||
                HasName(old(db), t, ClaimableHostname(raw, apex).hostname)
      ensures outcome == AttachThrew <==>
                ClaimableHostname(raw, apex).Claimed? && created.Created? &&
                !HasName(old(db), t, ClaimableHostname(raw, apex).hostname) &&
                (t !in old(db).tenants ||
                 (created.status == Active && IsLiveElsewhere(old(db), d, ClaimableHostname(raw, apex).hostname)))
    {
      var claim := ClaimableHostname(raw, apex);
      if claim.Refused? {
        return AttachError;
      }
      if HasName(db, t, claim.hostname) {
        return AttachError;
      }
      if created.CreateFailed? {
        return AttachError;
      }
      AttachKeeps(db, t, raw, d, created.status, created.id, now, apex);
      var row := Row(t, claim.hostname, false, created.status, Some(created.id), Some(now + CLAIM_TTL_MS));
      RowRefusedOnlyFor(db, d, row);
      if !RowAllowed(db, d, row) {
        return AttachThrew;
      }
      AddedRow(db.domains, d, row);
      db := db.(domains := db.domains[d := row]);
      return Attached;
    }

    method Refresh(t: TenantId, d: DomainId, answer: CfGet) returns (threw: bool, forgotten: Invalidation)
      requires Valid()
      modifies this
      ensures Valid()
      ensures db == if !Owns(old(db), t, d) then old(db) else
                      match answer
                      case Latest(status, at) => RefreshDomain(old(db), t, d, status, at)
                      case GetUnavailable => old(db)
                      case GetRefused => RecordDomainError(old(db), t, d)
      ensures !threw && Owns(old(db), t, d) && old(db).domains[d].status != Active ==>
                db == old(db).(domains := old(db).domains[d := RefreshedRow(old(db).domains[d], t, answer)])
      ensures threw ==> db == old(db)
      ensures threw <==> Owns(old(db), t, d) && old(db).domains[d].cfId.Some? && answer.Latest? &&
                         !RowAllowed(old(db), d, Refreshed(old(db).domains[d], answer.status, answer.at))
      ensures forgotten == if BecameActive(old(db), db, t, d) then Only(db.domains[d].hostname) else Nothing
    {
      if !Owns(db, t, d) || db.domains[d].cfId.None? {
        return false, Nothing;
      }
      match answer
      case Latest(status, at) =>
        var current := db.domains[d];
        var becameActive := status == Active && current.status != Active;
        RefreshKeeps(db, t, d, status, at, apex);
        var row := Refreshed(current, status, at);
        if !RowAllowed(db, d, row) {
          return true, Nothing;
        }
        db := db.(domains := db.domains[d := row]);
        return false, if becameActive then Only(current.hostname) else Nothing;
      case GetUnavailable =>
        return false, Nothing;
      case GetRefused =>
        RecordErrorKeeps(db, t, d, apex);
        db := db.(domains := db.domains[d := db.domains[d].(status := Failed)]);
        return false, Nothing;
    }

    /** Cloudflare first: when it cannot be reached the row stays and the call throws. */
    method Remove(t: TenantId, d: DomainId, answer: CfRemove) returns (threw: bool, forgotten: Invalidation)
      requires Valid()
      modifies this
      ensures Valid()
      ensures threw <==> Owns(old(db), t, d) && old(db).domains[d].cfId.Some? && answer == RemoveUnavailable
      ensures db == if threw then old(db) else RemoveDomain(old(db), t, d)
      ensures forgotten == if Owns(old(db), t, d) && !threw then Only(old(db).domains[d].hostname) else Nothing
      ensures Owns(old(db), t, d) && !threw ==> IsRemoval(old(db), db, d)
      ensures Owns(old(db), t, d) && !threw && old(db).domains[d].status == Active ==>
                LookupByHost(db, old(db).domains[d].hostname).None?
      ensures Owns(old(db), t, d) && !threw && IsPrimaryRow(old(db), t, d) ==> FindPrimaryDomain(db, t).None?
      ensures !Owns(old(db), t, d) || threw ==> db == old(db)
    {
      if !Owns(db, t, d) {
        return false, Nothing;
      }
      var domain := db.domains[d];
      if domain.cfId.Some? && answer == RemoveUnavailable {
        return true, Nothing;
      }
      RemoveKeeps(db, t, d, apex);
      RemovedRowIsSilent(db, db.(domains := db.domains - {d}), t, d, apex);
      db := db.(domains := db.domains - {d});
      return false, Only(domain.hostname);
    }

    method SetPrimary(t: TenantId, d: DomainId) returns (ok: bool, forgotten: Invalidation)
      requires Valid()
      modifies this
      ensures Valid()
      ensures db == SetPrimaryDomain(old(db), t, d)
      ensures ok <==> IsPrimaryRow(db, t, d) && Owns(old(db), t, d) && old(db).domains[d].status == Active
      ensures ok ==> forall e :: IsPrimaryRow(db, t, e) ==> e == d
      ensures forgotten == if ok then Everything else Nothing
      ensures db.tenants == old(db).tenants && db.domains.Keys == old(db).domains.Keys
      ensures forall e :: e in db.domains ==>
                db.domains[e] == if ok && db.domains[e].tenant == t then old(db).domains[e].(isPrimary := e == d)
                                 else old(db).domains[e]
    {
      SetPrimaryKeeps(db, t, d, apex);
      if !Owns(db, t, d) || db.domains[d].status != Active {
        return false, Nothing;
      }
      db := db.(domains := OthersNotPrimary(db.domains, t, d));
      db := db.(domains := db.domains[d := db.domains[d].(isPrimary := true)]);
      PrimaryMoved(old(db).domains, t, d);
      return true, Everything;
    }

    /** The rows of one tenant, in some order. */
    method ListDomains(t: TenantId) returns (ids: seq<DomainId>)
      ensures forall d :: d in ids <==> Owns(db, t, d)
      ensures forall i, j :: 0 <= i < j < |ids| ==> ids[i] != ids[j]
    {
      var left := set d | d in db.domains && Owns(db, t, d);
      ids := [];
      while left != {}
        invariant forall d :: d in ids || d in left <==> Owns(db, t, d)
        invariant forall d :: d in ids ==> d !in left
        invariant forall i, j :: 0 <= i < j < |ids| ==> ids[i] != ids[j]
        decreases left
      {
        var d :| d in left;
        ids := ids + [d];
        left := left - {d};
      }
    }

    /** One turn of the refresh loop; active rows are not asked about. */
    method RefreshListed(t: TenantId, ids: seq<DomainId>, n: nat, answers: GetAnswers,
                         ghost before: map<DomainId, Row>)
      returns (threw: bool)
      requires Valid() && n < |ids| && ids[n] !in ids[..n] && Owns(db, t, ids[n])
      requires RefreshedPart(before, db.domains, t, answers, ids[..n])
      modifies this
      ensures Valid() && db.tenants == old(db).tenants
      ensures RefreshedPart(before, db.domains, t, answers, if threw then ids[..n] else ids[..n + 1])
    {
      var d := ids[n];
      RefreshOneMore(before, db.domains, t, answers, ids, n);
      if db.domains[d].status == Active {
        return false;
      }
      var forgotten;
      threw, forgotten := Refresh(t, d, answers(d));
    }

    /** The loop over the list: it stops at the first write that throws. */
    method RefreshEach(t: TenantId, ids: seq<DomainId>, answers: GetAnswers) returns (threw: bool, ghost done: nat)
      requires Valid() && IsListing(db.domains, t, ids)
      modifies this
      ensures Valid() && db.tenants == old(db).tenants && done <= |ids|
      ensures RefreshedPart(old(db).domains, db.domains, t, answers, ids[..done])
      ensures !threw ==> done == |ids|
    {
      ghost var before := db.domains;
      var n := 0;
      threw, done := false, 0;
      while n < |ids|
        invariant 0 <= n <= |ids|
        invariant Valid() && db.tenants == old(db).tenants
        invariant RefreshedPart(before, db.domains, t, answers, ids[..n])
      {
        NextListed(before, t, ids, n);
        StillOwned(before, db, t, answers, ids, n);
        threw := RefreshListed(t, ids, n, answers, before);
        if threw {
          return true, n;
        }
        n := n + 1;
      }
      return false, n;
    }

    /** Refreshes every row of one tenant that was not active when they were listed. */
    method RefreshAll(t: TenantId, answers: GetAnswers) returns (threw: bool)
      requires Valid()
      modifies this
      ensures Valid() && db.tenants == old(db).tenants
      ensures exists done :: RefreshedPart(old(db).domains, db.domains, t, answers, done)
      ensures !threw ==> db.domains == RefreshRows(old(db).domains, t, answers)
    {
      var ids := ListDomains(t);
      ghost var before := db.domains;
      ghost var done;
      threw, done := RefreshEach(t, ids, answers);
      if !threw { AllRefreshed(before, db.domains, t, answers, ids, done); }
    }

    /** One turn of the release loop. */
    method ReleaseListed(t: TenantId, now: int, ids: seq<DomainId>, n: nat, answers: RemoveAnswers,
                         ghost before: map<DomainId, Row>)
      returns (threw: bool, released: bool)
      requires Valid() && n < |ids| && ids[n] !in ids[..n] && ids[n] in before && before[ids[n]].tenant == t
      requires db.domains == before - LapsedAmong(before, t, now, ids[..n])
      modifies this
      ensures Valid() && db.tenants == old(db).tenants
      ensures db.domains == before - LapsedAmong(before, t, now, if threw then ids[..n] else ids[..n + 1])
      ensures !threw ==> |LapsedAmong(before, t, now, ids[..n + 1])|
                         == |LapsedAmong(before, t, now, ids[..n])| + (if released then 1 else 0)
    {
      var d := ids[n];
      LapsedOneMore(before, t, now, ids, n);
      if !Lapsed(db.domains[d], t, now) {
        return false, false;
      }
      var forgotten;
      threw, forgotten := Remove(t, d, answers(d));
      released := !threw;
    }

    /** Removes the claims of one tenant that have lapsed, and counts them. */
    method ReleaseLapsedClaims(t: TenantId, now: int, answers: RemoveAnswers)
      returns (threw: bool, released: nat)
      requires Valid()
      modifies this
      ensures Valid() && db.tenants == old(db).tenants
      ensures !threw ==> db.domains == old(db).domains - LapsedIds(old(db).domains, t, now)
      ensures !threw ==> released == |LapsedIds(old(db).domains, t, now)|
      ensures exists some :: db.domains == old(db).domains - LapsedAmong(old(db).domains, t, now, some)
    {
      var ids := ListDomains(t);
      ghost var before := db.domains;
      NothingYet(before, t, now, ids);
      assert IsListing(before, t, ids);
      var n := 0;
      released := 0;
      while n < |ids|
        invariant 0 <= n <= |ids|
        invariant Valid() && db.tenants == old(db).tenants
        invariant db.domains == before - LapsedAmong(before, t, now, ids[..n])
        invariant released == |LapsedAmong(before, t, now, ids[..n])|
      {
        NextListed(before, t, ids, n);
        var one;
        threw, one := ReleaseListed(t, now, ids, n, answers, before);
        if threw {
          return;
        }
        released := released + if one then 1 else 0;
        n := n + 1;
      }
      threw := false;
      assert ids[..n] == ids;
      AllLapsed(before, t, now, ids);
    }

    /** The sweep's domain work for one tenant: refresh, then release. */
    method Sweep(t: TenantId, gets: GetAnswers, now: int, removals: RemoveAnswers)
      returns (threw: bool, released: nat)
      requires Valid()
      modifies this
      ensures Valid() && OnlyOf(old(db).domains, db.domains, t)
      ensures !threw ==> db.domains == SweepRows(old(db).domains, t, gets, now)
      ensures !threw ==> released == |old(db).domains| - |db.domains|
    {
      released := 0;
      threw := RefreshAll(t, gets);
      ghost var refreshed := db.domains;
      ghost var done :| RefreshedPart(old(db).domains, refreshed, t, gets, done);
      PartIsOnlyOf(old(db).domains, refreshed, t, gets, done, now, []);
      if threw {
        return;
      }
      threw, released := ReleaseLapsedClaims(t, now, removals);
      ghost var some :| db.domains == refreshed - LapsedAmong(refreshed, t, now, some);
      PartIsOnlyOf(old(db).domains, refreshed, t, gets, done, now, some);
      if !threw {
        RemovalCount(refreshed, LapsedIds(refreshed, t, now));
        assert old(db).domains.Keys == refreshed.Keys;
        assert |old(db).domains.Keys| == |refreshed.Keys|;
      }
    }
  }

  lemma RemovalCount(rows: map<DomainId, Row>, gone: set<DomainId>)
    requires gone <= rows.Keys
    ensures |rows - gone| == |rows| - |gone|
  {
  }

  // ---- Lapse and renewal ------------------------------------------------------------

  /** Every non-failing answer of this sweep was written less than a claim's life before the
      release ran. */
  ghost predicate SweptWithinClaimLife(answers: GetAnswers, now: int) {
    forall d :: answers(d).Latest? ==> now < answers(d).at + CLAIM_TTL_MS
  }

  /** Exactly which rows a sweep releases: this tenant's lapsed ones whose refresh wrote no
      new deadline. A row Cloudflare answered for is never among them. */
  lemma SweepReleasesExactly(db: Db, root: string, t: TenantId, answers: GetAnswers, now: int, d: DomainId)
    requires Inv(db, root) && d in db.domains && SweptWithinClaimLife(answers, now)
    ensures d !in SweepRows(db.domains, t, answers, now)
            <==> db.domains[d].tenant == t && db.domains[d].status != Active && db.domains[d].claimExpiresAt.Some? &&
                 db.domains[d].claimExpiresAt.value <= now && !answers(d).Latest?
  {
  }

  datatype SweepRun = SweepRun(tenant: TenantId, answers: GetAnswers, now: int)

  ghost predicate AllAnswered(sweeps: seq<SweepRun>) {
    forall i :: 0 <= i < |sweeps| ==>
      SweptWithinClaimLife(sweeps[i].answers, sweeps[i].now) &&
      forall d :: sweeps[i].answers(d).Latest?
  }

  function SweepAll(rows: map<DomainId, Row>, sweeps: seq<SweepRun>): map<DomainId, Row> {
    if sweeps == [] then rows
    else SweepAll(SweepRows(rows, sweeps[0].tenant, sweeps[0].answers, sweeps[0].now), sweeps[1..])
  }

  ghost predicate DeadlinesOnlyOnClaims(rows: map<DomainId, Row>) {
    forall d :: d in rows && rows[d].cfId.None? ==> rows[d].claimExpiresAt.None?
  }

  /** The fourteen days never run out while Cloudflare answers: however many sweeps run, and
      however late, not one row is released, because each refresh renews the deadline. */
  lemma {:induction false} ClaimsNeverLapseWhileAnswered(rows: map<DomainId, Row>, sweeps: seq<SweepRun>)
    requires DeadlinesOnlyOnClaims(rows) && AllAnswered(sweeps)
    ensures SweepAll(rows, sweeps).Keys == rows.Keys
    decreases |sweeps|
  {
    if sweeps != [] {
      var s := sweeps[0];
      var next := SweepRows(rows, s.tenant, s.answers, s.now);
      AnsweredSweepReleasesNothing(rows, s);
      ClaimsNeverLapseWhileAnswered(next, sweeps[1..]);
    }
  }

  lemma AnsweredSweepReleasesNothing(rows: map<DomainId, Row>, s: SweepRun)
    requires DeadlinesOnlyOnClaims(rows) && SweptWithinClaimLife(s.answers, s.now)
    requires forall d :: s.answers(d).Latest?
    ensures var next := SweepRows(rows, s.tenant, s.answers, s.now);
            next.Keys == rows.Keys && DeadlinesOnlyOnClaims(next)
  {
    var refreshed := RefreshRows(rows, s.tenant, s.answers);
    forall d | d in refreshed ensures !Lapsed(refreshed[d], s.tenant, s.now) {
      assert s.answers(d).Latest? && s.now < s.answers(d).at + CLAIM_TTL_MS;
    }
    assert LapsedIds(refreshed, s.tenant, s.now) == {};
  }

  /** ... whereas a claim Cloudflare stops answering for goes with the first sweep that runs
      fourteen days after its deadline was last written. */
  lemma UnansweredClaimIsReleased(db: Db, root: string, t: TenantId, raw: string, d: DomainId, cf: CfId,
                                  at: int, answers: GetAnswers, now: int)
    requires Inv(db, root) && RootOk(root) && SweptWithinClaimLife(answers, now)
    requires d !in db.domains && d in AttachDomain(db, t, raw, d, Pending, cf, at, root).domains
    ensures d in SweepRows(AttachDomain(db, t, raw, d, Pending, cf, at, root).domains, t, answers, now)
            <==> answers(d).Latest? || now < at + CLAIM_TTL_MS
  {
    var claimed := AttachDomain(db, t, raw, d, Pending, cf, at, root);
    AttachKeeps(db, t, raw, d, Pending, cf, at, root);
    SweepReleasesExactly(claimed, root, t, answers, now, d);
  }
}
