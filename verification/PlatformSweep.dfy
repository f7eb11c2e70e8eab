/** The sweep over every institute: the loop of src/app/api/platform/sweep/route.ts, domains
    only. The invitation half of a turn is `Invitations.InvitationStore.Sweep`. */
module PlatformSweep {
  import opened Domains
  import opened DomainLifecycle

  type Rows = map<DomainId, Row>

  /** One institute's rows. */
  function Of(rows: Rows, t: TenantId): Rows {
    map d | d in rows && rows[d].tenant == t :: rows[d]
  }

  lemma SweepIsLocal(rows: Rows, t: TenantId, gets: GetAnswers, now: int)
    ensures Of(SweepRows(rows, t, gets, now), t) == SweepRows(Of(rows, t), t, gets, now)
  {
  }

  lemma OthersStand(before: Rows, after: Rows, t: TenantId, u: TenantId)
    requires OnlyOf(before, after, t) && u != t
    ensures Of(after, u) == Of(before, u)
  {
  }

  /** The rows these institutes have lost. */
  function Lost(before: Rows, after: Rows, tenants: set<TenantId>): set<DomainId> {
    set d | d in before && before[d].tenant in tenants && d !in after
  }

  /** Part of the way through the list. */
  ghost predicate SweptSoFar(before: Rows, rows: Rows, swept: set<TenantId>, troubled: set<TenantId>,
                             gets: GetAnswers, now: int) {
    && (forall u :: u !in swept && u !in troubled ==> Of(rows, u) == Of(before, u))
    && (forall u :: u in swept ==> Of(rows, u) == SweepRows(Of(before, u), u, gets, now))
    && (forall d :: d in rows ==> d in before && rows[d].tenant == before[d].tenant)
  }

  lemma SweptOneMore(before: Rows, rows: Rows, next: Rows, t: TenantId, swept: set<TenantId>, troubled: set<TenantId>,
                     gets: GetAnswers, now: int)
    requires SweptSoFar(before, rows, swept, troubled, gets, now) && t !in swept && t !in troubled
    requires OnlyOf(rows, next, t)
    ensures SweptSoFar(before, next, swept, troubled + {t}, gets, now)
    ensures next == SweepRows(rows, t, gets, now) ==> SweptSoFar(before, next, swept + {t}, troubled, gets, now)
  {
    forall u | u != t ensures Of(next, u) == Of(rows, u) { OthersStand(rows, next, t, u); }
    SweepIsLocal(rows, t, gets, now);
  }

  lemma SameLosses(before: Rows, rows: Rows, next: Rows, t: TenantId, swept: set<TenantId>)
    requires OnlyOf(rows, next, t) && t !in swept
    requires forall d :: d in rows ==> d in before && rows[d].tenant == before[d].tenant
    ensures Lost(before, next, swept) == Lost(before, rows, swept)
  {
  }

  /** What one institute loses adds to what the others had lost. */
  lemma LossesAdd(before: Rows, rows: Rows, next: Rows, t: TenantId, swept: set<TenantId>)
    requires OnlyOf(rows, next, t) && t !in swept && Of(rows, t) == Of(before, t)
    requires forall d :: d in rows ==> d in before && rows[d].tenant == before[d].tenant
    ensures Lost(before, next, swept + {t}) == Lost(before, next, swept) + (rows.Keys - next.Keys)
    ensures Lost(before, next, swept) !! (rows.Keys - next.Keys)
  {
    forall d | d in before && before[d].tenant == t ensures d in rows {
      assert d in Of(before, t);
    }
  }

  lemma MoreLosses(before: Rows, rows: Rows, next: Rows, t: TenantId, swept: set<TenantId>)
    requires OnlyOf(rows, next, t) && t !in swept && Of(rows, t) == Of(before, t)
    requires forall d :: d in rows ==> d in before && rows[d].tenant == before[d].tenant
    ensures |Lost(before, next, swept + {t})| == |Lost(before, rows, swept)| + |rows| - |next|
  {
    SameLosses(before, rows, next, t, swept);
    LossesAdd(before, rows, next, t, swept);
    assert next.Keys <= rows.Keys;
    assert |rows.Keys - next.Keys| == |rows.Keys| - |next.Keys|;
  }

  /** The list's own share of the books. */
  ghost predicate Listed(ids: seq<TenantId>, n: nat, swept: set<TenantId>, troubled: set<TenantId>)
    requires n <= |ids|
  {
    (forall t :: t in ids[..n] <==> t in swept || t in troubled) && |swept| + |troubled| == n
  }

  lemma ListOneMore(ids: seq<TenantId>, n: nat, swept: set<TenantId>, troubled: set<TenantId>)
    requires n < |ids| && ids[n] !in ids[..n] && Listed(ids, n, swept, troubled)
    ensures ids[n] !in swept && ids[n] !in troubled
    ensures Listed(ids, n + 1, swept + {ids[n]}, troubled) && Listed(ids, n + 1, swept, troubled + {ids[n]})
    ensures |troubled + {ids[n]}| == |troubled| + 1
  {
    assert ids[..n + 1] == ids[..n] + [ids[n]];
    assert ids[n] !in swept && ids[n] !in troubled;
  }

  /** The loop's books, after n institutes. */
  ghost predicate Books(before: Rows, rows: Rows, ids: seq<TenantId>, n: nat, swept: set<TenantId>,
                        troubled: set<TenantId>, released: nat, failed: nat, gets: GetAnswers, now: int)
    requires n <= |ids|
  {
    && Listed(ids, n, swept, troubled) && failed == |troubled|
    && SweptSoFar(before, rows, swept, troubled, gets, now) && released == |Lost(before, rows, swept)|
  }

  lemma TroubledTurn(before: Rows, rows: Rows, next: Rows, ids: seq<TenantId>, n: nat, swept: set<TenantId>,
                     troubled: set<TenantId>, released: nat, failed: nat, gets: GetAnswers, now: int)
    requires n < |ids| && ids[n] !in ids[..n] && OnlyOf(rows, next, ids[n])
    requires Books(before, rows, ids, n, swept, troubled, released, failed, gets, now)
    ensures Books(before, next, ids, n + 1, swept, troubled + {ids[n]}, released, failed + 1, gets, now)
  {
    ListOneMore(ids, n, swept, troubled);
    SweptOneMore(before, rows, next, ids[n], swept, troubled, gets, now);
    SameLosses(before, rows, next, ids[n], swept);
  }

  lemma SweptTurn(before: Rows, rows: Rows, next: Rows, ids: seq<TenantId>, n: nat, swept: set<TenantId>,
                  troubled: set<TenantId>, released: nat, failed: nat, gets: GetAnswers, now: int, one: nat)
    requires n < |ids| && ids[n] !in ids[..n] && OnlyOf(rows, next, ids[n])
    requires Books(before, rows, ids, n, swept, troubled, released, failed, gets, now)
    requires next == SweepRows(rows, ids[n], gets, now) && one == |rows| - |next|
    ensures Books(before, next, ids, n + 1, swept + {ids[n]}, troubled, released + one, failed, gets, now)
  {
    ListOneMore(ids, n, swept, troubled);
    SweptOneMore(before, rows, next, ids[n], swept, troubled, gets, now);
    MoreLosses(before, rows, next, ids[n], swept);
  }

  lemma BooksClosed(before: Rows, rows: Rows, ids: seq<TenantId>, swept: set<TenantId>, troubled: set<TenantId>,
                    released: nat, failed: nat, gets: GetAnswers, now: int)
    requires Books(before, rows, ids, |ids|, swept, troubled, released, failed, gets, now)
    ensures (forall t :: t in swept ==> t in ids) && failed == |ids| - |swept|
    ensures forall t :: t !in ids ==> Of(rows, t) == Of(before, t)
    ensures forall t :: t in swept ==> Of(rows, t) == SweepRows(Of(before, t), t, gets, now)
    ensures released == |Lost(before, rows, swept)|
  {
    assert ids[..|ids|] == ids;
  }

  lemma NothingLost(before: Rows)
    ensures Lost(before, before, {}) == {}
  {
  }

  /** Institutes fail apart from one another: whoever is not counted as
      failed has exactly the rows a sweep of its own would have left it, institutes not listed
      have theirs untouched, and the count is of what the untroubled ones lost. */
  method SweepTenants(service: DomainService, ids: seq<TenantId>, gets: GetAnswers, now: int, removals: RemoveAnswers)
    returns (released: nat, failed: nat, ghost swept: set<TenantId>)
    requires service.Valid() && forall i, j :: 0 <= i < j < |ids| ==> ids[i] != ids[j]
    modifies service
    ensures service.Valid() && (forall t :: t in swept ==> t in ids) && failed == |ids| - |swept|
    ensures forall t :: t !in ids ==> Of(service.db.domains, t) == Of(old(service.db).domains, t)
    ensures forall t :: t in swept ==>
              Of(service.db.domains, t) == SweepRows(Of(old(service.db).domains, t), t, gets, now)
    ensures released == |Lost(old(service.db).domains, service.db.domains, swept)|
  {
    released, failed, swept := 0, 0, {};
    ghost var before := service.db.domains;
    ghost var troubled: set<TenantId> := {};
    NothingLost(before);
    for n := 0 to |ids|
      invariant service.Valid()
      invariant Books(before, service.db.domains, ids, n, swept, troubled, released, failed, gets, now)
    {
      ghost var rows := service.db.domains;
      var threw, one := service.Sweep(ids[n], gets, now, removals);
      if threw {
        TroubledTurn(before, rows, service.db.domains, ids, n, swept, troubled, released, failed, gets, now);
        failed := failed + 1;
        troubled := troubled + {ids[n]};
      } else {
        SweptTurn(before, rows, service.db.domains, ids, n, swept, troubled, released, failed, gets, now, one);
        released := released + one;
        swept := swept + {ids[n]};
      }
    }
    BooksClosed(before, service.db.domains, ids, swept, troubled, released, failed, gets, now);
  }
}
