/** How often an address can be mailed: src/lib/auth/invitations.ts:106-161 and its sweep. */
module IssueRate {
  import opened Invitations
  import opened Activation

  /** The event concerns this institute and this address. */
  ghost predicate About(s: State, k: nat, tenant: string, email: string)
    requires k < |s.log|
  {
    s.log[k].id in s.issued && s.issued[s.log[k].id].tenant == tenant && s.issued[s.log[k].id].email == email
  }

  ghost predicate IsIssue(s: State, k: nat, tenant: string, email: string)
    requires k < |s.log|
  {
    s.log[k].Issued? && About(s, k, tenant, email)
  }

  function At(s: State, k: nat): nat
    requires k < |s.log| && s.log[k].id in s.issued
  {
    s.issued[s.log[k].id].createdAt
  }

  /** Nobody spends an invitation of this address in this stretch of the log. */
  ghost predicate NoneSpent(s: State, from: nat, until: nat, tenant: string, email: string)
    requires until <= |s.log|
  {
    forall k :: from <= k < until ==> !(s.log[k].JoinedBy? && About(s, k, tenant, email))
  }

  ghost predicate PendingSince(invites: Invites, tenant: string, email: string, since: nat) {
    exists id :: id in invites && IsPendingFor(invites[id], tenant, email) && invites[id].createdAt >= since
  }

  /** An issue whose address nobody has used since is still in the table, or superseded by
      one that is, or so old that it was swept. */
  ghost predicate Holds(s: State, k: nat, tenant: string, email: string)
    requires k < |s.log|
  {
    IsIssue(s, k, tenant, email) && NoneSpent(s, k, |s.log|, tenant, email) ==>
      PendingSince(s.t.invites, tenant, email, At(s, k)) || At(s, k) + TTL < s.now
  }

  ghost predicate Apart(s: State, i: nat, j: nat, tenant: string, email: string)
    requires i < j < |s.log|
  {
    IsIssue(s, i, tenant, email) && IsIssue(s, j, tenant, email) && NoneSpent(s, i, j, tenant, email) ==>
      At(s, j) >= At(s, i) + RESEND_COOLDOWN
  }

  ghost predicate AllHold(s: State) {
    forall k: nat, tenant, email :: k < |s.log| ==> Holds(s, k, tenant, email)
  }

  ghost predicate AllApart(s: State) {
    forall i: nat, j: nat, tenant, email :: i < j < |s.log| ==> Apart(s, i, j, tenant, email)
  }

  // ---- One step ---------------------------------------------------------------------

  /** Time passes, or rows go that were past their expiry; the log stands. */
  lemma QuietStep(s: State, n: State)
    requires Inv(s) && AllHold(s) && AllApart(s)
    requires n.log == s.log && n.issued == s.issued && n.now >= s.now
    requires forall id :: id in s.t.invites && s.t.invites[id].consumedAt.None? ==>
               (id in n.t.invites && n.t.invites[id] == s.t.invites[id]) || s.t.invites[id].expiresAt < s.now
    ensures AllHold(n) && AllApart(n)
  {
    forall k: nat, tenant, email | k < |n.log| ensures Holds(n, k, tenant, email) {
      assert Holds(s, k, tenant, email);
      if IsIssue(n, k, tenant, email) && NoneSpent(n, k, |n.log|, tenant, email) {
        assert IsIssue(s, k, tenant, email) && NoneSpent(s, k, |s.log|, tenant, email);
        if PendingSince(s.t.invites, tenant, email, At(s, k)) { Survives(s, n, tenant, email, At(s, k)); }
      }
    }
    forall i: nat, j: nat, tenant, email | i < j < |n.log| ensures Apart(n, i, j, tenant, email) {
      assert Apart(s, i, j, tenant, email);
    }
  }

  lemma Survives(s: State, n: State, tenant: string, email: string, since: nat)
    requires RowsAreAsIssued(s) && IssuedOk(s) && n.now >= s.now && PendingSince(s.t.invites, tenant, email, since)
    requires forall id :: id in s.t.invites && s.t.invites[id].consumedAt.None? ==>
               (id in n.t.invites && n.t.invites[id] == s.t.invites[id]) || s.t.invites[id].expiresAt < s.now
    ensures PendingSince(n.t.invites, tenant, email, since) || since + TTL < n.now
  {
    var id :| id in s.t.invites && IsPendingFor(s.t.invites[id], tenant, email) && s.t.invites[id].createdAt >= since;
    if id in n.t.invites && n.t.invites[id] == s.t.invites[id] {
      assert PendingSince(n.t.invites, tenant, email, since);
    }
  }

  /** The log as it was, seen from one event later. */
  lemma Before(s: State, n: State, e: Event, k: nat, tenant: string, email: string)
    requires Inv(s) && n.log == s.log + [e] && k < |s.log|
    requires forall id :: id in s.issued ==> id in n.issued && n.issued[id] == s.issued[id]
    ensures About(n, k, tenant, email) <==> About(s, k, tenant, email)
    ensures IsIssue(n, k, tenant, email) <==> IsIssue(s, k, tenant, email)
    ensures n.log[k].id in n.issued && s.log[k].id in s.issued && At(n, k) == At(s, k)
  {
  }

  lemma NoneSpentBefore(s: State, n: State, e: Event, from: nat, until: nat, tenant: string, email: string)
    requires Inv(s) && n.log == s.log + [e] && until <= |s.log|
    requires forall id :: id in s.issued ==> id in n.issued && n.issued[id] == s.issued[id]
    ensures NoneSpent(n, from, until, tenant, email) <==> NoneSpent(s, from, until, tenant, email)
  {
    forall k: nat | k < until ensures About(n, k, tenant, email) <==> About(s, k, tenant, email) {
      Before(s, n, e, k, tenant, email);
    }
  }

  lemma PairsStayApart(s: State, n: State, e: Event)
    requires Inv(s) && AllApart(s) && n.log == s.log + [e]
    requires forall id :: id in s.issued ==> id in n.issued && n.issued[id] == s.issued[id]
    requires e.Issued? ==> forall i: nat, tenant, email :: i < |s.log| ==> Apart(n, i, |s.log|, tenant, email)
    ensures AllApart(n)
  {
    forall i: nat, j: nat, tenant, email | i < j < |n.log| ensures Apart(n, i, j, tenant, email) {
      if j < |s.log| {
        Before(s, n, e, i, tenant, email);
        Before(s, n, e, j, tenant, email);
        NoneSpentBefore(s, n, e, i, j, tenant, email);
        assert Apart(s, i, j, tenant, email);
      }
    }
  }

  /** Spending an invitation ends the silence of its own address and of no other. */
  lemma JoinStep(s: State, n: State, id: string, user: string)
    requires Inv(s) && AllHold(s) && AllApart(s) && id in s.t.invites && s.t.invites[id].consumedAt.None?
    requires n.log == s.log + [JoinedBy(id, user)] && n.issued == s.issued && n.now == s.now
    requires n.t.invites == Consume(s.t.invites, id, s.now)
    ensures AllHold(n) && AllApart(n)
  {
    var e := JoinedBy(id, user);
    forall k: nat, tenant, email | k < |n.log| ensures Holds(n, k, tenant, email) {
      if k < |s.log| && NoneSpent(n, k, |n.log|, tenant, email) {
        Before(s, n, e, k, tenant, email);
        assert NoneSpent(n, k, |s.log|, tenant, email);
        NoneSpentBefore(s, n, e, k, |s.log|, tenant, email);
        assert Holds(s, k, tenant, email);
        assert n.log[|s.log|] == e && !About(n, |s.log|, tenant, email);
        if IsIssue(s, k, tenant, email) && PendingSince(s.t.invites, tenant, email, At(s, k)) {
          StillPending(s, n, id, tenant, email, At(s, k));
        }
      }
    }
    PairsStayApart(s, n, e);
  }

  lemma StillPending(s: State, n: State, spent: string, tenant: string, email: string, since: nat)
    requires PendingSince(s.t.invites, tenant, email, since) && spent in s.t.invites
    requires n.t.invites == Consume(s.t.invites, spent, s.now)
    requires !IsPendingFor(s.t.invites[spent], tenant, email)
    ensures PendingSince(n.t.invites, tenant, email, since)
  {
    var id :| id in s.t.invites && IsPendingFor(s.t.invites[id], tenant, email) && s.t.invites[id].createdAt >= since;
    assert id in n.t.invites && n.t.invites[id] == s.t.invites[id];
  }

  /** The new invitation comes a cooldown after every unspent one before it. */
  lemma NewIsApart(s: State, id: string, invitation: Invitation, i: nat, tenant: string, email: string)
    requires Inv(s) && AllHold(s) && id !in s.issued && i < |s.log| && invitation.createdAt == s.now
    requires !RecentlyIssued(s.t.invites, invitation.tenant, invitation.email, s.now)
    ensures Apart(Add(s, id, invitation), i, |s.log|, tenant, email)
  {
    var n := Add(s, id, invitation);
    if IsIssue(n, i, tenant, email) && IsIssue(n, |s.log|, tenant, email) && NoneSpent(n, i, |s.log|, tenant, email) {
      Before(s, n, Issued(id), i, tenant, email);
      NoneSpentBefore(s, n, Issued(id), i, |s.log|, tenant, email);
      assert Holds(s, i, tenant, email);
      CooledDown(s, invitation, At(s, i));
    }
  }

  /** A new invitation: either the first for its address, or a cooldown after the last. */
  lemma AddStep(s: State, id: string, invitation: Invitation)
    requires Inv(s) && AllHold(s) && AllApart(s) && id !in s.issued
    requires invitation.consumedAt.None? && invitation.createdAt == s.now
    requires !RecentlyIssued(s.t.invites, invitation.tenant, invitation.email, s.now)
    ensures AllHold(Add(s, id, invitation)) && AllApart(Add(s, id, invitation))
  {
    var n := Add(s, id, invitation);
    forall k: nat, tenant, email | k < |n.log| ensures Holds(n, k, tenant, email) {
      if IsIssue(n, k, tenant, email) && NoneSpent(n, k, |n.log|, tenant, email) {
        HeldAfterAdd(s, id, invitation, k, tenant, email);
      }
    }
    forall i: nat, tenant, email | i < |s.log| ensures Apart(n, i, |s.log|, tenant, email) {
      NewIsApart(s, id, invitation, i, tenant, email);
    }
    PairsStayApart(s, n, Issued(id));
  }

  lemma CooledDown(s: State, invitation: Invitation, since: nat)
    requires !RecentlyIssued(s.t.invites, invitation.tenant, invitation.email, s.now)
    requires PendingSince(s.t.invites, invitation.tenant, invitation.email, since) || since + TTL < s.now
    ensures since + RESEND_COOLDOWN <= s.now
  {
  }

  lemma HeldAfterAdd(s: State, id: string, invitation: Invitation, k: nat, tenant: string, email: string)
    requires Inv(s) && AllHold(s) && id !in s.issued && invitation.consumedAt.None? && invitation.createdAt == s.now
    requires var n := Add(s, id, invitation);
             k < |n.log| && IsIssue(n, k, tenant, email) && NoneSpent(n, k, |n.log|, tenant, email)
    ensures var n := Add(s, id, invitation);
            PendingSince(n.t.invites, tenant, email, At(n, k)) || At(n, k) + TTL < n.now
  {
    var n := Add(s, id, invitation);
    assert n.t.invites[id] == invitation && n.log[|s.log|] == Issued(id);
    if tenant == invitation.tenant && email == invitation.email {
      if k < |s.log| { Before(s, n, Issued(id), k, tenant, email); }
      assert At(n, k) <= s.now;
      assert PendingSince(n.t.invites, tenant, email, At(n, k));
    } else {
      assert k < |s.log|;
      Before(s, n, Issued(id), k, tenant, email);
      assert NoneSpent(n, k, |s.log|, tenant, email);
      NoneSpentBefore(s, n, Issued(id), k, |s.log|, tenant, email);
      assert Holds(s, k, tenant, email);
      if PendingSince(s.t.invites, tenant, email, At(s, k)) {
        var other :| other in s.t.invites && IsPendingFor(s.t.invites[other], tenant, email)
                     && s.t.invites[other].createdAt >= At(s, k);
        assert other in n.t.invites && n.t.invites[other] == s.t.invites[other];
      }
    }
  }

  lemma SweptOnlyWhenExpired(invites: Invites, tenant: string, now: nat)
    ensures forall id :: id in invites && invites[id].consumedAt.None? ==>
              (id in AfterSweep(invites, tenant, now) && AfterSweep(invites, tenant, now)[id] == invites[id]) ||
              invites[id].expiresAt < now
  {
  }

  lemma SweepKeepsRate(s: State, tenant: string)
    requires Inv(s) && AllHold(s) && AllApart(s)
    ensures AllHold(Next(s, Sweep(tenant))) && AllApart(Next(s, Sweep(tenant)))
  {
    var n := s.(t := s.t.(invites := AfterSweep(s.t.invites, tenant, s.now)));
    SweptOnlyWhenExpired(s.t.invites, tenant, s.now);
    QuietStep(s, n);
    assert Next(s, Sweep(tenant)) == n;
  }

  lemma ProvisionStep(s: State, id: string, invitation: Invitation)
    requires Inv(s) && AllHold(s) && AllApart(s) && id !in s.issued && invitation.tenant !in s.tenants
    requires invitation.consumedAt.None? && invitation.createdAt == s.now
    ensures var n := Add(s.(tenants := s.tenants + {invitation.tenant}), id, invitation); AllHold(n) && AllApart(n)
  {
    var wider := s.(tenants := s.tenants + {invitation.tenant});
    NobodyMoves(s, wider);
    Close(s, wider, 0);
    QuietStep(s, wider);
    assert !RecentlyIssued(wider.t.invites, invitation.tenant, invitation.email, wider.now);
    AddStep(wider, id, invitation);
  }

  lemma IssueStepKeepsRate(s: State, step: Step)
    requires Inv(s) && AllHold(s) && AllApart(s) && (step.Issue? || step.Provision?)
    ensures AllHold(Next(s, step)) && AllApart(Next(s, step))
  {
    match step
    case Provision(tenant, email, id, token) =>
      var invitation := Minted(tenant, Normal(email), Admin, "", token, s.now);
      if Next(s, step) != s { ProvisionStep(s, id, invitation); }
    case Issue(tenant, email, role, answers, id, token) =>
      var invitation := Minted(tenant, Normal(email), role, answers, token, s.now);
      if Next(s, step) != s { AddStep(s, id, invitation); }
  }

  /** Every other step leaves the invitations and their history alone. */
  lemma OthersAreQuiet(s: State, step: Step)
    requires !step.Provision? && !step.Issue? && !step.Sweep? && !step.Complete?
    ensures var n := Next(s, step);
            n.log == s.log && n.issued == s.issued && n.now >= s.now && n.t.invites == s.t.invites
  {
  }

  lemma CompleteStepKeepsRate(s: State, p: nat)
    requires Inv(s) && AllHold(s) && AllApart(s)
    ensures AllHold(AfterComplete(s, p)) && AllApart(AfterComplete(s, p))
  {
    var n := AfterComplete(s, p);
    if n.log != s.log { JoinStep(s, n, s.procs[p].id, s.procs[p].user); } else { QuietStep(s, n); }
  }

  lemma StepKeepsRate(s: State, step: Step)
    requires Inv(s) && AllHold(s) && AllApart(s)
    ensures AllHold(Next(s, step)) && AllApart(Next(s, step))
  {
    if step.Provision? || step.Issue? {
      IssueStepKeepsRate(s, step);
    } else if step.Sweep? {
      SweepKeepsRate(s, step.tenant);
    } else if step.Complete? {
      CompleteStepKeepsRate(s, step.p);
    } else {
      OthersAreQuiet(s, step);
      QuietStep(s, Next(s, step));
    }
  }

  lemma {:induction false} RunKeepsRate(steps: seq<Step>)
    ensures var s := Run(EMPTY, steps); Inv(s) && AllHold(s) && AllApart(s)
  {
    if steps == [] {
      assert Inv(EMPTY) && AllHold(EMPTY) && AllApart(EMPTY);
    } else {
      var last := steps[|steps| - 1];
      RunKeepsRate(steps[..|steps| - 1]);
      StepKeeps(Run(EMPTY, steps[..|steps| - 1]), last);
      StepKeepsRate(Run(EMPTY, steps[..|steps| - 1]), last);
    }
  }

  // ---- The rate ---------------------------------------------------------------------

  /** How many invitations for this address this stretch of the log holds. */
  ghost function Issues(s: State, from: nat, until: nat, tenant: string, email: string): nat
    requires until <= |s.log|
    decreases until
  {
    if until <= from then 0
    else Issues(s, from, until - 1, tenant, email) + (if IsIssue(s, until - 1, tenant, email) then 1 else 0)
  }

  /** The last of n unspent issues came (n - 1) cooldowns after any time they all came after. */
  lemma {:induction false} LastIssueIsLate(s: State, from: nat, until: nat, tenant: string, email: string, since: nat)
    returns (last: nat)
    requires AllApart(s) && until <= |s.log| && NoneSpent(s, from, until, tenant, email)
    requires Issues(s, from, until, tenant, email) > 0
    requires forall k: nat :: from <= k < until && IsIssue(s, k, tenant, email) ==> At(s, k) >= since
    ensures from <= last < until && IsIssue(s, last, tenant, email)
    ensures At(s, last) >= since + (Issues(s, from, until, tenant, email) - 1) * RESEND_COOLDOWN
    decreases until
  {
    if !IsIssue(s, until - 1, tenant, email) {
      last := LastIssueIsLate(s, from, until - 1, tenant, email, since);
    } else {
      last := until - 1;
      if Issues(s, from, until - 1, tenant, email) > 0 {
        var previous := LastIssueIsLate(s, from, until - 1, tenant, email, since);
        assert Apart(s, previous, last, tenant, email);
      }
    }
  }

  /** In any run, n invitations minted for one address of one institute within a window, with
      none of them spent in between, take at least n - 1 cooldowns, however often the table is
      swept. */
  lemma IssuesAreSpaced(steps: seq<Step>, from: nat, until: nat, tenant: string, email: string, since: nat, window: nat)
    requires var s := Run(EMPTY, steps);
             until <= |s.log| && NoneSpent(s, from, until, tenant, email) &&
             forall k: nat :: from <= k < until && IsIssue(s, k, tenant, email) ==> since <= At(s, k) <= since + window
    ensures Issues(Run(EMPTY, steps), from, until, tenant, email) > 0 ==>
              (Issues(Run(EMPTY, steps), from, until, tenant, email) - 1) * (15 * 60 * 1000) <= window
  {
    var s := Run(EMPTY, steps);
    RunKeepsRate(steps);
    if Issues(s, from, until, tenant, email) > 0 {
      var last := LastIssueIsLate(s, from, until, tenant, email, since);
    }
  }
}
