/** What activation promises over whole runs: src/lib/auth/invitations.ts and
    src/app/api/tenant/activate/route.ts. */
module ActivationSafety {
  import opened Text
  import opened Invitations
  import opened Activation

  /** Over any interleaving of requests, re-issues, sweeps and crashes: an invitation joins
      one user at most, it is consumed exactly when it has, and that user holds the address
      it was mailed to and is a member of the institute it came from. */
  lemma ActivationIsSafe(steps: seq<Step>)
    ensures var s := Run(EMPTY, steps);
            && JoinedOnce(s.log)
            && (forall id :: id in s.t.invites ==> (s.t.invites[id].consumedAt.Some? <==> HasJoined(s.log, id)))
            && (forall k :: 0 <= k < |s.log| && s.log[k].JoinedBy? ==> JoinedRightly(s, s.log[k].id, s.log[k].user))
            && OnePending(s.t.invites)
  {
    assert Inv(EMPTY);
    RunKeeps(EMPTY, steps);
    var s := Run(EMPTY, steps);
    forall k | 0 <= k < |s.log| && s.log[k].JoinedBy? ensures JoinedRightly(s, s.log[k].id, s.log[k].user) {
      assert EventOk(s, s.log[k]);
    }
  }

  ghost predicate JoinedRightly(s: State, id: string, user: string) {
    id in s.issued && user in s.t.accounts && s.t.accounts[user].email == s.issued[id].email &&
    (s.issued[id].tenant, user) in s.t.members
  }

  // ---- One write for one consumption ------------------------------------------------

  ghost predicate Joins(s: State, n: State, id: string, user: string) {
    id in s.t.invites && s.t.invites[id].consumedAt.None? && n.log == s.log + [JoinedBy(id, user)] &&
    n.t == Finish(s.t, id, user, s.now)
  }

  /** No membership is written, nothing is consumed and nothing says it was. */
  ghost predicate NobodyJoins(s: State, n: State) {
    n.t.members == s.t.members && (forall id :: HasJoined(n.log, id) <==> HasJoined(s.log, id)) &&
    forall id :: id in n.t.invites && n.t.invites[id].consumedAt.Some? ==>
      id in s.t.invites && s.t.invites[id] == n.t.invites[id]
  }

  lemma AddJoinsNobody(s: State, id: string, invitation: Invitation)
    requires invitation.consumedAt.None?
    ensures NobodyJoins(s, Add(s, id, invitation))
  {
    forall k ensures HasJoined(s.log + [Issued(id)], k) <==> HasJoined(s.log, k) {
      JoinedAfter(s.log, Issued(id), k);
    }
  }

  /** Besides what an operator puts in by hand, a step either spends one pending invitation,
      writes its one membership and logs it, or does none of the three. */
  lemma MembershipsComeFromInvitations(s: State, step: Step)
    requires !step.Appoint?
    ensures NobodyJoins(s, Next(s, step)) || exists id, user :: Joins(s, Next(s, step), id, user)
  {
    match step
    case Provision(tenant, email, id, token) =>
      AddJoinsNobody(s.(tenants := s.tenants + {tenant}), id, Minted(tenant, Normal(email), Admin, "", token, s.now));
    case Issue(tenant, email, role, answers, id, token) =>
      AddJoinsNobody(s, id, Minted(tenant, Normal(email), role, answers, token, s.now));
    case Complete(p) =>
      if p in s.procs && s.procs[p].Finishing? {
        var c := s.procs[p];
        if IsClaimable(s.t.invites, c.tenant, c.id) {
          assert Joins(s, CompleteBy(s, p, c.tenant, c.id, c.user), c.id, c.user);
        }
      }
    case _ =>
  }

  /** Nobody loses a membership, and no admin is ever made less. */
  lemma {:induction false} AdminsStayAdmins(s: State, steps: seq<Step>, key: (string, string))
    requires key in s.t.members
    ensures key in Run(s, steps).t.members
    ensures s.t.members[key].role == Admin ==> Run(s, steps).t.members[key].role == Admin
  {
    if steps != [] {
      AdminsStayAdmins(s, steps[..|steps| - 1], key);
      OneStepKeepsAdmins(Run(s, steps[..|steps| - 1]), steps[|steps| - 1], key);
    }
  }

  lemma OneStepKeepsAdmins(s: State, step: Step, key: (string, string))
    requires key in s.t.members
    ensures key in Next(s, step).t.members
    ensures s.t.members[key].role == Admin ==> Next(s, step).t.members[key].role == Admin
  {
  }

  /** The other half of the comment at attachMembership is not kept: an instructor who spends
      a student invitation becomes a student. */
  lemma InstructorsCanBeDemoted(s: State, p: nat, tenant: string, id: string, user: string)
    requires p in s.procs && s.procs[p] == Finishing(tenant, id, user) && IsClaimable(s.t.invites, tenant, id)
    requires s.t.invites[id].role == Student && (tenant, user) in s.t.members
    requires s.t.members[(tenant, user)].role == Instructor
    ensures Next(s, Step.Complete(p)).t.members[(tenant, user)].role == Student
  {
  }

  // ---- Never stuck ------------------------------------------------------------------

  /** The rest of a request for this invitation, once it is known whose the address is: a new
      account, an unproven account resumed, or a proven one with its owner signed in. */
  function Continuation(p: nat, invitation: Invitation, id: string, account: Option<string>, verified: bool,
                        spare: string): seq<Step>
  {
    [Open(p, invitation.tenant, invitation.token, true, id), LookUp(p, account),
     if account.None? then SignUp(p, spare)
     else if verified then ReadSession(p, account)
     else ReadSession(p, None),
     Step.Complete(p)]
  }

  lemma RunOfFour(s: State, a: Step, b: Step, c: Step, d: Step)
    ensures Run(s, [a, b, c, d]) == Next(Next(Next(Next(s, a), b), c), d)
  {
    assert [a, b, c, d][..3] == [a, b, c] && [a, b, c][..2] == [a, b] && [a, b][..1] == [a] && [a][..0] == [];
    assert Run(s, []) == s;
    assert Run(s, [a]) == Next(s, a);
    assert Run(s, [a, b]) == Next(Next(s, a), b);
    assert Run(s, [a, b, c]) == Next(Next(Next(s, a), b), c);
  }

  /** The invitation is spent, its address proven and its membership written: with its answers,
      and with its role unless an admin's was there before. */
  ghost predicate HasJoinedAs(members: Members, n: State, invitation: Invitation, id: string, user: string) {
    var key := (invitation.tenant, user);
    var wasAdmin := key in members && members[key].role == Role.Admin;
    && id in n.t.invites && n.t.invites[id] == invitation.(consumedAt := Some(n.now)) && HasJoined(n.log, id)
    && n.t.members.Keys == members.Keys + {key}
    && n.t.members[key] == Membership(if wasAdmin then Role.Admin else invitation.role, invitation.answers)
    && (forall k | k in members && k != key :: n.t.members[k] == members[k])
    && user in n.t.accounts && n.t.accounts[user] == Account(invitation.email, true)
  }

  /** From every state a run can reach, crashes half way through other requests included, a
      pending and unexpired invitation still leads to its membership. */
  lemma NeverStuck(s: State, p: nat, id: string, account: Option<string>, spare: string)
    requires Inv(s) && p !in s.procs && spare !in s.t.accounts
    requires id in s.t.invites && IsUsable(s.t.invites[id], s.t.invites[id].tenant, s.t.invites[id].token, s.now)
    requires AccountIs(s.t.accounts, s.t.invites[id].email, account)
    ensures var verified := account.Some? && s.t.accounts[account.value].verified;
            var steps := Continuation(p, s.t.invites[id], id, account, verified, spare);
            HasJoinedAs(s.t.members, Run(s, steps), s.t.invites[id], id, if account.Some? then account.value else spare)
  {
    var verified := account.Some? && s.t.accounts[account.value].verified;
    var steps := Continuation(p, s.t.invites[id], id, account, verified, spare);
    RunOfFour(s, steps[0], steps[1], steps[2], steps[3]);
    assert Normal(s.t.invites[id].email) == s.t.invites[id].email;
    ReachesFinishing(s, p, id, account, spare);
    var s3 := Next(Next(Next(s, steps[0]), steps[1]), steps[2]);
    FinishesFrom(s3, p, id, if account.Some? then account.value else spare);
  }

  lemma FinishesFrom(s: State, p: nat, id: string, user: string)
    requires id in s.t.invites && s.t.invites[id].consumedAt.None? && user in s.t.accounts
    requires p in s.procs && s.procs[p] == Finishing(s.t.invites[id].tenant, id, user)
    requires s.t.accounts[user].email == s.t.invites[id].email
    ensures HasJoinedAs(s.t.members, Next(s, Step.Complete(p)), s.t.invites[id], id, user)
  {
    JoinedAfter(s.log, JoinedBy(id, user), id);
    assert AfterComplete(s, p).t == Finish(s.t, id, user, s.now);
    FinishExactly(s.t, AfterComplete(s, p).t, id, user, s.now);
  }

  lemma ReachesFinishing(s: State, p: nat, id: string, account: Option<string>, spare: string)
    requires p !in s.procs && spare !in s.t.accounts
    requires id in s.t.invites && IsUsable(s.t.invites[id], s.t.invites[id].tenant, s.t.invites[id].token, s.now)
    requires AccountIs(s.t.accounts, s.t.invites[id].email, account)
    requires Normal(s.t.invites[id].email) == s.t.invites[id].email
    ensures var i := s.t.invites[id];
            var verified := account.Some? && s.t.accounts[account.value].verified;
            var steps := Continuation(p, i, id, account, verified, spare);
            var n := Next(Next(Next(s, steps[0]), steps[1]), steps[2]);
            var user := if account.Some? then account.value else spare;
            && n.t.invites == s.t.invites && n.t.members == s.t.members
            && p in n.procs && n.procs[p] == Finishing(i.tenant, id, user)
            && user in n.t.accounts && n.t.accounts[user].email == i.email
  {
    var i := s.t.invites[id];
    var verified := account.Some? && s.t.accounts[account.value].verified;
    var s1 := Spawn(s, p, Opened(i.tenant, id, i.email, true));
    assert AfterOpen(s, p, i.tenant, i.token, true, id) == s1;
    NormalIsLower(i.email);
    if account.None? {
      var s2 := Spawn(s1, p, SigningUp(i.tenant, id, i.email));
      assert AfterLookUp(s1, p, account) == s2;
      assert AfterSignUp(s2, p, spare).procs[p] == Finishing(i.tenant, id, spare);
    } else {
      var s2 := Spawn(s1, p, AskingSession(i.tenant, id, i.email, account.value, verified));
      assert AfterLookUp(s1, p, account) == s2;
      assert AfterSession(s2, p, if verified then account else None)
             == Spawn(s2, p, Finishing(i.tenant, id, account.value));
    }
  }
}
