/** Who ends up with what, over whole runs: src/lib/auth/invitations.ts and
    src/app/api/tenant/activate/route.ts. */
module ActivationRules {
  import opened Text
  import opened Invitations
  import opened Activation

  lemma LastOf(steps: seq<Step>, k: nat)
    requires k < |steps|
    ensures steps[..|steps| - 1][..k] == steps[..k]
  {
  }

  // ---- Where admins come from -------------------------------------------------------

  ghost predicate IsAdmin(s: State, key: (string, string)) {
    key in s.t.members && s.t.members[key].role == Role.Admin
  }

  /** The request in process p is about to spend this invitation. */
  ghost predicate IsAboutToSpend(s: State, step: Step, id: string, user: string) {
    step.Complete? && step.p in s.procs && id in s.t.invites && s.t.invites[id].consumedAt.None? &&
    s.procs[step.p] == Finishing(s.t.invites[id].tenant, id, user)
  }

  ghost predicate SpendsAnAdminInvitation(s: State, step: Step, key: (string, string)) {
    exists id :: IsAboutToSpend(s, step, id, key.1) && s.t.invites[id].tenant == key.0 &&
      s.t.invites[id].role == Role.Admin
  }

  ghost predicate IsAppointedAdmin(s: State, step: Step, key: (string, string)) {
    step.Appoint? && key == (step.tenant, step.user) && step.role == Role.Admin &&
    key.0 in s.tenants && key.1 in s.t.accounts && key !in s.t.members
  }

  lemma OneStepMakesAdmins(s: State, step: Step, key: (string, string))
    ensures IsAdmin(Next(s, step), key) <==>
              IsAdmin(s, key) || SpendsAnAdminInvitation(s, step, key) || IsAppointedAdmin(s, step, key)
  {
    if step.Complete? && step.p in s.procs && s.procs[step.p].Finishing? {
      var c := s.procs[step.p];
      if IsClaimable(s.t.invites, c.tenant, c.id) {
        FinishExactly(s.t, Finish(s.t, c.id, c.user, s.now), c.id, c.user, s.now);
        assert IsAboutToSpend(s, step, c.id, c.user);
      }
    }
  }

  ghost predicate WasMadeAdmin(s: State, steps: seq<Step>, key: (string, string), k: nat)
    requires k < |steps|
  {
    var before := Run(s, steps[..k]);
    SpendsAnAdminInvitation(before, steps[k], key) || IsAppointedAdmin(before, steps[k], key)
  }

  /** After any run somebody is an admin if and only if they were one before it, an operator
      made them one, or they spent an admin's invitation of that institute. */
  lemma {:induction false} AdminsAreMade(s: State, steps: seq<Step>, key: (string, string))
    ensures IsAdmin(Run(s, steps), key) <==>
              IsAdmin(s, key) || exists k :: 0 <= k < |steps| && WasMadeAdmin(s, steps, key, k)
  {
    if steps != [] {
      var shorter, last := steps[..|steps| - 1], |steps| - 1;
      AdminsAreMade(s, shorter, key);
      OneStepMakesAdmins(Run(s, shorter), steps[last], key);
      forall k | 0 <= k < last ensures WasMadeAdmin(s, shorter, key, k) <==> WasMadeAdmin(s, steps, key, k) {
        LastOf(steps, k);
      }
      assert WasMadeAdmin(s, steps, key, last) <==>
               SpendsAnAdminInvitation(Run(s, shorter), steps[last], key) ||
               IsAppointedAdmin(Run(s, shorter), steps[last], key);
      if k :| 0 <= k < |steps| && WasMadeAdmin(s, steps, key, k) {
        assert k == last || WasMadeAdmin(s, shorter, key, k);
      }
    }
  }

  // ---- How long a link opens --------------------------------------------------------

  /** Another invitation for the same institute and address is issued, or this one is spent. */
  ghost predicate Kills(s: State, step: Step, id: string)
    requires id in s.issued
  {
    var i := s.issued[id];
    (step.Issue? && step.tenant == i.tenant && Normal(step.email) == i.email && step.id !in s.issued
     && step.id in Next(s, step).issued) ||
    exists user :: IsAboutToSpend(s, step, id, user)
  }

  ghost predicate IsAlive(s: State, id: string) {
    id in s.t.invites && s.t.invites[id].consumedAt.None?
  }

  lemma IssueKills(s: State, step: Step, id: string)
    requires RowsAreAsIssued(s) && id in s.issued && step.Issue?
    ensures IsAlive(Next(s, step), id) <==> IsAlive(s, id) && !Kills(s, step, id)
    ensures id in Next(s, step).issued && Next(s, step).issued[id] == s.issued[id]
  {
    var i := Minted(step.tenant, Normal(step.email), step.role, step.answers, step.token, s.now);
    assert Next(s, step) == s || Next(s, step) == Add(s, step.id, i);
  }

  lemma CompleteKills(s: State, p: nat, id: string)
    requires RowsAreAsIssued(s) && id in s.issued
    ensures IsAlive(AfterComplete(s, p), id) <==> IsAlive(s, id) && !Kills(s, Step.Complete(p), id)
    ensures AfterComplete(s, p).issued == s.issued
  {
    var step := Step.Complete(p);
    if p in s.procs && s.procs[p].Finishing? && IsClaimable(s.t.invites, s.procs[p].tenant, s.procs[p].id) {
      assert IsAboutToSpend(s, step, s.procs[p].id, s.procs[p].user);
    }
  }

  lemma ProvisionKillsNothing(s: State, step: Step, id: string)
    requires RowsAreAsIssued(s) && IssuedOk(s) && id in s.issued && step.Provision?
    ensures IsAlive(Next(s, step), id) <==> IsAlive(s, id)
    ensures id in Next(s, step).issued && Next(s, step).issued[id] == s.issued[id]
  {
    var i := Minted(step.tenant, Normal(step.email), Role.Admin, "", step.token, s.now);
    if Next(s, step) != s {
      assert step.tenant !in s.tenants && s.issued[id].tenant != step.tenant;
      assert Next(s, step) == Add(s.(tenants := s.tenants + {step.tenant}), step.id, i);
    }
  }

  lemma NobodyKills(s: State, step: Step)
    requires !step.Issue? && !step.Complete? && !step.Provision? && !step.Sweep?
    ensures Next(s, step).t.invites == s.t.invites && Next(s, step).issued == s.issued
  {
  }

  /** A dead link stays dead; a live one dies of the two causes alone, before its time. */
  lemma OneStepKills(s: State, step: Step, id: string)
    requires RowsAreAsIssued(s) && IssuedOk(s) && id in s.issued && s.now <= s.issued[id].expiresAt
    ensures IsAlive(Next(s, step), id) <==> IsAlive(s, id) && !Kills(s, step, id)
    ensures id in Next(s, step).issued && Next(s, step).issued[id] == s.issued[id]
  {
    if step.Issue? { IssueKills(s, step, id); }
    else if step.Complete? { CompleteKills(s, step.p, id); }
    else if step.Provision? { ProvisionKillsNothing(s, step, id); }
    else if step.Sweep? { assert Next(s, step).issued == s.issued; }
    else { NobodyKills(s, step); }
  }

  ghost predicate WasKilled(s: State, steps: seq<Step>, id: string, k: nat)
    requires k < |steps| && Inv(s) && id in s.issued
  {
    IssuedStays(s, steps[..k], id);
    Kills(Run(s, steps[..k]), steps[k], id)
  }

  lemma {:induction false} IssuedStays(s: State, steps: seq<Step>, id: string)
    requires Inv(s) && id in s.issued
    ensures var n := Run(s, steps); id in n.issued && n.issued[id] == s.issued[id] && s.now <= n.now
  {
    if steps != [] {
      IssuedStays(s, steps[..|steps| - 1], id);
      OneStepKeepsIssued(Run(s, steps[..|steps| - 1]), steps[|steps| - 1], id);
    }
  }

  lemma OneStepKeepsIssued(s: State, step: Step, id: string)
    requires id in s.issued
    ensures id in Next(s, step).issued && Next(s, step).issued[id] == s.issued[id] && s.now <= Next(s, step).now
  {
  }

  lemma InOrder(s: State, id: string)
    requires Inv(s)
    ensures RowsAreAsIssued(s) && IssuedOk(s) && AddressesOk(s.t.accounts)
    ensures id in s.t.invites ==>
              id in s.issued && s.t.invites[id] == s.issued[id].(consumedAt := s.t.invites[id].consumedAt)
    ensures id in s.issued ==> s.issued[id].expiresAt == s.issued[id].createdAt + 72 * 60 * 60 * 1000
  {
  }

  lemma KilledEarlier(s: State, steps: seq<Step>, id: string)
    requires Inv(s) && id in s.issued && steps != []
    ensures var shorter, last := steps[..|steps| - 1], |steps| - 1;
            (forall k :: 0 <= k < |steps| ==> !WasKilled(s, steps, id, k)) <==>
            (forall k :: 0 <= k < last ==> !WasKilled(s, shorter, id, k)) && !WasKilled(s, steps, id, last)
  {
    var shorter, last := steps[..|steps| - 1], |steps| - 1;
    forall k | 0 <= k < last ensures WasKilled(s, shorter, id, k) <==> WasKilled(s, steps, id, k) {
      LastOf(steps, k);
    }
  }

  /** From any reachable state a pending invitation stays pending, while its time runs, until it
      is spent or another is issued for its address. */
  lemma {:induction false} LivesUntilKilled(s: State, steps: seq<Step>, id: string)
    requires Inv(s) && id in s.issued && IsAlive(s, id) && Run(s, steps).now <= s.issued[id].expiresAt
    ensures IsAlive(Run(s, steps), id) <==> forall k :: 0 <= k < |steps| ==> !WasKilled(s, steps, id, k)
  {
    if steps != [] {
      var shorter, last := steps[..|steps| - 1], |steps| - 1;
      var m := Run(s, shorter);
      IssuedStays(s, shorter, id);
      OneStepKeepsIssued(m, steps[last], id);
      LivesUntilKilled(s, shorter, id);
      RunKeeps(s, shorter);
      InOrder(m, id);
      OneStepKills(m, steps[last], id);
      KilledEarlier(s, steps, id);
    }
  }

  /** A link, once mailed, opens for its own institute for exactly seventy-two hours, unless it is
      spent or followed by another one first; sweeps and crashes do not shorten that. */
  lemma LinkOpensExactly(s: State, steps: seq<Step>, id: string, tenant: string, token: string)
    requires Inv(s) && id in s.issued && IsAlive(s, id)
    ensures var i, n := s.t.invites[id], Run(s, steps);
            (id in n.t.invites && IsUsable(n.t.invites[id], tenant, token, n.now)) <==>
            (token != "" && tenant == i.tenant && token == i.token && n.now < i.createdAt + 72 * 60 * 60 * 1000 &&
             forall k :: 0 <= k < |steps| ==> !WasKilled(s, steps, id, k))
  {
    var n := Run(s, steps);
    InOrder(s, id);
    IssuedStays(s, steps, id);
    RunKeeps(s, steps);
    InOrder(n, id);
    if n.now <= s.issued[id].expiresAt { LivesUntilKilled(s, steps, id); }
  }

  // ---- Whose session it takes -------------------------------------------------------

  /** Nobody acts for the request p. */
  predicate LeavesAlone(step: Step, p: nat) {
    !(IsRequest(step) && step.p == p)
  }

  lemma OneStepLeavesAlone(s: State, step: Step, p: nat, user: string)
    requires p in s.procs && LeavesAlone(step, p) && user in s.t.accounts
    ensures p in Next(s, step).procs && Next(s, step).procs[p] == s.procs[p]
    ensures user in Next(s, step).t.accounts && Next(s, step).t.accounts[user].email == s.t.accounts[user].email
  {
  }

  lemma {:induction false} OthersLeaveAlone(s: State, steps: seq<Step>, p: nat, user: string)
    requires p in s.procs && user in s.t.accounts && forall k :: 0 <= k < |steps| ==> LeavesAlone(steps[k], p)
    ensures var n := Run(s, steps);
            p in n.procs && n.procs[p] == s.procs[p] && user in n.t.accounts &&
            n.t.accounts[user].email == s.t.accounts[user].email
  {
    if steps != [] {
      OthersLeaveAlone(s, steps[..|steps| - 1], p, user);
      OneStepLeavesAlone(Run(s, steps[..|steps| - 1]), steps[|steps| - 1], p, user);
    }
  }

  /** A link for an address somebody has: whatever others do between the look-up and the reading
      of the session, the request goes on for that account alone, and where its address was
      proven only with its owner signed in. */
  lemma OnlyTheOwnerGoesOn(s: State, p: nat, user: string, others: seq<Step>, session: Option<string>)
    requires Inv(s) && p in s.procs && s.procs[p].Opened?
    requires user in s.t.accounts && s.t.accounts[user].email == s.procs[p].email
    requires forall k :: 0 <= k < |others| ==> LeavesAlone(others[k], p)
    requires var m := Run(Next(s, LookUp(p, Some(user))), others);
             session.Some? ==> session.value in m.t.accounts
    ensures var m := Run(Next(s, LookUp(p, Some(user))), others);
            var n := Next(m, ReadSession(p, session));
            if s.t.accounts[user].verified && session != Some(user) then p !in n.procs && n.t == m.t
            else p in n.procs && n.procs[p] == Finishing(s.procs[p].tenant, s.procs[p].id, user) && n.t == m.t
  {
    var a := s.procs[p];
    var s1 := Spawn(s, p, AskingSession(a.tenant, a.id, a.email, user, s.t.accounts[user].verified));
    OpenedIsNormal(s, p);
    OwnerIsFound(s, p, user);
    StepKeeps(s, LookUp(p, Some(user)));
    OthersLeaveAlone(s1, others, p, user);
    RunKeeps(s1, others);
    InOrder(Run(s1, others), "");
    SessionsAreTold(Run(s1, others), p, user, session);
  }

  lemma OpenedIsNormal(s: State, p: nat)
    requires Inv(s) && p in s.procs && s.procs[p].Opened?
    ensures Normal(s.procs[p].email) == s.procs[p].email
  {
    ProcIsOk(s, p);
  }

  lemma OwnerIsFound(s: State, p: nat, user: string)
    requires p in s.procs && s.procs[p].Opened? && Normal(s.procs[p].email) == s.procs[p].email
    requires user in s.t.accounts && s.t.accounts[user].email == s.procs[p].email
    ensures var a := s.procs[p];
            Next(s, LookUp(p, Some(user))) ==
              Spawn(s, p, AskingSession(a.tenant, a.id, a.email, user, s.t.accounts[user].verified))
  {
  }

  lemma SessionsAreTold(m: State, p: nat, user: string, session: Option<string>)
    requires AddressesOk(m.t.accounts) && p in m.procs && m.procs[p].AskingSession?
    requires m.procs[p].account == user && user in m.t.accounts && m.t.accounts[user].email == m.procs[p].email
    requires session.Some? ==> session.value in m.t.accounts
    ensures var c := m.procs[p];
            var n := Next(m, ReadSession(p, session));
            if c.verified && session != Some(user) then p !in n.procs && n.t == m.t
            else p in n.procs && n.procs[p] == Finishing(c.tenant, c.id, user) && n.t == m.t
  {
    if session.Some? { NormalIsLower(m.t.accounts[session.value].email); }
  }

  /** For an address nobody has, the request goes on to sign up if the password is long enough
      and ends if it is not; the account it makes has the address, unproven, and is the one
      that will join. */
  lemma NewcomersSignUp(s: State, p: nat, user: string)
    requires Inv(s) && p in s.procs && s.procs[p].Opened? && user !in s.t.accounts
    requires forall u :: u in s.t.accounts ==> s.t.accounts[u].email != s.procs[p].email
    ensures var c := s.procs[p];
            var asked := Next(s, LookUp(p, None));
            var made := Next(asked, SignUp(p, user));
            asked.t == s.t && (p in asked.procs <==> c.longEnough) &&
            (c.longEnough ==>
               made.t == s.t.(accounts := s.t.accounts[user := Account(c.email, false)]) &&
               made.procs == s.procs[p := Finishing(c.tenant, c.id, user)])
  {
    OpenedIsNormal(s, p);
    NewcomersGoOn(s, p, user);
  }

  lemma NewcomersGoOn(s: State, p: nat, user: string)
    requires p in s.procs && s.procs[p].Opened? && Normal(s.procs[p].email) == s.procs[p].email
    requires user !in s.t.accounts && forall u :: u in s.t.accounts ==> s.t.accounts[u].email != s.procs[p].email
    ensures var c := s.procs[p];
            var asked := Next(s, LookUp(p, None));
            var made := Next(asked, SignUp(p, user));
            asked.t == s.t && (p in asked.procs <==> c.longEnough) &&
            (c.longEnough ==>
               made.t == s.t.(accounts := s.t.accounts[user := Account(c.email, false)]) &&
               made.procs == s.procs[p := Finishing(c.tenant, c.id, user)])
  {
    var c := s.procs[p];
    NobodyIsFound(s, p);
    if c.longEnough { AccountIsMade(s, p, c.tenant, c.id, c.email, user); }
  }

  lemma AccountIsMade(s: State, p: nat, tenant: string, id: string, email: string, user: string)
    requires user !in s.t.accounts && forall u :: u in s.t.accounts ==> s.t.accounts[u].email != email
    ensures AfterSignUp(Spawn(s, p, SigningUp(tenant, id, email)), p, user) ==
              s.(t := s.t.(accounts := s.t.accounts[user := Account(email, false)]),
                 procs := s.procs[p := Finishing(tenant, id, user)])
  {
    assert s.procs[p := SigningUp(tenant, id, email)][p := Finishing(tenant, id, user)]
           == s.procs[p := Finishing(tenant, id, user)];
  }

  lemma NobodyIsFound(s: State, p: nat)
    requires p in s.procs && s.procs[p].Opened? && Normal(s.procs[p].email) == s.procs[p].email
    requires forall u :: u in s.t.accounts ==> s.t.accounts[u].email != s.procs[p].email
    ensures var c := s.procs[p];
            Next(s, LookUp(p, None)) ==
              if c.longEnough then Spawn(s, p, SigningUp(c.tenant, c.id, c.email)) else Exit(s, p)
  {
  }

  /** The last transaction ends its request whether or not it finds the invitation unspent, and
      writes only if it does. */
  lemma CompletionsEnd(s: State, p: nat, tenant: string, id: string, user: string)
    requires p in s.procs && s.procs[p] == Finishing(tenant, id, user)
    ensures var n := Next(s, Step.Complete(p));
            n.procs == s.procs - {p} &&
            if id in s.t.invites && s.t.invites[id].tenant == tenant && s.t.invites[id].consumedAt.None? then
              IsJoining(s.t, n.t, id, user, s.now) && n.log == s.log + [JoinedBy(id, user)]
            else n.t == s.t && n.log == s.log
  {
    if IsClaimable(s.t.invites, tenant, id) {
      FinishExactly(s.t, Finish(s.t, id, user, s.now), id, user, s.now);
    }
  }

  // ---- How requests and invitations begin -------------------------------------------

  /** A request begins exactly while its link opens. */
  lemma RequestsBegin(s: State, p: nat, tenant: string, token: string, longEnough: bool, id: string)
    requires Inv(s) && p !in s.procs
    ensures var n := Next(s, Open(p, tenant, token, longEnough, id));
            && n.t == s.t
            && (p in n.procs <==>
                  id in s.t.invites && token != "" && s.t.invites[id].tenant == tenant && s.t.invites[id].token == token
                  && s.t.invites[id].consumedAt == None && s.now < s.t.invites[id].createdAt + 72 * 60 * 60 * 1000)
            && (p in n.procs ==> n.procs[p] == Opened(tenant, id, s.issued[id].email, longEnough))
  {
    InOrder(s, id);
  }

  /** An institute's first invitation is an admin's; any other is for whom and as what it was
      asked for. Each is remembered as it was minted. */
  lemma InvitationsAreMinted(s: State, step: Step)
    requires (step.Provision? || step.Issue?) && step.id !in s.issued && step.id in Next(s, step).issued
    ensures var i := Next(s, step).issued[step.id];
            && i.tenant == step.tenant && i.email == Lower(Trim(step.email)) && i.token == step.token
            && i.role == (if step.Provision? then Role.Admin else step.role)
            && i.answers == (if step.Provision? then "" else step.answers)
            && i.createdAt == s.now && i.expiresAt == s.now + 72 * 60 * 60 * 1000 && i.consumedAt == None
            && step.id in Next(s, step).t.invites && Next(s, step).t.invites[step.id] == i
            && Next(s, step).log == s.log + [Issued(step.id)]
  {
  }
}
