/** Invitations: src/lib/auth/invitations.ts, and one activation request from start to end,
    src/app/api/tenant/activate/route.ts. A token stands for its hash, which is taken to be
    injective. Times are milliseconds. */
module Invitations {
  import opened Text

  const TTL := 72 * 60 * 60 * 1000
  const RESEND_COOLDOWN := 15 * 60 * 1000
  const CONSUMED_RETENTION := 90 * 24 * 60 * 60 * 1000
  const MIN_PASSWORD_LENGTH := 12

  datatype Role = Student | Instructor | Admin

  datatype Invitation = Invitation(tenant: string, email: string, role: Role, answers: string, token: string,
                                   createdAt: nat, expiresAt: nat, consumedAt: Option<nat>)

  /** users: global, one row per address. */
  datatype Account = Account(email: string, verified: bool)

  datatype Membership = Membership(role: Role, profile: string)

  type Invites = map<string, Invitation>
  type Accounts = map<string, Account>
  /** The unique key is (tenant, user). */
  type Members = map<(string, string), Membership>

  function Minted(tenant: string, email: string, role: Role, answers: string, token: string, now: nat): Invitation {
    Invitation(tenant, email, role, answers, token, now, now + TTL, None)
  }

  function Normal(email: string): string {
    Lower(Trim(email))
  }

  // ---- The transactions -------------------------------------------------------------

  predicate IsPendingFor(i: Invitation, tenant: string, email: string) {
    i.tenant == tenant && i.email == email && i.consumedAt.None?
  }

  predicate RecentlyIssued(invites: Invites, tenant: string, email: string, now: nat) {
    exists id :: id in invites && IsPendingFor(invites[id], tenant, email) &&
      invites[id].createdAt + RESEND_COOLDOWN > now
  }

  /** Any older pending invitation for the address is superseded. */
  function AfterIssue(invites: Invites, id: string, invitation: Invitation): Invites {
    var others := map k | k in invites && !IsPendingFor(invites[k], invitation.tenant, invitation.email) :: invites[k];
    others[id := invitation]
  }

  predicate IsUsable(i: Invitation, tenant: string, token: string, now: nat) {
    token != "" && i.tenant == tenant && i.token == token && i.consumedAt.None? && i.expiresAt > now
  }

  predicate NoneUsable(invites: Invites, tenant: string, token: string, now: nat) {
    forall id :: id in invites ==> !IsUsable(invites[id], tenant, token, now)
  }

  /** The claim: expiry is not looked at again. */
  predicate IsClaimable(invites: Invites, tenant: string, id: string) {
    id in invites && invites[id].tenant == tenant && invites[id].consumedAt.None?
  }

  function Consume(invites: Invites, id: string, now: nat): Invites
    requires id in invites
  {
    invites[id := invites[id].(consumedAt := Some(now))]
  }

  /** The upsert: an admin stays one, and anybody else becomes what the invitation says. */
  function Attach(members: Members, tenant: string, user: string, invitation: Invitation): Members {
    var key := (tenant, user);
    var role := if key in members && members[key].role == Admin then Admin else invitation.role;
    members[key := Membership(role, invitation.answers)]
  }

  function Prove(accounts: Accounts, user: string): Accounts {
    if user in accounts then accounts[user := accounts[user].(verified := true)] else accounts
  }

  predicate IsSwept(i: Invitation, tenant: string, now: nat) {
    i.tenant == tenant &&
    (match i.consumedAt case None => i.expiresAt < now case Some(at) => at + CONSUMED_RETENTION < now)
  }

  function AfterSweep(invites: Invites, tenant: string, now: nat): Invites {
    map id | id in invites && !IsSwept(invites[id], tenant, now) :: invites[id]
  }

  function Expired(invites: Invites, tenant: string, now: nat): set<string> {
    set id | id in invites && IsSwept(invites[id], tenant, now) && invites[id].consumedAt.None?
  }

  function Spent(invites: Invites, tenant: string, now: nat): set<string> {
    set id | id in invites && IsSwept(invites[id], tenant, now) && invites[id].consumedAt.Some?
  }

  lemma SweepInTwo(invites: Invites, tenant: string, now: nat)
    ensures invites - Expired(invites, tenant, now) - Spent(invites, tenant, now) == AfterSweep(invites, tenant, now)
  {
  }

  // ---- What the tables keep ---------------------------------------------------------

  /** One pending invitation per institute and address. */
  ghost predicate OnePending(invites: Invites) {
    forall a, b | a in invites && b in invites && invites[a].consumedAt.None? && invites[b].consumedAt.None?
                  && invites[a].tenant == invites[b].tenant && invites[a].email == invites[b].email :: a == b
  }

  /** signup_invitations_tenant_id_token_hash_key. */
  ghost predicate TokensUnique(invites: Invites) {
    forall a, b | a in invites && b in invites && invites[a].tenant == invites[b].tenant
                  && invites[a].token == invites[b].token :: a == b
  }

  /** users.email is unique, and every address was normalised on its way in. */
  ghost predicate AddressesOk(accounts: Accounts) {
    (forall a, b :: a in accounts && b in accounts && accounts[a].email == accounts[b].email ==> a == b) &&
    (forall a :: a in accounts ==> Normal(accounts[a].email) == accounts[a].email)
  }

  ghost predicate InvitesOk(invites: Invites) {
    OnePending(invites) && TokensUnique(invites) &&
    (forall id :: id in invites ==> Normal(invites[id].email) == invites[id].email)
  }

  ghost predicate TokenIsNew(invites: Invites, tenant: string, token: string) {
    forall id :: id in invites && invites[id].tenant == tenant ==> invites[id].token != token
  }

  /** Superseding is what keeps pending invitations single. */
  lemma IssueKeepsTables(invites: Invites, id: string, invitation: Invitation)
    requires InvitesOk(invites) && id !in invites && TokenIsNew(invites, invitation.tenant, invitation.token)
    requires Normal(invitation.email) == invitation.email
    ensures InvitesOk(AfterIssue(invites, id, invitation))
  {
  }

  lemma SweepKeepsTables(invites: Invites, tenant: string, now: nat)
    requires InvitesOk(invites)
    ensures InvitesOk(AfterSweep(invites, tenant, now))
  {
  }

  lemma ConsumeKeepsTables(invites: Invites, id: string, now: nat)
    requires InvitesOk(invites) && id in invites
    ensures InvitesOk(Consume(invites, id, now))
  {
  }

  function Rank(r: Role): nat {
    match r case Student => 0 case Instructor => 1 case Admin => 2
  }

  /** Joining never takes standing away, except from an instructor who spends a student
      invitation. An admin's standing is never touched. */
  lemma StandingIsKeptIff(members: Members, tenant: string, user: string, invitation: Invitation)
    requires (tenant, user) in members
    ensures var before := members[(tenant, user)].role;
            var after := Attach(members, tenant, user, invitation)[(tenant, user)].role;
            (Rank(after) >= Rank(before) <==> !(before == Instructor && invitation.role == Student)) &&
            (before == Admin ==> after == Admin)
  {
  }

  lemma NormalIsLower(email: string)
    requires Normal(email) == email
    ensures Lower(email) == email
  {
  }

  // ---- The store --------------------------------------------------------------------

  datatype Reply = NotFound | Refused | PasswordTooShort | SignInRequired | Activated | Joined

  datatype Tables = Tables(invites: Invites, accounts: Accounts, members: Members)

  /** completeActivation's transaction, once the claim has found its row. */
  function Finish(t: Tables, id: string, user: string, now: nat): Tables
    requires id in t.invites
  {
    Tables(Consume(t.invites, id, now), Prove(t.accounts, user),
           Attach(t.members, t.invites[id].tenant, user, t.invites[id]))
  }

  /** The same, row by row: the invitation is spent, the membership has its answers and its role
      unless it was an admin's, the address is proven, and nothing else is touched. */
  ghost predicate IsJoining(t: Tables, n: Tables, id: string, user: string, now: nat)
    requires id in t.invites
  {
    var i := t.invites[id];
    var key := (i.tenant, user);
    var wasAdmin := key in t.members && t.members[key].role == Role.Admin;
    && n.invites.Keys == t.invites.Keys && n.invites[id] == i.(consumedAt := Some(now))
    && (forall k | k in t.invites && k != id :: n.invites[k] == t.invites[k])
    && n.members.Keys == t.members.Keys + {key}
    && n.members[key] == Membership(if wasAdmin then Role.Admin else i.role, i.answers)
    && (forall k | k in t.members && k != key :: n.members[k] == t.members[k])
    && n.accounts.Keys == t.accounts.Keys
    && (forall u | u in t.accounts ::
          n.accounts[u] == Account(t.accounts[u].email, u == user || t.accounts[u].verified))
  }

  lemma FinishExactly(t: Tables, n: Tables, id: string, user: string, now: nat)
    requires id in t.invites
    ensures n == Finish(t, id, user, now) <==> IsJoining(t, n, id, user, now)
  {
    var f := Finish(t, id, user, now);
    if IsJoining(t, n, id, user, now) {
      assert n.invites == f.invites;
      assert n.members == f.members;
      assert n.accounts == f.accounts;
    }
  }

  function WithAccount(accounts: Accounts, user: string, email: string): Accounts {
    if user in accounts then accounts else accounts[user := Account(email, false)]
  }

  /** The tables with an account for the invitation's address, made if it was not there. */
  function Made(t: Tables, id: string, user: string): Tables
    requires id in t.invites
  {
    t.(accounts := WithAccount(t.accounts, user, t.invites[id].email))
  }

  /** Whoever joins holds the address: an account that has it, or the one made for it. */
  ghost predicate IsOwner(user: string, email: string, accounts: Accounts, created: Option<string>) {
    if user in accounts then accounts[user].email == email else created == Some(user)
  }

  ghost predicate JoinsAs(before: Tables, after: Tables, tenant: string, token: string, created: Option<string>,
                          now: nat, id: string, user: string) {
    && id in before.invites && IsUsable(before.invites[id], tenant, token, now)
    && IsOwner(user, before.invites[id].email, before.accounts, created)
    && after == Finish(Made(before, id, user), id, user, now)
  }

  /** The three cases, and the refusals inside the first. */
  ghost predicate Answers(reply: Reply, email: string, accounts: Accounts, password: string,
                          session: Option<string>, created: Option<string>) {
    if forall user :: user in accounts ==> accounts[user].email != email then
      reply == if |password| < MIN_PASSWORD_LENGTH then PasswordTooShort
               else if created.None? then Refused
               else Activated
    else if session.Some? && session.value in accounts && accounts[session.value].email == email then reply == Joined
    else
      forall user :: user in accounts && accounts[user].email == email ==>
        reply == if accounts[user].verified then SignInRequired else Activated
  }

  class InvitationStore {
    var invites: Invites
    var accounts: Accounts
    var members: Members

    ghost predicate Valid()
      reads this
    {
      InvitesOk(invites) && AddressesOk(accounts)
    }

    ghost function Now(): Tables
      reads this
    {
      Tables(invites, accounts, members)
    }

    constructor ()
      ensures Valid() && invites == map[] && accounts == map[] && members == map[]
    {
      invites, accounts, members := map[], map[], map[];
    }

    /** issueInvitation. False means one was issued recently: no mail, and nothing changed. */
    method Issue(tenant: string, email: string, role: Role, answers: string, id: string, token: string, now: nat)
      returns (issued: bool)
      requires Valid() && id !in invites && TokenIsNew(invites, tenant, token)
      modifies this`invites
      ensures Valid()
      ensures issued <==>
                forall k | k in old(invites) && IsPendingFor(old(invites)[k], tenant, Normal(email)) ::
                  old(invites)[k].createdAt + 15 * 60 * 1000 <= now
      ensures !issued ==> invites == old(invites)
      ensures issued ==>
                id in invites && invites[id] == Invitation(tenant, Lower(Trim(email)), role, answers, token, now,
                                                           now + 72 * 60 * 60 * 1000, None)
      ensures issued ==> forall k :: k in invites && k != id ==> k in old(invites) && invites[k] == old(invites)[k]
      ensures issued ==> forall k :: k in old(invites) ==>
                           (k !in invites <==>
                              old(invites)[k].tenant == tenant && old(invites)[k].email == Lower(Trim(email)) &&
                              old(invites)[k].consumedAt == None)
    {
      var address := Normal(email);
      if k :| k in invites && IsPendingFor(invites[k], tenant, address)
              && invites[k].createdAt + RESEND_COOLDOWN > now {
        return false;
      }
      NormalFormOnce(email);
      var invitation := Minted(tenant, address, role, answers, token, now);
      IssueKeepsTables(invites, id, invitation);
      invites := AfterIssue(invites, id, invitation);
      return true;
    }

    method FindPending(tenant: string, token: string, now: nat) returns (found: Option<string>)
      ensures found.Some? ==> found.value in invites && IsUsable(invites[found.value], tenant, token, now)
      ensures found.None? ==> NoneUsable(invites, tenant, token, now)
    {
      if id :| id in invites && IsUsable(invites[id], tenant, token, now) {
        return Some(id);
      }
      return None;
    }

    method FindAccount(email: string) returns (found: Option<string>)
      ensures found.Some? ==> found.value in accounts && accounts[found.value].email == Normal(email)
      ensures found.None? ==> forall user :: user in accounts ==> accounts[user].email != Normal(email)
    {
      if user :| user in accounts && accounts[user].email == Normal(email) {
        return Some(user);
      }
      return None;
    }

    /** completeActivation. */
    method Complete(tenant: string, id: string, user: string, now: nat) returns (done: bool)
      requires Valid() && user in accounts
      modifies this
      ensures Valid()
      ensures done <==> id in old(invites) && old(invites)[id].tenant == tenant && old(invites)[id].consumedAt.None?
      ensures done ==> Now() == Finish(old(Now()), id, user, now) && IsJoining(old(Now()), Now(), id, user, now)
      ensures !done ==> Now() == old(Now())
    {
      if !IsClaimable(invites, tenant, id) { return false; }
      var invitation := invites[id];
      ConsumeKeepsTables(invites, id, now);
      FinishExactly(Now(), Finish(Now(), id, user, now), id, user, now);
      invites := Consume(invites, id, now);
      members := Attach(members, tenant, user, invitation);
      accounts := Prove(accounts, user);
      return true;
    }

    /** sweepInvitations, with its two counts. */
    method Sweep(tenant: string, now: nat) returns (expired: nat, spent: nat)
      requires Valid()
      modifies this`invites
      ensures Valid()
      ensures forall id :: id in invites <==> id in old(invites) && !IsSwept(old(invites)[id], tenant, now)
      ensures forall id | id in old(invites) && old(invites)[id].tenant != tenant :: id in invites
      ensures forall id | id in old(invites) && old(invites)[id].tenant == tenant ::
                id in invites <==>
                match old(invites)[id].consumedAt
                case None => now <= old(invites)[id].expiresAt
                case Some(at) => now <= at + 90 * 24 * 60 * 60 * 1000
      ensures forall id :: id in invites ==> invites[id] == old(invites)[id]
      ensures expired == |Expired(old(invites), tenant, now)| && spent == |Spent(old(invites), tenant, now)|
    {
      var dead, done := Expired(invites, tenant, now), Spent(invites, tenant, now);
      SweepKeepsTables(invites, tenant, now);
      SweepInTwo(invites, tenant, now);
      invites := invites - dead;
      invites := invites - done;
      return |dead|, |done|;
    }

    /** activateNewAccount: nobody has the address yet. */
    method ActivateNewAccount(tenant: string, id: string, password: string, created: Option<string>, now: nat)
      returns (reply: Reply)
      requires Valid() && IsClaimable(invites, tenant, id)
      requires forall user :: user in accounts ==> accounts[user].email != invites[id].email
      requires created.Some? ==> created.value !in accounts
      modifies this
      ensures Valid()
      ensures reply == if |password| < 12 then PasswordTooShort
                       else if created.None? then Refused else Activated
      ensures reply != Activated ==> Now() == old(Now())
      ensures reply == Activated ==>
                Now() == Finish(Made(old(Now()), id, created.value), id, created.value, now)
    {
      if |password| < MIN_PASSWORD_LENGTH { return PasswordTooShort; }
      if created.None? { return Refused; }
      accounts := WithAccount(accounts, created.value, invites[id].email);
      var _ := Complete(tenant, id, created.value, now);
      return Activated;
    }

    /** The three cases, for an invitation that has been found. */
    method ActivateWith(tenant: string, id: string, password: string, session: Option<string>, created: Option<string>,
                        now: nat) returns (reply: Reply, ghost user: string)
      requires Valid() && IsClaimable(invites, tenant, id)
      requires session.Some? ==> session.value in accounts
      requires created.Some? ==> created.value !in accounts
      modifies this
      ensures Valid() && reply != NotFound
      ensures Answers(reply, old(invites)[id].email, old(accounts), password, session, created)
      ensures reply != Activated && reply != Joined ==> Now() == old(Now())
      ensures reply == Activated || reply == Joined ==>
                IsOwner(user, old(invites)[id].email, old(accounts), created) &&
                Now() == Finish(Made(old(Now()), id, user), id, user, now)
    {
      var email := invites[id].email;
      var account := FindAccount(email);
      user := "";
      if account.None? {
        reply := ActivateNewAccount(tenant, id, password, created, now);
        user := if created.Some? then created.value else "";
      } else if session.Some? && Lower(accounts[session.value].email) == email {
        NormalIsLower(accounts[session.value].email);
        var _ := Complete(tenant, id, session.value, now);
        return Joined, session.value;
      } else {
        if session.Some? { NormalIsLower(accounts[session.value].email); }
        if accounts[account.value].verified { return SignInRequired, user; }
        var _ := Complete(tenant, id, account.value, now);
        return Activated, account.value;
      }
    }

    /** POST /api/tenant/activate. `session`: who is signed in. `created`: the account the
        sign-up would make, or None where it refuses. */
    method Activate(tenant: Option<string>, token: string, password: string, session: Option<string>,
                    created: Option<string>, now: nat) returns (reply: Reply)
      requires Valid()
      requires session.Some? ==> session.value in accounts
      requires created.Some? ==> created.value !in accounts
      modifies this
      ensures Valid()
      ensures reply == NotFound <==> tenant.None?
      ensures tenant.Some? && NoneUsable(old(invites), tenant.value, token, now) ==> reply == Refused
      ensures tenant.Some? ==>
                forall id | id in old(invites) && IsUsable(old(invites)[id], tenant.value, token, now) ::
                  Answers(reply, old(invites)[id].email, old(accounts), password, session, created)
      ensures reply != Activated && reply != Joined ==> Now() == old(Now())
      ensures reply == Activated || reply == Joined ==>
                tenant.Some? &&
                exists id, user :: JoinsAs(old(Now()), Now(), tenant.value, token, created, now, id, user)
    {
      if tenant.None? { return NotFound; }
      var found := FindPending(tenant.value, token, now);
      if found.None? { return Refused; }
      ghost var before := Now();
      ghost var user;
      reply, user := ActivateWith(tenant.value, found.value, password, session, created, now);
      if reply == Activated || reply == Joined {
        assert JoinsAs(before, Now(), tenant.value, token, created, now, found.value, user);
      }
    }
  }
}
