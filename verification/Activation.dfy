/** Activation as racing clients live it: src/app/api/tenant/activate/route.ts and
    src/lib/auth/invitations.ts, one step per transaction or outside call. Between any two
    steps of one request others move, links are re-issued and swept, and processes die. */
module Activation {
  import opened Text
  import opened Invitations

  /** How far a POST has got: the link found, nobody holding the address, somebody holding
      it, and the user settled on. */
  datatype Proc =
    | Opened(tenant: string, id: string, email: string, longEnough: bool)
    | SigningUp(tenant: string, id: string, email: string)
    | AskingSession(tenant: string, id: string, email: string, account: string, verified: bool)
    | Finishing(tenant: string, id: string, user: string)

  datatype Event = Issued(id: string) | JoinedBy(id: string, user: string)

  /** `issued` remembers every invitation as it was minted, `log` what happened in order. */
  datatype State = State(now: nat, tenants: set<string>, t: Tables, procs: map<nat, Proc>,
                         issued: map<string, Invitation>, log: seq<Event>)

  const EMPTY := State(0, {}, Tables(map[], map[], map[]), map[], map[], [])

  /** The last three are other people's business: accounts made elsewhere, addresses proven
      elsewhere, memberships put in by an operator's script. */
  datatype Step =
    | Tick(ms: nat)
    | Provision(tenant: string, email: string, id: string, token: string)
    | Issue(tenant: string, email: string, role: Role, answers: string, id: string, token: string)
    | Open(p: nat, tenant: string, token: string, longEnough: bool, id: string)
    | LookUp(p: nat, account: Option<string>)
    | SignUp(p: nat, user: string)
    | ReadSession(p: nat, session: Option<string>)
    | Complete(p: nat)
    | Sweep(tenant: string)
    | Crash(p: nat)
    | Register(user: string, email: string, verified: bool)
    | ProveElsewhere(user: string)
    | Appoint(tenant: string, user: string, role: Role, profile: string)

  /** What findAccountByEmail answers. */
  ghost predicate AccountIs(accounts: Accounts, email: string, account: Option<string>) {
    if account.Some? then account.value in accounts && accounts[account.value].email == email
    else forall user :: user in accounts ==> accounts[user].email != email
  }

  function Add(s: State, id: string, invitation: Invitation): State {
    s.(t := s.t.(invites := AfterIssue(s.t.invites, id, invitation)), issued := s.issued[id := invitation],
       log := s.log + [Issued(id)])
  }

  function Spawn(s: State, p: nat, proc: Proc): State {
    s.(procs := s.procs[p := proc])
  }

  function Exit(s: State, p: nat): State {
    s.(procs := s.procs - {p})
  }

  function CompleteBy(s: State, p: nat, tenant: string, id: string, user: string): State {
    if IsClaimable(s.t.invites, tenant, id) then
      Exit(s.(t := Finish(s.t, id, user, s.now), log := s.log + [JoinedBy(id, user)]), p)
    else Exit(s, p)
  }

  ghost predicate MayIssue(s: State, id: string, invitation: Invitation) {
    id !in s.issued && TokenIsNew(s.t.invites, invitation.tenant, invitation.token) && invitation.role != Instructor
  }

  ghost function Provisioned(s: State, id: string, invitation: Invitation): State {
    if invitation.tenant !in s.tenants && MayIssue(s, id, invitation) then
      Add(s.(tenants := s.tenants + {invitation.tenant}), id, invitation)
    else s
  }

  ghost function Invited(s: State, id: string, invitation: Invitation): State {
    if invitation.tenant in s.tenants && MayIssue(s, id, invitation)
       && !RecentlyIssued(s.t.invites, invitation.tenant, invitation.email, s.now) then Add(s, id, invitation)
    else s
  }

  function AfterOpen(s: State, p: nat, tenant: string, token: string, longEnough: bool, id: string): State {
    if p !in s.procs && id in s.t.invites && IsUsable(s.t.invites[id], tenant, token, s.now) then
      Spawn(s, p, Opened(tenant, id, s.t.invites[id].email, longEnough))
    else s
  }

  /** What becomes of a request; None is its end. */
  function Put(s: State, p: nat, next: Option<Proc>): State {
    if next.Some? then Spawn(s, p, next.value) else Exit(s, p)
  }

  function LookedUp(accounts: Accounts, c: Proc, account: Option<string>): Option<Proc>
    requires c.Opened? && (account.Some? ==> account.value in accounts)
  {
    if account.Some? then
      Some(AskingSession(c.tenant, c.id, c.email, account.value, accounts[account.value].verified))
    else if c.longEnough then Some(SigningUp(c.tenant, c.id, c.email))
    else None
  }

  ghost function AfterLookUp(s: State, p: nat, account: Option<string>): State {
    if p in s.procs && s.procs[p].Opened? && AccountIs(s.t.accounts, Normal(s.procs[p].email), account) then
      Put(s, p, LookedUp(s.t.accounts, s.procs[p], account))
    else s
  }

  ghost function AfterSignUp(s: State, p: nat, user: string): State {
    if p in s.procs && s.procs[p].SigningUp? && user !in s.t.accounts
       && AccountIs(s.t.accounts, s.procs[p].email, None) then
      var c := s.procs[p];
      var joined := s.t.(accounts := s.t.accounts[user := Account(c.email, false)]);
      Spawn(s.(t := joined), p, Finishing(c.tenant, c.id, user))
    else s
  }

  /** The session's owner when the address is theirs; otherwise the account itself, unless
      its address is proven, when the request ends asking them to sign in. */
  function SessionRead(accounts: Accounts, c: Proc, session: Option<string>): Option<Proc>
    requires c.AskingSession? && (session.Some? ==> session.value in accounts)
  {
    if session.Some? && Lower(accounts[session.value].email) == c.email then
      Some(Finishing(c.tenant, c.id, session.value))
    else if c.verified then None
    else Some(Finishing(c.tenant, c.id, c.account))
  }

  function AfterSession(s: State, p: nat, session: Option<string>): State {
    if p in s.procs && s.procs[p].AskingSession? && (session.Some? ==> session.value in s.t.accounts) then
      Put(s, p, SessionRead(s.t.accounts, s.procs[p], session))
    else s
  }

  function AfterComplete(s: State, p: nat): State {
    if p in s.procs && s.procs[p].Finishing? then
      CompleteBy(s, p, s.procs[p].tenant, s.procs[p].id, s.procs[p].user)
    else s
  }

  ghost function Registered(s: State, user: string, account: Account): State {
    if user !in s.t.accounts && AccountIs(s.t.accounts, account.email, None) then
      s.(t := s.t.(accounts := s.t.accounts[user := account]))
    else s
  }

  function Appointed(s: State, tenant: string, user: string, membership: Membership): State {
    if tenant in s.tenants && user in s.t.accounts && (tenant, user) !in s.t.members then
      s.(t := s.t.(members := s.t.members[(tenant, user) := membership]))
    else s
  }

  ghost function Next(s: State, step: Step): State {
    match step
    case Tick(ms) => s.(now := s.now + ms)
    case Provision(tenant, email, id, token) =>
      Provisioned(s, id, Minted(tenant, Normal(email), Admin, "", token, s.now))
    case Issue(tenant, email, role, answers, id, token) =>
      Invited(s, id, Minted(tenant, Normal(email), role, answers, token, s.now))
    case Open(p, tenant, token, longEnough, id) => AfterOpen(s, p, tenant, token, longEnough, id)
    case LookUp(p, account) => AfterLookUp(s, p, account)
    case SignUp(p, user) => AfterSignUp(s, p, user)
    case ReadSession(p, session) => AfterSession(s, p, session)
    case Complete(p) => AfterComplete(s, p)
    case Sweep(tenant) => s.(t := s.t.(invites := AfterSweep(s.t.invites, tenant, s.now)))
    case Crash(p) => Exit(s, p)
    case Register(user, email, verified) => Registered(s, user, Account(Normal(email), verified))
    case ProveElsewhere(user) => s.(t := s.t.(accounts := Prove(s.t.accounts, user)))
    case Appoint(tenant, user, role, profile) => Appointed(s, tenant, user, Membership(role, profile))
  }

  ghost function Run(s: State, steps: seq<Step>): State {
    if steps == [] then s else Next(Run(s, steps[..|steps| - 1]), steps[|steps| - 1])
  }

  // ---- What every step keeps --------------------------------------------------------

  /** A row is the invitation as minted, but for its consumption. */
  ghost predicate RowsAreAsIssued(s: State) {
    forall id :: id in s.t.invites ==>
      id in s.issued && s.t.invites[id] == s.issued[id].(consumedAt := s.t.invites[id].consumedAt)
  }

  ghost predicate IssuedOk(s: State) {
    forall id :: id in s.issued ==>
      s.issued[id].tenant in s.tenants && s.issued[id].role != Instructor && s.issued[id].createdAt <= s.now &&
      s.issued[id].expiresAt == s.issued[id].createdAt + TTL && Normal(s.issued[id].email) == s.issued[id].email
  }

  /** The account is the one the invitation was mailed to. */
  ghost predicate Owns(s: State, user: string, id: string) {
    id in s.issued && user in s.t.accounts && s.t.accounts[user].email == s.issued[id].email
  }

  ghost predicate ProcOk(s: State, c: Proc) {
    c.id in s.issued && s.issued[c.id].tenant == c.tenant &&
    match c
    case Opened(_, id, email, _) => email == s.issued[id].email
    case SigningUp(_, id, email) => email == s.issued[id].email
    case AskingSession(_, id, email, account, _) => email == s.issued[id].email && Owns(s, account, id)
    case Finishing(_, id, user) => Owns(s, user, id)
  }

  ghost predicate HasJoined(log: seq<Event>, id: string) {
    exists k :: 0 <= k < |log| && log[k].JoinedBy? && log[k].id == id
  }

  ghost predicate ConsumedIffJoined(s: State) {
    forall id :: id in s.t.invites ==> (s.t.invites[id].consumedAt.Some? <==> HasJoined(s.log, id))
  }

  ghost predicate JoinedOnce(log: seq<Event>) {
    forall i, j :: 0 <= i < j < |log| && log[i].JoinedBy? && log[j].JoinedBy? ==> log[i].id != log[j].id
  }

  ghost predicate EventOk(s: State, e: Event) {
    e.id in s.issued &&
    (e.JoinedBy? ==> Owns(s, e.user, e.id) && (s.issued[e.id].tenant, e.user) in s.t.members)
  }

  ghost predicate TablesOk(s: State) {
    InvitesOk(s.t.invites) && AddressesOk(s.t.accounts) && RowsAreAsIssued(s) && IssuedOk(s)
  }

  ghost predicate HistoryOk(s: State) {
    ConsumedIffJoined(s) && JoinedOnce(s.log) && forall k :: 0 <= k < |s.log| ==> EventOk(s, s.log[k])
  }

  ghost predicate Inv(s: State) {
    TablesOk(s) && HistoryOk(s) && forall p :: p in s.procs ==> ProcOk(s, s.procs[p])
  }

  /** How the world may move under a request: nothing issued is forgotten, and accounts and
      memberships stay, the accounts with their addresses. */
  ghost predicate Later(s: State, n: State) {
    && s.issued.Keys <= n.issued.Keys && (forall id :: id in s.issued ==> n.issued[id] == s.issued[id])
    && s.t.accounts.Keys <= n.t.accounts.Keys
    && (forall u :: u in s.t.accounts ==> n.t.accounts[u].email == s.t.accounts[u].email)
    && s.t.members.Keys <= n.t.members.Keys
  }

  /** Only the acting process changes, and the log gains at most one event. */
  lemma Close(s: State, n: State, p: nat)
    requires Inv(s) && Later(s, n) && TablesOk(n)
    requires forall q :: q in n.procs && q != p ==> q in s.procs && n.procs[q] == s.procs[q]
    requires p in n.procs ==> ProcOk(n, n.procs[p])
    requires n.log == s.log && ConsumedIffJoined(n)
    ensures Inv(n)
  {
    forall q | q in n.procs ensures ProcOk(n, n.procs[q]) {
      if q != p { assert ProcOk(s, s.procs[q]); }
    }
    forall k | 0 <= k < |n.log| ensures EventOk(n, n.log[k]) {
      assert EventOk(s, s.log[k]);
    }
  }

  lemma CloseWithEvent(s: State, n: State, e: Event)
    requires Inv(s) && Later(s, n) && TablesOk(n)
    requires forall q :: q in n.procs ==> q in s.procs && n.procs[q] == s.procs[q]
    requires n.log == s.log + [e] && EventOk(n, e) && ConsumedIffJoined(n)
    requires e.JoinedBy? ==> !HasJoined(s.log, e.id)
    ensures Inv(n)
  {
    forall q | q in n.procs ensures ProcOk(n, n.procs[q]) {
      assert ProcOk(s, s.procs[q]);
    }
    forall k | 0 <= k < |n.log| ensures EventOk(n, n.log[k]) {
      if k < |s.log| { assert EventOk(s, s.log[k]); }
    }
  }

  lemma JoinedAfter(log: seq<Event>, e: Event, id: string)
    ensures HasJoined(log + [e], id) <==> HasJoined(log, id) || (e.JoinedBy? && e.id == id)
  {
    var more := log + [e];
    if HasJoined(log, id) {
      var k :| 0 <= k < |log| && log[k].JoinedBy? && log[k].id == id;
      assert more[k] == log[k];
    }
    assert more[|log|] == e;
  }

  lemma AddKeepsTables(s: State, id: string, invitation: Invitation)
    requires TablesOk(s) && MayIssue(s, id, invitation) && Normal(invitation.email) == invitation.email
    requires invitation.consumedAt.None? && invitation.createdAt == s.now && invitation.expiresAt == s.now + TTL
    ensures TablesOk(Add(s.(tenants := s.tenants + {invitation.tenant}), id, invitation))
  {
    IssueKeepsTables(s.t.invites, id, invitation);
  }

  lemma AddKeepsConsumption(s: State, id: string, invitation: Invitation)
    requires ConsumedIffJoined(s) && !HasJoined(s.log, id) && invitation.consumedAt.None?
    ensures ConsumedIffJoined(Add(s, id, invitation))
  {
    var n := Add(s, id, invitation);
    forall k | k in n.t.invites ensures n.t.invites[k].consumedAt.Some? <==> HasJoined(n.log, k) {
      JoinedAfter(s.log, Issued(id), k);
    }
  }

  lemma AddKeeps(s: State, id: string, invitation: Invitation)
    requires Inv(s) && MayIssue(s, id, invitation) && Normal(invitation.email) == invitation.email
    requires invitation.consumedAt.None? && invitation.createdAt == s.now && invitation.expiresAt == s.now + TTL
    ensures Inv(Add(s.(tenants := s.tenants + {invitation.tenant}), id, invitation))
  {
    var wider := s.(tenants := s.tenants + {invitation.tenant});
    AddKeepsTables(s, id, invitation);
    NeverIssuedNeverJoined(s, id);
    AddKeepsConsumption(wider, id, invitation);
    CloseWithEvent(s, Add(wider, id, invitation), Issued(id));
  }

  lemma NeverIssuedNeverJoined(s: State, id: string)
    requires Inv(s) && id !in s.issued
    ensures !HasJoined(s.log, id)
  {
    forall k | 0 <= k < |s.log| ensures s.log[k].id != id {
      assert EventOk(s, s.log[k]);
    }
  }

  lemma IssueKeeps(s: State, id: string, invitation: Invitation)
    requires Inv(s) && Normal(invitation.email) == invitation.email
    requires invitation.consumedAt.None? && invitation.createdAt == s.now && invitation.expiresAt == s.now + TTL
    ensures Inv(Provisioned(s, id, invitation)) && Inv(Invited(s, id, invitation))
  {
    assert invitation.tenant in s.tenants ==> s.(tenants := s.tenants + {invitation.tenant}) == s;
    if MayIssue(s, id, invitation) { AddKeeps(s, id, invitation); }
  }

  lemma ConsumeKeepsConsumption(s: State, n: State, id: string, user: string)
    requires ConsumedIffJoined(s) && id in s.t.invites && n.t.invites == Consume(s.t.invites, id, s.now)
    requires n.log == s.log + [JoinedBy(id, user)]
    ensures ConsumedIffJoined(n)
  {
    forall k | k in n.t.invites ensures n.t.invites[k].consumedAt.Some? <==> HasJoined(n.log, k) {
      JoinedAfter(s.log, JoinedBy(id, user), k);
    }
  }

  lemma ConsumeKeepsRows(s: State, n: State, id: string, user: string)
    requires TablesOk(s) && id in s.t.invites
    requires n == s.(t := Finish(s.t, id, user, s.now), log := n.log, procs := n.procs)
    ensures TablesOk(n) && Later(s, n)
  {
    ConsumeKeepsTables(s.t.invites, id, s.now);
  }

  lemma CompleteKeeps(s: State, p: nat, tenant: string, id: string, user: string)
    requires Inv(s) && id in s.issued && s.issued[id].tenant == tenant && Owns(s, user, id)
    ensures Inv(CompleteBy(s, p, tenant, id, user))
  {
    var n := CompleteBy(s, p, tenant, id, user);
    if IsClaimable(s.t.invites, tenant, id) {
      ConsumeKeepsRows(s, n, id, user);
      ConsumeKeepsConsumption(s, n, id, user);
      CloseWithEvent(s, n, JoinedBy(id, user));
    } else {
      CloseProcs(s, n, p);
    }
  }

  /** Only the acting process moves. */
  lemma CloseProcs(s: State, n: State, p: nat)
    requires Inv(s) && n == s.(procs := n.procs)
    requires forall q :: q in n.procs && q != p ==> q in s.procs && n.procs[q] == s.procs[q]
    requires p in n.procs ==> ProcOk(s, n.procs[p])
    ensures Inv(n)
  {
    Close(s, n, p);
  }

  /** The accounts move too. */
  lemma CloseAccounts(s: State, n: State, p: nat)
    requires Inv(s) && n == s.(t := s.t.(accounts := n.t.accounts), procs := n.procs)
    requires AddressesOk(n.t.accounts) && s.t.accounts.Keys <= n.t.accounts.Keys
    requires forall u :: u in s.t.accounts ==> n.t.accounts[u].email == s.t.accounts[u].email
    requires forall q :: q in n.procs && q != p ==> q in s.procs && n.procs[q] == s.procs[q]
    requires p in n.procs ==> ProcOk(n, n.procs[p])
    ensures Inv(n)
  {
    Close(s, n, p);
  }

  lemma NewAddressKeeps(accounts: Accounts, user: string, email: string, verified: bool)
    requires AddressesOk(accounts) && user !in accounts && AccountIs(accounts, email, None) && Normal(email) == email
    ensures AddressesOk(accounts[user := Account(email, verified)])
  {
  }

  lemma ProcIsOk(s: State, p: nat)
    requires Inv(s) && p in s.procs
    ensures ProcOk(s, s.procs[p])
  {
  }

  lemma OpenKeeps(s: State, p: nat, tenant: string, token: string, longEnough: bool, id: string)
    requires Inv(s)
    ensures Inv(AfterOpen(s, p, tenant, token, longEnough, id))
  {
    CloseProcs(s, AfterOpen(s, p, tenant, token, longEnough, id), p);
  }

  lemma LookedUpOk(s: State, c: Proc, account: Option<string>)
    requires ProcOk(s, c) && c.Opened? && IssuedOk(s) && AccountIs(s.t.accounts, Normal(c.email), account)
    ensures var next := LookedUp(s.t.accounts, c, account); next.Some? ==> ProcOk(s, next.value)
  {
  }

  lemma LookUpKeeps(s: State, p: nat, account: Option<string>)
    requires Inv(s)
    ensures Inv(AfterLookUp(s, p, account))
  {
    var n := AfterLookUp(s, p, account);
    if n != s {
      ProcIsOk(s, p);
      LookedUpOk(s, s.procs[p], account);
      CloseProcs(s, n, p);
    }
  }

  lemma SessionReadOk(s: State, c: Proc, session: Option<string>)
    requires ProcOk(s, c) && c.AskingSession? && AddressesOk(s.t.accounts)
    requires session.Some? ==> session.value in s.t.accounts
    ensures var next := SessionRead(s.t.accounts, c, session); next.Some? ==> ProcOk(s, next.value)
  {
  }

  lemma ReadSessionKeeps(s: State, p: nat, session: Option<string>)
    requires Inv(s)
    ensures Inv(AfterSession(s, p, session))
  {
    var n := AfterSession(s, p, session);
    if n != s {
      ProcIsOk(s, p);
      SessionReadOk(s, s.procs[p], session);
      CloseProcs(s, n, p);
    }
  }

  lemma SignUpKeeps(s: State, p: nat, user: string)
    requires Inv(s)
    ensures Inv(AfterSignUp(s, p, user))
  {
    var n := AfterSignUp(s, p, user);
    if n != s {
      ProcIsOk(s, p);
      NewAddressKeeps(s.t.accounts, user, s.procs[p].email, false);
      CloseAccounts(s, n, p);
    }
  }

  lemma CompleteStepKeeps(s: State, p: nat)
    requires Inv(s)
    ensures Inv(AfterComplete(s, p))
  {
    if p in s.procs && s.procs[p].Finishing? {
      ProcIsOk(s, p);
      CompleteKeeps(s, p, s.procs[p].tenant, s.procs[p].id, s.procs[p].user);
    }
  }

  lemma SweepKeeps(s: State, tenant: string)
    requires Inv(s)
    ensures Inv(Next(s, Sweep(tenant)))
  {
    var n := s.(t := s.t.(invites := AfterSweep(s.t.invites, tenant, s.now)));
    SweepKeepsTables(s.t.invites, tenant, s.now);
    NobodyMoves(s, n);
    Close(s, n, 0);
  }

  lemma RegisterKeeps(s: State, user: string, account: Account)
    requires Inv(s) && Normal(account.email) == account.email
    ensures Inv(Registered(s, user, account))
  {
    var n := Registered(s, user, account);
    if n != s {
      NewAddressKeeps(s.t.accounts, user, account.email, account.verified);
      NobodyMoves(s, n);
      CloseAccounts(s, n, 0);
    }
  }

  lemma NobodyMoves(s: State, n: State)
    requires Inv(s) && Later(s, n) && n.procs == s.procs
    ensures forall q :: q in n.procs ==> ProcOk(n, n.procs[q])
  {
  }

  lemma AppointKeeps(s: State, tenant: string, user: string, membership: Membership)
    requires Inv(s)
    ensures Inv(Appointed(s, tenant, user, membership))
  {
    var n := Appointed(s, tenant, user, membership);
    NobodyMoves(s, n);
    Close(s, n, 0);
  }

  lemma TickKeeps(s: State, ms: nat)
    requires Inv(s)
    ensures Inv(s.(now := s.now + ms))
  {
  }

  lemma ProveKeeps(s: State, user: string)
    requires Inv(s)
    ensures Inv(s.(t := s.t.(accounts := Prove(s.t.accounts, user))))
  {
    var n := s.(t := s.t.(accounts := Prove(s.t.accounts, user)));
    NobodyMoves(s, n);
    CloseAccounts(s, n, 0);
  }

  predicate IsRequest(step: Step) {
    step.Open? || step.LookUp? || step.SignUp? || step.ReadSession? || step.Complete? || step.Crash?
  }

  lemma RequestKeeps(s: State, step: Step)
    requires Inv(s) && IsRequest(step)
    ensures Inv(Next(s, step))
  {
    match step
    case Open(p, tenant, token, longEnough, id) => OpenKeeps(s, p, tenant, token, longEnough, id);
    case LookUp(p, account) => LookUpKeeps(s, p, account);
    case SignUp(p, user) => SignUpKeeps(s, p, user);
    case ReadSession(p, session) => ReadSessionKeeps(s, p, session);
    case Complete(p) => CompleteStepKeeps(s, p);
    case Crash(p) => CloseProcs(s, Exit(s, p), p);
  }

  lemma StepKeeps(s: State, step: Step)
    requires Inv(s)
    ensures Inv(Next(s, step))
  {
    match step
    case Tick(ms) => TickKeeps(s, ms);
    case Provision(tenant, email, id, token) =>
      NormalFormOnce(email);
      IssueKeeps(s, id, Minted(tenant, Normal(email), Admin, "", token, s.now));
    case Issue(tenant, email, role, answers, id, token) =>
      NormalFormOnce(email);
      IssueKeeps(s, id, Minted(tenant, Normal(email), role, answers, token, s.now));
    case Sweep(tenant) => SweepKeeps(s, tenant);
    case Register(user, email, verified) =>
      NormalFormOnce(email);
      RegisterKeeps(s, user, Account(Normal(email), verified));
    case ProveElsewhere(user) => ProveKeeps(s, user);
    case Appoint(tenant, user, role, profile) => AppointKeeps(s, tenant, user, Membership(role, profile));
    case _ => RequestKeeps(s, step);
  }

  lemma {:induction false} RunKeeps(s: State, steps: seq<Step>)
    requires Inv(s)
    ensures Inv(Run(s, steps))
  {
    if steps != [] {
      RunKeeps(s, steps[..|steps| - 1]);
      StepKeeps(Run(s, steps[..|steps| - 1]), steps[|steps| - 1]);
    }
  }
}
