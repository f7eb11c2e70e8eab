/** Granting and revoking by hand, with the audit log: src/lib/entitlements/grants.ts. */
module Grants {
  import opened Text
  import opened Access

  datatype GrantRequest = GrantRequest(tenant: string, actor: string, user: string, kind: SourceKind, source: string,
                                       expiresAt: Option<nat>, reason: Option<string>)

  /** `Threw`: the insert broke a key, and its transaction with it. */
  datatype GrantOutcome = Given(id: string) | Already | PastExpiry | NotAMember | NoSuchSource | Threw

  datatype AuditRow =
    | Granted(tenant: string, actor: string, id: string, user: string, kind: SourceKind, source: string,
              expiresAt: Option<nat>, reason: Option<string>)
    | Revoked(tenant: string, actor: string, id: string, user: string, kind: SourceKind, source: string,
              wasGranted: bool, reason: Option<string>)

  datatype Ledger = Ledger(db: Db, audit: seq<AuditRow>)

  predicate SourceExists(db: Db, tenant: string, kind: SourceKind, source: string) {
    (kind, source) in GrantableSources(db, tenant)
  }

  predicate IsFor(e: Enrollment, r: GrantRequest) {
    e.tenant == r.tenant && e.user == r.user && e.kind == r.kind && e.source == r.source
  }

  predicate HasOne(enrollments: map<string, Enrollment>, r: GrantRequest) {
    exists id :: id in enrollments && IsFor(enrollments[id], r)
  }

  /** The answers in the order the checks are made. The last two checks are the primary key's
      and the grantor's foreign key. */
  function GrantAnswer(db: Db, r: GrantRequest, id: string, now: nat): GrantOutcome {
    if r.expiresAt.Some? && r.expiresAt.value <= now then PastExpiry
    else if FindMembership(db, r.tenant, r.user).None? then NotAMember
    else if !SourceExists(db, r.tenant, r.kind, r.source) then NoSuchSource
    else if HasOne(db.enrollments, r) then Already
    else if id in db.enrollments || FindMembership(db, r.tenant, r.actor).None? then Threw
    else Given(id)
  }

  /** Each refusal by its rows: what is asked first is answered first. */
  lemma AnswersExactly(db: Db, r: GrantRequest, id: string, now: nat)
    ensures var answer := GrantAnswer(db, r, id, now);
            var past := r.expiresAt.Some? && r.expiresAt.value <= now;
            var member := (r.tenant, r.user) in db.members;
            var source := match r.kind
                          case OfProgram => r.source in db.programs && db.programs[r.source].tenant == r.tenant
                          case OfCourse => r.source in db.courses && db.courses[r.source].tenant == r.tenant;
            var taken := exists k :: k in db.enrollments && db.enrollments[k].tenant == r.tenant &&
                           db.enrollments[k].user == r.user && db.enrollments[k].kind == r.kind &&
                           db.enrollments[k].source == r.source;
            && (answer == PastExpiry <==> past)
            && (answer == NotAMember <==> !past && !member)
            && (answer == NoSuchSource <==> !past && member && !source)
            && (answer == Already <==> !past && member && source && taken)
  {
  }

  function AsEnrollment(r: GrantRequest): Enrollment {
    Enrollment(r.tenant, r.user, r.kind, r.source, r.expiresAt, Some(r.actor))
  }

  datatype Op =
    | Grant(request: GrantRequest, id: string, now: nat)
    | Revoke(tenant: string, actor: string, id: string, reason: Option<string>)

  function Apply(l: Ledger, op: Op): Ledger {
    match op
    case Grant(r, id, now) =>
      if GrantAnswer(l.db, r, id, now).Given? then
        Ledger(l.db.(enrollments := l.db.enrollments[id := AsEnrollment(r)]),
               l.audit + [Granted(r.tenant, r.actor, id, r.user, r.kind, r.source, r.expiresAt, r.reason)])
      else l
    case Revoke(tenant, actor, id, reason) =>
      if id in l.db.enrollments && l.db.enrollments[id].tenant == tenant then
        var e := l.db.enrollments[id];
        Ledger(l.db.(enrollments := l.db.enrollments - {id}),
               l.audit + [Revoked(tenant, actor, id, e.user, e.kind, e.source, e.grantedBy.Some?, reason)])
      else l
  }

  function Run(l: Ledger, ops: seq<Op>): Ledger {
    if ops == [] then l else Apply(Run(l, ops[..|ops| - 1]), ops[|ops| - 1])
  }

  class EnrollmentDesk {
    var db: Db
    var audit: seq<AuditRow>

    ghost function Now(): Ledger
      reads this
    {
      Ledger(db, audit)
    }

    constructor (db: Db)
      ensures this.db == db && audit == []
    {
      this.db, audit := db, [];
    }

    /** grantEnrollment. `id`: what the database would call the new row. */
    method GrantEnrollment(r: GrantRequest, id: string, now: nat) returns (outcome: GrantOutcome)
      modifies this
      ensures Now() == Apply(old(Now()), Grant(r, id, now))
      ensures outcome.Given? <==>
                && (r.expiresAt.Some? ==> r.expiresAt.value > now) && (r.tenant, r.user) in old(db).members
                && SourceExists(old(db), r.tenant, r.kind, r.source) && !HasOne(old(db).enrollments, r)
                && id !in old(db).enrollments && (r.tenant, r.actor) in old(db).members
      ensures outcome == GrantAnswer(old(db), r, id, now)
      ensures outcome.Given? ==>
                var row := Enrollment(r.tenant, r.user, r.kind, r.source, r.expiresAt, Some(r.actor));
                outcome.id == id && db == old(db).(enrollments := old(db).enrollments[id := row]) &&
                audit == old(audit) + [Granted(r.tenant, r.actor, id, r.user, r.kind, r.source, r.expiresAt, r.reason)]
      ensures !outcome.Given? ==> Now() == old(Now())
      ensures outcome.Given? ==> db.enrollments - {id} == old(db).enrollments
    {
      if r.expiresAt.Some? && r.expiresAt.value <= now { return PastExpiry; }
      if (r.tenant, r.user) !in db.members { return NotAMember; }
      if !SourceExists(db, r.tenant, r.kind, r.source) { return NoSuchSource; }
      if other :| other in db.enrollments && IsFor(db.enrollments[other], r) { return Already; }
      if id in db.enrollments || (r.tenant, r.actor) !in db.members { return Threw; }
      assert db.enrollments[id := AsEnrollment(r)] - {id} == db.enrollments;
      db := db.(enrollments := db.enrollments[id := AsEnrollment(r)]);
      audit := audit + [Granted(r.tenant, r.actor, id, r.user, r.kind, r.source, r.expiresAt, r.reason)];
      return Given(id);
    }

    /** revokeEnrollment. Another institute's row answers as one that never was. */
    method RevokeEnrollment(tenant: string, actor: string, id: string, reason: Option<string>) returns (revoked: bool)
      modifies this
      ensures Now() == Apply(old(Now()), Revoke(tenant, actor, id, reason))
      ensures revoked <==> id in old(db).enrollments && old(db).enrollments[id].tenant == tenant
      ensures !revoked ==> Now() == old(Now())
      ensures id in db.enrollments ==> id in old(db).enrollments && old(db).enrollments[id].tenant != tenant
      ensures revoked ==>
                var e := old(db).enrollments[id];
                db == old(db).(enrollments := old(db).enrollments - {id}) &&
                audit == old(audit) + [Revoked(tenant, actor, id, e.user, e.kind, e.source, e.grantedBy.Some?, reason)]
    {
      if id !in db.enrollments || db.enrollments[id].tenant != tenant { return false; }
      var e := db.enrollments[id];
      db := db.(enrollments := db.enrollments - {id});
      audit := audit + [Revoked(tenant, actor, id, e.user, e.kind, e.source, e.grantedBy.Some?, reason)];
      return true;
    }
  }

  // ---- The log is the history -------------------------------------------------------

  function ReplayRow(enrollments: map<string, Enrollment>, row: AuditRow): map<string, Enrollment> {
    match row
    case Granted(tenant, actor, id, user, kind, source, expiresAt, _) =>
      enrollments[id := Enrollment(tenant, user, kind, source, expiresAt, Some(actor))]
    case Revoked(_, _, id, _, _, _, _, _) => enrollments - {id}
  }

  /** The table as the log alone tells it. */
  function Replay(initial: map<string, Enrollment>, audit: seq<AuditRow>): map<string, Enrollment> {
    if audit == [] then initial else ReplayRow(Replay(initial, audit[..|audit| - 1]), audit[|audit| - 1])
  }

  lemma ReplayOneMore(initial: map<string, Enrollment>, audit: seq<AuditRow>, row: AuditRow)
    ensures Replay(initial, audit + [row]) == ReplayRow(Replay(initial, audit), row)
  {
  }

  /** The row an operation writes is all that is needed to do it again. */
  lemma OneOpReplays(initial: map<string, Enrollment>, l: Ledger, op: Op)
    requires Replay(initial, l.audit) == l.db.enrollments
    ensures Replay(initial, Apply(l, op).audit) == Apply(l, op).db.enrollments
  {
    match op
    case Grant(r, id, now) =>
      ReplayOneMore(initial, l.audit, Granted(r.tenant, r.actor, id, r.user, r.kind, r.source, r.expiresAt, r.reason));
    case Revoke(tenant, actor, id, reason) =>
      if id in l.db.enrollments {
        var e := l.db.enrollments[id];
        var row := Revoked(tenant, actor, id, e.user, e.kind, e.source, e.grantedBy.Some?, reason);
        ReplayOneMore(initial, l.audit, row);
      }
  }

  /** After any run of grants and revocations, replaying its audit rows over the table it
      began with gives the table it ended with: id, user, source, expiry and grantor. */
  lemma {:induction false} ReplayReproduces(l: Ledger, ops: seq<Op>)
    requires l.audit == []
    ensures Replay(l.db.enrollments, Run(l, ops).audit) == Run(l, ops).db.enrollments
  {
    if ops != [] {
      ReplayReproduces(l, ops[..|ops| - 1]);
      OneOpReplays(l.db.enrollments, Run(l, ops[..|ops| - 1]), ops[|ops| - 1]);
    }
  }

  /** The unique key on (tenant, user, kind, source), kept by the check that reads first. */
  ghost predicate OneEach(enrollments: map<string, Enrollment>) {
    forall a, b | a in enrollments && b in enrollments && enrollments[a].tenant == enrollments[b].tenant
                  && enrollments[a].user == enrollments[b].user && enrollments[a].kind == enrollments[b].kind
                  && enrollments[a].source == enrollments[b].source :: a == b
  }

  ghost predicate MembersOnly(db: Db) {
    forall id :: id in db.enrollments ==>
      var e := db.enrollments[id];
      (e.tenant, e.user) in db.members && (e.grantedBy.Some? ==> (e.tenant, e.grantedBy.value) in db.members)
  }

  lemma {:induction false} RunKeepsKeys(l: Ledger, ops: seq<Op>)
    requires OneEach(l.db.enrollments) && MembersOnly(l.db)
    ensures OneEach(Run(l, ops).db.enrollments) && MembersOnly(Run(l, ops).db)
    ensures Run(l, ops).db == l.db.(enrollments := Run(l, ops).db.enrollments)
  {
    if ops != [] {
      RunKeepsKeys(l, ops[..|ops| - 1]);
      OneOpKeepsKeys(Run(l, ops[..|ops| - 1]), ops[|ops| - 1]);
    }
  }

  lemma OneOpKeepsKeys(l: Ledger, op: Op)
    requires OneEach(l.db.enrollments) && MembersOnly(l.db)
    ensures OneEach(Apply(l, op).db.enrollments) && MembersOnly(Apply(l, op).db)
    ensures Apply(l, op).db == l.db.(enrollments := Apply(l, op).db.enrollments)
  {
    if op.Grant? && GrantAnswer(l.db, op.request, op.id, op.now).Given? {
      GrantKeepsKeys(l.db, op.request, op.id, op.now);
    }
  }

  lemma GrantKeepsKeys(db: Db, r: GrantRequest, id: string, now: nat)
    requires OneEach(db.enrollments) && MembersOnly(db) && GrantAnswer(db, r, id, now).Given?
    ensures var n := db.(enrollments := db.enrollments[id := AsEnrollment(r)]); OneEach(n.enrollments) && MembersOnly(n)
  {
    assert forall k :: k in db.enrollments ==> !IsFor(db.enrollments[k], r);
  }

  // ---- What a grant opens -----------------------------------------------------------

  lemma EntitledAfterGrant(l: Ledger, r: GrantRequest, id: string, now: nat,
                           tenant: string, user: string, course: string, at: nat)
    requires GrantAnswer(l.db, r, id, now).Given?
    ensures HasActiveEntitlement(Apply(l, Grant(r, id, now)).db, tenant, user, course, at)
            <==> HasActiveEntitlement(l.db, tenant, user, course, at)
                 || Entitles(l.db.contents, tenant, AsEnrollment(r), user, course, at)
  {
    var db := Apply(l, Grant(r, id, now)).db;
    assert db.enrollments[id] == AsEnrollment(r);
    if HasActiveEntitlement(l.db, tenant, user, course, at) {
      var before := l.db.enrollments;
      var other :| other in before && Entitles(l.db.contents, tenant, before[other], user, course, at);
      assert db.enrollments[other] == l.db.enrollments[other];
    }
  }

  /** A grant opens, to its one person and until it expires, exactly the lessons of the
      courses it covers, and moves no other answer of the predicate at any institute. */
  lemma GrantOpensExactly(l: Ledger, r: GrantRequest, id: string, now: nat,
                          tenant: string, user: Option<string>, lesson: string, at: nat)
    requires GrantAnswer(l.db, r, id, now).Given?
    ensures var after := Apply(l, Grant(r, id, now)).db;
            var found := FindLessonWithCourse(l.db, tenant, lesson);
            DecideLessonAccess(after, tenant, user, lesson, at).Allowed?
            <==> DecideLessonAccess(l.db, tenant, user, lesson, at).Allowed?
                 || (found.Some? && user.Some? &&
                     Entitles(l.db.contents, tenant, AsEnrollment(r), user.value, found.value.course, at))
  {
    var found := FindLessonWithCourse(l.db, tenant, lesson);
    if user.Some? && found.Some? {
      EntitledAfterGrant(l, r, id, now, tenant, user.value, found.value.course, at);
    }
  }

  /** The operation names neither this row nor what it was granted for. */
  predicate IsApart(op: Op, r: GrantRequest, id: string) {
    match op
    case Grant(other, otherId, _) => otherId != id && !IsFor(AsEnrollment(r), other)
    case Revoke(_, _, otherId, _) => otherId != id
  }

  /** The same ledger, were this one row in it as well. */
  predicate HasAlso(more: Ledger, l: Ledger, r: GrantRequest, id: string) {
    id !in l.db.enrollments && more.db == l.db.(enrollments := l.db.enrollments[id := AsEnrollment(r)])
  }

  lemma SameAnswerWithRow(more: Ledger, l: Ledger, r: GrantRequest, id: string, other: GrantRequest, otherId: string,
                          now: nat)
    requires HasAlso(more, l, r, id) && otherId != id && !IsFor(AsEnrollment(r), other)
    ensures GrantAnswer(more.db, other, otherId, now) == GrantAnswer(l.db, other, otherId, now)
  {
    var with, without := more.db.enrollments, l.db.enrollments;
    assert forall k :: k in with <==> k in without || k == id;
    assert HasOne(with, other) <==> HasOne(without, other) by {
      if HasOne(without, other) {
        var k :| k in without && IsFor(without[k], other);
        assert k in with && with[k] == without[k];
      }
    }
    assert GrantableSources(more.db, other.tenant) == GrantableSources(l.db, other.tenant);
  }

  lemma ApartKeepsRow(more: Ledger, l: Ledger, r: GrantRequest, id: string, op: Op)
    requires HasAlso(more, l, r, id) && IsApart(op, r, id)
    ensures HasAlso(Apply(more, op), Apply(l, op), r, id)
  {
    match op
    case Grant(other, otherId, now) =>
      SameAnswerWithRow(more, l, r, id, other, otherId, now);
      assert l.db.enrollments[id := AsEnrollment(r)][otherId := AsEnrollment(other)]
             == l.db.enrollments[otherId := AsEnrollment(other)][id := AsEnrollment(r)];
    case Revoke(_, _, otherId, _) =>
      assert l.db.enrollments[id := AsEnrollment(r)] - {otherId}
             == (l.db.enrollments - {otherId})[id := AsEnrollment(r)];
  }

  lemma {:induction false} RunApartKeepsRow(more: Ledger, l: Ledger, r: GrantRequest, id: string, ops: seq<Op>)
    requires HasAlso(more, l, r, id) && forall op :: op in ops ==> IsApart(op, r, id)
    ensures HasAlso(Run(more, ops), Run(l, ops), r, id)
  {
    if ops != [] {
      RunApartKeepsRow(more, l, r, id, ops[..|ops| - 1]);
      ApartKeepsRow(Run(more, ops[..|ops| - 1]), Run(l, ops[..|ops| - 1]), r, id, ops[|ops| - 1]);
    }
  }

  lemma {:induction false} RunAfter(l: Ledger, first: Op, ops: seq<Op>)
    ensures Run(l, [first] + ops) == Run(Apply(l, first), ops)
  {
    if ops == [] {
      assert [first] + ops == [first] && [first][..0] == [];
      assert Run(l, []) == l;
    } else {
      RunAfter(l, first, ops[..|ops| - 1]);
      assert ([first] + ops)[..|ops|] == [first] + ops[..|ops| - 1];
    }
  }

  /** A grant and, after whatever else that has nothing to do with it, its revocation leave
      every table as the rest alone would have: no decision for anybody about anything shows
      that the grant ever was. */
  lemma RevokeUndoesGrant(l: Ledger, r: GrantRequest, id: string, now: nat, ops: seq<Op>, actor: string,
                          reason: Option<string>)
    requires GrantAnswer(l.db, r, id, now).Given? && forall op :: op in ops ==> IsApart(op, r, id)
    ensures var after := Run(l, [Grant(r, id, now)] + ops + [Revoke(r.tenant, actor, id, reason)]);
            && after.db == Run(l, ops).db && after.audit != []
            && after.audit[|after.audit| - 1] == Revoked(r.tenant, actor, id, r.user, r.kind, r.source, true, reason)
  {
    var g, v := Grant(r, id, now), Revoke(r.tenant, actor, id, reason);
    RunAfter(l, g, ops);
    RunApartKeepsRow(Apply(l, g), l, r, id, ops);
    var middle := Run(l, [g] + ops);
    assert ([g] + ops + [v])[..|ops| + 1] == [g] + ops;
    assert Run(l, [g] + ops + [v]) == Apply(middle, v);
    assert middle.db.enrollments - {id} == Run(l, ops).db.enrollments;
  }

  // ---- Elsewhere --------------------------------------------------------------------

  function TenantOf(op: Op): string {
    match op case Grant(r, _, _) => r.tenant case Revoke(tenant, _, _, _) => tenant
  }

  lemma OneOpElsewhere(l: Ledger, op: Op, tenant: string)
    requires TenantOf(op) != tenant
    ensures Restrict(Apply(l, op).db, tenant) == Restrict(l.db, tenant)
  {
    var before, after := l.db.enrollments, Apply(l, op).db.enrollments;
    forall id | id in before || id in after
      ensures id in after && after[id].tenant == tenant <==> id in before && before[id].tenant == tenant
      ensures id in before && before[id].tenant == tenant ==> after[id] == before[id]
    {
    }
    assert Apply(l, op).db == l.db.(enrollments := after);
    assert Restrict(Apply(l, op).db, tenant).enrollments == Restrict(l.db, tenant).enrollments;
  }

  lemma {:induction false} RunElsewhere(l: Ledger, ops: seq<Op>, tenant: string)
    requires forall op :: op in ops ==> TenantOf(op) != tenant
    ensures Restrict(Run(l, ops).db, tenant) == Restrict(l.db, tenant)
  {
    if ops != [] {
      RunElsewhere(l, ops[..|ops| - 1], tenant);
      OneOpElsewhere(Run(l, ops[..|ops| - 1]), ops[|ops| - 1], tenant);
    }
  }

  /** However much is granted and revoked at other institutes, for the same people and naming
      the same courses, no lesson here opens or closes. */
  lemma GrantsElsewhereOpenNothingHere(l: Ledger, ops: seq<Op>, tenant: string, user: string, lesson: string, at: nat)
    requires forall op :: op in ops ==> TenantOf(op) != tenant
    ensures DecideLessonAccess(Run(l, ops).db, tenant, Some(user), lesson, at)
            == DecideLessonAccess(l.db, tenant, Some(user), lesson, at)
  {
    RunElsewhere(l, ops, tenant);
    WritesElsewhereChangeNothing(Run(l, ops).db, l.db, tenant, user, lesson, at);
  }
}
