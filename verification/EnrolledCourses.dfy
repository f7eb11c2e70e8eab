/** The profile page's list, src/db/repositories/entitlements.ts:225-330: two joins and a fold
    that keeps the entitlement still good, against the predicate that opens lessons. */
module EnrolledCourses {
  import opened Text
  import opened Access

  datatype Reached = Reached(course: string, via: SourceKind, expiresAt: Option<nat>, granted: bool)

  function AsReached(e: Enrollment, course: string): Reached {
    Reached(course, e.kind, e.expiresAt, e.grantedBy.Some?)
  }

  predicate IsOf(e: Enrollment, tenant: string, user: string, kind: SourceKind) {
    e.tenant == tenant && e.user == user && e.kind == kind
  }

  /** enrollments joined to courses. */
  ghost predicate IsDirect(db: Db, tenant: string, user: string, r: Reached) {
    exists id :: id in db.enrollments && IsOf(db.enrollments[id], tenant, user, OfCourse) &&
      CourseExists(db, tenant, db.enrollments[id].source) &&
      r == AsReached(db.enrollments[id], db.enrollments[id].source)
  }

  predicate ProgramExists(db: Db, tenant: string, program: string) {
    program in db.programs && db.programs[program].tenant == tenant
  }

  /** enrollments joined to programs, their contents and those courses. */
  ghost predicate IsViaProgram(db: Db, tenant: string, user: string, r: Reached) {
    exists id :: id in db.enrollments && IsOf(db.enrollments[id], tenant, user, OfProgram) &&
      ProgramExists(db, tenant, db.enrollments[id].source) && CourseExists(db, tenant, r.course) &&
      (tenant, db.enrollments[id].source, r.course) in db.contents && r == AsReached(db.enrollments[id], r.course)
  }

  /** Whether the fold lets the candidate take the place: it must open for strictly longer. */
  predicate Outranks(candidate: Reached, incumbent: Reached) {
    if incumbent.expiresAt.None? then false
    else if candidate.expiresAt.None? then true
    else candidate.expiresAt.value > incumbent.expiresAt.value
  }

  // ---- The fold ---------------------------------------------------------------------

  /** The first row of its course that no row of the course outranks. */
  ghost predicate IsBest(rows: seq<Reached>, i: nat) {
    && i < |rows|
    && (forall j :: 0 <= j < |rows| && rows[j].course == rows[i].course ==> !Outranks(rows[j], rows[i]))
    && (forall j :: 0 <= j < i && rows[j].course == rows[i].course ==> Outranks(rows[i], rows[j]))
  }

  ghost predicate IsFolded(rows: seq<Reached>, best: map<string, Reached>) {
    && (forall i :: 0 <= i < |rows| ==> rows[i].course in best)
    && (forall c :: c in best ==> exists i: nat :: IsBest(rows, i) && rows[i] == best[c] && rows[i].course == c)
  }

  function Placed(best: map<string, Reached>, row: Reached): map<string, Reached> {
    if row.course !in best || Outranks(row, best[row.course]) then best[row.course := row] else best
  }

  lemma BestRow(rows: seq<Reached>, best: map<string, Reached>, c: string) returns (i: nat)
    requires IsFolded(rows, best) && c in best
    ensures IsBest(rows, i) && rows[i] == best[c] && rows[i].course == c
  {
    i :| IsBest(rows, i) && rows[i] == best[c] && rows[i].course == c;
  }

  lemma BestStays(rows: seq<Reached>, i: nat, row: Reached)
    requires IsBest(rows, i) && (rows[i].course != row.course || !Outranks(row, rows[i]))
    ensures IsBest(rows + [row], i)
  {
  }

  lemma NewIsBest(rows: seq<Reached>, row: Reached)
    requires forall j :: 0 <= j < |rows| && rows[j].course == row.course ==> Outranks(row, rows[j])
    ensures IsBest(rows + [row], |rows|)
  {
  }

  /** One more row: it displaces the incumbent only by outranking it. */
  lemma FoldOneMore(rows: seq<Reached>, best: map<string, Reached>, row: Reached)
    requires IsFolded(rows, best)
    ensures IsFolded(rows + [row], Placed(best, row))
  {
    var more, next := rows + [row], Placed(best, row);
    forall c | c in next ensures exists i: nat :: IsBest(more, i) && more[i] == next[c] && more[i].course == c {
      if c in best && (c != row.course || !Outranks(row, best[c])) {
        var i := BestRow(rows, best, c);
        BestStays(rows, i, row);
        assert more[i] == next[c];
      } else {
        if c in best {
          var i := BestRow(rows, best, c);
          assert forall j :: 0 <= j < |rows| && rows[j].course == c ==> !Outranks(rows[j], rows[i]);
        }
        NewIsBest(rows, row);
        assert more[|rows|] == next[c];
      }
    }
    forall i | 0 <= i < |more| ensures more[i].course in next {}
  }

  lemma FoldUpTo(rows: seq<Reached>, k: nat, best: map<string, Reached>)
    requires k < |rows| && IsFolded(rows[..k], best)
    ensures IsFolded(rows[..k + 1], Placed(best, rows[k]))
  {
    FoldOneMore(rows[..k], best, rows[k]);
    assert rows[..k + 1] == rows[..k] + [rows[k]];
  }

  method KeepBest(rows: seq<Reached>) returns (best: map<string, Reached>)
    ensures IsFolded(rows, best)
  {
    best := map[];
    for k := 0 to |rows|
      invariant IsFolded(rows[..k], best)
    {
      var row := rows[k];
      ghost var next := Placed(best, row);
      FoldUpTo(rows, k, best);
      if row.course !in best || Outranks(row, best[row.course]) {
        best := best[row.course := row];
      }
      assert best == next;
    }
    assert rows[..|rows|] == rows;
  }

  lemma ListedInBoth(rows: seq<Reached>, shuffled: seq<Reached>, best: map<string, Reached>,
                     other: map<string, Reached>, c: string)
    requires IsFolded(rows, best) && IsFolded(shuffled, other) && forall r :: r in rows ==> r in shuffled
    requires c in best
    ensures c in other && !Outranks(best[c], other[c])
  {
    var i := BestRow(rows, best, c);
    assert rows[i] in shuffled;
    var k :| 0 <= k < |shuffled| && shuffled[k] == rows[i];
    var j := BestRow(shuffled, other, c);
    assert !Outranks(shuffled[k], shuffled[j]);
  }

  /** Whatever order the rows came in, a course is listed with the same expiry, and it is
      listed or not. */
  lemma OrderDoesNotMatter(rows: seq<Reached>, shuffled: seq<Reached>, best: map<string, Reached>,
                           other: map<string, Reached>)
    requires IsFolded(rows, best) && IsFolded(shuffled, other)
    requires (forall r :: r in rows ==> r in shuffled) && (forall r :: r in shuffled ==> r in rows)
    ensures best.Keys == other.Keys && forall c :: c in best ==> best[c].expiresAt == other[c].expiresAt
  {
    forall c | c in best ensures c in other && !Outranks(best[c], other[c]) {
      ListedInBoth(rows, shuffled, best, other, c);
    }
    forall c | c in other ensures c in best && !Outranks(other[c], best[c]) {
      ListedInBoth(shuffled, rows, other, best, c);
    }
  }

  // ---- The list and the predicate ---------------------------------------------------

  /** The page would say this course opens now. */
  predicate OpensAt(best: map<string, Reached>, course: string, now: nat) {
    course in best && (best[course].expiresAt.None? || best[course].expiresAt.value > now)
  }

  /** program_courses_tenant_id_program_id_fk. */
  ghost predicate ContentsOk(db: Db, tenant: string) {
    forall c :: c in db.contents && c.0 == tenant ==> ProgramExists(db, tenant, c.1)
  }

  ghost predicate ListsAll(db: Db, tenant: string, user: string, rows: seq<Reached>) {
    forall r :: r in rows <==> IsDirect(db, tenant, user, r) || IsViaProgram(db, tenant, user, r)
  }

  lemma EntitlementIsListed(db: Db, tenant: string, user: string, rows: seq<Reached>, course: string, now: nat,
                            id: string) returns (r: Reached)
    requires ListsAll(db, tenant, user, rows) && ContentsOk(db, tenant) && CourseExists(db, tenant, course)
    requires id in db.enrollments && Entitles(db.contents, tenant, db.enrollments[id], user, course, now)
    ensures r in rows && r.course == course && r.expiresAt == db.enrollments[id].expiresAt
  {
    r := AsReached(db.enrollments[id], course);
    if db.enrollments[id].kind == OfCourse {
      assert IsDirect(db, tenant, user, r);
    } else {
      assert IsViaProgram(db, tenant, user, r);
    }
  }

  lemma ListedIsEntitled(db: Db, tenant: string, user: string, r: Reached, now: nat)
    requires IsDirect(db, tenant, user, r) || IsViaProgram(db, tenant, user, r)
    requires r.expiresAt.None? || r.expiresAt.value > now
    ensures HasActiveEntitlement(db, tenant, user, r.course, now) && CourseExists(db, tenant, r.course)
  {
    if IsDirect(db, tenant, user, r) {
      var id :| id in db.enrollments && IsOf(db.enrollments[id], tenant, user, OfCourse) &&
        CourseExists(db, tenant, db.enrollments[id].source) &&
        r == AsReached(db.enrollments[id], db.enrollments[id].source);
      assert Entitles(db.contents, tenant, db.enrollments[id], user, r.course, now);
    } else {
      var id :| id in db.enrollments && IsOf(db.enrollments[id], tenant, user, OfProgram) &&
        ProgramExists(db, tenant, db.enrollments[id].source) && CourseExists(db, tenant, r.course) &&
        (tenant, db.enrollments[id].source, r.course) in db.contents && r == AsReached(db.enrollments[id], r.course);
      assert Entitles(db.contents, tenant, db.enrollments[id], user, r.course, now);
    }
  }

  /** The list says a course opens exactly when the predicate opens it and it still exists:
      the predicate itself never looks at the courses table. */
  lemma ListAgreesWithPredicate(db: Db, tenant: string, user: string, rows: seq<Reached>, best: map<string, Reached>,
                                course: string, now: nat)
    requires ListsAll(db, tenant, user, rows) && IsFolded(rows, best) && ContentsOk(db, tenant)
    ensures OpensAt(best, course, now)
            <==> HasActiveEntitlement(db, tenant, user, course, now) && CourseExists(db, tenant, course)
  {
    if OpensAt(best, course, now) {
      var i: nat :| IsBest(rows, i) && rows[i] == best[course] && rows[i].course == course;
      assert rows[i] in rows;
      ListedIsEntitled(db, tenant, user, rows[i], now);
    }
    if HasActiveEntitlement(db, tenant, user, course, now) && CourseExists(db, tenant, course) {
      var id :| id in db.enrollments && Entitles(db.contents, tenant, db.enrollments[id], user, course, now);
      var r := EntitlementIsListed(db, tenant, user, rows, course, now, id);
      var j :| 0 <= j < |rows| && rows[j] == r;
      var i: nat :| IsBest(rows, i) && rows[i] == best[course] && rows[i].course == course;
      assert !Outranks(rows[j], rows[i]);
    }
  }

  /** Both joins are on the institute's own rows: nothing written elsewhere lists or unlists a
      course here. */
  lemma ListIsLocal(db: Db, tenant: string, user: string, r: Reached)
    ensures IsDirect(Restrict(db, tenant), tenant, user, r) <==> IsDirect(db, tenant, user, r)
    ensures IsViaProgram(Restrict(db, tenant), tenant, user, r) <==> IsViaProgram(db, tenant, user, r)
  {
    var own := Restrict(db, tenant);
    forall id | id in db.enrollments && db.enrollments[id].tenant == tenant
      ensures id in own.enrollments && own.enrollments[id] == db.enrollments[id]
    {
    }
  }

  /** This entry is what the page may say of that enrollment. */
  ghost predicate ComesFrom(db: Db, tenant: string, user: string, r: Reached, id: string) {
    && id in db.enrollments && db.enrollments[id].tenant == tenant && db.enrollments[id].user == user
    && db.enrollments[id].kind == r.via && db.enrollments[id].expiresAt == r.expiresAt
    && (r.granted <==> db.enrollments[id].grantedBy != None)
    && match r.via
       case OfCourse => db.enrollments[id].source == r.course
       case OfProgram => (tenant, db.enrollments[id].source, r.course) in db.contents
  }

  lemma EntrySays(r: Reached, e: Enrollment, course: string)
    requires r == AsReached(e, course)
    ensures r.course == course && r.via == e.kind && r.expiresAt == e.expiresAt && (r.granted <==> e.grantedBy != None)
  {
  }

  lemma EntryComesFromItsRow(db: Db, tenant: string, user: string, r: Reached)
    requires IsDirect(db, tenant, user, r) || IsViaProgram(db, tenant, user, r)
    ensures exists id :: ComesFrom(db, tenant, user, r, id)
  {
    if IsDirect(db, tenant, user, r) {
      var id :| id in db.enrollments && IsOf(db.enrollments[id], tenant, user, OfCourse) &&
        r == AsReached(db.enrollments[id], db.enrollments[id].source);
      EntrySays(r, db.enrollments[id], db.enrollments[id].source);
      assert ComesFrom(db, tenant, user, r, id);
    } else {
      var id :| id in db.enrollments && IsOf(db.enrollments[id], tenant, user, OfProgram) &&
        (tenant, db.enrollments[id].source, r.course) in db.contents && r == AsReached(db.enrollments[id], r.course);
      EntrySays(r, db.enrollments[id], r.course);
      assert ComesFrom(db, tenant, user, r, id);
    }
  }

  lemma EntriesComeFromRows(db: Db, tenant: string, user: string, rows: seq<Reached>, best: map<string, Reached>)
    requires ListsAll(db, tenant, user, rows) && IsFolded(rows, best)
    ensures forall c | c in best :: best[c].course == c && exists id :: ComesFrom(db, tenant, user, best[c], id)
  {
    forall c | c in best ensures best[c].course == c && exists id :: ComesFrom(db, tenant, user, best[c], id) {
      var i := BestRow(rows, best, c);
      assert rows[i] in rows;
      EntryComesFromItsRow(db, tenant, user, rows[i]);
    }
  }

  /** listEnrolledCourses, from the rows of its two queries in whatever order they came. A
      program is named only where it outlasts every purchase of the course itself. */
  method ListEnrolledCourses(ghost db: Db, tenant: string, user: string, direct: seq<Reached>, viaProgram: seq<Reached>)
    returns (best: map<string, Reached>)
    requires forall r :: r in direct <==> IsDirect(db, tenant, user, r)
    requires forall r :: r in viaProgram <==> IsViaProgram(db, tenant, user, r)
    ensures ContentsOk(db, tenant) ==>
              forall course, now :: OpensAt(best, course, now)
                <==> HasActiveEntitlement(db, tenant, user, course, now) && CourseExists(db, tenant, course)
    ensures forall c, d | c in best && best[c].via == OfProgram && d in direct && d.course == c :: Outranks(best[c], d)
    ensures forall c | c in best :: best[c].course == c && exists id :: ComesFrom(db, tenant, user, best[c], id)
  {
    var rows := direct + viaProgram;
    best := KeepBest(rows);
    assert ListsAll(db, tenant, user, rows);
    EntriesComeFromRows(db, tenant, user, rows, best);
    if ContentsOk(db, tenant) {
      forall course, now ensures OpensAt(best, course, now)
                           <==> HasActiveEntitlement(db, tenant, user, course, now) && CourseExists(db, tenant, course)
      {
        ListAgreesWithPredicate(db, tenant, user, rows, best, course, now);
      }
    }
    forall c, d | c in best && best[c].via == OfProgram && d in direct && d.course == c ensures Outranks(best[c], d) {
      PurchasesComeFirst(rows, |direct|, best, c, d);
    }
  }

  lemma PurchasesComeFirst(rows: seq<Reached>, split: nat, best: map<string, Reached>, c: string, d: Reached)
    requires split <= |rows| && IsFolded(rows, best) && c in best && d in rows[..split] && d.course == c
    requires best[c].via == OfProgram && forall r :: r in rows[..split] ==> r.via == OfCourse
    ensures Outranks(best[c], d)
  {
  }
}
