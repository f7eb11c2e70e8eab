/** Who may read and who may author, as rules about rows: src/lib/access/predicate.ts and
    src/lib/access/authoring.ts, with the profile page's list for what has been bought. */
module AccessRules {
  import opened Text
  import opened Invitations
  import opened Access
  import opened EnrolledCourses
  import opened Grants

  /** The lesson, its module and its course are all this institute's. */
  ghost predicate LessonOf(db: Db, tenant: string, lesson: string, preview: bool, m: string, course: string) {
    && lesson in db.lessons && db.lessons[lesson] == Lesson(tenant, m, preview)
    && m in db.modules && db.modules[m] == CourseModule(tenant, course)
    && course in db.courses && db.courses[course].tenant == tenant
  }

  ghost predicate Has(db: Db, tenant: string, session: Option<string>, role: Role) {
    session.Some? && (tenant, session.value) in db.members && db.members[(tenant, session.value)].role == role
  }

  ghost predicate TeachesIt(db: Db, tenant: string, session: Option<string>, course: string) {
    Has(db, tenant, session, Role.Instructor) && (tenant, course, session.value) in db.instructors
  }

  /** Neither an admin nor an instructor of this course: a student, or an instructor of others. */
  ghost predicate Studies(db: Db, tenant: string, session: Option<string>, course: string) {
    Has(db, tenant, session, Role.Student) ||
    (Has(db, tenant, session, Role.Instructor) && !TeachesIt(db, tenant, session, course))
  }

  /** A row of theirs, unexpired, for the course or for a program that holds it. */
  ghost predicate HasRowFor(db: Db, tenant: string, user: string, course: string, now: nat) {
    exists id ::
      && id in db.enrollments && db.enrollments[id].tenant == tenant && db.enrollments[id].user == user
      && (db.enrollments[id].expiresAt == None || now < db.enrollments[id].expiresAt.value)
      && ((db.enrollments[id].kind == OfCourse && db.enrollments[id].source == course) ||
          (db.enrollments[id].kind == OfProgram && (tenant, db.enrollments[id].source, course) in db.contents))
  }

  lemma EntitledExactly(db: Db, tenant: string, user: string, course: string, now: nat)
    ensures HasActiveEntitlement(db, tenant, user, course, now) <==> HasRowFor(db, tenant, user, course, now)
  {
    if id :| id in db.enrollments && Entitles(db.contents, tenant, db.enrollments[id], user, course, now) {
      assert HasRowFor(db, tenant, user, course, now);
    }
  }

  lemma FindsItsCourse(db: Db, tenant: string, lesson: string, preview: bool, m: string, course: string)
    ensures LessonOf(db, tenant, lesson, preview, m, course) <==>
              FindLessonWithCourse(db, tenant, lesson) == Some(LessonWithCourse(preview, m, course))
  {
  }

  /** Whoever may read or author a lesson here finds it wholly here: a lesson whose module or
      course is another institute's is nobody's. */
  lemma OnlyOwnLessonsOpen(db: Db, tenant: string, session: Option<string>, lesson: string, now: nat)
    ensures DecideLessonAccess(db, tenant, session, lesson, now).Allowed? ==>
              exists preview, m, course :: LessonOf(db, tenant, lesson, preview, m, course)
    ensures session.Some? && DecideLessonAuthoring(db, tenant, session.value, lesson).MayAuthor? ==>
              exists preview, m, course :: LessonOf(db, tenant, lesson, preview, m, course)
  {
    var found := FindLessonWithCourse(db, tenant, lesson);
    if found.Some? {
      FindsItsCourse(db, tenant, lesson, found.value.isFreePreview, found.value.courseModule, found.value.course);
    }
    if session.Some? && DecideLessonAuthoring(db, tenant, session.value, lesson).MayAuthor? {
      var l := db.lessons[lesson];
      assert LessonOf(db, tenant, lesson, l.isFreePreview, l.courseModule, db.modules[l.courseModule].course);
    }
  }

  /** The whole decision, for every session and every role: which of the four reasons lets a
      viewer in, and who is kept out. What a student may read is what rows of theirs open. */
  lemma ReadsExactly(db: Db, tenant: string, session: Option<string>, lesson: string, now: nat,
                     preview: bool, m: string, course: string)
    requires LessonOf(db, tenant, lesson, preview, m, course)
    ensures var decision := DecideLessonAccess(db, tenant, session, lesson, now);
            var owns := session.Some? && HasRowFor(db, tenant, session.value, course, now);
            && (decision == Allowed(FreePreview, course) <==> preview)
            && (decision == Allowed(TenantAdmin, course) <==> !preview && Has(db, tenant, session, Role.Admin))
            && (decision == Allowed(CourseInstructor, course) <==> !preview && TeachesIt(db, tenant, session, course))
            && (decision == Allowed(Entitlement, course) <==>
                  !preview && Studies(db, tenant, session, course) && owns)
            && (decision == NoAccess <==>
                  !preview && !Has(db, tenant, session, Role.Admin) && !TeachesIt(db, tenant, session, course)
                  && !(Studies(db, tenant, session, course) && owns))
  {
    FindsItsCourse(db, tenant, lesson, preview, m, course);
    if session.Some? { EntitledExactly(db, tenant, session.value, course, now); }
  }

  /** The visitor without a session and the stranger with one read the previews alone. */
  lemma StrangersReadPreviews(db: Db, tenant: string, session: Option<string>, lesson: string, now: nat,
                              preview: bool, m: string, course: string)
    requires LessonOf(db, tenant, lesson, preview, m, course)
    requires session.Some? ==> (tenant, session.value) !in db.members
    ensures DecideLessonAccess(db, tenant, session, lesson, now).Allowed? <==> preview
  {
    ReadsExactly(db, tenant, session, lesson, now, preview, m, course);
  }

  /** Whoever studies reads a lesson that is no preview exactly when their own profile page
      says its course is open. */
  lemma StudentsReadWhatTheirPageLists(db: Db, tenant: string, user: string, lesson: string, now: nat,
                                       m: string, course: string, rows: seq<Reached>, best: map<string, Reached>)
    requires LessonOf(db, tenant, lesson, false, m, course) && Studies(db, tenant, Some(user), course)
    requires ListsAll(db, tenant, user, rows) && IsFolded(rows, best) && ContentsOk(db, tenant)
    ensures DecideLessonAccess(db, tenant, Some(user), lesson, now)
            == if OpensAt(best, course, now) then Allowed(Entitlement, course) else NoAccess
  {
    ReadsExactly(db, tenant, Some(user), lesson, now, false, m, course);
    EntitledExactly(db, tenant, user, course, now);
    ListAgreesWithPredicate(db, tenant, user, rows, best, course, now);
  }

  // ---- Authoring --------------------------------------------------------------------

  ghost predicate AuthorsIt(d: AuthorDecision, db: Db, tenant: string, user: string, course: string) {
    && (d == MayAuthor(TenantAdmin) <==> Has(db, tenant, Some(user), Role.Admin))
    && (d == MayAuthor(CourseInstructor) <==> TeachesIt(db, tenant, Some(user), course))
    && (d == MayNot <==> !Has(db, tenant, Some(user), Role.Admin) && !TeachesIt(db, tenant, Some(user), course))
  }

  /** Admins author everything of their institute, instructors the courses they are assigned
      to, students nothing, whether asked of the course, of a module or of a lesson of it. */
  lemma AuthorsExactly(db: Db, tenant: string, user: string, lesson: string, preview: bool, m: string, course: string)
    requires LessonOf(db, tenant, lesson, preview, m, course)
    ensures AuthorsIt(DecideCourseAuthoring(db, tenant, user, course), db, tenant, user, course)
    ensures AuthorsIt(DecideModuleAuthoring(db, tenant, user, m), db, tenant, user, course)
    ensures AuthorsIt(DecideLessonAuthoring(db, tenant, user, lesson), db, tenant, user, course)
  {
  }

  /** Of another institute's course or module, or of none, nobody is an author. */
  lemma NobodyAuthorsElsewhere(db: Db, tenant: string, user: string, course: string, m: string)
    requires course in db.courses ==> db.courses[course].tenant != tenant
    requires m in db.modules ==> db.modules[m].tenant != tenant || db.modules[m].course == course
    ensures DecideCourseAuthoring(db, tenant, user, course) == MayNot
    ensures DecideModuleAuthoring(db, tenant, user, m) == MayNot
  {
  }

  /** A course without lessons or modules is decided the same way. */
  lemma CourseAuthorsExactly(db: Db, tenant: string, user: string, course: string)
    requires course in db.courses && db.courses[course].tenant == tenant
    ensures AuthorsIt(DecideCourseAuthoring(db, tenant, user, course), db, tenant, user, course)
    ensures forall m :: m in db.modules && db.modules[m] == CourseModule(tenant, course) ==>
              AuthorsIt(DecideModuleAuthoring(db, tenant, user, m), db, tenant, user, course)
  {
  }

  // ---- What can be granted ----------------------------------------------------------

  /** The institute's own programs and courses, all of them. */
  lemma SourcesExactly(db: Db, tenant: string, source: string)
    ensures SourceExists(db, tenant, OfProgram, source) <==>
              source in db.programs && db.programs[source].tenant == tenant
    ensures SourceExists(db, tenant, OfCourse, source) <==> source in db.courses && db.courses[source].tenant == tenant
  {
  }

  /** Of a course of the institute, a grant of the course and a grant of a program that holds
      it each let a student read every lesson of it, until it expires and not at that instant. */
  lemma GrantedStudentsRead(l: Ledger, r: GrantRequest, id: string, now: nat, lesson: string, at: nat,
                            m: string, course: string)
    requires GrantAnswer(l.db, r, id, now).Given?
    requires LessonOf(l.db, r.tenant, lesson, false, m, course) && Studies(l.db, r.tenant, Some(r.user), course)
    requires !HasRowFor(l.db, r.tenant, r.user, course, at)
    ensures var covers := match r.kind
                          case OfCourse => r.source == course
                          case OfProgram => (r.tenant, r.source, course) in l.db.contents;
            DecideLessonAccess(Apply(l, Grant(r, id, now)).db, r.tenant, Some(r.user), lesson, at)
            == if covers && (r.expiresAt == None || at < r.expiresAt.value) then Allowed(Entitlement, course)
               else NoAccess
  {
    var db := Apply(l, Grant(r, id, now)).db;
    EntitledAfterGrant(l, r, id, now, r.tenant, r.user, course, at);
    EntitledExactly(l.db, r.tenant, r.user, course, at);
    EntitledExactly(db, r.tenant, r.user, course, at);
    assert LessonOf(db, r.tenant, lesson, false, m, course);
    ReadsExactly(db, r.tenant, Some(r.user), lesson, at, false, m, course);
  }
}
