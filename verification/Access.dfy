/** Who may read and who may change: src/lib/access/predicate.ts, src/lib/access/authoring.ts
    and the reads they stand on, src/db/repositories/entitlements.ts and lessons.ts. */
module Access {
  import opened Text
  import opened Invitations

  datatype Course = Course(tenant: string, title: string)
  datatype Program = Program(tenant: string, title: string)
  datatype CourseModule = CourseModule(tenant: string, course: string)
  datatype Lesson = Lesson(tenant: string, courseModule: string, isFreePreview: bool)

  datatype SourceKind = OfProgram | OfCourse

  datatype Enrollment = Enrollment(tenant: string, user: string, kind: SourceKind, source: string,
                                   expiresAt: Option<nat>, grantedBy: Option<string>)

  /** (tenant, program, course). */
  type Contents = set<(string, string, string)>
  /** (tenant, course, user). */
  type Instructors = set<(string, string, string)>

  datatype Db = Db(members: Members, courses: map<string, Course>, programs: map<string, Program>, contents: Contents,
                   modules: map<string, CourseModule>, lessons: map<string, Lesson>, instructors: Instructors,
                   enrollments: map<string, Enrollment>)

  // ---- Reads ------------------------------------------------------------------------

  function FindMembership(db: Db, tenant: string, user: string): Option<Role> {
    if (tenant, user) in db.members then Some(db.members[(tenant, user)].role) else None
  }

  predicate IsInstructorOf(db: Db, tenant: string, user: string, course: string) {
    (tenant, course, user) in db.instructors
  }

  predicate IsUnexpired(e: Enrollment, now: nat) {
    e.expiresAt.None? || e.expiresAt.value > now
  }

  /** Directly, or through a program that contains the course. */
  predicate Covers(contents: Contents, tenant: string, e: Enrollment, course: string) {
    match e.kind
    case OfCourse => e.source == course
    case OfProgram => (tenant, e.source, course) in contents
  }

  predicate Entitles(contents: Contents, tenant: string, e: Enrollment, user: string, course: string, now: nat) {
    e.tenant == tenant && e.user == user && IsUnexpired(e, now) && Covers(contents, tenant, e, course)
  }

  predicate HasActiveEntitlement(db: Db, tenant: string, user: string, course: string, now: nat) {
    exists id :: id in db.enrollments && Entitles(db.contents, tenant, db.enrollments[id], user, course, now)
  }

  datatype LessonWithCourse = LessonWithCourse(isFreePreview: bool, courseModule: string, course: string)

  predicate CourseExists(db: Db, tenant: string, course: string) {
    course in db.courses && db.courses[course].tenant == tenant
  }

  /** Both joins ask for the tenant again. */
  function FindLessonWithCourse(db: Db, tenant: string, lesson: string): Option<LessonWithCourse> {
    if lesson !in db.lessons || db.lessons[lesson].tenant != tenant then None
    else
      var m := db.lessons[lesson].courseModule;
      if m in db.modules && db.modules[m].tenant == tenant && CourseExists(db, tenant, db.modules[m].course) then
        Some(LessonWithCourse(db.lessons[lesson].isFreePreview, m, db.modules[m].course))
      else None
  }

  function GrantableSources(db: Db, tenant: string): set<(SourceKind, string)> {
    (set p | p in db.programs && db.programs[p].tenant == tenant :: (OfProgram, p)) +
    (set c | c in db.courses && db.courses[c].tenant == tenant :: (OfCourse, c))
  }

  // ---- Decisions --------------------------------------------------------------------

  datatype Grant = FreePreview | TenantAdmin | CourseInstructor | Entitlement

  datatype AccessDecision = NoAccess | Allowed(reason: Grant, course: string)

  function DecideLessonAccess(db: Db, tenant: string, user: Option<string>, lesson: string, now: nat): AccessDecision {
    var found := FindLessonWithCourse(db, tenant, lesson);
    if found.None? then NoAccess
    else if found.value.isFreePreview then Allowed(FreePreview, found.value.course)
    else if user.None? then NoAccess
    else
      var course, role := found.value.course, FindMembership(db, tenant, user.value);
      if role.None? then NoAccess
      else if role.value == Admin then Allowed(TenantAdmin, course)
      else if role.value == Instructor && IsInstructorOf(db, tenant, user.value, course) then
        Allowed(CourseInstructor, course)
      else if HasActiveEntitlement(db, tenant, user.value, course, now) then Allowed(Entitlement, course)
      else NoAccess
  }

  datatype AuthorDecision = MayNot | MayAuthor(reason: Grant)

  function DecideCourseAuthoring(db: Db, tenant: string, user: string, course: string): AuthorDecision {
    if !CourseExists(db, tenant, course) then MayNot
    else
      var role := FindMembership(db, tenant, user);
      if role.None? then MayNot
      else if role.value == Admin then MayAuthor(TenantAdmin)
      else if role.value == Instructor && IsInstructorOf(db, tenant, user, course) then MayAuthor(CourseInstructor)
      else MayNot
  }

  function DecideModuleAuthoring(db: Db, tenant: string, user: string, courseModule: string): AuthorDecision {
    if courseModule in db.modules && db.modules[courseModule].tenant == tenant then
      DecideCourseAuthoring(db, tenant, user, db.modules[courseModule].course)
    else MayNot
  }

  /** The join is on the lesson's own tenant. */
  function DecideLessonAuthoring(db: Db, tenant: string, user: string, lesson: string): AuthorDecision {
    if lesson !in db.lessons || db.lessons[lesson].tenant != tenant then MayNot
    else
      var m := db.lessons[lesson].courseModule;
      if m in db.modules && db.modules[m].tenant == db.lessons[lesson].tenant then
        DecideCourseAuthoring(db, tenant, user, db.modules[m].course)
      else MayNot
  }

  // ---- Whoever may change it may read it --------------------------------------------

  /** The two predicates are written apart. Whoever may author a lesson may read it, for the
      same reason unless it is open to all. */
  lemma AuthorsMayRead(db: Db, tenant: string, user: string, lesson: string, now: nat)
    requires DecideLessonAuthoring(db, tenant, user, lesson).MayAuthor?
    ensures var access := DecideLessonAccess(db, tenant, Some(user), lesson, now);
            access.Allowed? &&
            (access.reason == FreePreview || access.reason == DecideLessonAuthoring(db, tenant, user, lesson).reason)
  {
  }

  /** An author of a course may read every lesson the course reaches. */
  lemma CourseAuthorsReadEveryLesson(db: Db, tenant: string, user: string, course: string, lesson: string, now: nat)
    requires DecideCourseAuthoring(db, tenant, user, course).MayAuthor?
    requires FindLessonWithCourse(db, tenant, lesson).Some?
    requires FindLessonWithCourse(db, tenant, lesson).value.course == course
    ensures DecideLessonAuthoring(db, tenant, user, lesson) == DecideCourseAuthoring(db, tenant, user, course)
    ensures DecideLessonAccess(db, tenant, Some(user), lesson, now).Allowed?
  {
  }

  // ---- One institute cannot move another --------------------------------------------

  /** The rows of one institute. */
  function Restrict(db: Db, tenant: string): Db {
    Db(map k | k in db.members && k.0 == tenant :: db.members[k],
       map k | k in db.courses && db.courses[k].tenant == tenant :: db.courses[k],
       map k | k in db.programs && db.programs[k].tenant == tenant :: db.programs[k],
       set c | c in db.contents && c.0 == tenant,
       map k | k in db.modules && db.modules[k].tenant == tenant :: db.modules[k],
       map k | k in db.lessons && db.lessons[k].tenant == tenant :: db.lessons[k],
       set i | i in db.instructors && i.0 == tenant,
       map k | k in db.enrollments && db.enrollments[k].tenant == tenant :: db.enrollments[k])
  }

  lemma EntitlementIsLocal(db: Db, tenant: string, user: string, course: string, now: nat)
    ensures HasActiveEntitlement(Restrict(db, tenant), tenant, user, course, now)
            <==> HasActiveEntitlement(db, tenant, user, course, now)
  {
    var own := Restrict(db, tenant);
    forall id | id in db.enrollments && Entitles(db.contents, tenant, db.enrollments[id], user, course, now)
      ensures id in own.enrollments && Entitles(own.contents, tenant, own.enrollments[id], user, course, now)
    {
    }
  }

  lemma SourcesAreLocal(db: Db, tenant: string)
    ensures GrantableSources(Restrict(db, tenant), tenant) == GrantableSources(db, tenant)
  {
    var own := Restrict(db, tenant);
    forall s ensures s in GrantableSources(own, tenant) <==> s in GrantableSources(db, tenant) {
      var id := s.1;
      assert (id in own.programs && own.programs[id].tenant == tenant)
             <==> (id in db.programs && db.programs[id].tenant == tenant);
      assert CourseExists(own, tenant, id) <==> CourseExists(db, tenant, id);
    }
  }

  lemma ReadsAreLocal(db: Db, tenant: string, user: string, course: string, lesson: string)
    ensures var own := Restrict(db, tenant);
            && FindMembership(own, tenant, user) == FindMembership(db, tenant, user)
            && (IsInstructorOf(own, tenant, user, course) <==> IsInstructorOf(db, tenant, user, course))
            && (CourseExists(own, tenant, course) <==> CourseExists(db, tenant, course))
            && FindLessonWithCourse(own, tenant, lesson) == FindLessonWithCourse(db, tenant, lesson)
            && GrantableSources(own, tenant) == GrantableSources(db, tenant)
  {
  }

  /** Every decision for an institute is the decision on its own rows alone. */
  lemma DecisionsAreLocal(db: Db, tenant: string, user: string, lesson: string, now: nat)
    ensures var own := Restrict(db, tenant);
            && DecideLessonAccess(own, tenant, None, lesson, now) == DecideLessonAccess(db, tenant, None, lesson, now)
            && DecideLessonAccess(own, tenant, Some(user), lesson, now)
               == DecideLessonAccess(db, tenant, Some(user), lesson, now)
            && DecideLessonAuthoring(own, tenant, user, lesson) == DecideLessonAuthoring(db, tenant, user, lesson)
  {
    var found := FindLessonWithCourse(db, tenant, lesson);
    var course := if found.Some? then found.value.course else "";
    ReadsAreLocal(db, tenant, user, course, lesson);
    EntitlementIsLocal(db, tenant, user, course, now);
    AuthoringIsLocal(db, tenant, user, lesson);
  }

  lemma AuthoringIsLocal(db: Db, tenant: string, user: string, id: string)
    ensures var own := Restrict(db, tenant);
            && DecideCourseAuthoring(own, tenant, user, id) == DecideCourseAuthoring(db, tenant, user, id)
            && DecideModuleAuthoring(own, tenant, user, id) == DecideModuleAuthoring(db, tenant, user, id)
            && DecideLessonAuthoring(own, tenant, user, id) == DecideLessonAuthoring(db, tenant, user, id)
  {
    ReadsAreLocal(db, tenant, user, id, id);
    forall course ensures CourseExists(Restrict(db, tenant), tenant, course) <==> CourseExists(db, tenant, course) {
      ReadsAreLocal(db, tenant, user, course, id);
    }
  }

  /** So whatever is written at other institutes, and whoever is made admin there, nothing
      here opens or closes. */
  lemma WritesElsewhereChangeNothing(db: Db, other: Db, tenant: string, user: string, lesson: string, now: nat)
    requires Restrict(db, tenant) == Restrict(other, tenant)
    ensures DecideLessonAccess(db, tenant, None, lesson, now) == DecideLessonAccess(other, tenant, None, lesson, now)
    ensures DecideLessonAccess(db, tenant, Some(user), lesson, now)
            == DecideLessonAccess(other, tenant, Some(user), lesson, now)
    ensures DecideLessonAuthoring(db, tenant, user, lesson) == DecideLessonAuthoring(other, tenant, user, lesson)
  {
    DecisionsAreLocal(db, tenant, user, lesson, now);
    DecisionsAreLocal(other, tenant, user, lesson, now);
  }
}
