/** The rows that seed cleanup takes for seed data, and what it reports as blockers. A database is
    a map from keys to rows; a row's references are its foreign keys. */
module SeedCandidates {
  import opened SeedSections

  datatype Table =
    | AuditLogs | Notifications | Tokens | Sessions | Events | Files | Submissions | Members | Groups
    | Enrollments | SubjectSections | Tasks | Subjects | Students | Teachers | Sections | Levels | Years | Users
    | Courses | DeletionRequests

  datatype Column =
    | AuditActor | NotificationUser | TokenUser | SessionUser
    | EventSubmission | EventActor | FileSubmission
    | SubmissionTask | SubmissionSubject | SubmissionStudent | SubmissionGroup | SubmittedBy | ReviewedBy
    | MemberGroup | MemberSubject | MemberUser
    | GroupSubject | GroupSection
    | EnrollmentStudent | EnrollmentSubject | EnrollmentSection
    | LinkSubject | LinkSection
    | TaskSubject
    | SubjectTeacher
    | StudentUser | StudentSection | StudentYear | StudentLevel
    | TeacherUser
    | SectionYear | SectionLevel
    | LevelYear | LevelCourse
    | CourseYear
    | RequestUser

  datatype OnDelete = Restrict | SetNull | Cascade

  function Owner(c: Column): Table {
    match c
    case AuditActor => AuditLogs
    case NotificationUser => Notifications
    case TokenUser => Tokens
    case SessionUser => Sessions
    case EventSubmission => Events
    case EventActor => Events
    case FileSubmission => Files
    case SubmissionTask => Submissions
    case SubmissionSubject => Submissions
    case SubmissionStudent => Submissions
    case SubmissionGroup => Submissions
    case SubmittedBy => Submissions
    case ReviewedBy => Submissions
    case MemberGroup => Members
    case MemberSubject => Members
    case MemberUser => Members
    case GroupSubject => Groups
    case GroupSection => Groups
    case EnrollmentStudent => Enrollments
    case EnrollmentSubject => Enrollments
    case EnrollmentSection => Enrollments
    case LinkSubject => SubjectSections
    case LinkSection => SubjectSections
    case TaskSubject => Tasks
    case SubjectTeacher => Subjects
    case StudentUser => Students
    case StudentSection => Students
    case StudentYear => Students
    case StudentLevel => Students
    case TeacherUser => Teachers
    case SectionYear => Sections
    case SectionLevel => Sections
    case LevelYear => Levels
    case LevelCourse => Levels
    case CourseYear => Courses
    case RequestUser => DeletionRequests
  }

  function Target(c: Column): Table {
    match c
    case EventSubmission => Submissions
    case FileSubmission => Submissions
    case SubmissionTask => Tasks
    case SubmissionSubject => Subjects
    case SubmissionGroup => Groups
    case MemberGroup => Groups
    case MemberSubject => Subjects
    case GroupSubject => Subjects
    case GroupSection => Sections
    case EnrollmentStudent => Students
    case EnrollmentSubject => Subjects
    case EnrollmentSection => Sections
    case LinkSubject => Subjects
    case LinkSection => Sections
    case TaskSubject => Subjects
    case SubjectTeacher => Teachers
    case StudentSection => Sections
    case StudentYear => Years
    case StudentLevel => Levels
    case SectionYear => Years
    case SectionLevel => Levels
    case LevelYear => Years
    case LevelCourse => Courses
    case CourseYear => Years
    case _ => Users
  }

  // What the schema says happens to a row when the row that it refers to is deleted.
  function Action(c: Column): OnDelete {
    match c
    case TokenUser => Cascade
    case SessionUser => Cascade
    case EventSubmission => Cascade
    case FileSubmission => Cascade
    case LinkSubject => Cascade
    case LinkSection => Cascade
    case AuditActor => SetNull
    case EventActor => SetNull
    case SubmissionStudent => SetNull
    case SubmissionGroup => SetNull
    case SubmittedBy => SetNull
    case ReviewedBy => SetNull
    case GroupSection => SetNull
    case EnrollmentSection => SetNull
    case SubjectTeacher => SetNull
    case StudentSection => SetNull
    case StudentYear => SetNull
    case StudentLevel => SetNull
    case SectionYear => SetNull
    case SectionLevel => SetNull
    case LevelCourse => SetNull
    case _ => Restrict
  }

  datatype Key = Key(table: Table, id: int)

  /** `labelled` says that the row's own text marks it as seed data (for a user: that it looks like a
      seed account), `guarded` that it is the protected admin. */
  datatype Row = Row(refs: map<Column, int>, labelled: bool, activeAdmin: bool, guarded: bool)
  type Db = map<Key, Row>

  // Row k's column c refers to x.
  predicate Points(db: Db, k: Key, c: Column, x: Key) {
    k in db && c in db[k].refs && x == Key(Target(c), db[k].refs[c])
  }

  predicate PointsInto(db: Db, k: Key, c: Column, s: set<Key>) {
    k in db && c in db[k].refs && Key(Target(c), db[k].refs[c]) in s
  }

  predicate Has(db: Db, k: Key, c: Column) { k in db && c in db[k].refs }

  // A member is filed under the subject of its group, as every statement that adds one has it.
  predicate FiledWithGroup(db: Db, k: Key) {
    && Has(db, k, MemberGroup) && Has(db, k, MemberSubject)
    && var g := Key(Groups, db[k].refs[MemberGroup]);
       Has(db, g, GroupSubject) && db[g].refs[GroupSubject] == db[k].refs[MemberSubject]
  }

  ghost predicate ReferencesHold(db: Db) {
    forall k, c | k in db && c in db[k].refs :: Owner(c) == k.table && Key(Target(c), db[k].refs[c]) in db
  }

  ghost predicate RequiredPresent(db: Db) {
    forall k, c | k in db && Owner(c) == k.table && Action(c) != SetNull :: Has(db, k, c)
  }

  ghost predicate MembersFiled(db: Db) {
    forall k | k in db && k.table == Members :: FiledWithGroup(db, k)
  }

  // The schema's foreign keys, its not-null constraints, and the filing of members.
  ghost predicate Intact(db: Db) {
    ReferencesHold(db) && RequiredPresent(db) && MembersFiled(db)
  }

  // ---------- candidates ----------

  datatype Seeds = Seeds(users: set<Key>, students: set<Key>, teachers: set<Key>, subjects: set<Key>,
                         groups: set<Key>, sections: set<Key>, levels: set<Key>, years: set<Key>,
                         tasks: set<Key>, submissions: set<Key>)

  function SeedUsers(db: Db): set<Key> {
    set k | k in db && k.table == Users && db[k].labelled && !db[k].guarded
  }

  function Referring(db: Db, c: Column, s: set<Key>): set<Key> {
    set k | k in db && k.table == Owner(c) && PointsInto(db, k, c, s)
  }

  // Every row that refers to x by column c refers into s by column d.
  predicate EachInto(db: Db, c: Column, x: Key, d: Column, s: set<Key>) {
    forall k | k in db && Points(db, k, c, x) :: PointsInto(db, k, d, s)
  }

  // Every row that refers to x by column c is in s.
  predicate EachIn(db: Db, c: Column, x: Key, s: set<Key>) {
    forall k | k in db && Points(db, k, c, x) :: k in s
  }

  predicate SomeInto(db: Db, c: Column, x: Key, d: Column, s: set<Key>) {
    exists k | k in db :: Points(db, k, c, x) && PointsInto(db, k, d, s)
  }

  predicate SomeOneIn(db: Db, c: Column, x: Key, s: set<Key>) {
    exists k | k in db :: Points(db, k, c, x) && k in s
  }

  function SeedSubjects(db: Db, teachers: set<Key>, students: set<Key>): set<Key> {
    set k | k in db && k.table == Subjects &&
      (db[k].labelled
       || (PointsInto(db, k, SubjectTeacher, teachers)
           && EachInto(db, EnrollmentSubject, k, EnrollmentStudent, students)))
  }

  function SeedGroups(db: Db, subjects: set<Key>, users: set<Key>): set<Key> {
    set k | k in db && k.table == Groups && PointsInto(db, k, GroupSubject, subjects)
        && EachInto(db, MemberGroup, k, MemberUser, users)
  }

  predicate SectionLinked(db: Db, k: Key, students: set<Key>, subjects: set<Key>, groups: set<Key>) {
    || SomeOneIn(db, StudentSection, k, students)
    || SomeInto(db, EnrollmentSection, k, EnrollmentStudent, students)
    || SomeInto(db, EnrollmentSection, k, EnrollmentSubject, subjects)
    || SomeOneIn(db, GroupSection, k, groups)
    || SomeInto(db, LinkSection, k, LinkSubject, subjects)
  }

  predicate SectionPure(db: Db, k: Key, students: set<Key>, subjects: set<Key>, groups: set<Key>) {
    && EachIn(db, StudentSection, k, students)
    && EachInto(db, EnrollmentSection, k, EnrollmentStudent, students)
    && EachInto(db, EnrollmentSection, k, EnrollmentSubject, subjects)
    && EachIn(db, GroupSection, k, groups)
    && EachInto(db, LinkSection, k, LinkSubject, subjects)
  }

  function SeedSectionsOf(db: Db, students: set<Key>, subjects: set<Key>, groups: set<Key>): set<Key> {
    set k | k in db && k.table == Sections &&
      (db[k].labelled
       || (SectionLinked(db, k, students, subjects, groups) && SectionPure(db, k, students, subjects, groups)))
  }

  function SeedLevels(db: Db, sections: set<Key>, students: set<Key>): set<Key> {
    set k | k in db && k.table == Levels &&
      (db[k].labelled
       || ((SomeOneIn(db, SectionLevel, k, sections) || SomeOneIn(db, StudentLevel, k, students))
           && EachIn(db, SectionLevel, k, sections) && EachIn(db, StudentLevel, k, students)))
  }

  function SeedYears(db: Db, sections: set<Key>, students: set<Key>, levels: set<Key>): set<Key> {
    set k | k in db && k.table == Years &&
      (db[k].labelled
       || ((SomeOneIn(db, SectionYear, k, sections) || SomeOneIn(db, StudentYear, k, students)
            || SomeOneIn(db, LevelYear, k, levels))
           && EachIn(db, SectionYear, k, sections) && EachIn(db, StudentYear, k, students)
           && EachIn(db, LevelYear, k, levels)))
  }

  function SeedSubmissions(db: Db, subjects: set<Key>, tasks: set<Key>, groups: set<Key>, users: set<Key>): set<Key> {
    set k | k in db && k.table == Submissions &&
      (PointsInto(db, k, SubmissionSubject, subjects) || PointsInto(db, k, SubmissionTask, tasks)
       || PointsInto(db, k, SubmissionGroup, groups) || PointsInto(db, k, SubmissionStudent, users))
  }

  function SeedsOf(db: Db): Seeds {
    var users := SeedUsers(db);
    var students := Referring(db, StudentUser, users);
    var teachers := Referring(db, TeacherUser, users);
    var subjects := SeedSubjects(db, teachers, students);
    var groups := SeedGroups(db, subjects, users);
    var sections := SeedSectionsOf(db, students, subjects, groups);
    var levels := SeedLevels(db, sections, students);
    var years := SeedYears(db, sections, students, levels);
    var tasks := Referring(db, TaskSubject, subjects);
    Seeds(users, students, teachers, subjects, groups, sections, levels, years, tasks,
          SeedSubmissions(db, subjects, tasks, groups, users))
  }

  // The enrollments taken are those outside every section, or in a seed section.
  predicate EnrollmentTaken(db: Db, s: Seeds, k: Key) {
    && PointsInto(db, k, EnrollmentSubject, s.subjects) && PointsInto(db, k, EnrollmentStudent, s.students)
    && (!Has(db, k, EnrollmentSection) || PointsInto(db, k, EnrollmentSection, s.sections))
  }

  // The rows that the cleanup deletes.
  predicate Taken(db: Db, s: Seeds, k: Key) {
    match k.table
    case AuditLogs => PointsInto(db, k, AuditActor, s.users)
    case Notifications => PointsInto(db, k, NotificationUser, s.users)
    case Tokens => PointsInto(db, k, TokenUser, s.users)
    case Sessions => PointsInto(db, k, SessionUser, s.users)
    case Events => PointsInto(db, k, EventSubmission, s.submissions)
    case Files => PointsInto(db, k, FileSubmission, s.submissions)
    case Submissions => k in s.submissions
    case Members => PointsInto(db, k, MemberGroup, s.groups)
    case Groups => k in s.groups
    case Enrollments => EnrollmentTaken(db, s, k)
    case SubjectSections => PointsInto(db, k, LinkSubject, s.subjects) && PointsInto(db, k, LinkSection, s.sections)
    case Tasks => k in s.tasks
    case Subjects => k in s.subjects
    case Students => k in s.students
    case Teachers => k in s.teachers
    case Sections => k in s.sections
    case Levels => k in s.levels
    case Years => k in s.years
    case Users => k in s.users
    case Courses => false
    case DeletionRequests => false
  }

  function Doomed(db: Db): set<Key> {
    var s := SeedsOf(db);
    set k | k in db && Taken(db, s, k)
  }

  // ---------- blockers ----------

  datatype Reason =
    | TeacherNotSeed | EnrollmentsNotSeed | SectionNotSeed | GroupsNotSeed
    | MembersNotSeed | GroupSectionNotSeed
    | SectionHasStudents | SectionHasEnrollments | SectionHasGroups | SectionHasSubjects
    | LevelHasSections | LevelHasStudents | YearHasSections | YearHasStudents | YearHasLevels
    | TeachesOthers | EnrolledElsewhere | MemberElsewhere | InOtherSubmissions | InOtherEvents
    | OwnerNotSeed | SubmitterNotSeed | ReviewerNotSeed | SubmissionGroupNotSeed | ActorsNotSeed

  datatype Blocker = ActorInSet | LastAdmin | About(reason: Reason, row: Key)

  predicate Stray(db: Db, k: Key, c: Column, s: set<Key>) { Has(db, k, c) && !PointsInto(db, k, c, s) }

  // The condition under which the cleanup reports the reason about a row.
  predicate Blocked(db: Db, s: Seeds, reason: Reason, k: Key) {
    match reason
    case TeacherNotSeed => k in s.subjects && Stray(db, k, SubjectTeacher, s.teachers)
    case EnrollmentsNotSeed => k in s.subjects && !EachInto(db, EnrollmentSubject, k, EnrollmentStudent, s.students)
    case SectionNotSeed => PointsInto(db, k, LinkSubject, s.subjects) && !PointsInto(db, k, LinkSection, s.sections)
    case GroupsNotSeed => k in s.subjects && !EachIn(db, GroupSubject, k, s.groups)
    case MembersNotSeed => k in s.groups && !EachInto(db, MemberGroup, k, MemberUser, s.users)
    case GroupSectionNotSeed => k in s.groups && Stray(db, k, GroupSection, s.sections)
    case SectionHasStudents => k in s.sections && !EachIn(db, StudentSection, k, s.students)
    case SectionHasEnrollments =>
      k in s.sections && !(EachInto(db, EnrollmentSection, k, EnrollmentStudent, s.students)
                           && EachInto(db, EnrollmentSection, k, EnrollmentSubject, s.subjects))
    case SectionHasGroups => k in s.sections && !EachIn(db, GroupSection, k, s.groups)
    case SectionHasSubjects => k in s.sections && !EachInto(db, LinkSection, k, LinkSubject, s.subjects)
    case LevelHasSections => k in s.levels && !EachIn(db, SectionLevel, k, s.sections)
    case LevelHasStudents => k in s.levels && !EachIn(db, StudentLevel, k, s.students)
    case YearHasSections => k in s.years && !EachIn(db, SectionYear, k, s.sections)
    case YearHasStudents => k in s.years && !EachIn(db, StudentYear, k, s.students)
    case YearHasLevels => k in s.years && !EachIn(db, LevelYear, k, s.levels)
    case TeachesOthers =>
      k in s.users && exists t | t in db :: Points(db, t, TeacherUser, k) && !EachIn(db, SubjectTeacher, t, s.subjects)
    case EnrolledElsewhere =>
      k in s.users && exists p | p in db ::
          Points(db, p, StudentUser, k) && !EachInto(db, EnrollmentStudent, p, EnrollmentSubject, s.subjects)
    case MemberElsewhere => k in s.users && !EachInto(db, MemberUser, k, MemberGroup, s.groups)
    case InOtherSubmissions =>
      k in s.users && !(EachIn(db, SubmissionStudent, k, s.submissions) && EachIn(db, SubmittedBy, k, s.submissions)
                        && EachIn(db, ReviewedBy, k, s.submissions))
    case InOtherEvents => k in s.users && !EachInto(db, EventActor, k, EventSubmission, s.submissions)
    case OwnerNotSeed => k in s.submissions && Stray(db, k, SubmissionStudent, s.users)
    case SubmitterNotSeed => k in s.submissions && Stray(db, k, SubmittedBy, s.users)
    case ReviewerNotSeed => k in s.submissions && Stray(db, k, ReviewedBy, s.users)
    case SubmissionGroupNotSeed => k in s.submissions && Stray(db, k, SubmissionGroup, s.groups)
    case ActorsNotSeed =>
      k in s.submissions && exists e | e in db :: Points(db, e, EventSubmission, k) && Stray(db, e, EventActor, s.users)
  }

  function ActiveAdmins(db: Db): set<Key> { set k | k in db && k.table == Users && db[k].activeAdmin }

  predicate LastAdminGoes(db: Db, s: Seeds) {
    var doomed := |ActiveAdmins(db) * s.users|;
    doomed > 0 && |ActiveAdmins(db)| - doomed < 1
  }

  predicate Raised(db: Db, s: Seeds, actor: Key, b: Blocker) {
    match b
    case ActorInSet => actor in s.users
    case LastAdmin => LastAdminGoes(db, s)
    case About(reason, row) => Blocked(db, s, reason, row)
  }

  // ---------- the preview's loops ----------

  predicate Outside(db: Db, k: Key, c: Column, x: Key, d: Column, s: set<Key>) {
    Points(db, k, c, x) && !PointsInto(db, k, d, s)
  }

  lemma OutsideMeans(db: Db, rows: seq<Key>, c: Column, x: Key, d: Column, s: set<Key>)
    requires forall k :: k in rows <==> k in db
    ensures (exists k | k in rows :: Outside(db, k, c, x, d, s)) <==> !EachInto(db, c, x, d, s)
  {
    hide Points, PointsInto;
    if !EachInto(db, c, x, d, s) {
      var k :| k in db && Points(db, k, c, x) && !PointsInto(db, k, d, s);
      assert Outside(db, k, c, x, d, s);
    }
  }

  /** Whether some row that refers to x by column c does not refer into s by column d. */
  method AnyOutside(db: Db, rows: seq<Key>, c: Column, x: Key, d: Column, s: set<Key>) returns (found: bool)
    requires forall k :: k in rows <==> k in db
    ensures found <==> !EachInto(db, c, x, d, s)
  {
    hide Outside, EachInto;
    found := false;
    for i := 0 to |rows|
      invariant found <==> exists k | k in rows[..i] :: Outside(db, k, c, x, d, s)
    {
      assert rows[..i + 1] == rows[..i] + [rows[i]];
      assert rows[i] in rows[..i + 1];
      if Outside(db, rows[i], c, x, d, s) { found := true; }
    }
    assert rows[..|rows|] == rows;
    OutsideMeans(db, rows, c, x, d, s);
  }

  /** Whether some row that refers to x by column c is not in s. */
  method AnyOther(db: Db, rows: seq<Key>, c: Column, x: Key, s: set<Key>) returns (found: bool)
    requires forall k :: k in rows <==> k in db
    ensures found <==> !EachIn(db, c, x, s)
  {
    hide Points;
    found := false;
    for i := 0 to |rows|
      invariant found <==> exists j :: 0 <= j < i && Points(db, rows[j], c, x) && rows[j] !in s
    {
      if Points(db, rows[i], c, x) && rows[i] !in s { found := true; }
    }
    if !found {
      forall k | k in db && Points(db, k, c, x) ensures k in s {
        var j :| 0 <= j < |rows| && rows[j] == k;
      }
    }
  }

  function When(raised: bool, reason: Reason, row: Key): (blockers: seq<Blocker>)
    ensures forall b: Blocker :: b in blockers <==> raised && b == About(reason, row)
  {
    if raised then [About(reason, row)] else []
  }

  function Join(a: seq<Blocker>, b: seq<Blocker>): (both: seq<Blocker>)
    ensures forall x: Blocker :: x in both <==> x in a || x in b
  {
    a + b
  }

  const SUBJECT_REASONS := {TeacherNotSeed, EnrollmentsNotSeed, SectionNotSeed, GroupsNotSeed}
  const GROUP_REASONS := {MembersNotSeed, GroupSectionNotSeed}
  const SECTION_REASONS := {SectionHasStudents, SectionHasEnrollments, SectionHasGroups, SectionHasSubjects}
  const LEVEL_REASONS := {LevelHasSections, LevelHasStudents}
  const YEAR_REASONS := {YearHasSections, YearHasStudents, YearHasLevels}
  const USER_REASONS := {TeachesOthers, EnrolledElsewhere, MemberElsewhere, InOtherSubmissions, InOtherEvents}
  const SUBMISSION_REASONS := {OwnerNotSeed, SubmitterNotSeed, ReviewerNotSeed, SubmissionGroupNotSeed, ActorsNotSeed}

  // The blockers that the preview comes upon at row k: those about it, and for a subject those about
  // its section links.
  ghost predicate FoundAt(db: Db, s: Seeds, k: Key, b: Blocker) {
    && b.About? && Blocked(db, s, b.reason, b.row)
    && if b.reason == SectionNotSeed then k in s.subjects && Points(db, b.row, LinkSubject, k) else b.row == k
  }

  ghost predicate Finds(db: Db, s: Seeds, k: Key, reasons: set<Reason>, found: seq<Blocker>) {
    forall b: Blocker :: b in found <==> FoundAt(db, s, k, b) && b.reason in reasons
  }

  // What the reasons about one kind of row say, apart.
  lemma SectionMeans(db: Db, s: Seeds, k: Key)
    ensures Blocked(db, s, SectionHasStudents, k) == (k in s.sections && !EachIn(db, StudentSection, k, s.students))
    ensures Blocked(db, s, SectionHasEnrollments, k) ==
            (k in s.sections && !(EachInto(db, EnrollmentSection, k, EnrollmentStudent, s.students)
                                  && EachInto(db, EnrollmentSection, k, EnrollmentSubject, s.subjects)))
    ensures Blocked(db, s, SectionHasGroups, k) == (k in s.sections && !EachIn(db, GroupSection, k, s.groups))
    ensures Blocked(db, s, SectionHasSubjects, k)
            == (k in s.sections && !EachInto(db, LinkSection, k, LinkSubject, s.subjects))
  {
    hide EachIn, EachInto;
  }

  lemma LevelMeans(db: Db, s: Seeds, k: Key)
    ensures Blocked(db, s, LevelHasSections, k) == (k in s.levels && !EachIn(db, SectionLevel, k, s.sections))
    ensures Blocked(db, s, LevelHasStudents, k) == (k in s.levels && !EachIn(db, StudentLevel, k, s.students))
  {
    hide EachIn, EachInto;
  }

  lemma YearMeans(db: Db, s: Seeds, k: Key)
    ensures Blocked(db, s, YearHasSections, k) == (k in s.years && !EachIn(db, SectionYear, k, s.sections))
    ensures Blocked(db, s, YearHasStudents, k) == (k in s.years && !EachIn(db, StudentYear, k, s.students))
    ensures Blocked(db, s, YearHasLevels, k) == (k in s.years && !EachIn(db, LevelYear, k, s.levels))
  {
    hide EachIn, EachInto;
  }

  lemma UserMeans(db: Db, s: Seeds, k: Key)
    requires k in s.users
    ensures Blocked(db, s, MemberElsewhere, k) == !EachInto(db, MemberUser, k, MemberGroup, s.groups)
    ensures Blocked(db, s, InOtherSubmissions, k) ==
            !(EachIn(db, SubmissionStudent, k, s.submissions) && EachIn(db, SubmittedBy, k, s.submissions)
              && EachIn(db, ReviewedBy, k, s.submissions))
    ensures Blocked(db, s, InOtherEvents, k) == !EachInto(db, EventActor, k, EventSubmission, s.submissions)
  {
    hide EachIn, EachInto;
  }

  lemma SubmissionMeans(db: Db, s: Seeds, k: Key)
    requires k in s.submissions
    ensures Blocked(db, s, OwnerNotSeed, k) == Stray(db, k, SubmissionStudent, s.users)
    ensures Blocked(db, s, SubmitterNotSeed, k) == Stray(db, k, SubmittedBy, s.users)
    ensures Blocked(db, s, ReviewerNotSeed, k) == Stray(db, k, ReviewedBy, s.users)
    ensures Blocked(db, s, SubmissionGroupNotSeed, k) == Stray(db, k, SubmissionGroup, s.groups)
  {
    hide Stray;
  }

  // A list of blockers about row k, complete for its reasons, is what is found there.
  lemma Complete(db: Db, s: Seeds, k: Key, reasons: set<Reason>, found: seq<Blocker>)
    requires SectionNotSeed !in reasons
    requires forall b: Blocker | b in found :: b.About? && b.row == k && b.reason in reasons
    requires forall r: Reason | r in reasons :: About(r, k) in found <==> Blocked(db, s, r, k)
    ensures Finds(db, s, k, reasons, found)
  {
    hide Blocked;
    forall b: Blocker ensures b in found <==> FoundAt(db, s, k, b) && b.reason in reasons {
      if b.About? && b.row == k { assert b == About(b.reason, k); }
    }
  }

  method AboutSubject(db: Db, rows: seq<Key>, s: Seeds, k: Key) returns (found: seq<Blocker>)
    requires (forall x :: x in rows <==> x in db) && k in s.subjects
    ensures Finds(db, s, k, SUBJECT_REASONS, found)
  {
    hide EachIn, EachInto, Points, PointsInto, Stray;
    var enrollments := AnyOutside(db, rows, EnrollmentSubject, k, EnrollmentStudent, s.students);
    var groups := AnyOther(db, rows, GroupSubject, k, s.groups);
    var links := StrayLinks(db, rows, s, k);
    found := When(Stray(db, k, SubjectTeacher, s.teachers), TeacherNotSeed, k)
        + When(enrollments, EnrollmentsNotSeed, k)
             + links + When(groups, GroupsNotSeed, k);
  }

  method StrayLinks(db: Db, rows: seq<Key>, s: Seeds, k: Key) returns (found: seq<Blocker>)
    requires (forall x :: x in rows <==> x in db) && k in s.subjects
    ensures Finds(db, s, k, {SectionNotSeed}, found)
  {
    hide Points, PointsInto;
    found := [];
    for i := 0 to |rows|
      invariant forall b: Blocker :: b in found <==>
        b.About? && b.reason == SectionNotSeed && b.row in rows[..i] && Points(db, b.row, LinkSubject, k)
            && !PointsInto(db, b.row, LinkSection, s.sections)
    {
      assert rows[..i + 1] == rows[..i] + [rows[i]];
      if Points(db, rows[i], LinkSubject, k) && !PointsInto(db, rows[i], LinkSection, s.sections) {
        found := found + [About(SectionNotSeed, rows[i])];
      }
    }
    assert rows[..|rows|] == rows;
    forall x | Points(db, x, LinkSubject, k) ensures x in db && PointsInto(db, x, LinkSubject, s.subjects) {
      LinkOf(db, s, x, k);
    }
  }

  lemma LinkOf(db: Db, s: Seeds, x: Key, k: Key)
    requires Points(db, x, LinkSubject, k) && k in s.subjects
    ensures x in db && PointsInto(db, x, LinkSubject, s.subjects)
  {
  }

  method AboutGroup(db: Db, rows: seq<Key>, s: Seeds, k: Key) returns (found: seq<Blocker>)
    requires (forall x :: x in rows <==> x in db) && k in s.groups
    ensures Finds(db, s, k, GROUP_REASONS, found)
  {
    hide EachIn, EachInto, Points, PointsInto, Stray;
    var members := AnyOutside(db, rows, MemberGroup, k, MemberUser, s.users);
    found := When(members, MembersNotSeed, k) + When(Stray(db, k, GroupSection, s.sections), GroupSectionNotSeed, k);
  }

  method AboutSection(db: Db, rows: seq<Key>, s: Seeds, k: Key) returns (found: seq<Blocker>)
    requires (forall x :: x in rows <==> x in db) && k in s.sections
    ensures Finds(db, s, k, SECTION_REASONS, found)
  {
    hide EachIn, EachInto, Blocked, Finds, When, Join;
    var students := AnyOther(db, rows, StudentSection, k, s.students);
    var strangers := AnyOutside(db, rows, EnrollmentSection, k, EnrollmentStudent, s.students);
    var subjects := AnyOutside(db, rows, EnrollmentSection, k, EnrollmentSubject, s.subjects);
    var groups := AnyOther(db, rows, GroupSection, k, s.groups);
    var links := AnyOutside(db, rows, LinkSection, k, LinkSubject, s.subjects);
    found := Join(Join(When(students, SectionHasStudents, k), When(strangers || subjects, SectionHasEnrollments, k)),
                  Join(When(groups, SectionHasGroups, k), When(links, SectionHasSubjects, k)));
    SectionMeans(db, s, k);
    Complete(db, s, k, SECTION_REASONS, found);
  }

  method AboutLevel(db: Db, rows: seq<Key>, s: Seeds, k: Key) returns (found: seq<Blocker>)
    requires forall x :: x in rows <==> x in db
    ensures Finds(db, s, k, LEVEL_REASONS, found)
  {
    hide EachIn, EachInto, Blocked, Finds, When, Join;
    var sections := AnyOther(db, rows, SectionLevel, k, s.sections);
    var students := AnyOther(db, rows, StudentLevel, k, s.students);
    var here := k in s.levels;
    found := Join(When(here && sections, LevelHasSections, k), When(here && students, LevelHasStudents, k));
    LevelMeans(db, s, k);
    Complete(db, s, k, LEVEL_REASONS, found);
  }

  method AboutYear(db: Db, rows: seq<Key>, s: Seeds, k: Key) returns (found: seq<Blocker>)
    requires forall x :: x in rows <==> x in db
    ensures Finds(db, s, k, YEAR_REASONS, found)
  {
    hide EachIn, EachInto, Blocked, Finds, When, Join;
    var sections := AnyOther(db, rows, SectionYear, k, s.sections);
    var students := AnyOther(db, rows, StudentYear, k, s.students);
    var levels := AnyOther(db, rows, LevelYear, k, s.levels);
    var here := k in s.years;
    found := Join(When(here && sections, YearHasSections, k),
                  Join(When(here && students, YearHasStudents, k), When(here && levels, YearHasLevels, k)));
    YearMeans(db, s, k);
    Complete(db, s, k, YEAR_REASONS, found);
  }

  method Teaching(db: Db, rows: seq<Key>, s: Seeds, k: Key) returns (found: bool)
    requires (forall x :: x in rows <==> x in db) && k in s.users
    ensures found == Blocked(db, s, TeachesOthers, k)
  {
    hide EachIn, EachInto, Points, PointsInto, Stray;
    found := false;
    for i := 0 to |rows|
      invariant found <==> exists j ::
          0 <= j < i && Points(db, rows[j], TeacherUser, k) && !EachIn(db, SubjectTeacher, rows[j], s.subjects)
    {
      var subjects := AnyOther(db, rows, SubjectTeacher, rows[i], s.subjects);
      if Points(db, rows[i], TeacherUser, k) && subjects { found := true; }
    }
    if t :| t in db && Points(db, t, TeacherUser, k) && !EachIn(db, SubjectTeacher, t, s.subjects) {
      var j :| 0 <= j < |rows| && rows[j] == t;
    }
  }

  method Enrolled(db: Db, rows: seq<Key>, s: Seeds, k: Key) returns (found: bool)
    requires (forall x :: x in rows <==> x in db) && k in s.users
    ensures found == Blocked(db, s, EnrolledElsewhere, k)
  {
    hide EachIn, EachInto, Points, PointsInto, Stray;
    found := false;
    for i := 0 to |rows|
      invariant found <==> exists j :: 0 <= j < i && Points(db, rows[j], StudentUser, k)
                                       && !EachInto(db, EnrollmentStudent, rows[j], EnrollmentSubject, s.subjects)
    {
      var enrollments := AnyOutside(db, rows, EnrollmentStudent, rows[i], EnrollmentSubject, s.subjects);
      if Points(db, rows[i], StudentUser, k) && enrollments { found := true; }
    }
    if p :| p in db && Points(db, p, StudentUser, k)
            && !EachInto(db, EnrollmentStudent, p, EnrollmentSubject, s.subjects) {
      var j :| 0 <= j < |rows| && rows[j] == p;
    }
  }

  method AboutUser(db: Db, rows: seq<Key>, s: Seeds, k: Key) returns (found: seq<Blocker>)
    requires (forall x :: x in rows <==> x in db) && k in s.users
    ensures Finds(db, s, k, USER_REASONS, found)
  {
    hide EachIn, EachInto, Blocked, Finds, When, Join;
    var teaches := Teaching(db, rows, s, k);
    var enrolled := Enrolled(db, rows, s, k);
    var memberships := AnyOutside(db, rows, MemberUser, k, MemberGroup, s.groups);
    var owned := AnyOther(db, rows, SubmissionStudent, k, s.submissions);
    var submitted := AnyOther(db, rows, SubmittedBy, k, s.submissions);
    var reviewed := AnyOther(db, rows, ReviewedBy, k, s.submissions);
    var events := AnyOutside(db, rows, EventActor, k, EventSubmission, s.submissions);
    var submissions :=
        Join(When(owned || submitted || reviewed, InOtherSubmissions, k), When(events, InOtherEvents, k));
    found := Join(Join(When(teaches, TeachesOthers, k), When(enrolled, EnrolledElsewhere, k)),
                  Join(When(memberships, MemberElsewhere, k), submissions));
    UserMeans(db, s, k);
    Complete(db, s, k, USER_REASONS, found);
  }

  method StrayActors(db: Db, rows: seq<Key>, s: Seeds, k: Key) returns (found: bool)
    requires (forall x :: x in rows <==> x in db) && k in s.submissions
    ensures found == Blocked(db, s, ActorsNotSeed, k)
  {
    hide EachIn, EachInto, Points, PointsInto, Stray;
    found := false;
    for i := 0 to |rows|
      invariant found <==> exists j ::
          0 <= j < i && Points(db, rows[j], EventSubmission, k) && Stray(db, rows[j], EventActor, s.users)
    {
      if Points(db, rows[i], EventSubmission, k) && Stray(db, rows[i], EventActor, s.users) { found := true; }
    }
    if e :| e in db && Points(db, e, EventSubmission, k) && Stray(db, e, EventActor, s.users) {
      var j :| 0 <= j < |rows| && rows[j] == e;
    }
  }

  method AboutSubmission(db: Db, rows: seq<Key>, s: Seeds, k: Key) returns (found: seq<Blocker>)
    requires (forall x :: x in rows <==> x in db) && k in s.submissions
    ensures Finds(db, s, k, SUBMISSION_REASONS, found)
  {
    hide Stray, Blocked, Finds, When, Join;
    var owner, submitter := Stray(db, k, SubmissionStudent, s.users), Stray(db, k, SubmittedBy, s.users);
    var reviewer, group := Stray(db, k, ReviewedBy, s.users), Stray(db, k, SubmissionGroup, s.groups);
    var actors := StrayActors(db, rows, s, k);
    var rest :=
        Join(When(reviewer, ReviewerNotSeed, k),
             Join(When(group, SubmissionGroupNotSeed, k), When(actors, ActorsNotSeed, k)));
    found := Join(Join(When(owner, OwnerNotSeed, k), When(submitter, SubmitterNotSeed, k)), rest);
    SubmissionMeans(db, s, k);
    Complete(db, s, k, SUBMISSION_REASONS, found);
  }

  // Every reason belongs to one kind of row, and is raised only about candidates of that kind.
  lemma NoCourseElsewhere(db: Db, s: Seeds, k: Key)
    ensures k !in s.subjects ==> Finds(db, s, k, SUBJECT_REASONS, [])
    ensures k !in s.groups ==> Finds(db, s, k, GROUP_REASONS, [])
    ensures k !in s.sections ==> Finds(db, s, k, SECTION_REASONS, [])
  {
    hide EachIn, EachInto, Points, PointsInto, Stray;
  }

  lemma NoPersonElsewhere(db: Db, s: Seeds, k: Key)
    ensures k !in s.users ==> Finds(db, s, k, USER_REASONS, [])
    ensures k !in s.submissions ==> Finds(db, s, k, SUBMISSION_REASONS, [])
  {
    hide EachIn, EachInto, Points, PointsInto, Stray;
  }

  method AboutRow(db: Db, rows: seq<Key>, s: Seeds, k: Key) returns (found: seq<Blocker>)
    requires forall x :: x in rows <==> x in db
    ensures forall b: Blocker :: b in found <==> FoundAt(db, s, k, b)
  {
    hide FoundAt;
    NoCourseElsewhere(db, s, k);
    NoPersonElsewhere(db, s, k);
    var subjects, groups, sections, users, submissions: seq<Blocker> := [], [], [], [], [];
    if k in s.subjects { subjects := AboutSubject(db, rows, s, k); }
    if k in s.groups { groups := AboutGroup(db, rows, s, k); }
    if k in s.sections { sections := AboutSection(db, rows, s, k); }
    var levels := AboutLevel(db, rows, s, k);
    var years := AboutYear(db, rows, s, k);
    if k in s.users { users := AboutUser(db, rows, s, k); }
    if k in s.submissions { submissions := AboutSubmission(db, rows, s, k); }
    found := subjects + groups + sections + levels + years + users + submissions;
    forall b: Blocker ensures b in found <==> FoundAt(db, s, k, b) {
      if FoundAt(db, s, k, b) { EveryReason(db, s, k, b); }
    }
  }

  lemma EveryReason(db: Db, s: Seeds, k: Key, b: Blocker)
    requires FoundAt(db, s, k, b)
    ensures b.About?
            && b.reason in SUBJECT_REASONS + GROUP_REASONS + SECTION_REASONS + LEVEL_REASONS + YEAR_REASONS
               + USER_REASONS + SUBMISSION_REASONS
  {
  }

  // Every reason is about a row of the database, and the preview comes upon it.
  lemma BlockedIsFound(db: Db, reason: Reason, row: Key) returns (k: Key)
    requires ReferencesHold(db) && Blocked(db, SeedsOf(db), reason, row)
    ensures k in db && FoundAt(db, SeedsOf(db), k, About(reason, row))
  {
    hide EachIn, EachInto, SomeOneIn, SomeInto, SectionLinked, SectionPure, Stray;
    k := if reason == SectionNotSeed then Key(Target(LinkSubject), db[row].refs[LinkSubject]) else row;
  }

  /** The preview: over the rows in the order they were read, and at each over the rows that refer to it.
      Its answer holds exactly the blockers that are there. */
  method FindBlockers(db: Db, rows: seq<Key>, actor: Key) returns (blockers: seq<Blocker>)
    requires ReferencesHold(db) && forall k :: k in rows <==> k in db
    ensures forall b: Blocker :: b in blockers <==> Raised(db, SeedsOf(db), actor, b)
  {
    hide Blocked, SeedsOf, LastAdminGoes, FoundAt;
    var s := SeedsOf(db);
    blockers := [];
    if actor in s.users { blockers := blockers + [ActorInSet]; }
    if LastAdminGoes(db, s) { blockers := blockers + [LastAdmin]; }
    for i := 0 to |rows|
      invariant forall b: Blocker :: b in blockers <==>
        if b.About? then exists k | k in rows[..i] :: FoundAt(db, s, k, b) else Raised(db, s, actor, b)
    {
      var found := AboutRow(db, rows, s, rows[i]);
      assert rows[..i + 1] == rows[..i] + [rows[i]];
      assert rows[i] in rows[..i + 1];
      forall b: Blocker | b in found ensures b.About? { FoundIsAbout(db, s, rows[i], b); }
      blockers := blockers + found;
    }
    assert rows[..|rows|] == rows;
    forall b: Blocker ensures b in blockers <==> Raised(db, s, actor, b) {
      if b.About? {
        if Blocked(db, s, b.reason, b.row) { var k := BlockedIsFound(db, b.reason, b.row); }
        if k :| k in rows && FoundAt(db, s, k, b) { FoundIsAbout(db, s, k, b); }
      }
    }
  }

  lemma FoundIsAbout(db: Db, s: Seeds, k: Key, b: Blocker)
    requires FoundAt(db, s, k, b)
    ensures b.About? && Blocked(db, s, b.reason, b.row)
  {
    hide Blocked;
  }
}
