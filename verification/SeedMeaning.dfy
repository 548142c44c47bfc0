/** What seed cleanup takes and what it reports, told without its sets of candidates: which rows go, as
    the only solution of an equation between rows and references, and each reason of the preview as a
    reference that the deletion would cut. */
module SeedMeaning {
  import opened SeedSections
  import opened SeedCandidates
  import opened SeedCleanup

  // ---------- which rows go ----------

  // Something refers to k by one of the columns, and all that does is in d.
  ghost predicate LivedInBy(db: Db, k: Key, columns: set<Column>, d: set<Key>) {
    && (exists x, c :: c in columns && Points(db, x, c, k))
    && (forall x, c | c in columns && Points(db, x, c, k) :: x in d)
  }

  // Whoever is placed in section k goes: its students, its groups, and both ends of its enrollments and links.
  ghost predicate SectionGoes(db: Db, k: Key, d: set<Key>) {
    && (exists x, c :: c in {StudentSection, EnrollmentSection, GroupSection, LinkSection} && Points(db, x, c, k))
    && (forall x | Points(db, x, StudentSection, k) || Points(db, x, GroupSection, k) :: x in d)
    && (forall e | Points(db, e, EnrollmentSection, k) ::
          PointsInto(db, e, EnrollmentStudent, d) && PointsInto(db, e, EnrollmentSubject, d))
    && (forall l | Points(db, l, LinkSection, k) :: PointsInto(db, l, LinkSubject, d))
  }

  /** Row k goes, if the rows that go are those of d. */
  ghost predicate Goes(db: Db, k: Key, d: set<Key>)
    requires k in db
  {
    match k.table
    case Users => db[k].labelled && !db[k].guarded
    case Students => PointsInto(db, k, StudentUser, d)
    case Teachers => PointsInto(db, k, TeacherUser, d)
    case Subjects =>
      || db[k].labelled
      || (PointsInto(db, k, SubjectTeacher, d)
          && forall e | Points(db, e, EnrollmentSubject, k) :: PointsInto(db, e, EnrollmentStudent, d))
    case Groups =>
      PointsInto(db, k, GroupSubject, d) && forall m | Points(db, m, MemberGroup, k) :: PointsInto(db, m, MemberUser, d)
    case Sections => db[k].labelled || SectionGoes(db, k, d)
    case Levels => db[k].labelled || LivedInBy(db, k, {SectionLevel, StudentLevel}, d)
    case Years => db[k].labelled || LivedInBy(db, k, {SectionYear, StudentYear, LevelYear}, d)
    case Tasks => PointsInto(db, k, TaskSubject, d)
    case Submissions =>
      || PointsInto(db, k, SubmissionSubject, d) || PointsInto(db, k, SubmissionTask, d)
      || PointsInto(db, k, SubmissionGroup, d) || PointsInto(db, k, SubmissionStudent, d)
    case Members => PointsInto(db, k, MemberGroup, d)
    case Enrollments =>
      && PointsInto(db, k, EnrollmentSubject, d) && PointsInto(db, k, EnrollmentStudent, d)
      && (Has(db, k, EnrollmentSection) ==> PointsInto(db, k, EnrollmentSection, d))
    case SubjectSections => PointsInto(db, k, LinkSubject, d) && PointsInto(db, k, LinkSection, d)
    case Events => PointsInto(db, k, EventSubmission, d)
    case Files => PointsInto(db, k, FileSubmission, d)
    case AuditLogs => PointsInto(db, k, AuditActor, d)
    case Notifications => PointsInto(db, k, NotificationUser, d)
    case Tokens => PointsInto(db, k, TokenUser, d)
    case Sessions => PointsInto(db, k, SessionUser, d)
    case Courses => false
    case DeletionRequests => false
  }

  // d and s hold the same rows of the table.
  ghost predicate Agree(d: set<Key>, s: set<Key>, table: Table) {
    forall x: Key | x.table == table :: x in d <==> x in s
  }

  lemma IntoAgrees(db: Db, k: Key, c: Column, d: set<Key>, s: set<Key>)
    requires Agree(d, s, Target(c))
    ensures PointsInto(db, k, c, d) <==> PointsInto(db, k, c, s)
  {
    hide Target;
  }

  // A row that refers to something by a column is of that column's table.
  lemma RefersFromOwner(db: Db, x: Key, c: Column, k: Key)
    requires ReferencesHold(db) && Points(db, x, c, k)
    ensures x.table == Owner(c)
  {
    hide Owner, Target;
  }

  lemma EachIntoAgrees(db: Db, c: Column, k: Key, e: Column, d: set<Key>, s: set<Key>)
    requires Agree(d, s, Target(e))
    ensures EachInto(db, c, k, e, s) <==> forall x | Points(db, x, c, k) :: PointsInto(db, x, e, d)
  {
    hide Target, Points, PointsInto, Agree;
    PointsHere(db, c, k);
    if EachInto(db, c, k, e, s) {
      forall x | Points(db, x, c, k) ensures PointsInto(db, x, e, d) { IntoAgrees(db, x, e, d, s); }
    }
    if forall x | Points(db, x, c, k) :: PointsInto(db, x, e, d) {
      forall x | x in db && Points(db, x, c, k) ensures PointsInto(db, x, e, s) { IntoAgrees(db, x, e, d, s); }
    }
  }

  lemma PointsHere(db: Db, c: Column, k: Key)
    ensures forall x | Points(db, x, c, k) :: x in db
  {
  }

  lemma EachInAgrees(db: Db, c: Column, k: Key, d: set<Key>, s: set<Key>)
    requires ReferencesHold(db) && Agree(d, s, Owner(c))
    ensures EachIn(db, c, k, s) <==> forall x | Points(db, x, c, k) :: x in d
  {
    hide Owner, Target, Points, ReferencesHold;
    PointsHere(db, c, k);
    forall x | Points(db, x, c, k) ensures x in d <==> x in s { RefersFromOwner(db, x, c, k); }
  }

  lemma SeedTables(db: Db)
    ensures var s := SeedsOf(db);
            && (forall k | k in s.users :: k in db && k.table == Users)
            && (forall k | k in s.students :: k in db && k.table == Students)
            && (forall k | k in s.teachers :: k in db && k.table == Teachers)
            && (forall k | k in s.subjects :: k in db && k.table == Subjects)
            && (forall k | k in s.groups :: k in db && k.table == Groups)
            && (forall k | k in s.sections :: k in db && k.table == Sections)
            && (forall k | k in s.levels :: k in db && k.table == Levels)
            && (forall k | k in s.years :: k in db && k.table == Years)
            && (forall k | k in s.tasks :: k in db && k.table == Tasks)
            && (forall k | k in s.submissions :: k in db && k.table == Submissions)
  {
    hide SeedsOf;
    PeopleTables(db);
    PlaceTables(db);
  }

  lemma PeopleTables(db: Db)
    ensures var s := SeedsOf(db);
            && (forall k | k in s.users :: k in db && k.table == Users)
            && (forall k | k in s.students :: k in db && k.table == Students)
            && (forall k | k in s.teachers :: k in db && k.table == Teachers)
            && (forall k | k in s.tasks :: k in db && k.table == Tasks)
  {
    hide PointsInto, SeedSubjects, SeedGroups, SeedSectionsOf, SeedLevels, SeedYears, SeedSubmissions;
  }

  lemma PlaceTables(db: Db)
    ensures var s := SeedsOf(db);
            && (forall k | k in s.subjects :: k in db && k.table == Subjects)
            && (forall k | k in s.groups :: k in db && k.table == Groups)
            && (forall k | k in s.sections :: k in db && k.table == Sections)
            && (forall k | k in s.levels :: k in db && k.table == Levels)
            && (forall k | k in s.years :: k in db && k.table == Years)
            && (forall k | k in s.submissions :: k in db && k.table == Submissions)
  {
    hide EachIn, EachInto, SectionLinked, SectionPure, SomeOneIn, PointsInto, SeedUsers, Referring;
  }

  lemma UsersGo(db: Db, k: Key, d: set<Key>)
    requires k in db && k.table == Users
    ensures Goes(db, k, d) <==> k in SeedsOf(db).users
  {
    hide Referring, SeedSubjects, SeedGroups, SeedSectionsOf, SeedLevels, SeedYears, SeedSubmissions;
  }

  lemma ProfilesGo(db: Db, k: Key, d: set<Key>)
    requires k in db && Agree(d, SeedsOf(db).users, Users)
    ensures k.table == Students ==> (Goes(db, k, d) <==> k in SeedsOf(db).students)
    ensures k.table == Teachers ==> (Goes(db, k, d) <==> k in SeedsOf(db).teachers)
  {
    hide PointsInto, SeedUsers, SeedSubjects, SeedGroups, SeedSectionsOf, SeedLevels, SeedYears, SeedSubmissions, Agree;
    IntoAgrees(db, k, StudentUser, d, SeedsOf(db).users);
    IntoAgrees(db, k, TeacherUser, d, SeedsOf(db).users);
  }

  lemma SubjectsGo(db: Db, k: Key, d: set<Key>)
    requires k in db && k.table == Subjects
    requires Agree(d, SeedsOf(db).students, Students) && Agree(d, SeedsOf(db).teachers, Teachers)
    ensures Goes(db, k, d) <==> k in SeedsOf(db).subjects
  {
    hide PointsInto, Points, EachInto, SeedUsers, Referring, SeedGroups, SeedSectionsOf, SeedLevels, SeedYears,
         SeedSubmissions, Agree;
    IntoAgrees(db, k, SubjectTeacher, d, SeedsOf(db).teachers);
    EachIntoAgrees(db, EnrollmentSubject, k, EnrollmentStudent, d, SeedsOf(db).students);
  }

  lemma GroupsGo(db: Db, k: Key, d: set<Key>)
    requires k in db && Agree(d, SeedsOf(db).users, Users) && Agree(d, SeedsOf(db).subjects, Subjects)
    ensures k.table == Groups ==> (Goes(db, k, d) <==> k in SeedsOf(db).groups)
    ensures k.table == Tasks ==> (Goes(db, k, d) <==> k in SeedsOf(db).tasks)
  {
    hide PointsInto, Points, EachInto, SeedUsers, SeedSubjects, SeedSectionsOf, SeedLevels, SeedYears, SeedSubmissions,
         Agree;
    IntoAgrees(db, k, GroupSubject, d, SeedsOf(db).subjects);
    IntoAgrees(db, k, TaskSubject, d, SeedsOf(db).subjects);
    EachIntoAgrees(db, MemberGroup, k, MemberUser, d, SeedsOf(db).users);
  }

  // Where everything linked to a section is seed data, it is linked to some exactly if it is linked at all.
  lemma LinkedIfPure(db: Db, k: Key, students: set<Key>, subjects: set<Key>, groups: set<Key>)
    requires SectionPure(db, k, students, subjects, groups)
    ensures SectionLinked(db, k, students, subjects, groups) <==>
            exists x, c :: c in {StudentSection, EnrollmentSection, GroupSection, LinkSection} && Points(db, x, c, k)
  {
    hide PointsInto, Points;
    if x, c :| c in {StudentSection, EnrollmentSection, GroupSection, LinkSection} && Points(db, x, c, k) {
      PointsHere(db, c, k);
      assert x in db;
    }
  }

  lemma SectionsGo(db: Db, k: Key, d: set<Key>)
    requires ReferencesHold(db) && k in db && k.table == Sections
    requires Agree(d, SeedsOf(db).students, Students) && Agree(d, SeedsOf(db).subjects, Subjects)
    requires Agree(d, SeedsOf(db).groups, Groups)
    ensures Goes(db, k, d) <==> k in SeedsOf(db).sections
  {
    hide PointsInto, Points, EachInto, EachIn, SectionLinked, SectionPure, SectionGoes, ReferencesHold, SeedUsers,
         Referring, SeedSubjects, SeedGroups, SeedLevels, SeedYears, SeedSubmissions, Agree;
    var s := SeedsOf(db);
    PureAgrees(db, k, d, s);
    if SectionPure(db, k, s.students, s.subjects, s.groups) { LinkedIfPure(db, k, s.students, s.subjects, s.groups); }
  }

  lemma PureAgrees(db: Db, k: Key, d: set<Key>, s: Seeds)
    requires ReferencesHold(db)
    requires Agree(d, s.students, Students) && Agree(d, s.subjects, Subjects) && Agree(d, s.groups, Groups)
    ensures SectionGoes(db, k, d) <==>
            SectionPure(db, k, s.students, s.subjects, s.groups)
            && exists x, c :: c in {StudentSection, EnrollmentSection, GroupSection, LinkSection} && Points(db, x, c, k)
  {
    hide PointsInto, Points, EachInto, EachIn, ReferencesHold, Agree;
    EachInAgrees(db, StudentSection, k, d, s.students);
    EachInAgrees(db, GroupSection, k, d, s.groups);
    EachIntoAgrees(db, EnrollmentSection, k, EnrollmentStudent, d, s.students);
    EachIntoAgrees(db, EnrollmentSection, k, EnrollmentSubject, d, s.subjects);
    EachIntoAgrees(db, LinkSection, k, LinkSubject, d, s.subjects);
  }

  // What lives in k by one of the columns.
  ghost predicate OneColumn(db: Db, k: Key, a: Column, d: set<Key>) { forall x | Points(db, x, a, k) :: x in d }

  lemma LivedInMeans(db: Db, k: Key, columns: set<Column>, d: set<Key>)
    ensures LivedInBy(db, k, columns, d) <==>
            (exists c :: c in columns && exists x :: Points(db, x, c, k)) && forall c | c in columns ::
                OneColumn(db, k, c, d)
  {
    hide Points;
    if LivedInBy(db, k, columns, d) {
      var x, c :| c in columns && Points(db, x, c, k);
      assert c in columns && exists x :: Points(db, x, c, k);
      forall b | b in columns ensures OneColumn(db, k, b, d) {}
    } else if (exists c :: c in columns && exists x :: Points(db, x, c, k)) && forall c | c in columns ::
        OneColumn(db, k, c, d) {
      var c :| c in columns && exists x :: Points(db, x, c, k);
      var x :| Points(db, x, c, k);
      forall y, b | b in columns && Points(db, y, b, k) ensures y in d { assert OneColumn(db, k, b, d); }
    }
  }

  lemma ColumnAgrees(db: Db, k: Key, a: Column, d: set<Key>, s: set<Key>)
    requires ReferencesHold(db) && Agree(d, s, Owner(a))
    ensures OneColumn(db, k, a, d) <==> EachIn(db, a, k, s)
    ensures EachIn(db, a, k, s) ==> (SomeOneIn(db, a, k, s) <==> exists x :: Points(db, x, a, k))
  {
    hide Points, Owner, ReferencesHold, Agree;
    EachInAgrees(db, a, k, d, s);
    PointsHere(db, a, k);
  }

  lemma LevelsGo(db: Db, k: Key, d: set<Key>)
    requires ReferencesHold(db) && k in db && k.table == Levels
    requires Agree(d, SeedsOf(db).students, Students) && Agree(d, SeedsOf(db).sections, Sections)
    ensures Goes(db, k, d) <==> k in SeedsOf(db).levels
  {
    hide SomeOneIn, EachIn, LivedInBy, OneColumn, Points, ReferencesHold, SeedUsers, Referring, SeedSubjects,
         SeedGroups, SeedSectionsOf,
         SeedYears, SeedSubmissions, Agree;
    LivedInMeans(db, k, {SectionLevel, StudentLevel}, d);
    ColumnAgrees(db, k, SectionLevel, d, SeedsOf(db).sections);
    ColumnAgrees(db, k, StudentLevel, d, SeedsOf(db).students);
  }

  lemma YearsGo(db: Db, k: Key, d: set<Key>)
    requires ReferencesHold(db) && k in db && k.table == Years && Agree(d, SeedsOf(db).students, Students)
    requires Agree(d, SeedsOf(db).sections, Sections) && Agree(d, SeedsOf(db).levels, Levels)
    ensures Goes(db, k, d) <==> k in SeedsOf(db).years
  {
    hide SomeOneIn, EachIn, LivedInBy, OneColumn, Points, ReferencesHold, SeedUsers, Referring, SeedSubjects,
         SeedGroups, SeedSectionsOf,
         SeedLevels, SeedSubmissions, Agree;
    var s := SeedsOf(db);
    LivedInMeans(db, k, {SectionYear, StudentYear, LevelYear}, d);
    ColumnAgrees(db, k, SectionYear, d, s.sections);
    ColumnAgrees(db, k, StudentYear, d, s.students);
    ColumnAgrees(db, k, LevelYear, d, s.levels);
  }

  lemma SubmissionsGo(db: Db, k: Key, d: set<Key>)
    requires k in db && k.table == Submissions && Agree(d, SeedsOf(db).users, Users)
    requires Agree(d, SeedsOf(db).subjects, Subjects) && Agree(d, SeedsOf(db).tasks, Tasks)
    requires Agree(d, SeedsOf(db).groups, Groups)
    ensures Goes(db, k, d) <==> k in SeedsOf(db).submissions
  {
    hide PointsInto, SeedUsers, Referring, SeedSubjects, SeedGroups, SeedSectionsOf, SeedLevels, SeedYears, Agree;
    var s := SeedsOf(db);
    IntoAgrees(db, k, SubmissionSubject, d, s.subjects);
    IntoAgrees(db, k, SubmissionTask, d, s.tasks);
    IntoAgrees(db, k, SubmissionGroup, d, s.groups);
    IntoAgrees(db, k, SubmissionStudent, d, s.users);
  }

  // On all the tables whose rows are chosen.
  ghost predicate AgreeAll(d: set<Key>, s: Seeds) {
    && Agree(d, s.users, Users) && Agree(d, s.students, Students) && Agree(d, s.teachers, Teachers)
    && Agree(d, s.subjects, Subjects) && Agree(d, s.groups, Groups) && Agree(d, s.sections, Sections)
    && Agree(d, s.levels, Levels) && Agree(d, s.years, Years) && Agree(d, s.tasks, Tasks)
    && Agree(d, s.submissions, Submissions)
  }

  lemma OthersGo(db: Db, k: Key, d: set<Key>, s: Seeds)
    requires k in db && AgreeAll(d, s) && Owns(k.table)
    ensures Goes(db, k, d) <==> Taken(db, s, k)
  {
    hide PointsInto, Agree;
    IntoAgrees(db, k, MemberGroup, d, s.groups);
    IntoAgrees(db, k, EnrollmentSubject, d, s.subjects);
    IntoAgrees(db, k, EnrollmentStudent, d, s.students);
    IntoAgrees(db, k, EnrollmentSection, d, s.sections);
    IntoAgrees(db, k, LinkSubject, d, s.subjects);
    IntoAgrees(db, k, LinkSection, d, s.sections);
    IntoAgrees(db, k, EventSubmission, d, s.submissions);
    IntoAgrees(db, k, FileSubmission, d, s.submissions);
    IntoAgrees(db, k, AuditActor, d, s.users);
    IntoAgrees(db, k, NotificationUser, d, s.users);
    IntoAgrees(db, k, TokenUser, d, s.users);
    IntoAgrees(db, k, SessionUser, d, s.users);
  }

  // The tables whose rows go with others.
  predicate Owns(t: Table) {
    t in {Members, Enrollments, SubjectSections, Events, Files, AuditLogs, Notifications, Tokens, Sessions, Courses,
          DeletionRequests}
  }

  lemma GoesAsTaken(db: Db, k: Key, d: set<Key>)
    requires ReferencesHold(db) && k in db && AgreeAll(d, SeedsOf(db))
    ensures Goes(db, k, d) <==> Taken(db, SeedsOf(db), k)
  {
    hide Goes, SeedsOf, Agree, ReferencesHold;
    if Owns(k.table) {
      OthersGo(db, k, d, SeedsOf(db));
    } else {
      match k.table
      case Users => UsersGo(db, k, d);
      case Students => ProfilesGo(db, k, d);
      case Teachers => ProfilesGo(db, k, d);
      case Subjects => SubjectsGo(db, k, d);
      case Sections => SectionsGo(db, k, d);
      case Levels => LevelsGo(db, k, d);
      case Years => YearsGo(db, k, d);
      case Submissions => SubmissionsGo(db, k, d);
      case _ => GroupsGo(db, k, d);
    }
  }

  ghost predicate Solves(db: Db, d: set<Key>) {
    d <= db.Keys && forall k | k in db :: k in d <==> Goes(db, k, d)
  }

  lemma DoomedAgrees(db: Db)
    ensures AgreeAll(Doomed(db), SeedsOf(db))
  {
    hide SeedsOf;
    SeedTables(db);
  }

  // A solution agrees with the candidates table by table.
  lemma SolutionAgrees(db: Db, d: set<Key>)
    requires ReferencesHold(db) && Solves(db, d)
    ensures AgreeAll(d, SeedsOf(db))
  {
    hide Goes, SeedsOf, ReferencesHold;
    var s := SeedsOf(db);
    SeedTables(db);
    forall k | k in db && k.table == Users ensures k in d <==> k in s.users { UsersGo(db, k, d); }
    assert Agree(d, s.users, Users);
    forall k | k in db && k.table == Students ensures k in d <==> k in s.students { ProfilesGo(db, k, d); }
    forall k | k in db && k.table == Teachers ensures k in d <==> k in s.teachers { ProfilesGo(db, k, d); }
    assert Agree(d, s.students, Students) && Agree(d, s.teachers, Teachers);
    forall k | k in db && k.table == Subjects ensures k in d <==> k in s.subjects { SubjectsGo(db, k, d); }
    assert Agree(d, s.subjects, Subjects);
    forall k | k in db && k.table == Groups ensures k in d <==> k in s.groups { GroupsGo(db, k, d); }
    forall k | k in db && k.table == Tasks ensures k in d <==> k in s.tasks { GroupsGo(db, k, d); }
    assert Agree(d, s.groups, Groups) && Agree(d, s.tasks, Tasks);
    forall k | k in db && k.table == Sections ensures k in d <==> k in s.sections { SectionsGo(db, k, d); }
    assert Agree(d, s.sections, Sections);
    forall k | k in db && k.table == Levels ensures k in d <==> k in s.levels { LevelsGo(db, k, d); }
    assert Agree(d, s.levels, Levels);
    forall k | k in db && k.table == Years ensures k in d <==> k in s.years { YearsGo(db, k, d); }
    forall k | k in db && k.table == Submissions ensures k in d <==> k in s.submissions { SubmissionsGo(db, k, d); }
  }

  /** The rows that the cleanup deletes are the only set of rows that fits: a row is in it exactly if it
      goes when the set goes. */
  lemma DoomedIsOnly(db: Db, d: set<Key>)
    requires ReferencesHold(db)
    ensures Solves(db, d) <==> d == Doomed(db)
  {
    hide Goes, SeedsOf, ReferencesHold, Taken, AgreeAll;
    if d == Doomed(db) {
      DoomedAgrees(db);
      forall k | k in db ensures k in d <==> Goes(db, k, d) { GoesAsTaken(db, k, d); }
    } else if Solves(db, d) {
      SolutionAgrees(db, d);
      forall k | k in db ensures k in d <==> k in Doomed(db) { GoesAsTaken(db, k, d); }
    }
  }

  // ---------- what the preview reports ----------

  // Row k goes, and what its column c refers to stays.
  ghost predicate Leaves(db: Db, k: Key, c: Column) {
    k in Doomed(db) && Has(db, k, c) && Pointed(db, k, c) !in Doomed(db)
  }

  // Row x stays, and k, to which its column c refers, goes.
  ghost predicate Stays(db: Db, x: Key, c: Column, k: Key) {
    Points(db, x, c, k) && k in Doomed(db) && x !in Doomed(db)
  }

  ghost predicate SomeStays(db: Db, c: Column, k: Key) { exists x :: Stays(db, x, c, k) }

  /** Each reason is a reference, of the row that it is about or to it, between a row that goes and one
      that stays. */
  ghost predicate Cuts(db: Db, reason: Reason, k: Key) {
    match reason
    case TeacherNotSeed => Leaves(db, k, SubjectTeacher)
    case EnrollmentsNotSeed =>
      exists e :: Stays(db, e, EnrollmentSubject, k) && !PointsInto(db, e, EnrollmentStudent, Doomed(db))
    case SectionNotSeed => exists x :: Stays(db, k, LinkSubject, x)
    case GroupsNotSeed => SomeStays(db, GroupSubject, k)
    case MembersNotSeed => false
    case GroupSectionNotSeed => Leaves(db, k, GroupSection)
    case SectionHasStudents => SomeStays(db, StudentSection, k)
    case SectionHasEnrollments => SomeStays(db, EnrollmentSection, k)
    case SectionHasGroups => SomeStays(db, GroupSection, k)
    case SectionHasSubjects => SomeStays(db, LinkSection, k)
    case LevelHasSections => SomeStays(db, SectionLevel, k)
    case LevelHasStudents => SomeStays(db, StudentLevel, k)
    case YearHasSections => SomeStays(db, SectionYear, k)
    case YearHasStudents => SomeStays(db, StudentYear, k)
    case YearHasLevels => SomeStays(db, LevelYear, k)
    case TeachesOthers =>
      k in Doomed(db) && exists t :: Points(db, t, TeacherUser, k) && SomeStays(db, SubjectTeacher, t)
    case EnrolledElsewhere =>
      k in Doomed(db) && exists p, e ::
        && Points(db, p, StudentUser, k) && Stays(db, e, EnrollmentStudent, p)
        && !PointsInto(db, e, EnrollmentSubject, Doomed(db))
    case MemberElsewhere => SomeStays(db, MemberUser, k)
    case InOtherSubmissions =>
      SomeStays(db, SubmissionStudent, k) || SomeStays(db, SubmittedBy, k) || SomeStays(db, ReviewedBy, k)
    case InOtherEvents => SomeStays(db, EventActor, k)
    case OwnerNotSeed => Leaves(db, k, SubmissionStudent)
    case SubmitterNotSeed => Leaves(db, k, SubmittedBy)
    case ReviewerNotSeed => Leaves(db, k, ReviewedBy)
    case SubmissionGroupNotSeed => Leaves(db, k, SubmissionGroup)
    case ActorsNotSeed => k in Doomed(db) && exists e :: Points(db, e, EventSubmission, k) && Leaves(db, e, EventActor)
  }

  // All in s are rows of the table.
  ghost predicate Within(s: set<Key>, table: Table) { forall x | x in s :: x.table == table }

  lemma LeavesExact(db: Db, k: Key, c: Column, own: set<Key>, to: set<Key>)
    requires ReferencesHold(db) && Agree(Doomed(db), own, Owner(c)) && Agree(Doomed(db), to, Target(c))
    requires Within(own, Owner(c))
    ensures k in own && Stray(db, k, c, to) <==> Leaves(db, k, c)
  {
    hide Owner, Target, Doomed;
  }

  lemma StaysExact(db: Db, c: Column, k: Key, own: set<Key>, rows: set<Key>)
    requires ReferencesHold(db) && Agree(Doomed(db), own, Target(c)) && Agree(Doomed(db), rows, Owner(c))
    requires Within(own, Target(c))
    ensures k in own && !EachIn(db, c, k, rows) <==> SomeStays(db, c, k)
  {
    hide Owner, Target, Doomed, ReferencesHold, Points;
    PointsHere(db, c, k);
    PointsTarget(db, c, k);
    if x :| Points(db, x, c, k) && x !in rows {
      RefersFromOwner(db, x, c, k);
      if k in own { assert Stays(db, x, c, k); }
    }
    if x :| Stays(db, x, c, k) { RefersFromOwner(db, x, c, k); }
  }

  // Where the rows of a table go with what another of their columns refers to.
  lemma StaysThrough(db: Db, c: Column, k: Key, own: set<Key>, e: Column, to: set<Key>)
    requires Agree(Doomed(db), own, Target(c)) && Within(own, Target(c))
    requires forall x | Points(db, x, c, k) && k in own :: x in Doomed(db) <==> PointsInto(db, x, e, to)
    ensures k in own && !EachInto(db, c, k, e, to) <==> SomeStays(db, c, k)
  {
    hide Target, Doomed, PointsInto, Points;
    PointsHere(db, c, k);
    PointsTarget(db, c, k);
    if k in own && !EachInto(db, c, k, e, to) {
      var x :| Points(db, x, c, k) && !PointsInto(db, x, e, to);
      assert Stays(db, x, c, k);
    }
  }

  lemma SeedsWithin(db: Db)
    ensures var s := SeedsOf(db);
            && Within(s.users, Users) && Within(s.students, Students) && Within(s.teachers, Teachers)
            && Within(s.subjects, Subjects) && Within(s.groups, Groups) && Within(s.sections, Sections)
            && Within(s.levels, Levels) && Within(s.years, Years) && Within(s.submissions, Submissions)
  {
    hide SeedsOf;
    SeedTables(db);
  }

  lemma LeavingReasons(db: Db, k: Key)
    requires ReferencesHold(db)
    ensures forall r | r in {TeacherNotSeed, GroupSectionNotSeed, OwnerNotSeed, SubmitterNotSeed, ReviewerNotSeed,
                             SubmissionGroupNotSeed} :: Blocked(db, SeedsOf(db), r, k) <==> Cuts(db, r, k)
  {
    hide SeedsOf, Stray, Leaves, Doomed, Agree, Within, ReferencesHold, Points, PointsInto;
    var s := SeedsOf(db);
    DoomedAgrees(db);
    SeedsWithin(db);
    LeavesExact(db, k, SubjectTeacher, s.subjects, s.teachers);
    LeavesExact(db, k, GroupSection, s.groups, s.sections);
    LeavesExact(db, k, SubmissionStudent, s.submissions, s.users);
    LeavesExact(db, k, SubmittedBy, s.submissions, s.users);
    LeavesExact(db, k, ReviewedBy, s.submissions, s.users);
    LeavesExact(db, k, SubmissionGroup, s.submissions, s.groups);
  }

  lemma StayingReasons(db: Db, k: Key)
    requires ReferencesHold(db)
    ensures forall r | r in {GroupsNotSeed, SectionHasStudents, SectionHasGroups, LevelHasSections, LevelHasStudents,
                             YearHasSections, YearHasStudents, YearHasLevels} ::
              Blocked(db, SeedsOf(db), r, k) <==> Cuts(db, r, k)
  {
    hide SeedsOf, EachIn, SomeStays, Doomed, Agree, Within, ReferencesHold, Points, PointsInto;
    var s := SeedsOf(db);
    DoomedAgrees(db);
    SeedsWithin(db);
    StaysExact(db, GroupSubject, k, s.subjects, s.groups);
    StaysExact(db, StudentSection, k, s.sections, s.students);
    StaysExact(db, GroupSection, k, s.sections, s.groups);
    StaysExact(db, SectionLevel, k, s.levels, s.sections);
    StaysExact(db, StudentLevel, k, s.levels, s.students);
    StaysExact(db, SectionYear, k, s.years, s.sections);
    StaysExact(db, StudentYear, k, s.years, s.students);
    StaysExact(db, LevelYear, k, s.years, s.levels);
  }

  lemma OtherSubmissions(db: Db, k: Key)
    requires ReferencesHold(db)
    ensures Blocked(db, SeedsOf(db), InOtherSubmissions, k) <==> Cuts(db, InOtherSubmissions, k)
  {
    hide SeedsOf, EachIn, SomeStays, Doomed, Agree, Within, ReferencesHold, Points, PointsInto;
    var s := SeedsOf(db);
    DoomedAgrees(db);
    SeedsWithin(db);
    StaysExact(db, SubmissionStudent, k, s.users, s.submissions);
    StaysExact(db, SubmittedBy, k, s.users, s.submissions);
    StaysExact(db, ReviewedBy, k, s.users, s.submissions);
  }

  // Members, events and links to a section that goes.
  lemma GoesThrough(db: Db, x: Key, c: Column, k: Key)
    requires ReferencesHold(db) && Points(db, x, c, k)
    ensures var s, d := SeedsOf(db), Doomed(db);
            && (c == MemberUser ==> (x in d <==> PointsInto(db, x, MemberGroup, s.groups)))
            && (c == EventActor ==> (x in d <==> PointsInto(db, x, EventSubmission, s.submissions)))
            && (c == LinkSection && k in s.sections ==> (x in d <==> PointsInto(db, x, LinkSubject, s.subjects)))
            && (c == EnrollmentSection && k in s.sections ==>
                  (x in d <==> PointsInto(db, x, EnrollmentStudent, s.students)
                               && PointsInto(db, x, EnrollmentSubject, s.subjects)))
  {
    hide SeedsOf;
    RefersFromOwner(db, x, c, k);
  }

  lemma ThroughReasons(db: Db, k: Key)
    requires ReferencesHold(db)
    ensures forall r | r in {MemberElsewhere, InOtherEvents, SectionHasSubjects} ::
              Blocked(db, SeedsOf(db), r, k) <==> Cuts(db, r, k)
  {
    hide SeedsOf, EachInto, SomeStays, Doomed, Agree, Within, ReferencesHold, Points, PointsInto;
    var s := SeedsOf(db);
    DoomedAgrees(db);
    SeedsWithin(db);
    forall x, c | Points(db, x, c, k)
      ensures c == MemberUser ==> (x in Doomed(db) <==> PointsInto(db, x, MemberGroup, s.groups))
      ensures c == EventActor ==> (x in Doomed(db) <==> PointsInto(db, x, EventSubmission, s.submissions))
      ensures c == LinkSection && k in s.sections ==> (x in Doomed(db) <==> PointsInto(db, x, LinkSubject, s.subjects))
    {
      GoesThrough(db, x, c, k);
    }
    StaysThrough(db, MemberUser, k, s.users, MemberGroup, s.groups);
    StaysThrough(db, EventActor, k, s.users, EventSubmission, s.submissions);
    StaysThrough(db, LinkSection, k, s.sections, LinkSubject, s.subjects);
  }

  lemma SectionEnrollments(db: Db, k: Key)
    requires ReferencesHold(db)
    ensures Blocked(db, SeedsOf(db), SectionHasEnrollments, k) <==> Cuts(db, SectionHasEnrollments, k)
  {
    hide SeedsOf, Doomed, ReferencesHold, Points, PointsInto, Agree, Within;
    var s := SeedsOf(db);
    SectionMeans(db, s, k);
    PointsHere(db, EnrollmentSection, k);
    SectionRows(db, k);
    if x :| Stays(db, x, EnrollmentSection, k) { GoesThrough(db, x, EnrollmentSection, k); }
    if k in s.sections {
      if x :| Points(db, x, EnrollmentSection, k)
              && !(PointsInto(db, x, EnrollmentStudent, s.students)
                   && PointsInto(db, x, EnrollmentSubject, s.subjects)) {
        GoesThrough(db, x, EnrollmentSection, k);
        assert Stays(db, x, EnrollmentSection, k);
      }
    }
  }

  lemma SectionRows(db: Db, k: Key)
    ensures k.table == Sections ==> (k in Doomed(db) <==> k in SeedsOf(db).sections)
    ensures k in SeedsOf(db).sections ==> k.table == Sections
    ensures forall x | Points(db, x, EnrollmentSection, k) :: k.table == Sections
  {
    hide SeedsOf;
    SeedTables(db);
  }

  lemma PointsTarget(db: Db, c: Column, k: Key)
    ensures forall x | Points(db, x, c, k) :: k.table == Target(c)
  {
  }

  // A row outside what a column of it must lead into does not go.
  lemma EnrollmentStays(db: Db, x: Key, c: Column, k: Key)
    requires ReferencesHold(db) && Points(db, x, c, k) && (c == EnrollmentSubject || c == EnrollmentStudent)
    ensures var s, d := SeedsOf(db), Doomed(db);
            && (PointsInto(db, x, EnrollmentStudent, d) <==> PointsInto(db, x, EnrollmentStudent, s.students))
            && (PointsInto(db, x, EnrollmentSubject, d) <==> PointsInto(db, x, EnrollmentSubject, s.subjects))
            && (x in d ==> PointsInto(db, x, EnrollmentStudent, d) && PointsInto(db, x, EnrollmentSubject, d))
  {
    hide SeedsOf, Agree;
    RefersFromOwner(db, x, c, k);
    DoomedAgrees(db);
    IntoAgrees(db, x, EnrollmentStudent, Doomed(db), SeedsOf(db).students);
    IntoAgrees(db, x, EnrollmentSubject, Doomed(db), SeedsOf(db).subjects);
  }

  lemma EnrollmentReasons(db: Db, k: Key)
    requires ReferencesHold(db)
    ensures Blocked(db, SeedsOf(db), EnrollmentsNotSeed, k) <==> Cuts(db, EnrollmentsNotSeed, k)
  {
    hide SeedsOf, Doomed, ReferencesHold, Points, PointsInto;
    DoomedAgrees(db);
    SeedsWithin(db);
    PointsHere(db, EnrollmentSubject, k);
    PointsTarget(db, EnrollmentSubject, k);
    forall x | Points(db, x, EnrollmentSubject, k)
      ensures PointsInto(db, x, EnrollmentStudent, Doomed(db)) <==>
                PointsInto(db, x, EnrollmentStudent, SeedsOf(db).students)
      ensures x in Doomed(db) ==> PointsInto(db, x, EnrollmentStudent, Doomed(db))
    {
      EnrollmentStays(db, x, EnrollmentSubject, k);
    }
  }

  // The profile of a user goes with the user.
  lemma ProfileOf(db: Db, p: Key, c: Column, k: Key)
    requires ReferencesHold(db) && Points(db, p, c, k) && (c == StudentUser || c == TeacherUser)
    ensures p in db && (p in Doomed(db) <==> k in Doomed(db)) && (k in Doomed(db) <==> k in SeedsOf(db).users)
    ensures c == StudentUser ==> (p in Doomed(db) <==> p in SeedsOf(db).students)
    ensures c == TeacherUser ==> (p in Doomed(db) <==> p in SeedsOf(db).teachers)
  {
    hide SeedsOf;
    RefersFromOwner(db, p, c, k);
    SeedAccounts(db, p);
    SeedTables(db);
  }

  lemma EnrolledReason(db: Db, k: Key)
    requires ReferencesHold(db)
    ensures Blocked(db, SeedsOf(db), EnrolledElsewhere, k) <==> Cuts(db, EnrolledElsewhere, k)
  {
    hide SeedsOf, Doomed, ReferencesHold, Points, PointsInto;
    DoomedAgrees(db);
    SeedsWithin(db);
    forall p | Points(db, p, StudentUser, k)
      ensures p in db && (k in Doomed(db) <==> k in SeedsOf(db).users) && (p in Doomed(db) <==> k in Doomed(db))
    {
      ProfileOf(db, p, StudentUser, k);
    }
    forall p, x | Points(db, x, EnrollmentStudent, p)
      ensures x in db
      ensures PointsInto(db, x, EnrollmentSubject, Doomed(db)) <==>
                PointsInto(db, x, EnrollmentSubject, SeedsOf(db).subjects)
      ensures x in Doomed(db) ==> PointsInto(db, x, EnrollmentSubject, Doomed(db))
    {
      PointsHere(db, EnrollmentStudent, p);
      EnrollmentStays(db, x, EnrollmentStudent, p);
    }
  }

  lemma TeachesReason(db: Db, k: Key)
    requires ReferencesHold(db)
    ensures Blocked(db, SeedsOf(db), TeachesOthers, k) <==> Cuts(db, TeachesOthers, k)
  {
    hide SeedsOf, Doomed, ReferencesHold, Points, PointsInto, EachIn, SomeStays, Agree, Within;
    DoomedAgrees(db);
    SeedsWithin(db);
    forall t | Points(db, t, TeacherUser, k)
      ensures t in db && (k in Doomed(db) <==> k in SeedsOf(db).users)
      ensures k in Doomed(db) ==>
                (!EachIn(db, SubjectTeacher, t, SeedsOf(db).subjects) <==> SomeStays(db, SubjectTeacher, t))
    {
      ProfileOf(db, t, TeacherUser, k);
      StaysExact(db, SubjectTeacher, t, SeedsOf(db).teachers, SeedsOf(db).subjects);
    }
  }

  lemma ActorReason(db: Db, k: Key)
    requires ReferencesHold(db)
    ensures Blocked(db, SeedsOf(db), ActorsNotSeed, k) <==> Cuts(db, ActorsNotSeed, k)
  {
    hide SeedsOf, Doomed, ReferencesHold, Points, PointsInto, Stray, Leaves;
    forall e | Points(db, e, EventSubmission, k)
      ensures e in db && (k in Doomed(db) <==> k in SeedsOf(db).submissions)
      ensures k in Doomed(db) ==> (Stray(db, e, EventActor, SeedsOf(db).users) <==> Leaves(db, e, EventActor))
    {
      EventOf(db, e, k);
    }
  }

  lemma EventOf(db: Db, e: Key, k: Key)
    requires ReferencesHold(db) && Points(db, e, EventSubmission, k)
    ensures e in db && (k in Doomed(db) <==> k in SeedsOf(db).submissions)
    ensures k in Doomed(db) ==> (Stray(db, e, EventActor, SeedsOf(db).users) <==> Leaves(db, e, EventActor))
  {
    hide SeedsOf, Agree;
    RefersFromOwner(db, e, EventSubmission, k);
    SeedTables(db);
    DoomedAgrees(db);
    IntoAgrees(db, e, EventActor, Doomed(db), SeedsOf(db).users);
  }

  lemma LinkReason(db: Db, k: Key)
    requires ReferencesHold(db)
    ensures Blocked(db, SeedsOf(db), SectionNotSeed, k) <==> Cuts(db, SectionNotSeed, k)
  {
    hide SeedsOf, Doomed, ReferencesHold, Points, Agree, Within;
    var x := PointedAt(db, k, LinkSubject);
    LinkEnd(db, k, x);
    OneTarget(db, k, LinkSubject);
    if Has(db, k, LinkSubject) && x in Doomed(db) && k !in Doomed(db) { assert Stays(db, k, LinkSubject, x); }
  }

  function PointedAt(db: Db, k: Key, c: Column): Key { if Has(db, k, c) then Pointed(db, k, c) else k }

  lemma OneTarget(db: Db, k: Key, c: Column)
    ensures forall y | Points(db, k, c, y) :: Has(db, k, c) && y == PointedAt(db, k, c)
  {
  }

  lemma LinkEnd(db: Db, k: Key, x: Key)
    requires ReferencesHold(db) && x == PointedAt(db, k, LinkSubject)
    ensures Has(db, k, LinkSubject) ==>
              && Points(db, k, LinkSubject, x)
              && (x in Doomed(db) <==> PointsInto(db, k, LinkSubject, SeedsOf(db).subjects))
              && (k in Doomed(db) <==> PointsInto(db, k, LinkSubject, SeedsOf(db).subjects)
                                       && PointsInto(db, k, LinkSection, SeedsOf(db).sections))
  {
    hide SeedsOf;
    if Has(db, k, LinkSubject) {
      assert Points(db, k, LinkSubject, x);
      RefersFromOwner(db, k, LinkSubject, x);
      SeedTables(db);
    }
  }

  /** The preview reports a reason about a row exactly if the deletion would cut the reference that the
      reason names. */
  lemma ReasonExact(db: Db, reason: Reason, k: Key)
    requires ReferencesHold(db)
    ensures Blocked(db, SeedsOf(db), reason, k) <==> Cuts(db, reason, k)
  {
    hide Blocked, Cuts, SeedsOf, ReferencesHold;
    LeavingReasons(db, k);
    StayingReasons(db, k);
    ThroughReasons(db, k);
    OtherSubmissions(db, k);
    SectionEnrollments(db, k);
    EnrollmentReasons(db, k);
    EnrolledReason(db, k);
    TeachesReason(db, k);
    ActorReason(db, k);
    LinkReason(db, k);
    NeverCut(db, k);
    match reason case _ =>
  }

  lemma NeverCut(db: Db, k: Key)
    ensures Blocked(db, SeedsOf(db), MembersNotSeed, k) <==> Cuts(db, MembersNotSeed, k)
  {
    hide Blocked;
    MembersNeverBlock(db, k);
  }

  /** The two remaining blockers: the signed-in admin goes; all active admins go, and there are some. */
  lemma AdminBlockersExact(db: Db, actor: Key)
    requires actor.table == Users
    ensures Raised(db, SeedsOf(db), actor, ActorInSet) <==> actor in Doomed(db)
    ensures Raised(db, SeedsOf(db), actor, LastAdmin) <==>
            (exists k :: k in ActiveAdmins(db)) && ActiveAdmins(db) <= Doomed(db)
  {
    hide SeedsOf;
    SeedTables(db);
    var s, admins := SeedsOf(db), ActiveAdmins(db);
    assert forall k | k in admins :: k in Doomed(db) <==> k in s.users;
    assert admins == admins * s.users + (admins - s.users);
    assert |admins| == |admins * s.users| + |admins - s.users|;
    if |admins - s.users| == 0 {
      assert admins - s.users == {};
      if k :| k in admins { assert k in admins * s.users; }
    } else {
      var k :| k in admins - s.users;
    }
  }

  /** Without blockers nothing that goes belongs to somebody who stays: the teacher of a subject, the
      section of a group, the owner, submitter, reviewer and group of a submission and the actors of its
      events go as well. */
  lemma NothingOutside(db: Db, k: Key, c: Column)
    requires ReferencesHold(db) && Unblocked(db) && k in Doomed(db) && Has(db, k, c)
    requires c in {SubjectTeacher, GroupSection, SubmissionStudent, SubmittedBy, ReviewedBy, SubmissionGroup,
                   EventActor}
    ensures Pointed(db, k, c) in Doomed(db)
  {
    hide SeedsOf, Blocked, Doomed, Points, PointsInto;
    ReasonExact(db, TeacherNotSeed, k);
    ReasonExact(db, GroupSectionNotSeed, k);
    ReasonExact(db, OwnerNotSeed, k);
    ReasonExact(db, SubmitterNotSeed, k);
    ReasonExact(db, ReviewerNotSeed, k);
    ReasonExact(db, SubmissionGroupNotSeed, k);
    if c == EventActor {
      var x := EventTaken(db, k, c);
      ReasonExact(db, ActorsNotSeed, x);
    }
  }

  lemma EventTaken(db: Db, k: Key, c: Column) returns (x: Key)
    requires ReferencesHold(db) && k in Doomed(db) && Has(db, k, c) && c == EventActor
    ensures Points(db, k, EventSubmission, x) && x in Doomed(db)
  {
    hide SeedsOf;
    SeedTables(db);
    RefersFromOwner(db, k, EventActor, Pointed(db, k, EventActor));
    x := Pointed(db, k, EventSubmission);
  }
}
