/** The delete transaction of seed cleanup, as the database carries it out statement by statement, and
    when it leaves every reference intact. */
module SeedCleanup {
  import opened Options
  import opened SeedSections
  import opened SeedCandidates

  // ---------- no blockers: what survives does not refer to what goes ----------

  ghost predicate Unblocked(db: Db) {
    forall reason, k :: !Blocked(db, SeedsOf(db), reason, k)
  }

  /** The rows that the preview overlooks: an enrollment of a seed student in a seed subject that is
      placed in another section; a course of a seed year; and a data-deletion request of a seed user. */
  predicate Overlooked(db: Db, s: Seeds, k: Key) {
    match k.table
    case Enrollments =>
      && PointsInto(db, k, EnrollmentSubject, s.subjects) && PointsInto(db, k, EnrollmentStudent, s.students)
      && Stray(db, k, EnrollmentSection, s.sections)
    case Courses => PointsInto(db, k, CourseYear, s.years)
    case DeletionRequests => PointsInto(db, k, RequestUser, s.users)
    case _ => false
  }

  function Pointed(db: Db, k: Key, c: Column): Key
    requires Has(db, k, c)
  {
    Key(Target(c), db[k].refs[c])
  }

  // If k's column c refers to a row that goes, k goes too or is overlooked.
  ghost predicate Safe(db: Db, k: Key, c: Column) {
    var s := SeedsOf(db);
    Has(db, k, c) && Taken(db, s, Pointed(db, k, c)) ==> Taken(db, s, k) || Overlooked(db, s, k)
  }

  // How the candidate sets hang together, row by row.
  lemma SeedAccounts(db: Db, k: Key)
    ensures var s := SeedsOf(db);
            && (k in s.students <==> k.table == Students && PointsInto(db, k, StudentUser, s.users))
            && (k in s.teachers <==> k.table == Teachers && PointsInto(db, k, TeacherUser, s.users))
            && (k in s.tasks <==> k.table == Tasks && PointsInto(db, k, TaskSubject, s.subjects))
  {
    hide SeedUsers, SeedSubjects, SeedGroups, SeedSectionsOf, SeedLevels, SeedYears, SeedSubmissions;
  }

  lemma SeedWork(db: Db, k: Key)
    ensures var s := SeedsOf(db);
            k in s.submissions <==>
              (k.table == Submissions &&
               (PointsInto(db, k, SubmissionSubject, s.subjects) || PointsInto(db, k, SubmissionTask, s.tasks)
                || PointsInto(db, k, SubmissionGroup, s.groups) || PointsInto(db, k, SubmissionStudent, s.users)))
  {
    hide SeedUsers, Referring, SeedSubjects, SeedGroups, SeedSectionsOf, SeedLevels, SeedYears;
  }

  // What it means for a row that no reason is raised about it.
  ghost predicate ClearUser(db: Db, s: Seeds, x: Key) {
    x in s.users ==>
      && (forall t | t in db && Points(db, t, TeacherUser, x) :: EachIn(db, SubjectTeacher, t, s.subjects))
      && (forall p | p in db && Points(db, p, StudentUser, x) ::
           EachInto(db, EnrollmentStudent, p, EnrollmentSubject, s.subjects))
      && EachInto(db, MemberUser, x, MemberGroup, s.groups)
      && EachIn(db, SubmissionStudent, x, s.submissions) && EachIn(db, SubmittedBy, x, s.submissions)
      && EachIn(db, ReviewedBy, x, s.submissions)
      && EachInto(db, EventActor, x, EventSubmission, s.submissions)
  }

  ghost predicate ClearSubject(db: Db, s: Seeds, x: Key) {
    && (x in s.subjects ==>
         EachInto(db, EnrollmentSubject, x, EnrollmentStudent, s.students) && EachIn(db, GroupSubject, x, s.groups))
    && (PointsInto(db, x, LinkSubject, s.subjects) ==> PointsInto(db, x, LinkSection, s.sections))
  }

  ghost predicate ClearSection(db: Db, s: Seeds, x: Key) {
    x in s.sections ==>
      && EachIn(db, StudentSection, x, s.students) && EachIn(db, GroupSection, x, s.groups)
      && EachInto(db, EnrollmentSection, x, EnrollmentStudent, s.students)
      && EachInto(db, EnrollmentSection, x, EnrollmentSubject, s.subjects)
      && EachInto(db, LinkSection, x, LinkSubject, s.subjects)
  }

  ghost predicate ClearYear(db: Db, s: Seeds, x: Key) {
    && (x in s.levels ==> EachIn(db, SectionLevel, x, s.sections) && EachIn(db, StudentLevel, x, s.students))
    && (x in s.years ==>
         EachIn(db, SectionYear, x, s.sections) && EachIn(db, StudentYear, x, s.students)
             && EachIn(db, LevelYear, x, s.levels))
  }

  ghost predicate Clear(db: Db, s: Seeds, x: Key) {
    ClearUser(db, s, x) && ClearSubject(db, s, x) && ClearSection(db, s, x) && ClearYear(db, s, x)
  }

  lemma UserIsClear(db: Db, s: Seeds, x: Key)
    requires forall reason :: !Blocked(db, s, reason, x)
    ensures ClearUser(db, s, x)
  {
    hide EachIn, EachInto, Points, PointsInto, Stray;
    assert !Blocked(db, s, TeachesOthers, x) && !Blocked(db, s, EnrolledElsewhere, x)
        && !Blocked(db, s, MemberElsewhere, x);
    assert !Blocked(db, s, InOtherSubmissions, x) && !Blocked(db, s, InOtherEvents, x);
  }

  lemma SubjectIsClear(db: Db, s: Seeds, x: Key)
    requires forall reason :: !Blocked(db, s, reason, x)
    ensures ClearSubject(db, s, x) && ClearYear(db, s, x)
  {
    hide EachIn, EachInto, Points, PointsInto, Stray;
    assert !Blocked(db, s, EnrollmentsNotSeed, x) && !Blocked(db, s, GroupsNotSeed, x)
        && !Blocked(db, s, SectionNotSeed, x);
    assert !Blocked(db, s, LevelHasSections, x) && !Blocked(db, s, LevelHasStudents, x);
    assert !Blocked(db, s, YearHasSections, x) && !Blocked(db, s, YearHasStudents, x)
        && !Blocked(db, s, YearHasLevels, x);
  }

  lemma SectionIsClear(db: Db, s: Seeds, x: Key)
    requires forall reason :: !Blocked(db, s, reason, x)
    ensures ClearSection(db, s, x)
  {
    hide EachIn, EachInto, Points, PointsInto, Stray;
    assert !Blocked(db, s, SectionHasStudents, x) && !Blocked(db, s, SectionHasEnrollments, x);
    assert !Blocked(db, s, SectionHasGroups, x) && !Blocked(db, s, SectionHasSubjects, x);
  }

  lemma UnblockedIsClear(db: Db, x: Key)
    requires Unblocked(db)
    ensures Clear(db, SeedsOf(db), x)
  {
    hide SeedsOf, Blocked, ClearUser, ClearSubject, ClearSection, ClearYear;
    UserIsClear(db, SeedsOf(db), x);
    SubjectIsClear(db, SeedsOf(db), x);
    SectionIsClear(db, SeedsOf(db), x);
  }

  lemma SubmissionsSafe(db: Db, k: Key, c: Column)
    requires Intact(db) && Unblocked(db) && Has(db, k, c) && Owner(c) == Submissions
    ensures Safe(db, k, c)
  {
    hide SeedsOf, Blocked, Unblocked, MembersFiled;
    var x := Pointed(db, k, c);
    UnblockedIsClear(db, x);
    SeedWork(db, k);
  }

  lemma EventsSafe(db: Db, k: Key, c: Column)
    requires Intact(db) && Unblocked(db) && Has(db, k, c)
             && Owner(c) in {Events, Files, AuditLogs, Notifications, Tokens, Sessions, Tasks}
    ensures Safe(db, k, c)
  {
    hide SeedsOf, Blocked, Unblocked, MembersFiled;
    var x := Pointed(db, k, c);
    UnblockedIsClear(db, x);
    SeedAccounts(db, k);
  }

  lemma OwnTable(db: Db, k: Key, c: Column)
    requires Intact(db) && Has(db, k, c)
    ensures k.table == Owner(c)
  {
    hide RequiredPresent, MembersFiled, Owner, Target;
  }

  lemma FiledGroup(db: Db, k: Key)
    requires Intact(db) && k in db && k.table == Members && Has(db, k, MemberSubject)
    ensures Has(db, k, MemberGroup) && Pointed(db, k, MemberGroup) in db
    ensures Points(db, Pointed(db, k, MemberGroup), GroupSubject, Pointed(db, k, MemberSubject))
  {
    hide ReferencesHold, RequiredPresent;
    assert FiledWithGroup(db, k);
  }

  lemma MembersSafe(db: Db, k: Key, c: Column)
    requires Intact(db) && Unblocked(db) && Has(db, k, c) && Owner(c) == Members && c != MemberSubject
    ensures Safe(db, k, c)
  {
    hide SeedsOf, Blocked, Unblocked, MembersFiled;
    UnblockedIsClear(db, Pointed(db, k, c));
  }

  // A group of a seed subject is a seed group, so its members go with it.
  lemma MemberSubjectSafe(db: Db, k: Key)
    requires Intact(db) && Unblocked(db) && Has(db, k, MemberSubject) && k.table == Members
    ensures Safe(db, k, MemberSubject)
  {
    hide SeedsOf, Blocked, Unblocked, Intact, ClearUser, ClearSection, ClearYear, Points;
    FiledGroup(db, k);
    UnblockedIsClear(db, Pointed(db, k, MemberSubject));
  }

  lemma GroupsSafe(db: Db, k: Key, c: Column)
    requires Intact(db) && Unblocked(db) && Has(db, k, c) && Owner(c) == Groups
    ensures Safe(db, k, c)
  {
    hide SeedsOf, Blocked, Unblocked, MembersFiled;
    var x := Pointed(db, k, c);
    UnblockedIsClear(db, x);
  }

  lemma EnrollmentsSafe(db: Db, k: Key, c: Column)
    requires Intact(db) && Unblocked(db) && Has(db, k, c) && Owner(c) == Enrollments
    ensures Safe(db, k, c)
  {
    hide SeedsOf, Blocked, Unblocked, MembersFiled;
    var x := Pointed(db, k, c);
    UnblockedIsClear(db, x);
    SeedAccounts(db, x);
    if c == EnrollmentStudent && x in SeedsOf(db).students {
      UnblockedIsClear(db, Pointed(db, x, StudentUser));
      assert Points(db, x, StudentUser, Pointed(db, x, StudentUser));
    }
  }

  lemma LinksSafe(db: Db, k: Key, c: Column)
    requires Intact(db) && Unblocked(db) && Has(db, k, c) && Owner(c) == SubjectSections
    ensures Safe(db, k, c)
  {
    hide SeedsOf, Blocked, Unblocked, MembersFiled;
    var x := Pointed(db, k, c);
    UnblockedIsClear(db, x);
    UnblockedIsClear(db, k);
  }

  lemma SubjectsSafe(db: Db, k: Key, c: Column)
    requires Intact(db) && Unblocked(db) && Has(db, k, c) && Owner(c) == Subjects
    ensures Safe(db, k, c)
  {
    hide SeedsOf, Blocked, Unblocked, MembersFiled;
    var x := Pointed(db, k, c);
    UnblockedIsClear(db, x);
    SeedAccounts(db, x);
    if x in SeedsOf(db).teachers {
      UnblockedIsClear(db, Pointed(db, x, TeacherUser));
      assert Points(db, x, TeacherUser, Pointed(db, x, TeacherUser));
    }
  }

  lemma ProfilesSafe(db: Db, k: Key, c: Column)
    requires Intact(db) && Unblocked(db) && Has(db, k, c) && Owner(c) in {Students, Teachers}
    ensures Safe(db, k, c)
  {
    hide SeedsOf, Blocked, Unblocked, MembersFiled;
    var x := Pointed(db, k, c);
    UnblockedIsClear(db, x);
    SeedAccounts(db, k);
  }

  lemma SectionsSafe(db: Db, k: Key, c: Column)
    requires Intact(db) && Unblocked(db) && Has(db, k, c) && Owner(c) in {Sections, Levels}
    ensures Safe(db, k, c)
  {
    hide SeedsOf, Blocked, Unblocked, MembersFiled;
    var x := Pointed(db, k, c);
    UnblockedIsClear(db, x);
  }

  lemma OthersSafe(db: Db, k: Key, c: Column)
    requires Intact(db) && Unblocked(db) && Has(db, k, c) && Owner(c) in {Courses, DeletionRequests}
    ensures Safe(db, k, c)
  {
    hide SeedsOf, Blocked, Unblocked, MembersFiled;
    var x := Pointed(db, k, c);
    UnblockedIsClear(db, x);
  }

  /** Without blockers, every row that refers to a deleted row is deleted too, or is overlooked. */
  lemma NothingDangles(db: Db, k: Key, c: Column)
    requires Intact(db) && Unblocked(db)
    ensures Safe(db, k, c)
  {
    hide Safe, Intact, Unblocked;
    if Has(db, k, c) {
      match Owner(c)
      case Submissions => SubmissionsSafe(db, k, c);
      case Members =>
        if c == MemberSubject {
          OwnTable(db, k, c);
          MemberSubjectSafe(db, k);
        } else {
          MembersSafe(db, k, c);
        }
      case Groups => GroupsSafe(db, k, c);
      case Enrollments => EnrollmentsSafe(db, k, c);
      case SubjectSections => LinksSafe(db, k, c);
      case Subjects => SubjectsSafe(db, k, c);
      case Students => ProfilesSafe(db, k, c);
      case Teachers => ProfilesSafe(db, k, c);
      case Sections => SectionsSafe(db, k, c);
      case Levels => SectionsSafe(db, k, c);
      case Courses => OthersSafe(db, k, c);
      case DeletionRequests => OthersSafe(db, k, c);
      case _ => EventsSafe(db, k, c);
    } else {
      UnheldIsSafe(db, k, c);
    }
  }

  lemma UnheldIsSafe(db: Db, k: Key, c: Column)
    requires !Has(db, k, c)
    ensures Safe(db, k, c)
  {
  }

  // ---------- the transaction ----------

  const ORDER: seq<Table> :=
    [AuditLogs, Notifications, Tokens, Sessions, Events, Files, Submissions, Members, Groups, Enrollments,
     SubjectSections, Tasks, Subjects, Students, Teachers, Sections, Levels, Years, Users]

  function Position(t: Table): (p: nat)
    ensures p < |ORDER| ==> ORDER[p] == t
    ensures t == Courses || t == DeletionRequests <==> p == |ORDER|
  {
    match t
    case AuditLogs => 0
    case Notifications => 1
    case Tokens => 2
    case Sessions => 3
    case Events => 4
    case Files => 5
    case Submissions => 6
    case Members => 7
    case Groups => 8
    case Enrollments => 9
    case SubjectSections => 10
    case Tasks => 11
    case Subjects => 12
    case Students => 13
    case Teachers => 14
    case Sections => 15
    case Levels => 16
    case Years => 17
    case Users => 18
    case Courses => 19
    case DeletionRequests => 19
  }

  function OfTable(keys: set<Key>, t: Table): set<Key> { set k | k in keys && k.table == t }

  predicate RefersInto(row: Row, c: Column, ids: set<Key>) { c in row.refs && Key(Target(c), row.refs[c]) in ids }

  predicate Hit(row: Row, action: OnDelete, ids: set<Key>) {
    exists c | c in row.refs :: Action(c) == action && RefersInto(row, c, ids)
  }

  function Nulled(row: Row, ids: set<Key>): Row {
    row.(refs := map c | c in row.refs && !(Action(c) == SetNull && RefersInto(row, c, ids)) :: row.refs[c])
  }

  // One DELETE: refused if a row refers to a deleted one by a restricting key; else the referring
  // rows of cascading keys go too, and the other references to deleted rows are nulled.
  function Delete(db: Db, ids: set<Key>): Option<Db> {
    if exists k | k in db :: Hit(db[k], Restrict, ids) then None
    else Some(map k | k in db && k !in ids && !Hit(db[k], Cascade, ids) :: Nulled(db[k], ids))
  }

  /** What a DELETE leaves: rows that it does not name and that no cascading key ties to these, without the
      references to them and with all others. */
  lemma DeleteLeavesNone(db: Db, ids: set<Key>, k: Key)
    requires Delete(db, ids).Some?
    ensures var next := Delete(db, ids).value;
            && (k in next <==>
                  && k in db && k !in ids
                  && forall c | c in db[k].refs :: Action(c) == Cascade ==> Key(Target(c), db[k].refs[c]) !in ids)
            && (k in next ==>
                  && next[k] == db[k].(refs := next[k].refs)
                  && (forall c | c in next[k].refs :: c in db[k].refs && next[k].refs[c] == db[k].refs[c])
                  && (forall c | c in db[k].refs :: c in next[k].refs <==> Key(Target(c), db[k].refs[c]) !in ids))
  {
    hide Target, Action;
    if k in db && k !in ids && Hit(db[k], Cascade, ids) {
      var c :| c in db[k].refs && Action(c) == Cascade && RefersInto(db[k], c, ids);
    } else if k in db && k !in ids {
      forall c | c in db[k].refs && Action(c) == Cascade ensures !RefersInto(db[k], c, ids) {
        assert !Hit(db[k], Cascade, ids);
      }
      forall c | c in db[k].refs && RefersInto(db[k], c, ids) ensures Action(c) == SetNull {
        assert !Hit(db[k], Restrict, ids) && !Hit(db[k], Cascade, ids);
        OneOfThree(c);
      }
    }
  }

  lemma OneOfThree(c: Column)
    ensures Action(c) in {Restrict, Cascade, SetNull}
  {
  }

  function RunFrom(db: Db, doomed: set<Key>, j: nat): Option<Db>
    requires j <= |ORDER|
    decreases |ORDER| - j
  {
    if j == |ORDER| then Some(db)
    else match Delete(db, OfTable(doomed, ORDER[j]))
         case None => None
         case Some(next) => RunFrom(next, doomed, j + 1)
  }

  function Transaction(db: Db): Option<Db> { RunFrom(db, Doomed(db), 0) }

  datatype Outcome = Denied(blockers: seq<Blocker>) | RolledBack | Done

  class SeedCleanupTool {
    var db: Db

    constructor (initial: Db)
      ensures db == initial
    {
      db := initial;
    }

    /** The tool in execute mode: nothing happens while a blocker stands, and a statement that the
        database refuses rolls everything back. */
    method Execute(rows: seq<Key>, actor: Key) returns (outcome: Outcome)
      requires ReferencesHold(db) && forall k :: k in rows <==> k in db
      modifies this
      ensures outcome.Denied? <==> exists b :: Raised(old(db), SeedsOf(old(db)), actor, b)
      ensures outcome.Denied? ==> forall b: Blocker ::
                b in outcome.blockers <==> Raised(old(db), SeedsOf(old(db)), actor, b)
      ensures outcome.RolledBack? ==> Transaction(old(db)) == None
      ensures outcome.Done? ==> Transaction(old(db)) == Some(db)
      ensures !outcome.Done? ==> db == old(db)
    {
      hide Raised, SeedsOf, Doomed, Delete, OfTable;
      var blockers := FindBlockers(db, rows, actor);
      if blockers != [] {
        assert blockers[0] in blockers;
        return Denied(blockers);
      }
      var doomed, work := Doomed(db), db;
      for j := 0 to |ORDER|
        invariant db == old(db)
        invariant Transaction(db) == RunFrom(work, doomed, j)
      {
        var next := Delete(work, OfTable(doomed, ORDER[j]));
        if next.None? { return RolledBack; }
        work := next.value;
      }
      db := work;
      outcome := Done;
    }
  }

  /** Children before parents: a deleted table's references lead to tables deleted later. */
  lemma ChildrenFirst(c: Column)
    requires Owner(c) != Courses && Owner(c) != DeletionRequests && Target(c) != Courses
    ensures Position(Owner(c)) < Position(Target(c))
  {
  }

  // The database when the first j tables have been cleaned.
  function Cleaned(db: Db, doomed: set<Key>, j: nat): Db {
    map k | k in db && !(k in doomed && Position(k.table) < j) :: db[k]
  }

  lemma TakenTable(db: Db, k: Key)
    requires k in Doomed(db)
    ensures k in db && Taken(db, SeedsOf(db), k) && Position(k.table) < |ORDER|
  {
    hide SeedsOf, PointsInto, EnrollmentTaken;
  }

  // When statement j runs, no row that is still there refers to what it deletes.
  lemma NoneRefers(db: Db, j: nat, k: Key, c: Column)
    requires Intact(db) && Unblocked(db) && j < |ORDER| && (forall x | x in db :: !Overlooked(db, SeedsOf(db), x))
    requires k in Cleaned(db, Doomed(db), j)
    ensures !RefersInto(db[k], c, OfTable(Doomed(db), ORDER[j]))
  {
    hide SeedsOf, Unblocked, Taken, Overlooked, Doomed, Position;
    if RefersInto(db[k], c, OfTable(Doomed(db), ORDER[j])) {
      var x := Pointed(db, k, c);
      TakenTable(db, x);
      NothingDangles(db, k, c);
      TakenIsDoomed(db, k);
      ChildFirst(db, k, c, j);
    }
  }

  lemma TakenIsDoomed(db: Db, k: Key)
    requires k in db && Taken(db, SeedsOf(db), k)
    ensures k in Doomed(db) && Position(k.table) < |ORDER|
  {
    hide SeedsOf, PointsInto, EnrollmentTaken;
  }

  lemma ChildFirst(db: Db, k: Key, c: Column, j: nat)
    requires Intact(db) && Has(db, k, c) && j < |ORDER| && Target(c) == ORDER[j] && Position(k.table) < |ORDER|
    ensures Position(k.table) < j
  {
    hide Target, Owner, RequiredPresent, MembersFiled;
    assert k.table == Owner(c);
    assert Target(c) != Courses;
    ChildrenFirst(c);
    AtPosition(j);
  }

  lemma AtPosition(j: nat)
    requires j < |ORDER|
    ensures Position(ORDER[j]) == j
  {
  }

  lemma UnhitStays(row: Row, ids: set<Key>)
    requires forall c :: !RefersInto(row, c, ids)
    ensures Nulled(row, ids) == row && !Hit(row, Cascade, ids) && !Hit(row, Restrict, ids)
  {
    assert Nulled(row, ids).refs == row.refs;
  }

  lemma StatementCleans(db: Db, j: nat)
    requires Intact(db) && Unblocked(db) && j < |ORDER| && (forall x | x in db :: !Overlooked(db, SeedsOf(db), x))
    ensures Delete(Cleaned(db, Doomed(db), j), OfTable(Doomed(db), ORDER[j])) == Some(Cleaned(db, Doomed(db), j + 1))
  {
    hide Intact, Unblocked, Overlooked, SeedsOf, Doomed, RefersInto, Hit, Nulled, Position;
    var now, ids := Cleaned(db, Doomed(db), j), OfTable(Doomed(db), ORDER[j]);
    forall k | k in now
      ensures Nulled(now[k], ids) == now[k] && !Hit(now[k], Cascade, ids) && !Hit(now[k], Restrict, ids) {
      forall c ensures !RefersInto(db[k], c, ids) { NoneRefers(db, j, k, c); }
      UnhitStays(now[k], ids);
    }
    forall k | k in now ensures k in ids <==> k in Doomed(db) && Position(k.table) == j {
      AtPosition(j);
      if Position(k.table) == j { assert k.table == ORDER[j]; }
    }
    var next := Delete(now, ids);
    assert next.Some?;
    assert next.value == Cleaned(db, Doomed(db), j + 1);
  }

  lemma {:induction false} RunCleans(db: Db, j: nat)
    requires Intact(db) && Unblocked(db) && j <= |ORDER| && (forall x | x in db :: !Overlooked(db, SeedsOf(db), x))
    ensures RunFrom(Cleaned(db, Doomed(db), j), Doomed(db), j) == Some(Cleaned(db, Doomed(db), |ORDER|))
    decreases |ORDER| - j
  {
    hide Intact, Unblocked, Overlooked, SeedsOf, Doomed, Delete, OfTable, Cleaned;
    if j < |ORDER| {
      StatementCleans(db, j);
      RunCleans(db, j + 1);
    }
  }

  // ---------- an overlooked row makes the database refuse ----------

  function BadColumn(t: Table): Column {
    match t
    case Courses => CourseYear
    case DeletionRequests => RequestUser
    case _ => EnrollmentSubject
  }

  lemma OverlookedSurvives(db: Db, k: Key)
    requires k in db && Overlooked(db, SeedsOf(db), k)
    ensures k.table in {Enrollments, Courses, DeletionRequests} && k !in Doomed(db)
    ensures Has(db, k, BadColumn(k.table))
  {
    hide SeedsOf;
  }

  lemma OverlookedPoints(db: Db, k: Key)
    requires Intact(db) && k in db && Overlooked(db, SeedsOf(db), k)
    ensures Has(db, k, BadColumn(k.table)) && Pointed(db, k, BadColumn(k.table)) in Doomed(db)
  {
    hide SeedsOf, RequiredPresent, MembersFiled;
  }

  lemma NoCascadeHere(k: Key, d: Column)
    requires k.table in {Enrollments, Courses, DeletionRequests} && Owner(d) == k.table
    ensures Action(d) != Cascade
  {
  }

  lemma RowStays(db: Db, ids: set<Key>, k: Key, c: Column)
    requires k in db && k !in ids && k.table in {Enrollments, Courses, DeletionRequests}
    requires forall d | d in db[k].refs :: Owner(d) == k.table
    requires Action(c) == Restrict && c in db[k].refs && Delete(db, ids).Some?
    ensures var next := Delete(db, ids).value;
            && k in next && c in next[k].refs && next[k].refs[c] == db[k].refs[c]
            && forall d | d in next[k].refs :: Owner(d) == k.table
  {
    hide Target, Owner, Action;
    forall d | d in db[k].refs ensures Action(d) != Cascade { NoCascadeHere(k, d); }
  }

  lemma HitRefuses(db: Db, ids: set<Key>, k: Key, c: Column)
    requires k in db && c in db[k].refs && Action(c) == Restrict && RefersInto(db[k], c, ids)
    ensures Delete(db, ids) == None
  {
    hide Target;
    assert Hit(db[k], Restrict, ids);
  }

  // Until then the row stays as it refers.
  lemma {:induction false} RunAborts(db: Db, doomed: set<Key>, j: nat, k: Key, c: Column)
    requires j <= Position(Target(c)) < |ORDER| && Action(c) == Restrict
    requires k in db && k !in doomed && k.table in {Enrollments, Courses, DeletionRequests}
    requires forall d | d in db[k].refs :: Owner(d) == k.table
    requires RefersInto(db[k], c, doomed)
    ensures RunFrom(db, doomed, j) == None
    decreases |ORDER| - j
  {
    hide Position, Target, Delete;
    var ids := OfTable(doomed, ORDER[j]);
    if j == Position(Target(c)) {
      assert RefersInto(db[k], c, ids);
      HitRefuses(db, ids, k, c);
    } else if Delete(db, ids).Some? {
      var next := Delete(db, ids).value;
      RowStays(db, ids, k, c);
      RunAborts(next, doomed, j + 1, k, c);
    }
  }

  /** Without blockers, the cleanup goes through exactly when no row is overlooked. It then removes the
      doomed rows and nothing else: no other row is deleted or changed, and every reference holds. */
  lemma CleanupExact(db: Db)
    requires Intact(db) && Unblocked(db)
    ensures Transaction(db).Some? <==> forall k | k in db :: !Overlooked(db, SeedsOf(db), k)
    ensures Transaction(db).Some? ==>
              var after := Transaction(db).value;
              && after.Keys == db.Keys - Doomed(db)
              && (forall k | k in after :: after[k] == db[k])
              && Intact(after)
  {
    hide Intact, Unblocked, Overlooked, SeedsOf, Doomed, Position;
    if k :| k in db && Overlooked(db, SeedsOf(db), k) {
      OverlookedAborts(db, k);
    } else {
      RunCleans(db, 0);
      assert Cleaned(db, Doomed(db), 0) == db;
      CleanedIsIntact(db);
    }
  }

  lemma OverlookedAborts(db: Db, k: Key)
    requires Intact(db) && k in db && Overlooked(db, SeedsOf(db), k)
    ensures Transaction(db) == None
  {
    hide Overlooked, SeedsOf, Doomed, RunFrom, RequiredPresent, MembersFiled;
    OverlookedSurvives(db, k);
    OverlookedPoints(db, k);
    RunAborts(db, Doomed(db), 0, k, BadColumn(k.table));
  }

  lemma AllCleaned(db: Db)
    ensures Cleaned(db, Doomed(db), |ORDER|).Keys == db.Keys - Doomed(db)
  {
    hide SeedsOf, Taken, Doomed, Position;
    forall k | k in Doomed(db) ensures k in db && Position(k.table) < |ORDER| { TakenTable(db, k); }
  }

  lemma CleanedReferences(db: Db, k: Key, c: Column)
    requires Intact(db) && Unblocked(db) && (forall x | x in db :: !Overlooked(db, SeedsOf(db), x))
    requires k in db && k !in Doomed(db) && c in db[k].refs
    ensures Owner(c) == k.table && Pointed(db, k, c) in db && Pointed(db, k, c) !in Doomed(db)
  {
    hide SeedsOf, Unblocked, Overlooked, Taken, Doomed, RequiredPresent, MembersFiled;
    NothingDangles(db, k, c);
    if Pointed(db, k, c) in Doomed(db) { TakenTable(db, Pointed(db, k, c)); TakenIsDoomed(db, k); }
  }

  lemma CleanedIsIntact(db: Db)
    requires Intact(db) && Unblocked(db) && (forall x | x in db :: !Overlooked(db, SeedsOf(db), x))
    ensures var after := Cleaned(db, Doomed(db), |ORDER|);
            after.Keys == db.Keys - Doomed(db) && Intact(after)
  {
    AllCleaned(db);
    hide SeedsOf, Unblocked, Overlooked, Taken, Doomed, Target, Owner, Action, FiledWithGroup;
    var after := Cleaned(db, Doomed(db), |ORDER|);
    forall k, c | k in after && c in after[k].refs
      ensures Owner(c) == k.table && Key(Target(c), after[k].refs[c]) in after
    {
      CleanedReferences(db, k, c);
    }
    forall k | k in after && k.table == Members ensures FiledWithGroup(after, k) {
      assert FiledWithGroup(db, k);
      FilingStays(db, after, k);
    }
  }

  // A member keeps its filing when no row changes and its group stays.
  lemma FilingStays(db: Db, after: Db, k: Key)
    requires FiledWithGroup(db, k) && k in after && after.Keys <= db.Keys && forall x | x in after :: after[x] == db[x]
    requires forall c | c in after[k].refs :: Key(Target(c), after[k].refs[c]) in after
    ensures FiledWithGroup(after, k)
  {
  }

  // ---------- accounts that survive ----------

  /** The signed-in admin and the protected admin survive; and if there was an active admin, one is left. */
  lemma AdminsSurvive(db: Db, actor: Key, admin: Key)
    requires !Raised(db, SeedsOf(db), actor, ActorInSet) && !Raised(db, SeedsOf(db), actor, LastAdmin)
    requires actor.table == Users && admin in ActiveAdmins(db)
    ensures actor !in Doomed(db)
    ensures forall k | k in db && db[k].guarded && k.table == Users :: k !in Doomed(db)
    ensures exists k :: k in ActiveAdmins(db) - Doomed(db)
  {
    hide Referring, SeedSubjects, SeedGroups, SeedSectionsOf, SeedLevels, SeedYears, SeedSubmissions;
    var s := SeedsOf(db);
    var admins := ActiveAdmins(db);
    if admin in s.users {
      var kept := admins - s.users;
      assert admins == kept + admins * s.users;
      assert admin in admins * s.users;
      assert |kept| > 0;
      var k :| k in kept;
      assert k in admins - Doomed(db);
    } else {
      assert admin in admins - Doomed(db);
    }
  }

  /** A reason that the preview can never give: a group with an outsider is no seed group. */
  lemma MembersNeverBlock(db: Db, k: Key)
    ensures !Blocked(db, SeedsOf(db), MembersNotSeed, k)
  {
    hide EachInto, PointsInto, SeedSectionsOf, SeedLevels, SeedYears, SeedSubmissions, Referring, SeedSubjects,
         SeedUsers;
  }

  // ---------- sections by their counts ----------

  // The lists that the evaluation of section k is given.
  ghost predicate Lists(db: Db, k: Key, l: Links<Key>) {
    && (forall x :: x in l.students <==> Points(db, x, StudentSection, k))
    && (forall x :: x in l.groups <==> Points(db, x, GroupSection, k))
    && ListsThrough(db, EnrollmentSection, k, EnrollmentStudent, l.enrollmentStudents)
    && ListsThrough(db, EnrollmentSection, k, EnrollmentSubject, l.enrollmentSubjects)
    && ListsThrough(db, LinkSection, k, LinkSubject, l.sectionSubjects)
  }

  lemma ListedOneByOne(db: Db, c: Column, k: Key, values: seq<Key>, s: set<Key>)
    requires forall x :: x in values <==> Points(db, x, c, k)
    ensures AllIn(values, s) <==> EachIn(db, c, k, s)
    ensures SomeIn(values, s) <==> SomeOneIn(db, c, k, s)
  {
    if SomeIn(values, s) { var v :| v in values && v in s; assert v in db && Points(db, v, c, k); }
  }

  // The rows that refer to k by column c, and where their column d leads.
  ghost predicate ListsThrough(db: Db, c: Column, k: Key, d: Column, values: seq<Key>) {
    && (forall e | e in db && Points(db, e, c, k) :: Has(db, e, d) && Pointed(db, e, d) in values)
    && (forall x | x in values :: exists e | e in db :: Points(db, e, c, k) && Has(db, e, d) && Pointed(db, e, d) == x)
  }

  lemma ListedThroughAll(db: Db, c: Column, k: Key, d: Column, values: seq<Key>, s: set<Key>)
    requires ListsThrough(db, c, k, d, values)
    ensures AllIn(values, s) <==> EachInto(db, c, k, d, s)
  {
    hide Points, Target;
    if EachInto(db, c, k, d, s) {
      forall v | v in values ensures v in s {
        var e :| e in db && Points(db, e, c, k) && Has(db, e, d) && Pointed(db, e, d) == v;
        assert PointsInto(db, e, d, s);
      }
    }
  }

  lemma ListedThroughSome(db: Db, c: Column, k: Key, d: Column, values: seq<Key>, s: set<Key>)
    requires ListsThrough(db, c, k, d, values)
    ensures SomeIn(values, s) <==> SomeInto(db, c, k, d, s)
  {
    hide Points, Target;
    if SomeIn(values, s) {
      var v :| v in values && v in s;
      var e :| e in db && Points(db, e, c, k) && Has(db, e, d) && Pointed(db, e, d) == v;
      assert PointsInto(db, e, d, s);
    }
  }

  lemma SectionMember(db: Db, k: Key)
    requires k in db && k.table == Sections
    ensures var s := SeedsOf(db);
            k in s.sections <==>
                db[k].labelled
                    || (SectionLinked(db, k, s.students, s.subjects, s.groups)
                        && SectionPure(db, k, s.students, s.subjects, s.groups))
  {
    hide SectionLinked, SectionPure, SeedLevels, SeedYears, SeedSubmissions, Referring, SeedSubjects, SeedUsers,
         SeedGroups;
  }

  /** The evaluation by counting selects exactly the candidate sections. */
  lemma SectionsByCounts(db: Db, k: Key, l: Links<Key>)
    requires k in db && k.table == Sections && Lists(db, k, l)
    ensures var s := SeedsOf(db);
            k in s.sections <==>
                db[k].labelled
                    || (SomeSeed(l, s.students, s.subjects, s.groups) && AllSeed(l, s.students, s.subjects, s.groups))
  {
    hide SeedsOf, AllIn, SomeIn, EachIn, EachInto, SomeOneIn, SomeInto, Points, ListsThrough;
    var s := SeedsOf(db);
    SectionMember(db, k);
    ListedOneByOne(db, StudentSection, k, l.students, s.students);
    ListedOneByOne(db, GroupSection, k, l.groups, s.groups);
    ListedThroughAll(db, EnrollmentSection, k, EnrollmentStudent, l.enrollmentStudents, s.students);
    ListedThroughSome(db, EnrollmentSection, k, EnrollmentStudent, l.enrollmentStudents, s.students);
    ListedThroughAll(db, EnrollmentSection, k, EnrollmentSubject, l.enrollmentSubjects, s.subjects);
    ListedThroughSome(db, EnrollmentSection, k, EnrollmentSubject, l.enrollmentSubjects, s.subjects);
    ListedThroughAll(db, LinkSection, k, LinkSubject, l.sectionSubjects, s.subjects);
    ListedThroughSome(db, LinkSection, k, LinkSubject, l.sectionSubjects, s.subjects);
  }
}
