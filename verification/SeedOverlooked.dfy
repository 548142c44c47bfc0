/** Databases that the preview of seed cleanup passes and the delete transaction refuses: one for each
    kind of row that the preview overlooks. */
module SeedOverlooked {
  import opened Options
  import opened SeedSections
  import opened SeedCandidates
  import opened SeedCleanup

  // The preview reports nothing, and the database refuses.
  ghost predicate PassesAndFails(db: Db) {
    Intact(db) && Unblocked(db) && Transaction(db) == None
  }

  lemma OverlookedFails(db: Db, k: Key)
    requires Intact(db) && Unblocked(db) && k in db && Overlooked(db, SeedsOf(db), k)
    ensures PassesAndFails(db)
  {
    hide Intact, Unblocked, Overlooked, SeedsOf, Transaction;
    CleanupExact(db);
  }

  function Plain(refs: map<Column, int>): Row { Row(refs, false, false, false) }

  function Labelled(refs: map<Column, int>): Row { Row(refs, true, false, false) }

  // A database with the labelled rows `labelled`, and a single reference, from `from` by `column` to `to`.
  ghost predicate OneReference(db: Db, labelled: Key, from: Key, column: Column, to: Key) {
    && (forall k :: k in db <==> k == from || k == to) && labelled == to
    && (forall k | k in db :: db[k].labelled <==> k == labelled) && (forall k | k in db :: !db[k].guarded)
    && (forall k, c, x :: Points(db, k, c, x) <==> k == from && c == column && x == to)
    && (forall k, c, s :: PointsInto(db, k, c, s) <==> k == from && c == column && to in s)
    && (forall k, c :: Has(db, k, c) <==> k == from && c == column)
  }

  lemma Arrow(labelled: Key, from: Key, column: Column, to: Key)
    requires labelled == to && from != to && Target(column) == to.table
    ensures OneReference(map[to := Labelled(map[]), from := Plain(map[column := to.id])], labelled, from, column, to)
  {
    hide Target;
  }

  // ---------- a course of a seed year ----------

  const YEAR := Key(Years, 1)
  const COURSE := Key(Courses, 2)

  function WithCourse(): Db { map[YEAR := Labelled(map[]), COURSE := Plain(map[CourseYear := 1])] }

  lemma CourseSeeds(db: Db)
    requires OneReference(db, YEAR, COURSE, CourseYear, YEAR)
    ensures SeedsOf(db) == Seeds({}, {}, {}, {}, {}, {}, {}, {YEAR}, {}, {})
  {
    hide Points, PointsInto;
    assert SeedUsers(db) == {};
    assert Referring(db, StudentUser, {}) == {} && Referring(db, TeacherUser, {}) == {}
        && Referring(db, TaskSubject, {}) == {};
    assert SeedSubjects(db, {}, {}) == {} && SeedGroups(db, {}, {}) == {} && SeedSectionsOf(db, {}, {}, {}) == {};
    assert SeedLevels(db, {}, {}) == {} && SeedYears(db, {}, {}, {}) == {YEAR}
        && SeedSubmissions(db, {}, {}, {}, {}) == {};
  }

  lemma CourseUnblocked(db: Db)
    requires OneReference(db, YEAR, COURSE, CourseYear, YEAR)
    ensures Unblocked(db)
  {
    hide Points, PointsInto, SeedsOf, Has;
    CourseSeeds(db);
  }

  lemma RequiredOfArrow(t: Table, c: Column)
    requires Owner(c) == t && Action(c) != SetNull && t in {Years, Courses, Users, DeletionRequests}
    ensures (t == Courses && c == CourseYear) || (t == DeletionRequests && c == RequestUser)
  {
  }

  lemma ArrowIntact(db: Db, labelled: Key, from: Key, column: Column, to: Key)
    requires OneReference(db, labelled, from, column, to) && Owner(column) == from.table
    requires (column == CourseYear && to.table == Years && from.table == Courses)
          || (column == RequestUser && to.table == Users && from.table == DeletionRequests)
    ensures Intact(db)
  {
    hide FiledWithGroup, Owner, Action, Target;
    forall k, c | k in db && c in db[k].refs ensures Owner(c) == k.table && Key(Target(c), db[k].refs[c]) in db {
      assert Has(db, k, c);
      assert Points(db, k, c, Key(Target(c), db[k].refs[c]));
    }
    forall k, c | k in db && Owner(c) == k.table && Action(c) != SetNull ensures Has(db, k, c) {
      RequiredOfArrow(k.table, c);
    }
  }

  /** A course of a seed year is overlooked. */
  lemma CourseIsOverlooked()
    ensures PassesAndFails(WithCourse())
  {
    hide SeedsOf, Transaction, Intact, Unblocked, Points, PointsInto, Has;
    var db := WithCourse();
    Arrow(YEAR, COURSE, CourseYear, YEAR);
    CourseSeeds(db);
    CourseUnblocked(db);
    ArrowIntact(db, YEAR, COURSE, CourseYear, YEAR);
    OverlookedFails(db, COURSE);
  }

  // ---------- a data-deletion request of a seed user ----------

  const USER := Key(Users, 1)
  const REQUEST := Key(DeletionRequests, 2)

  function WithRequest(): Db { map[USER := Labelled(map[]), REQUEST := Plain(map[RequestUser := 1])] }

  lemma RequestSeeds(db: Db)
    requires OneReference(db, USER, REQUEST, RequestUser, USER)
    ensures SeedsOf(db) == Seeds({USER}, {}, {}, {}, {}, {}, {}, {}, {}, {})
  {
    hide Points, PointsInto;
    assert SeedUsers(db) == {USER};
    assert Referring(db, StudentUser, {USER}) == {} && Referring(db, TeacherUser, {USER}) == {}
        && Referring(db, TaskSubject, {}) == {};
    assert SeedSubjects(db, {}, {}) == {} && SeedGroups(db, {}, {USER}) == {} && SeedSectionsOf(db, {}, {}, {}) == {};
    assert SeedLevels(db, {}, {}) == {} && SeedYears(db, {}, {}, {}) == {}
        && SeedSubmissions(db, {}, {}, {}, {USER}) == {};
  }

  lemma RequestUnblocked(db: Db)
    requires OneReference(db, USER, REQUEST, RequestUser, USER)
    ensures Unblocked(db)
  {
    hide Points, PointsInto, SeedsOf, Has;
    RequestSeeds(db);
  }

  /** A data-deletion request of a seed user is overlooked. */
  lemma RequestIsOverlooked()
    ensures PassesAndFails(WithRequest())
  {
    hide SeedsOf, Transaction, Intact, Unblocked, Points, PointsInto, Has;
    var db := WithRequest();
    Arrow(USER, REQUEST, RequestUser, USER);
    RequestSeeds(db);
    RequestUnblocked(db);
    ArrowIntact(db, USER, REQUEST, RequestUser, USER);
    OverlookedFails(db, REQUEST);
  }

  // ---------- an enrollment placed in another section ----------

  const OUTSIDER := Key(Users, 2)
  const STUDENT := Key(Students, 3)
  const OTHER := Key(Students, 4)
  const SUBJECT := Key(Subjects, 5)
  const SECTION := Key(Sections, 6)
  const ENROLLMENT := Key(Enrollments, 7)

  // A seed student, enrolled in a seed subject and placed in the section of another student.
  function RowOf(k: Key): Row {
    if k == USER || k == SUBJECT then Labelled(map[])
    else if k == STUDENT then Plain(map[StudentUser := 1])
    else if k == OTHER then Plain(map[StudentUser := 2, StudentSection := 6])
    else if k == ENROLLMENT then Plain(map[EnrollmentStudent := 3, EnrollmentSubject := 5, EnrollmentSection := 6])
    else Plain(map[])
  }

  function WithEnrollment(): Db {
    map k | k in {USER, OUTSIDER, STUDENT, OTHER, SUBJECT, SECTION, ENROLLMENT} :: RowOf(k)
  }

  predicate Refers(k: Key, c: Column, x: Key) {
    || (k == STUDENT && c == StudentUser && x == USER)
    || (k == OTHER && ((c == StudentUser && x == OUTSIDER) || (c == StudentSection && x == SECTION)))
    || (k == ENROLLMENT && ((c == EnrollmentStudent && x == STUDENT) || (c == EnrollmentSubject && x == SUBJECT)
                            || (c == EnrollmentSection && x == SECTION)))
  }

  predicate RefersInto(k: Key, c: Column, s: set<Key>) {
    || (k == STUDENT && c == StudentUser && USER in s)
    || (k == OTHER && ((c == StudentUser && OUTSIDER in s) || (c == StudentSection && SECTION in s)))
    || (k == ENROLLMENT && ((c == EnrollmentStudent && STUDENT in s) || (c == EnrollmentSubject && SUBJECT in s)
                            || (c == EnrollmentSection && SECTION in s)))
  }

  // The same database by its rows and references.
  ghost predicate AsDrawn(db: Db) {
    && (forall k :: k in db <==> k in {USER, OUTSIDER, STUDENT, OTHER, SUBJECT, SECTION, ENROLLMENT})
    && (forall k | k in db :: (db[k].labelled <==> k == USER || k == SUBJECT) && !db[k].guarded)
    && (forall k, c, x :: Points(db, k, c, x) <==> Refers(k, c, x))
    && (forall k, c, s :: PointsInto(db, k, c, s) <==> RefersInto(k, c, s))
    && (forall k, c :: Has(db, k, c) <==> RefersInto(k, c, {USER, OUTSIDER, STUDENT, SUBJECT, SECTION}))
  }

  lemma DrawnRow(k: Key, c: Column, x: Key)
    requires k in {USER, OUTSIDER, STUDENT, OTHER, SUBJECT, SECTION, ENROLLMENT}
    ensures c in RowOf(k).refs && x == Key(Target(c), RowOf(k).refs[c]) <==> Refers(k, c, x)
    ensures c in RowOf(k).refs ==> Key(Target(c), RowOf(k).refs[c]) in {USER, OUTSIDER, STUDENT, SUBJECT, SECTION}
  {
  }

  lemma Drawn(db: Db, k: Key, c: Column, x: Key)
    requires db == WithEnrollment()
    ensures Points(db, k, c, x) <==> Refers(k, c, x)
    ensures Has(db, k, c) ==> Pointed(db, k, c) in {USER, OUTSIDER, STUDENT, SUBJECT, SECTION}
  {
    hide RowOf, Refers, Target;
    if k in db { DrawnRow(k, c, x); } else { OnlyThese(k, c, x); }
  }

  lemma OnlyThese(k: Key, c: Column, x: Key)
    requires k !in {USER, OUTSIDER, STUDENT, OTHER, SUBJECT, SECTION, ENROLLMENT}
    ensures !Refers(k, c, x)
  {
  }

  // Pointing into a set is pointing at one of its elements.
  lemma IntoByPoints(db: Db, k: Key, c: Column, s: set<Key>)
    requires forall x :: Points(db, k, c, x) <==> Refers(k, c, x)
    ensures PointsInto(db, k, c, s) <==> RefersInto(k, c, s)
  {
    hide Target, Refers, RefersInto;
    if PointsInto(db, k, c, s) {
      assert Points(db, k, c, Pointed(db, k, c));
      TargetOf(k, c, Pointed(db, k, c), s);
    }
    if RefersInto(k, c, s) {
      var x := IntoTarget(k, c, s);
      assert Points(db, k, c, x);
    }
  }

  lemma TargetOf(k: Key, c: Column, x: Key, s: set<Key>)
    requires Refers(k, c, x) && x in s
    ensures RefersInto(k, c, s)
  {
  }

  lemma IntoTarget(k: Key, c: Column, s: set<Key>) returns (x: Key)
    requires RefersInto(k, c, s)
    ensures Refers(k, c, x) && x in s
  {
    x := if k == STUDENT then USER
         else if k == OTHER then (if c == StudentUser then OUTSIDER else SECTION)
         else if c == EnrollmentStudent then STUDENT else if c == EnrollmentSubject then SUBJECT else SECTION;
  }

  lemma HasByInto(db: Db, k: Key, c: Column)
    requires Has(db, k, c) ==> Pointed(db, k, c) in {USER, OUTSIDER, STUDENT, SUBJECT, SECTION}
    ensures Has(db, k, c) <==> PointsInto(db, k, c, {USER, OUTSIDER, STUDENT, SUBJECT, SECTION})
  {
    hide Target;
  }

  lemma RowsDrawn(k: Key)
    requires k in WithEnrollment()
    ensures (WithEnrollment()[k].labelled <==> k == USER || k == SUBJECT) && !WithEnrollment()[k].guarded
  {
  }

  lemma EnrollmentDrawn()
    ensures AsDrawn(WithEnrollment())
  {
    hide Points, PointsInto, Has, Refers, RefersInto, RowOf, Pointed;
    var db := WithEnrollment();
    forall k | k in db ensures (db[k].labelled <==> k == USER || k == SUBJECT) && !db[k].guarded { RowsDrawn(k); }
    forall k, c, x ensures Points(db, k, c, x) <==> Refers(k, c, x) { Drawn(db, k, c, x); }
    forall k, c, s: set<Key> ensures PointsInto(db, k, c, s) <==> RefersInto(k, c, s) { IntoByPoints(db, k, c, s); }
    forall k, c ensures Has(db, k, c) <==> RefersInto(k, c, {USER, OUTSIDER, STUDENT, SUBJECT, SECTION}) {
      Drawn(db, k, c, USER);
      HasByInto(db, k, c);
    }
  }

  lemma EnrollmentUsers(db: Db)
    requires AsDrawn(db)
    ensures SeedUsers(db) == {USER}
  {
    hide Points, PointsInto, Has, Refers, RefersInto;
  }

  lemma EnrollmentAccounts(db: Db)
    requires AsDrawn(db)
    ensures Referring(db, StudentUser, {USER}) == {STUDENT}
  {
    hide Points, PointsInto, Has, Refers;
  }

  lemma EnrollmentOthers(db: Db)
    requires AsDrawn(db)
    ensures Referring(db, TeacherUser, {USER}) == {} && Referring(db, TaskSubject, {SUBJECT}) == {}
  {
    hide Points, PointsInto, Has, Refers;
  }

  lemma EnrollmentWork(db: Db)
    requires AsDrawn(db)
    ensures SeedSubjects(db, {}, {STUDENT}) == {SUBJECT} && SeedGroups(db, {SUBJECT}, {USER}) == {}
    ensures SeedSubmissions(db, {SUBJECT}, {}, {}, {USER}) == {}
  {
    hide Points, PointsInto, Has, EachInto;
  }

  lemma EnrollmentPlaces(db: Db)
    requires AsDrawn(db)
    ensures SeedSectionsOf(db, {STUDENT}, {SUBJECT}, {}) == {}
    ensures SeedLevels(db, {}, {STUDENT}) == {} && SeedYears(db, {}, {STUDENT}, {}) == {}
  {
    hide Points, PointsInto, Has, SectionLinked, EachInto, SomeInto, SomeOneIn;
    assert Points(db, OTHER, StudentSection, SECTION);
    assert !EachIn(db, StudentSection, SECTION, {STUDENT});
  }

  lemma EnrollmentSeeds(db: Db)
    requires AsDrawn(db)
    ensures SeedsOf(db) == Seeds({USER}, {STUDENT}, {}, {SUBJECT}, {}, {}, {}, {}, {}, {})
  {
    hide SeedUsers, Referring, SeedSubjects, SeedGroups, SeedSectionsOf, SeedLevels, SeedYears, SeedSubmissions,
         AsDrawn;
    EnrollmentUsers(db);
    EnrollmentAccounts(db);
    EnrollmentOthers(db);
    EnrollmentWork(db);
    EnrollmentPlaces(db);
  }

  lemma EnrollmentUnblocked(db: Db)
    requires AsDrawn(db)
    ensures Unblocked(db)
  {
    hide SeedsOf, Points, PointsInto, Has;
    EnrollmentSeeds(db);
  }

  lemma RequiredHere(k: Key, c: Column)
    requires k in {USER, OUTSIDER, STUDENT, OTHER, SUBJECT, SECTION, ENROLLMENT} && Owner(c) == k.table
             && Action(c) != SetNull
    ensures (c == StudentUser && (k == STUDENT || k == OTHER))
            || (k == ENROLLMENT && (c == EnrollmentStudent || c == EnrollmentSubject))
  {
  }

  lemma OwnColumns(k: Key, c: Column, x: Key)
    requires Refers(k, c, x)
    ensures Owner(c) == k.table && x in {USER, OUTSIDER, STUDENT, SUBJECT, SECTION}
  {
  }

  lemma EnrollmentIntact(db: Db)
    requires AsDrawn(db)
    ensures Intact(db)
  {
    hide FiledWithGroup, Owner, Action, Target, Refers;
    forall k, c | k in db && c in db[k].refs ensures Owner(c) == k.table && Key(Target(c), db[k].refs[c]) in db {
      assert Points(db, k, c, Key(Target(c), db[k].refs[c]));
      OwnColumns(k, c, Key(Target(c), db[k].refs[c]));
    }
    forall k, c | k in db && Owner(c) == k.table && Action(c) != SetNull ensures Has(db, k, c) { RequiredHere(k, c); }
  }

  /** An enrollment of a seed student in a seed subject, placed in a section that is not, is overlooked. */
  lemma EnrollmentIsOverlooked()
    ensures PassesAndFails(WithEnrollment())
  {
    hide SeedsOf, Transaction, Intact, Unblocked, WithEnrollment, Points, PointsInto, Has, EachIn, EachInto;
    var db := WithEnrollment();
    EnrollmentDrawn();
    EnrollmentSeeds(db);
    EnrollmentIntact(db);
    EnrollmentUnblocked(db);
    OverlookedFails(db, ENROLLMENT);
  }
}
