/** The twelve steps that delete a user's data, each a statement of its own, without a transaction
    around them: an attempt may stop after any of them and be made again. */
module DeletionExecutor {
  import opened Options

  type UserId = int
  type ProfileId = int
  type RowId = int

  datatype Email = Address(int) | Anonymized(UserId)

  // `person` stands for the personal fields, the password included.
  datatype User = User(email: Email, person: Option<int>, archived: bool)

  datatype Tables = Tables(emailJobs: map<RowId, Email>, notifications: map<RowId, UserId>, uploads: map<RowId, UserId>,
                           students: map<UserId, ProfileId>, teachers: map<UserId, ProfileId>,
                           enrollments: map<RowId, ProfileId>, groupMembers: map<RowId, UserId>,
                           subjects: map<RowId, Option<ProfileId>>, sessions: map<RowId, UserId>,
                           tokens: map<RowId, UserId>, users: map<UserId, User>)

  datatype Category =
    | EmailJob | Notification | PendingUpload | Enrollment | GroupMember | SubjectTeacher
    | StudentProfile | TeacherProfile | AuthSession | ActionToken | UserRow

  function Matching<V(==)>(t: map<RowId, V>, v: V): set<RowId> { set i | i in t && t[i] == v }

  function Without<V(==)>(t: map<RowId, V>, v: V): map<RowId, V> { map i | i in t && t[i] != v :: t[i] }

  predicate Holds<V(==)>(t: map<int, V>, v: V) { exists i | i in t :: t[i] == v }

  function Cleared(t: map<RowId, Option<ProfileId>>, p: ProfileId): map<RowId, Option<ProfileId>> {
    map i | i in t :: if t[i] == Some(p) then None else t[i]
  }

  function Lookup(t: map<UserId, ProfileId>, u: UserId): Option<ProfileId> {
    if u in t then Some(t[u]) else None
  }

  function Dropped(t: map<UserId, ProfileId>, u: UserId): map<UserId, ProfileId> {
    if u in t then t - {u} else t
  }

  function Least(a: nat, b: nat): nat { if a < b then a else b }

  // What an attempt reads for its steps: the address at its start, and the profiles, which the steps
  // before that look-up leave alone.
  datatype Subject = Subject(user: UserId, email: Email, student: Option<ProfileId>, teacher: Option<ProfileId>)

  function Step(db: Tables, s: Subject, n: nat): Tables
  {
    match n
    case 1 => db.(emailJobs := Without(db.emailJobs, s.email))
    case 2 => db.(notifications := Without(db.notifications, s.user))
    case 3 => db.(uploads := Without(db.uploads, s.user))
    case 5 => if s.student.Some? then db.(enrollments := Without(db.enrollments, s.student.value)) else db
    case 6 => db.(groupMembers := Without(db.groupMembers, s.user))
    case 7 => if s.teacher.Some? then db.(subjects := Cleared(db.subjects, s.teacher.value)) else db
    case 8 => if s.student.Some? then db.(students := Dropped(db.students, s.user)) else db
    case 9 => if s.teacher.Some? then db.(teachers := Dropped(db.teachers, s.user)) else db
    case 10 => db.(sessions := Without(db.sessions, s.user))
    case 11 => db.(tokens := Without(db.tokens, s.user))
    case 12 => if s.user in db.users then db.(users := db.users[s.user := User(Anonymized(s.user), None, true)]) else db
    case _ => db
  }

  function SubjectOf(db: Tables, u: UserId): Subject
    requires u in db.users
  {
    Subject(u, db.users[u].email, Lookup(db.students, u), Lookup(db.teachers, u))
  }

  function Steps(db: Tables, s: Subject, k: nat): Tables {
    if k == 0 then db else Step(Steps(db, s, k - 1), s, k)
  }

  /** An attempt that stops after step k. */
  function Attempt(db: Tables, u: UserId, k: nat): Tables
    requires u in db.users
  {
    Steps(db, SubjectOf(db, u), k)
  }

  // ---------- what an attempt leaves ----------

  // The tables when the first k steps have been taken, field by field.
  function Partial(db: Tables, u: UserId, k: nat): Tables
    requires u in db.users
  {
    var s := SubjectOf(db, u);
    Tables(if 1 <= k then Without(db.emailJobs, s.email) else db.emailJobs,
           if 2 <= k then Without(db.notifications, u) else db.notifications,
           if 3 <= k then Without(db.uploads, u) else db.uploads,
           if 8 <= k then Dropped(db.students, u) else db.students,
           if 9 <= k then Dropped(db.teachers, u) else db.teachers,
           if 5 <= k && s.student.Some? then Without(db.enrollments, s.student.value) else db.enrollments,
           if 6 <= k then Without(db.groupMembers, u) else db.groupMembers,
           if 7 <= k && s.teacher.Some? then Cleared(db.subjects, s.teacher.value) else db.subjects,
           if 10 <= k then Without(db.sessions, u) else db.sessions,
           if 11 <= k then Without(db.tokens, u) else db.tokens,
           if 12 <= k then db.users[u := User(Anonymized(u), None, true)] else db.users)
  }

  lemma StepsAreUsers(db: Tables, s: Subject, k: nat)
    requires k <= 11
    ensures Steps(db, s, k).users == db.users
  {
    hide Without, Cleared;
  }

  lemma EarlyStep(db: Tables, u: UserId, k: nat)
    requires u in db.users && 1 <= k <= 6
    ensures Step(Partial(db, u, k - 1), SubjectOf(db, u), k) == Partial(db, u, k)
  {
    hide Without, Cleared;
  }

  lemma MiddleStep(db: Tables, u: UserId, k: nat)
    requires u in db.users && 7 <= k <= 9
    ensures Step(Partial(db, u, k - 1), SubjectOf(db, u), k) == Partial(db, u, k)
  {
    hide Without, Cleared, Dropped, Lookup;
    DroppedTwice(db.students, u);
    DroppedTwice(db.teachers, u);
  }

  lemma LateStep(db: Tables, u: UserId, k: nat)
    requires u in db.users && 10 <= k <= 12
    ensures Step(Partial(db, u, k - 1), SubjectOf(db, u), k) == Partial(db, u, k)
  {
    hide Without, Cleared, Dropped, Lookup;
    if k == 10 {
      assert Step(Partial(db, u, 9), SubjectOf(db, u), 10) == Partial(db, u, 10);
    } else if k == 11 {
      assert Step(Partial(db, u, 10), SubjectOf(db, u), 11) == Partial(db, u, 11);
    } else {
      assert Step(Partial(db, u, 11), SubjectOf(db, u), 12) == Partial(db, u, 12);
    }
  }

  lemma {:induction false} AttemptIsPartial(db: Tables, u: UserId, k: nat)
    requires u in db.users && k <= 12
    ensures Attempt(db, u, k) == Partial(db, u, k)
  {
    if k == 0 { return; }
    hide Partial, Step;
    AttemptIsPartial(db, u, k - 1);
    if k <= 6 { EarlyStep(db, u, k); } else if k <= 9 { MiddleStep(db, u, k); } else { LateStep(db, u, k); }
  }

  lemma WithoutTwice<V>(t: map<RowId, V>, v: V)
    ensures Without(Without(t, v), v) == Without(t, v)
    ensures !Holds(Without(t, v), v)
  {
  }

  lemma ClearedTwice(t: map<RowId, Option<ProfileId>>, p: ProfileId)
    ensures Cleared(Cleared(t, p), p) == Cleared(t, p)
  {
  }

  lemma DroppedTwice(t: map<UserId, ProfileId>, u: UserId)
    ensures Dropped(Dropped(t, u), u) == Dropped(t, u)
    ensures Lookup(Dropped(t, u), u) == None && (Lookup(t, u) == None ==> Dropped(t, u) == t)
  {
  }

  // Field by field, the steps taken again after the first k find nothing more to do.
  lemma RowsTwice(db: Tables, u: UserId, k: nat)
    requires u in db.users && k <= 11
    ensures var a, b := Partial(Partial(db, u, k), u, 12), Partial(db, u, 12);
            && a.emailJobs == b.emailJobs && a.notifications == b.notifications && a.uploads == b.uploads
            && a.groupMembers == b.groupMembers && a.sessions == b.sessions && a.tokens == b.tokens
            && a.users == b.users
  {
    hide Without, Cleared;
    WithoutTwice(db.emailJobs, db.users[u].email);
    WithoutTwice(db.notifications, u);
    WithoutTwice(db.uploads, u);
    WithoutTwice(db.groupMembers, u);
    WithoutTwice(db.sessions, u);
    WithoutTwice(db.tokens, u);
  }

  lemma ProfilesTwice(db: Tables, u: UserId, k: nat)
    requires u in db.users && k <= 11
    ensures var a, b := Partial(Partial(db, u, k), u, 12), Partial(db, u, 12);
            && a.students == b.students && a.teachers == b.teachers && a.enrollments == b.enrollments
            && a.subjects == b.subjects
  {
    hide Without, Cleared, Dropped, Lookup;
    DroppedTwice(db.students, u);
    DroppedTwice(db.teachers, u);
    var s := SubjectOf(db, u);
    if s.student.Some? { WithoutTwice(db.enrollments, s.student.value); }
    if s.teacher.Some? { ClearedTwice(db.subjects, s.teacher.value); }
  }

  /** An attempt stopped before the anonymisation leaves nothing that a new one would do differently:
      made again from the start, it ends where one uninterrupted attempt would have. */
  lemma ResumeCompletes(db: Tables, u: UserId, k: nat)
    requires u in db.users && k <= 11
    ensures u in Attempt(db, u, k).users
    ensures Attempt(Attempt(db, u, k), u, 12) == Attempt(db, u, 12)
  {
    hide Partial, Attempt;
    AttemptKeepsUser(db, u, k);
    AttemptIsPartial(db, u, k);
    AttemptIsPartial(db, u, 12);
    AttemptIsPartial(Attempt(db, u, k), u, 12);
    RowsTwice(db, u, k);
    ProfilesTwice(db, u, k);
  }

  lemma AttemptKeepsUser(db: Tables, u: UserId, k: nat)
    requires u in db.users && k <= 11
    ensures Attempt(db, u, k).users == db.users
  {
    StepsAreUsers(db, SubjectOf(db, u), k);
  }

  function Attempts(db: Tables, u: UserId, stops: seq<nat>): Tables
    requires u in db.users && forall i | 0 <= i < |stops| :: stops[i] <= 11
    ensures u in Attempts(db, u, stops).users
    decreases |stops|
  {
    if stops == [] then db
    else
      AttemptKeepsUser(db, u, stops[0]);
      Attempts(Attempt(db, u, stops[0]), u, stops[1..])
  }

  /** However often it was interrupted, and wherever. */
  lemma {:induction false} AnyInterruptionsComplete(db: Tables, u: UserId, stops: seq<nat>)
    requires u in db.users && forall i | 0 <= i < |stops| :: stops[i] <= 11
    ensures Attempt(Attempts(db, u, stops), u, 12) == Attempt(db, u, 12)
    decreases |stops|
  {
    hide Attempt;
    if stops != [] {
      AttemptKeepsUser(db, u, stops[0]);
      AnyInterruptionsComplete(Attempt(db, u, stops[0]), u, stops[1..]);
      ResumeCompletes(db, u, stops[0]);
    }
  }

  /** After the anonymisation the address is another one: doing it all again then changes nothing
      exactly when it was that address already or no mail is addressed to it. */
  lemma SecondRunExact(db: Tables, u: UserId)
    requires u in db.users
    ensures var done := Attempt(db, u, 12);
            && u in done.users
            && (Attempt(done, u, 12) == done <==>
                  db.users[u].email == Anonymized(u) || !Holds(db.emailJobs, Anonymized(u)))
  {
    hide Partial, Attempt, Without;
    AttemptIsPartial(db, u, 12);
    var done := Partial(db, u, 12);
    DoneFields(db, u);
    AttemptIsPartial(done, u, 12);
    SecondRunRows(db, u);
    if db.users[u].email == Anonymized(u) {
      WithoutTwice(db.emailJobs, Anonymized(u));
    } else {
      SecondRunMail(db.emailJobs, db.users[u].email, Anonymized(u));
    }
  }

  lemma DoneFields(db: Tables, u: UserId)
    requires u in db.users
    ensures u in Partial(db, u, 12).users && Partial(db, u, 12).emailJobs == Without(db.emailJobs, db.users[u].email)
    ensures Partial(db, u, 12).users[u].email == Anonymized(u)
  {
  }

  lemma SecondRunRows(db: Tables, u: UserId)
    requires u in db.users && u in Partial(db, u, 12).users
    ensures var a, b := Partial(Partial(db, u, 12), u, 12), Partial(db, u, 12);
            && a == b.(emailJobs := a.emailJobs)
            && a.emailJobs == Without(b.emailJobs, Anonymized(u))
  {
    hide Without, Cleared, Dropped, Lookup;
    DroppedTwice(db.students, u);
    DroppedTwice(db.teachers, u);
    var b := Partial(db, u, 12);
    WithoutTwice(db.notifications, u);
    WithoutTwice(db.uploads, u);
    WithoutTwice(db.groupMembers, u);
    WithoutTwice(db.sessions, u);
    WithoutTwice(db.tokens, u);
  }

  lemma SecondRunMail(t: map<RowId, Email>, first: Email, second: Email)
    requires first != second
    ensures Without(Without(t, first), second) == Without(t, first) <==> !Holds(t, second)
  {
    if Holds(t, second) {
      var i :| i in t && t[i] == second;
      assert i in Without(t, first) && i !in Without(Without(t, first), second);
    } else {
      forall i | i in Without(t, first) ensures i in Without(Without(t, first), second) {
        assert t[i] != second;
      }
      assert Without(Without(t, first), second) == Without(t, first);
    }
  }

  // ---------- what it erases ----------

  /** A completed attempt erases the user's rows and the user's personal data, and nothing of others. */
  lemma ErasesExactly(db: Tables, u: UserId)
    requires u in db.users
    ensures var done := Attempt(db, u, 12);
            && (forall i :: i in done.notifications <==> i in db.notifications && db.notifications[i] != u)
            && (forall i :: i in done.uploads <==> i in db.uploads && db.uploads[i] != u)
            && (forall i :: i in done.groupMembers <==> i in db.groupMembers && db.groupMembers[i] != u)
            && (forall i :: i in done.sessions <==> i in db.sessions && db.sessions[i] != u)
            && (forall i :: i in done.tokens <==> i in db.tokens && db.tokens[i] != u)
            && (forall i :: i in done.emailJobs <==> i in db.emailJobs && db.emailJobs[i] != db.users[u].email)
            && u !in done.students && u !in done.teachers
            && (forall i ::
                 i in done.enrollments <==> i in db.enrollments && Some(db.enrollments[i]) != Lookup(db.students, u))
            && (forall i | i in done.enrollments :: done.enrollments[i] == db.enrollments[i])
            && (forall i | i in done.notifications :: done.notifications[i] == db.notifications[i])
            && (forall i | i in done.uploads :: done.uploads[i] == db.uploads[i])
            && (forall i | i in done.groupMembers :: done.groupMembers[i] == db.groupMembers[i])
            && (forall i | i in done.sessions :: done.sessions[i] == db.sessions[i])
            && (forall i | i in done.tokens :: done.tokens[i] == db.tokens[i])
            && (forall i | i in done.emailJobs :: done.emailJobs[i] == db.emailJobs[i])
            && done.subjects.Keys == db.subjects.Keys
            && (forall i | i in db.subjects :: done.subjects[i] ==
                  if db.subjects[i].Some? && db.subjects[i] == Lookup(db.teachers, u) then None else db.subjects[i])
            && (forall v | v != u ::
                 Lookup(done.students, v) == Lookup(db.students, v)
                     && Lookup(done.teachers, v) == Lookup(db.teachers, v))
            && done.users == db.users[u := User(Anonymized(u), None, true)]
  {
    hide Attempt;
    AttemptIsPartial(db, u, 12);
  }

  /** Done again, it changes something where mail is addressed to the anonymised address. */
  lemma SecondRunChanges()
    ensures var db := Tables(map[1 := Anonymized(7)], map[], map[], map[], map[], map[], map[], map[], map[], map[],
                             map[7 := User(Address(1), Some(1), false)]);
            var done := Attempt(db, 7, 12);
            7 in done.users && Attempt(done, 7, 12) != done
  {
    hide Attempt;
    var db := Tables(map[1 := Anonymized(7)], map[], map[], map[], map[], map[], map[], map[], map[], map[],
                     map[7 := User(Address(1), Some(1), false)]);
    assert db.emailJobs[1] == Anonymized(7);
    SecondRunExact(db, 7);
  }

  // ---------- references while it runs ----------

  ghost predicate ProfilesHold(db: Tables) {
    && (forall i | i in db.enrollments :: Holds(db.students, db.enrollments[i]))
    && (forall i | i in db.subjects && db.subjects[i].Some? :: Holds(db.teachers, db.subjects[i].value))
  }

  lemma ValuesWithout(t: map<UserId, ProfileId>, u: UserId, p: ProfileId)
    requires Holds(t, p) && (u !in t || t[u] != p)
    ensures Holds(Dropped(t, u), p)
  {
    var v :| v in t && t[v] == p;
    assert v in Dropped(t, u) && Dropped(t, u)[v] == p;
  }

  /** Wherever an attempt stops, every enrollment and every subject still leads to a profile. */
  lemma ProfilesHoldThroughout(db: Tables, u: UserId, k: nat)
    requires u in db.users && k <= 12 && ProfilesHold(db)
    ensures ProfilesHold(Attempt(db, u, k))
  {
    hide Attempt;
    AttemptIsPartial(db, u, k);
    var done := Partial(db, u, k);
    forall i | i in done.enrollments ensures Holds(done.students, done.enrollments[i]) {
      if 8 <= k { ValuesWithout(db.students, u, db.enrollments[i]); }
    }
    forall i | i in done.subjects && done.subjects[i].Some? ensures Holds(done.teachers, done.subjects[i].value) {
      if 9 <= k { ValuesWithout(db.teachers, u, db.subjects[i].value); }
    }
  }

  // ---------- counts ----------

  // What the plan counts in the untouched database.
  function Planned(db: Tables, u: UserId, c: Category): nat
    requires u in db.users
  {
    var s := SubjectOf(db, u);
    match c
    case EmailJob => |Matching(db.emailJobs, s.email)|
    case Notification => |Matching(db.notifications, u)|
    case PendingUpload => |Matching(db.uploads, u)|
    case Enrollment => if s.student.Some? then |Matching(db.enrollments, s.student.value)| else 0
    case GroupMember => |Matching(db.groupMembers, u)|
    case SubjectTeacher => if s.teacher.Some? then |Matching(db.subjects, Some(s.teacher.value))| else 0
    case StudentProfile => if s.student.Some? then 1 else 0
    case TeacherProfile => if s.teacher.Some? then 1 else 0
    case AuthSession => |Matching(db.sessions, u)|
    case ActionToken => |Matching(db.tokens, u)|
    case UserRow => 1
  }

  // The step whose count is entered under a category.
  function StepOf(c: Category): nat {
    match c
    case EmailJob => 1
    case Notification => 2
    case PendingUpload => 3
    case Enrollment => 5
    case GroupMember => 6
    case SubjectTeacher => 7
    case StudentProfile => 8
    case TeacherProfile => 9
    case AuthSession => 10
    case ActionToken => 11
    case UserRow => 12
  }

  // How many rows of a category two databases differ in.
  ghost function Touched(a: Tables, b: Tables, c: Category): nat {
    match c
    case EmailJob => |a.emailJobs.Keys - b.emailJobs.Keys|
    case Notification => |a.notifications.Keys - b.notifications.Keys|
    case PendingUpload => |a.uploads.Keys - b.uploads.Keys|
    case Enrollment => |a.enrollments.Keys - b.enrollments.Keys|
    case GroupMember => |a.groupMembers.Keys - b.groupMembers.Keys|
    case SubjectTeacher => |set i | i in a.subjects && i in b.subjects && a.subjects[i] != b.subjects[i]|
    case StudentProfile => |a.students.Keys - b.students.Keys|
    case TeacherProfile => |a.teachers.Keys - b.teachers.Keys|
    case AuthSession => |a.sessions.Keys - b.sessions.Keys|
    case ActionToken => |a.tokens.Keys - b.tokens.Keys|
    case UserRow => |set v | v in a.users && v in b.users && a.users[v] != b.users[v]|
  }

  lemma WithoutLoses<V>(t: map<RowId, V>, v: V)
    ensures |t.Keys - Without(t, v).Keys| == |Matching(t, v)|
  {
    assert t.Keys - Without(t, v).Keys == Matching(t, v);
  }

  lemma ClearedChanges(t: map<RowId, Option<ProfileId>>, p: ProfileId)
    ensures |set i | i in t && i in Cleared(t, p) && t[i] != Cleared(t, p)[i]| == |Matching(t, Some(p))|
  {
    assert (set i | i in t && i in Cleared(t, p) && t[i] != Cleared(t, p)[i]) == Matching(t, Some(p));
  }

  lemma NoneLost(t: set<int>)
    ensures |t - t| == 0
  {
    assert t - t == {};
  }

  lemma ProfileLoss(t: map<UserId, ProfileId>, u: UserId)
    requires u in t
    ensures |t.Keys - Dropped(t, u).Keys| == 1
  {
    assert t.Keys - Dropped(t, u).Keys == {u};
  }

  lemma NoneChanged(t: map<RowId, Option<ProfileId>>)
    ensures |set i | i in t && i in t && t[i] != t[i]| == 0
  {
    assert (set i | i in t && i in t && t[i] != t[i]) == {};
  }

  // Two databases have the same rows of a category.
  predicate SameRows(a: Tables, b: Tables, c: Category) {
    match c
    case EmailJob => a.emailJobs == b.emailJobs
    case Notification => a.notifications == b.notifications
    case PendingUpload => a.uploads == b.uploads
    case Enrollment => a.enrollments == b.enrollments
    case GroupMember => a.groupMembers == b.groupMembers
    case SubjectTeacher => a.subjects == b.subjects
    case StudentProfile => a.students == b.students
    case TeacherProfile => a.teachers == b.teachers
    case AuthSession => a.sessions == b.sessions
    case ActionToken => a.tokens == b.tokens
    case UserRow => a.users == b.users
  }

  /** Wherever an attempt stops, the categories whose step has been taken are as at the end, and the others
      as before. */
  lemma StopsExact(db: Tables, u: UserId, k: nat, c: Category)
    requires u in db.users && k <= 12
    ensures SameRows(Attempt(db, u, k), if StepOf(c) <= k then Attempt(db, u, 12) else db, c)
  {
    hide Attempt, Without, Cleared, Dropped;
    AttemptIsPartial(db, u, k);
    AttemptIsPartial(db, u, 12);
  }

  /** The dry run's count of every category is the number of rows that the execution deletes or changes. */
  lemma PlanIsWhatHappens(db: Tables, u: UserId, c: Category)
    requires u in db.users
    ensures c != UserRow || db.users[u] != User(Anonymized(u), None, true) ==>
              Touched(db, Attempt(db, u, 12), c) == Planned(db, u, c)
  {
    hide Attempt, Without, Cleared, Matching, Dropped;
    AttemptIsPartial(db, u, 12);
    var s := SubjectOf(db, u);
    match c
    case EmailJob => WithoutLoses(db.emailJobs, s.email);
    case Notification => WithoutLoses(db.notifications, u);
    case PendingUpload => WithoutLoses(db.uploads, u);
    case Enrollment =>
      if s.student.Some? {
        WithoutLoses(db.enrollments, s.student.value);
      } else {
        NoneLost(db.enrollments.Keys);
      }
    case GroupMember => WithoutLoses(db.groupMembers, u);
    case SubjectTeacher =>
      if s.teacher.Some? {
        ClearedChanges(db.subjects, s.teacher.value);
      } else {
        NoneChanged(db.subjects);
      }
    case StudentProfile =>
      if s.student.Some? {
        ProfileLoss(db.students, u);
      } else {
        NoneLost(db.students.Keys);
        DroppedTwice(db.students, u);
      }
    case TeacherProfile =>
      if s.teacher.Some? {
        ProfileLoss(db.teachers, u);
      } else {
        NoneLost(db.teachers.Keys);
        DroppedTwice(db.teachers, u);
      }
    case AuthSession => WithoutLoses(db.sessions, u);
    case ActionToken => WithoutLoses(db.tokens, u);
    case UserRow => if db.users[u] != User(Anonymized(u), None, true) { OneChanged(db.users, u); }
  }

  lemma OneChanged(t: map<UserId, User>, u: UserId)
    requires u in t && t[u] != User(Anonymized(u), None, true)
    ensures var after := t[u := User(Anonymized(u), None, true)];
            |set v | v in t && v in after && t[v] != after[v]| == 1
  {
    var after := t[u := User(Anonymized(u), None, true)];
    assert (set v | v in t && v in after && t[v] != after[v]) == {u};
  }

  // ---------- the executor ----------

  // The number of rows that a step finds, and the category under which it is entered, if any.
  function CountAt(db: Tables, s: Subject, n: nat): nat {
    match n
    case 1 => |Matching(db.emailJobs, s.email)|
    case 2 => |Matching(db.notifications, s.user)|
    case 3 => |Matching(db.uploads, s.user)|
    case 5 => if s.student.Some? then |Matching(db.enrollments, s.student.value)| else 0
    case 6 => |Matching(db.groupMembers, s.user)|
    case 7 => if s.teacher.Some? then |Matching(db.subjects, Some(s.teacher.value))| else 0
    case 8 => if s.student.Some? then 1 else 0
    case 9 => if s.teacher.Some? then 1 else 0
    case 10 => |Matching(db.sessions, s.user)|
    case 11 => |Matching(db.tokens, s.user)|
    case 12 => 1
    case _ => 0
  }

  function CategoryAt(s: Subject, n: nat): Option<Category> {
    match n
    case 1 => Some(EmailJob)
    case 2 => Some(Notification)
    case 3 => Some(PendingUpload)
    case 5 => Some(Enrollment)
    case 6 => Some(GroupMember)
    case 7 => if s.teacher.Some? then Some(SubjectTeacher) else None
    case 8 => Some(StudentProfile)
    case 9 => Some(TeacherProfile)
    case 10 => Some(AuthSession)
    case 11 => Some(ActionToken)
    case 12 => Some(UserRow)
    case _ => None
  }

  function Entries(db: Tables, s: Subject, k: nat): map<Category, nat> {
    if k == 0 then map[]
    else
      var prior, c := Entries(db, s, k - 1), CategoryAt(s, k);
      if c.Some? then prior[c.value := CountAt(Steps(db, s, k - 1), s, k)] else prior
  }

  // The number entered under a category; no entry counts as zero.
  function Reported(results: map<Category, nat>, c: Category): nat {
    if c in results then results[c] else 0
  }

  lemma {:induction false} EntryStays(db: Tables, s: Subject, k: nat, c: Category)
    requires k <= 12
    ensures Reported(Entries(db, s, k), c) ==
            if StepOf(c) <= k && CategoryAt(s, StepOf(c)).Some? then CountAt(Steps(db, s, StepOf(c) - 1), s, StepOf(c))
            else 0
  {
    hide CountAt, Steps;
    if k > 0 { EntryStays(db, s, k - 1, c); }
  }

  // Until its own step comes, a category's rows are as they were.
  lemma CountUnmoved(db: Tables, u: UserId, c: Category)
    requires u in db.users
    ensures CountAt(Attempt(db, u, StepOf(c) - 1), SubjectOf(db, u), StepOf(c)) == Planned(db, u, c)
  {
    hide Attempt, Matching, Without, Cleared;
    AttemptIsPartial(db, u, StepOf(c) - 1);
  }

  /** Every number that a completed execution reports, each counted on the database as it then was, is
      the dry run's number for the untouched database. */
  lemma ReportIsThePlan(db: Tables, u: UserId, c: Category)
    requires u in db.users
    ensures Reported(Entries(db, SubjectOf(db, u), 12), c) == Planned(db, u, c)
  {
    hide Planned, CountAt, Steps, Entries;
    EntryStays(db, SubjectOf(db, u), 12, c);
    CountUnmoved(db, u, c);
    if CategoryAt(SubjectOf(db, u), StepOf(c)).None? { UncategorisedIsNone(db, u, c); }
  }

  lemma UncategorisedIsNone(db: Tables, u: UserId, c: Category)
    requires u in db.users && CategoryAt(SubjectOf(db, u), StepOf(c)).None?
    ensures Planned(db, u, c) == 0
  {
  }

  lemma MailStep(db: Tables, s: Subject)
    ensures Touched(db, Step(db, s, 1), EmailJob) == CountAt(db, s, 1)
    ensures Step(db, s, 1) == db.(emailJobs := Step(db, s, 1).emailJobs)
  {
    hide Without, Cleared, Matching, Dropped;
    WithoutLoses(db.emailJobs, s.email);
  }

  lemma NotificationStep(db: Tables, s: Subject)
    ensures Touched(db, Step(db, s, 2), Notification) == CountAt(db, s, 2)
    ensures Step(db, s, 2) == db.(notifications := Step(db, s, 2).notifications)
  {
    hide Without, Cleared, Matching, Dropped;
    WithoutLoses(db.notifications, s.user);
  }

  lemma UploadStep(db: Tables, s: Subject)
    ensures Touched(db, Step(db, s, 3), PendingUpload) == CountAt(db, s, 3)
    ensures Step(db, s, 3) == db.(uploads := Step(db, s, 3).uploads)
  {
    hide Without, Cleared, Matching, Dropped;
    WithoutLoses(db.uploads, s.user);
  }

  lemma EnrollmentStep(db: Tables, s: Subject)
    ensures Touched(db, Step(db, s, 5), Enrollment) == CountAt(db, s, 5)
    ensures Step(db, s, 5) == db.(enrollments := Step(db, s, 5).enrollments)
  {
    hide Without, Cleared, Matching, Dropped;
    if s.student.Some? { WithoutLoses(db.enrollments, s.student.value); } else { NoneLost(db.enrollments.Keys); }
  }

  lemma MemberStep(db: Tables, s: Subject)
    ensures Touched(db, Step(db, s, 6), GroupMember) == CountAt(db, s, 6)
    ensures Step(db, s, 6) == db.(groupMembers := Step(db, s, 6).groupMembers)
  {
    hide Without, Cleared, Matching, Dropped;
    WithoutLoses(db.groupMembers, s.user);
  }

  lemma TeachingStep(db: Tables, s: Subject)
    ensures Touched(db, Step(db, s, 7), SubjectTeacher) == CountAt(db, s, 7)
    ensures Step(db, s, 7) == db.(subjects := Step(db, s, 7).subjects)
  {
    hide Without, Cleared, Matching, Dropped;
    if s.teacher.Some? { ClearedChanges(db.subjects, s.teacher.value); } else { NoneChanged(db.subjects); }
  }

  lemma StudentStep(db: Tables, s: Subject)
    requires s.student.Some? <==> s.user in db.students
    ensures Touched(db, Step(db, s, 8), StudentProfile) == CountAt(db, s, 8)
    ensures Step(db, s, 8) == db.(students := Step(db, s, 8).students)
  {
    hide Without, Cleared, Matching, Dropped, Lookup;
    if s.student.Some? {
      assert Step(db, s, 8).students == Dropped(db.students, s.user);
      ProfileLoss(db.students, s.user);
    } else {
      NoneLost(db.students.Keys);
    }
  }

  lemma TeacherStep(db: Tables, s: Subject)
    requires s.teacher.Some? <==> s.user in db.teachers
    ensures Touched(db, Step(db, s, 9), TeacherProfile) == CountAt(db, s, 9)
    ensures Step(db, s, 9) == db.(teachers := Step(db, s, 9).teachers)
  {
    hide Without, Cleared, Matching, Dropped, Lookup;
    if s.teacher.Some? {
      assert Step(db, s, 9).teachers == Dropped(db.teachers, s.user);
      ProfileLoss(db.teachers, s.user);
    } else {
      NoneLost(db.teachers.Keys);
    }
  }

  lemma SessionStep(db: Tables, s: Subject)
    ensures Touched(db, Step(db, s, 10), AuthSession) == CountAt(db, s, 10)
    ensures Step(db, s, 10) == db.(sessions := Step(db, s, 10).sessions)
  {
    hide Without, Cleared, Matching, Dropped, Touched;
    var u := Step(db, s, 10);
    assert u.sessions == Without(db.sessions, s.user);
    WithoutLoses(db.sessions, s.user);
    SessionStepTouches(db, u);
  }

  lemma SessionStepTouches(a: Tables, b: Tables)
    ensures Touched(a, b, AuthSession) == |a.sessions.Keys - b.sessions.Keys|
  {
  }

  lemma TokenStep(db: Tables, s: Subject)
    ensures Touched(db, Step(db, s, 11), ActionToken) == CountAt(db, s, 11)
    ensures Step(db, s, 11) == db.(tokens := Step(db, s, 11).tokens)
  {
    hide Without, Cleared, Matching, Dropped, Touched;
    var u := Step(db, s, 11);
    assert u.tokens == Without(db.tokens, s.user);
    WithoutLoses(db.tokens, s.user);
    TokenStepTouches(db, u);
  }

  lemma TokenStepTouches(a: Tables, b: Tables)
    ensures Touched(a, b, ActionToken) == |a.tokens.Keys - b.tokens.Keys|
  {
  }

  lemma UserStep(db: Tables, s: Subject)
    requires s.user in db.users && db.users[s.user] != User(Anonymized(s.user), None, true)
    ensures Touched(db, Step(db, s, 12), UserRow) == CountAt(db, s, 12)
    ensures Step(db, s, 12) == db.(users := Step(db, s, 12).users)
  {
    hide Without, Cleared, Matching, Dropped;
    OneChanged(db.users, s.user);
  }

  // The database with the rows of one category taken from another.
  function WithTable(db: Tables, u: Tables, c: Category): Tables {
    match c
    case EmailJob => db.(emailJobs := u.emailJobs)
    case Notification => db.(notifications := u.notifications)
    case PendingUpload => db.(uploads := u.uploads)
    case Enrollment => db.(enrollments := u.enrollments)
    case GroupMember => db.(groupMembers := u.groupMembers)
    case SubjectTeacher => db.(subjects := u.subjects)
    case StudentProfile => db.(students := u.students)
    case TeacherProfile => db.(teachers := u.teachers)
    case AuthSession => db.(sessions := u.sessions)
    case ActionToken => db.(tokens := u.tokens)
    case UserRow => db.(users := u.users)
  }

  /** Each step changes one table only, and there just as many rows as it counts: the mail of the address,
      the enrollments of the profile, the subjects it teaches, the one user, and so on. */
  lemma StepTouchesWhatItCounts(db: Tables, s: Subject, c: Category)
    requires s.user in db.users && db.users[s.user] != User(Anonymized(s.user), None, true)
    requires s.student == Lookup(db.students, s.user) && s.teacher == Lookup(db.teachers, s.user)
    ensures Touched(db, Step(db, s, StepOf(c)), c) == CountAt(db, s, StepOf(c))
    ensures Step(db, s, StepOf(c)) == WithTable(db, Step(db, s, StepOf(c)), c)
  {
    hide Step, Touched, CountAt;
    match c
    case EmailJob => MailStep(db, s);
    case Notification => NotificationStep(db, s);
    case PendingUpload => UploadStep(db, s);
    case Enrollment => EnrollmentStep(db, s);
    case GroupMember => MemberStep(db, s);
    case SubjectTeacher => TeachingStep(db, s);
    case StudentProfile => StudentStep(db, s);
    case TeacherProfile => TeacherStep(db, s);
    case AuthSession => SessionStep(db, s);
    case ActionToken => TokenStep(db, s);
    case UserRow => UserStep(db, s);
  }

  class Executor {
    var db: Tables
    var results: map<Category, nat>

    constructor (initial: Tables)
      ensures db == initial && results == map[]
    {
      db, results := initial, map[];
    }

    method DeleteEmailJobs(s: Subject) returns (count: nat)
      modifies this`db
      ensures db == Step(old(db), s, 1) && count == CountAt(old(db), s, 1)
    {
      count := |Matching(db.emailJobs, s.email)|;
      db := db.(emailJobs := Without(db.emailJobs, s.email));
    }

    method DeleteNotifications(s: Subject) returns (count: nat)
      modifies this`db
      ensures db == Step(old(db), s, 2) && count == CountAt(old(db), s, 2)
    {
      count := |Matching(db.notifications, s.user)|;
      db := db.(notifications := Without(db.notifications, s.user));
    }

    method DeletePendingUploads(s: Subject) returns (count: nat)
      modifies this`db
      ensures db == Step(old(db), s, 3) && count == CountAt(old(db), s, 3)
    {
      count := |Matching(db.uploads, s.user)|;
      db := db.(uploads := Without(db.uploads, s.user));
    }

    method DeleteEnrollments(s: Subject) returns (count: nat)
      requires s.student.Some?
      modifies this`db
      ensures db == Step(old(db), s, 5) && count == CountAt(old(db), s, 5)
    {
      count := |Matching(db.enrollments, s.student.value)|;
      db := db.(enrollments := Without(db.enrollments, s.student.value));
    }

    method DeleteGroupMembers(s: Subject) returns (count: nat)
      modifies this`db
      ensures db == Step(old(db), s, 6) && count == CountAt(old(db), s, 6)
    {
      count := |Matching(db.groupMembers, s.user)|;
      db := db.(groupMembers := Without(db.groupMembers, s.user));
    }

    method ClearSubjectTeacher(s: Subject) returns (count: nat)
      requires s.teacher.Some?
      modifies this`db
      ensures db == Step(old(db), s, 7) && count == CountAt(old(db), s, 7)
    {
      count := |Matching(db.subjects, Some(s.teacher.value))|;
      db := db.(subjects := Cleared(db.subjects, s.teacher.value));
    }

    method DeleteAuthSessions(s: Subject) returns (count: nat)
      modifies this`db
      ensures db == Step(old(db), s, 10) && count == CountAt(old(db), s, 10)
    {
      count := |Matching(db.sessions, s.user)|;
      db := db.(sessions := Without(db.sessions, s.user));
    }

    method DeleteActionTokens(s: Subject) returns (count: nat)
      modifies this`db
      ensures db == Step(old(db), s, 11) && count == CountAt(old(db), s, 11)
    {
      count := |Matching(db.tokens, s.user)|;
      db := db.(tokens := Without(db.tokens, s.user));
    }

    method AnonymizeUser(s: Subject)
      requires s.user in db.users
      modifies this`db
      ensures db == Step(old(db), s, 12)
    {
      db := db.(users := db.users[s.user := User(Anonymized(s.user), None, true)]);
    }

    method DeleteStudentProfile(s: Subject)
      requires s.student.Some?
      modifies this`db
      ensures db == Step(old(db), s, 8)
    {
      db := db.(students := Dropped(db.students, s.user));
    }

    method DeleteTeacherProfile(s: Subject)
      requires s.teacher.Some?
      modifies this`db
      ensures db == Step(old(db), s, 9)
    {
      db := db.(teachers := Dropped(db.teachers, s.user));
    }

    // Where the attempt stands: k steps are taken and entered.
    ghost predicate Took(start: Tables, s: Subject, k: nat)
      reads this
    {
      db == Steps(start, s, k) && results == Entries(start, s, k)
    }

    method FirstSteps(ghost start: Tables, s: Subject, stop: nat)
      requires Took(start, s, 0)
      modifies this
      ensures Took(start, s, Least(stop, 6))
    {
      hide Step, CountAt;
      if stop < 1 { return; }
      var count := DeleteEmailJobs(s);
      results := results[EmailJob := count];
      assert Took(start, s, 1);
      if stop < 2 { return; }
      count := DeleteNotifications(s);
      results := results[Notification := count];
      assert Took(start, s, 2);
      if stop < 3 { return; }
      count := DeletePendingUploads(s);
      results := results[PendingUpload := count];
      SkippedSteps(db, s);
      assert Took(start, s, 3) && Took(start, s, 4);
      if stop < 5 { return; }
      if s.student.Some? {
        count := DeleteEnrollments(s);
        results := results[Enrollment := count];
      } else {
        results := results[Enrollment := 0];
      }
      assert Took(start, s, 5);
      if stop < 6 { return; }
      count := DeleteGroupMembers(s);
      results := results[GroupMember := count];
    }

    method ProfileSteps(ghost start: Tables, s: Subject, stop: nat)
      requires Took(start, s, 6) && stop >= 6
      modifies this
      ensures Took(start, s, Least(stop, 9))
    {
      hide Step, CountAt;
      if stop < 7 { return; }
      SkippedSteps(db, s);
      if s.teacher.Some? {
        var count := ClearSubjectTeacher(s);
        results := results[SubjectTeacher := count];
      }
      assert Took(start, s, 7);
      if stop < 8 { return; }
      SkippedSteps(db, s);
      if s.student.Some? { DeleteStudentProfile(s); }
      results := results[StudentProfile := if s.student.Some? then 1 else 0];
      assert Took(start, s, 8);
      if stop < 9 { return; }
      SkippedSteps(db, s);
      if s.teacher.Some? { DeleteTeacherProfile(s); }
      results := results[TeacherProfile := if s.teacher.Some? then 1 else 0];
    }

    method LastSteps(ghost start: Tables, s: Subject, stop: nat)
      requires Took(start, s, 9) && 9 <= stop <= 12 && s.user in db.users
      modifies this
      ensures Took(start, s, stop)
    {
      hide Step, CountAt;
      if stop < 10 { return; }
      var count := DeleteAuthSessions(s);
      results := results[AuthSession := count];
      assert Took(start, s, 10);
      if stop < 11 { return; }
      count := DeleteActionTokens(s);
      results := results[ActionToken := count];
      assert Took(start, s, 11);
      if stop < 12 { return; }
      StepsAreUsers(start, s, 9);
      StepsAreUsers(start, s, 11);
      SkippedSteps(db, s);
      AnonymizeUser(s);
      results := results[UserRow := 1];
    }

    /** An attempt of which the first `stop` steps succeed. */
    method Execute(u: UserId, stop: nat)
      requires u in db.users && stop <= 12 && results == map[]
      modifies this
      ensures db == Attempt(old(db), u, stop) && results == Entries(old(db), SubjectOf(old(db), u), stop)
    {
      hide Step, Entries;
      var s := SubjectOf(db, u);
      ghost var start := db;
      NothingEntered(start, s);
      FirstSteps(start, s, stop);
      if stop <= 6 { return; }
      ProfileSteps(start, s, stop);
      if stop <= 9 { return; }
      StepsAreUsers(start, s, 9);
      LastSteps(start, s, stop);
    }
  }

  lemma NothingEntered(db: Tables, s: Subject)
    ensures Entries(db, s, 0) == map[] && Steps(db, s, 0) == db
  {
  }

  // The steps that do nothing: the look-up, and those of a profile that the user does not have.
  lemma SkippedSteps(db: Tables, s: Subject)
    ensures Step(db, s, 4) == db && CountAt(db, s, 12) == 1
    ensures s.student.None? ==> Step(db, s, 5) == db && CountAt(db, s, 5) == 0 && Step(db, s, 8) == db
    ensures s.teacher.None? ==> Step(db, s, 7) == db && Step(db, s, 9) == db
    ensures CountAt(db, s, 8) == (if s.student.Some? then 1 else 0)
            && CountAt(db, s, 9) == (if s.teacher.Some? then 1 else 0)
  {
  }
}
