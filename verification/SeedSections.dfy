/** When a section counts as seed data: by its own label, or because everything linked to it does. */
module SeedSections {

  datatype RelationCount = RelationCount(demo: nat, live: nat)

  datatype RelationKind = DemoOnly | Mixed | RealOnly | Unlinked

  datatype Links<Id> = Links(students: seq<Id>, enrollmentStudents: seq<Id>, enrollmentSubjects: seq<Id>,
                             groups: seq<Id>, sectionSubjects: seq<Id>)

  datatype Evaluation = Evaluation(qualifies: bool, hasSeedLinks: bool, kind: RelationKind, counts: seq<RelationCount>)

  predicate AllIn<Id(==)>(values: seq<Id>, seeds: set<Id>) { forall v | v in values :: v in seeds }

  predicate SomeIn<Id(==)>(values: seq<Id>, seeds: set<Id>) { exists v | v in values :: v in seeds }

  method CountMembership<Id(==)>(values: seq<Id>, seeds: set<Id>) returns (c: RelationCount)
    ensures c.demo + c.live == |values|
    ensures c.live == 0 <==> AllIn(values, seeds)
    ensures c.demo > 0 <==> SomeIn(values, seeds)
  {
    c := RelationCount(0, 0);
    for i := 0 to |values|
      invariant c.demo + c.live == i
      invariant c.live == 0 <==> AllIn(values[..i], seeds)
      invariant c.demo > 0 <==> SomeIn(values[..i], seeds)
    {
      assert values[..i + 1] == values[..i] + [values[i]];
      assert values[i] in values[..i + 1];
      if values[i] in seeds {
        c := c.(demo := c.demo + 1);
      } else {
        c := c.(live := c.live + 1);
      }
    }
    assert values[..|values|] == values;
  }

  predicate AllSeed<Id(==)>(l: Links<Id>, students: set<Id>, subjects: set<Id>, groups: set<Id>) {
    && AllIn(l.students, students) && AllIn(l.enrollmentStudents, students) && AllIn(l.enrollmentSubjects, subjects)
    && AllIn(l.groups, groups) && AllIn(l.sectionSubjects, subjects)
  }

  predicate SomeSeed<Id(==)>(l: Links<Id>, students: set<Id>, subjects: set<Id>, groups: set<Id>) {
    || SomeIn(l.students, students) || SomeIn(l.enrollmentStudents, students) || SomeIn(l.enrollmentSubjects, subjects)
    || SomeIn(l.groups, groups) || SomeIn(l.sectionSubjects, subjects)
  }

  /** The counts decide it: a section without a label of its own qualifies exactly when it is linked
      to seed data and to nothing else. */
  method Evaluate<Id(==)>(labelled: bool, l: Links<Id>, students: set<Id>, subjects: set<Id>, groups: set<Id>)
    returns (e: Evaluation)
    ensures e.qualifies <==>
              labelled || (SomeSeed(l, students, subjects, groups) && AllSeed(l, students, subjects, groups))
    ensures e.hasSeedLinks <==> SomeSeed(l, students, subjects, groups)
    ensures e.kind == if SomeSeed(l, students, subjects, groups)
                      then (if AllSeed(l, students, subjects, groups) then DemoOnly else Mixed)
                      else (if AllSeed(l, students, subjects, groups) then Unlinked else RealOnly)
  {
    hide AllIn, SomeIn;
    var a := CountMembership(l.students, students);
    var b := CountMembership(l.enrollmentStudents, students);
    var c := CountMembership(l.enrollmentSubjects, subjects);
    var d := CountMembership(l.groups, groups);
    var f := CountMembership(l.sectionSubjects, subjects);
    var demo := a.demo + b.demo + c.demo + d.demo + f.demo;
    var live := a.live + b.live + c.live + d.live + f.live;
    var kind := if demo > 0 then (if live > 0 then Mixed else DemoOnly) else (if live > 0 then RealOnly else Unlinked);
    e := Evaluation(labelled || (demo > 0 && live == 0), demo > 0, kind, [a, b, c, d, f]);
  }
}
