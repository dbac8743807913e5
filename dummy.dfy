/** `createDummyGradebook`: a fixed gradebook for testing, in which everyone
    has the same name and every grade is the same. */
module DummyGenerator {
  import opened Common
  import opened Text
  import opened GradebookSchema

  const DummyName: string := "Student, Alfred"

  /** "Assignment 0", "Assignment 1", ...: no two are the same. */
  lemma AssignmentNamesDistinct(i: nat, j: nat)
    requires i != j
    ensures "Assignment " + NatToDecimal(i) != "Assignment " + NatToDecimal(j)
  {
    if "Assignment " + NatToDecimal(i) == "Assignment " + NatToDecimal(j) {
      PrefixCancel("Assignment ", NatToDecimal(i), NatToDecimal(j));
      DecimalInjective(i, j);
    }
  }

  method CreateDummyGradebook(nstudents: int := 5, nassign: int := 5, npost: int := 3) returns (gb: Gradebook)
    ensures |gb.assignments| == RangeLength(nassign)
    ensures forall a :: 0 <= a < |gb.assignments| ==> gb.assignments[a] == "Assignment " + NatToDecimal(a)
    ensures |gb.students| == RangeLength(nstudents)
    ensures forall s :: 0 <= s < |gb.students| ==>
      gb.students[s].sortableName == DummyName && gb.students[s].id == 1000 + s
    ensures forall s, t :: 0 <= s < t < |gb.students| ==> gb.students[s].id < gb.students[t].id
    ensures WellFormed(gb)
    ensures forall s, a :: 0 <= s < |gb.students| && 0 <= a < |gb.students[s].grades| ==>
      gb.students[s].grades[a].score == 50 && gb.students[s].grades[a].late == 0 &&
      |gb.students[s].grades[a].posts| == RangeLength(npost)
    ensures forall s, a, p ::
      (0 <= s < |gb.students| && 0 <= a < |gb.students[s].grades| && 0 <= p < |gb.students[s].grades[a].posts|) ==>
      gb.students[s].grades[a].posts[p] == Post(500, 1)
  {
    var posts := seq(RangeLength(npost), p => Post(500, 1));
    var students: seq<Student> := [];
    for st := 0 to RangeLength(nstudents)
      invariant |students| == st
      invariant forall s :: 0 <= s < st ==>
        students[s].sortableName == DummyName && students[s].id == 1000 + s &&
        |students[s].grades| == RangeLength(nassign)
      invariant forall s, a :: 0 <= s < st && 0 <= a < |students[s].grades| ==>
        students[s].grades[a] == Grade(50, 0, posts)
    {
      var assigns: seq<Grade> := [];
      for na := 0 to RangeLength(nassign)
        invariant |assigns| == na
        invariant forall a :: 0 <= a < na ==> assigns[a] == Grade(50, 0, posts)
      {
        assigns := assigns + [Grade(50, 0, posts)];
      }
      students := students + [Student(DummyName, 1000 + st, assigns)];
    }
    gb := Gradebook(seq(RangeLength(nassign), i requires 0 <= i => "Assignment " + NatToDecimal(i)), students);
  }
}
