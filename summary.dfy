/** `gradebookSimple`: for each student, the average of the scores left after
    dropping the two lowest, how many grades were at least four hours late,
    and the name cut and right-aligned to thirty characters. */
module Summary {
  import opened Common
  import opened GradebookSchema
  import Sorting

  /** The order `list.sort()` uses on integers. */
  predicate IntLe(a: int, b: int)
  {
    a <= b
  }

  lemma IntLeIsTotalOrder()
    ensures Sorting.IsTotalOrder(IntLe)
  {
  }

  // ------------------------------------------------------------ scores

  /** Line 36: the score of every grade, in assignment order. */
  function Scores(grades: seq<Grade>): (r: seq<int>)
    ensures |r| == |grades|
    ensures forall i :: 0 <= i < |r| ==> r[i] == grades[i].score
  {
    seq(|grades|, i requires 0 <= i < |grades| => grades[i].score)
  }

  /** Line 38: the scores in ascending order. */
  function SortedScores(scores: seq<int>): (r: seq<int>)
    ensures Sorting.Sorted(r, IntLe)
    ensures multiset(r) == multiset(scores)
  {
    IntLeIsTotalOrder();
    Sorting.Sort(scores, IntLe)
  }

  /** Line 39: `scores[2:]` after the sort: all but two scores, ascending. */
  function KeptScores(scores: seq<int>): (kept: seq<int>)
    ensures |kept| == Max(0, |scores| - 2)
    ensures Sorting.Sorted(kept, IntLe)
  {
    var sorted := SortedScores(scores);
    assert |sorted| == |multiset(sorted)| == |scores|;
    forall i, j | 0 <= i < j < |SliceFrom(sorted, 2)|
      ensures SliceFrom(sorted, 2)[i] <= SliceFrom(sorted, 2)[j]
    {
      Sorting.SortedAt(sorted, IntLe, 2 + i, 2 + j);
    }
    SliceFrom(sorted, 2)
  }

  /** What line 39 discards: the first two sorted scores. */
  function DroppedScores(scores: seq<int>): seq<int>
  {
    SliceTo(SortedScores(scores), 2)
  }

  /** The two lowest scores are dropped: all but two remain (none when there
      are two or fewer), kept and dropped together are the original scores,
      no dropped score is above a kept one, and the kept ones ascend. */
  lemma KeptScoresFacts(scores: seq<int>)
    ensures |KeptScores(scores)| == Max(0, |scores| - 2)
    ensures |DroppedScores(scores)| == Min(2, |scores|)
    ensures multiset(KeptScores(scores)) + multiset(DroppedScores(scores)) == multiset(scores)
    ensures forall i, j :: 0 <= i < |DroppedScores(scores)| && 0 <= j < |KeptScores(scores)| ==>
      DroppedScores(scores)[i] <= KeptScores(scores)[j]
    ensures forall i, j :: 0 <= i < j < |KeptScores(scores)| ==> KeptScores(scores)[i] <= KeptScores(scores)[j]
  {
    var sorted := SortedScores(scores);
    var kept := KeptScores(scores);
    var dropped := DroppedScores(scores);
    assert |sorted| == |multiset(sorted)| == |scores|;
    SliceSplit(sorted, 2);
    forall i, j | 0 <= i < |dropped| && 0 <= j < |kept|
      ensures dropped[i] <= kept[j]
    {
      Sorting.SortedAt(sorted, IntLe, i, |dropped| + j);
    }
    forall i, j | 0 <= i < j < |kept|
      ensures kept[i] <= kept[j]
    {
      Sorting.SortedAt(sorted, IntLe, 2 + i, 2 + j);
    }
  }

  /** The kept scores depend only on which scores there are, not on their order. */
  lemma KeptScoresOrderFree(s: seq<int>, t: seq<int>)
    requires multiset(s) == multiset(t)
    ensures KeptScores(s) == KeptScores(t)
  {
    IntLeIsTotalOrder();
    Sorting.SortedUnique(SortedScores(s), SortedScores(t), IntLe);
  }

  lemma ScoresAppend(a: seq<Grade>, b: seq<Grade>)
    ensures Scores(a + b) == Scores(a) + Scores(b)
  {
  }

  /** Rearranging the grades rearranges their scores. */
  lemma {:induction false} ScoresPermutation(g: seq<Grade>, h: seq<Grade>)
    requires multiset(g) == multiset(h)
    ensures multiset(Scores(g)) == multiset(Scores(h))
    decreases |g|
  {
    if |g| == 0 {
      assert |h| == |multiset(h)| == 0;
    } else {
      var x := g[0];
      assert x in multiset(h);
      var i :| 0 <= i < |h| && h[i] == x;
      var rest := h[..i] + h[i + 1..];
      assert h == h[..i] + [x] + h[i + 1..];
      assert g == [x] + g[1..];
      assert multiset(g) == multiset{x} + multiset(g[1..]);
      assert multiset(h) == multiset(h[..i]) + multiset{x} + multiset(h[i + 1..]);
      assert multiset(rest) == multiset(h[..i]) + multiset(h[i + 1..]);
      assert multiset(g[1..]) == multiset(g) - multiset{x};
      assert multiset(rest) == multiset(h) - multiset{x};
      ScoresPermutation(g[1..], rest);
      ScoresAppend([x], g[1..]);
      ScoresAppend(h[..i] + [x], h[i + 1..]);
      ScoresAppend(h[..i], [x]);
      ScoresAppend(h[..i], h[i + 1..]);
    }
  }

  /** The retained scores, and so the average, do not depend on the order
      of the grades. */
  lemma KeptScoresGradeOrderFree(g: seq<Grade>, h: seq<Grade>)
    requires multiset(g) == multiset(h)
    ensures KeptScores(Scores(g)) == KeptScores(Scores(h))
    ensures Mean(KeptScores(Scores(g))) == Mean(KeptScores(Scores(h)))
  {
    ScoresPermutation(g, h);
    KeptScoresOrderFree(Scores(g), Scores(h));
  }

  // -------------------------------------------------------------- mean

  function Sum(s: seq<int>): int
  {
    if |s| == 0 then 0 else Sum(s[..|s| - 1]) + s[|s| - 1]
  }

  /** `numpy.mean` as an exact quotient; undefined for no scores. */
  function Mean(kept: seq<int>): (m: Option<real>)
    ensures m.None? <==> |kept| == 0
    ensures m.Some? ==> m.value * |kept| as real == Sum(kept) as real
  {
    if |kept| == 0 then None else Some(Sum(kept) as real / |kept| as real)
  }

  lemma {:induction false} SumBounds(s: seq<int>, lo: int, hi: int)
    requires forall i :: 0 <= i < |s| ==> lo <= s[i] <= hi
    ensures |s| * lo <= Sum(s) <= |s| * hi
  {
    if |s| > 0 {
      var init := s[..|s| - 1];
      SumBounds(init, lo, hi);
      assert Sum(s) == Sum(init) + s[|s| - 1];
      assert |s| * lo == |init| * lo + lo && |s| * hi == |init| * hi + hi;
    }
  }

  /** The average lies between the smallest and the largest value averaged. */
  lemma MeanBounds(kept: seq<int>, lo: int, hi: int)
    requires |kept| > 0
    requires forall i :: 0 <= i < |kept| ==> lo <= kept[i] <= hi
    ensures lo as real <= Mean(kept).value <= hi as real
  {
    SumBounds(kept, lo, hi);
    QuotientBounds(Sum(kept), |kept|, lo, hi);
  }

  lemma QuotientBounds(sum: int, n: int, lo: int, hi: int)
    requires n > 0 && n * lo <= sum <= n * hi
    ensures lo as real <= sum as real / n as real <= hi as real
  {
    var q := sum as real / n as real;
    assert (sum - n * lo) as real / n as real >= 0.0;
    assert (n * hi - sum) as real / n as real >= 0.0;
    assert q - lo as real == (sum - n * lo) as real / n as real;
    assert hi as real - q == (n * hi - sum) as real / n as real;
  }

  /** With two grades or fewer nothing is left to average. */
  lemma MeanUndefinedForFewGrades(grades: seq<Grade>)
    ensures Mean(KeptScores(Scores(grades))).None? <==> |grades| <= 2
  {
    KeptScoresFacts(Scores(grades));
  }

  /** Knowing the scores in ascending order is enough to know what is kept. */
  lemma KeptFromSorted(scores: seq<int>, sorted: seq<int>)
    requires Sorting.Sorted(sorted, IntLe)
    requires multiset(sorted) == multiset(scores)
    ensures KeptScores(scores) == SliceFrom(sorted, 2)
  {
    IntLeIsTotalOrder();
    Sorting.SortedUnique(SortedScores(scores), sorted, IntLe);
  }

  lemma MeanOfThree(a: int, b: int, c: int)
    ensures Mean([a, b, c]) == Some((a + b + c) as real / 3.0)
  {
    assert [a, b, c][..2] == [a, b];
    assert [a, b][..1] == [a];
    assert [a][..0] == [];
    assert Sum([a]) == a;
    assert Sum([a, b]) == a + b;
    assert Sum([a, b, c]) == a + b + c;
  }

  /** Five scores 90, 80, 70, 60, 50: the two lowest, 50 and 60, are dropped. */
  lemma FiveScoresKept(scores: seq<int>)
    requires scores == [90, 80, 70, 60, 50]
    ensures KeptScores(scores) == [70, 80, 90]
  {
    var sorted := [50, 60, 70, 80, 90];
    FiveScoresSorted(scores, sorted);
    KeptFromSorted(scores, sorted);
  }

  lemma FiveScoresSorted(scores: seq<int>, sorted: seq<int>)
    requires scores == [90, 80, 70, 60, 50] && sorted == [50, 60, 70, 80, 90]
    ensures Sorting.Sorted(sorted, IntLe)
    ensures multiset(sorted) == multiset(scores)
    ensures SliceFrom(sorted, 2) == [70, 80, 90]
  {
    AscendingFive(sorted);
    SameFive(scores, sorted);
    assert sorted[2..] == [70, 80, 90];
  }

  lemma AscendingFive(sorted: seq<int>)
    requires sorted == [50, 60, 70, 80, 90]
    ensures Sorting.Sorted(sorted, IntLe)
  {
  }

  lemma SameFive(scores: seq<int>, sorted: seq<int>)
    requires scores == [90, 80, 70, 60, 50] && sorted == [50, 60, 70, 80, 90]
    ensures multiset(sorted) == multiset(scores)
  {
  }

  /** ... and the average of the rest is 80. */
  lemma FiveScoresMean(scores: seq<int>)
    requires scores == [90, 80, 70, 60, 50]
    ensures Mean(KeptScores(scores)) == Some(80.0)
  {
    FiveScoresKept(scores);
    MeanOfThree(70, 80, 90);
  }

  // -------------------------------------------------------------- lates

  /** Line 42: the lateness of every grade at least four hours late, in order. */
  function Lates(grades: seq<Grade>): (r: seq<int>)
    ensures |r| <= |grades|
    ensures forall i :: 0 <= i < |r| ==> r[i] >= 4
  {
    if |grades| == 0 then []
    else
      var last := grades[|grades| - 1];
      Lates(grades[..|grades| - 1]) + (if last.late >= 4 then [last.late] else [])
  }

  /** The positions of the grades that count as late. */
  function LateIndices(grades: seq<Grade>): set<nat>
  {
    set i: nat | i < |grades| && grades[i].late >= 4
  }

  /** `len(lates)` counts exactly the grades with `late >= 4`: four hours
      counts, three hours and early hand-ins do not. */
  lemma {:induction false} LateCountIsLateGrades(grades: seq<Grade>)
    ensures |Lates(grades)| == |LateIndices(grades)|
  {
    if |grades| > 0 {
      var n := |grades| - 1;
      var front := grades[..n];
      LateCountIsLateGrades(front);
      if grades[n].late >= 4 {
        assert LateIndices(grades) == LateIndices(front) + {n};
      } else {
        assert LateIndices(grades) == LateIndices(front);
      }
    }
  }

  // -------------------------------------------------------------- names

  function Spaces(n: nat): (r: string)
    ensures |r| == n && forall i :: 0 <= i < n ==> r[i] == ' '
  {
    seq(n, i => ' ')
  }

  /** Line 45: `"{:>30}".format(name[:30])`: the first thirty characters at
      most, padded on the left with spaces to exactly thirty. */
  function DisplayName(name: string): (r: string)
    ensures |r| == 30
    ensures r[30 - Min(30, |name|)..] == name[..Min(30, |name|)]
    ensures forall i :: 0 <= i < 30 - Min(30, |name|) ==> r[i] == ' '
  {
    var cut := SliceTo(name, 30);
    Spaces(30 - |cut|) + cut
  }

  // ------------------------------------------------------------ students

  /** One printed line: name, average of the kept scores, late count and
      number of assignments. */
  datatype StudentLine = StudentLine(name: string, mean: Option<real>, lateCount: nat, numAssigns: nat)

  function SummarizeStudent(st: Student, numAssigns: nat): (line: StudentLine)
    ensures |line.name| == 30
    ensures line.mean.None? <==> |st.grades| <= 2
    ensures line.lateCount == |LateIndices(st.grades)| <= |st.grades|
    ensures line.numAssigns == numAssigns
  {
    MeanUndefinedForFewGrades(st.grades);
    LateCountIsLateGrades(st.grades);
    StudentLine(DisplayName(st.sortableName), Mean(KeptScores(Scores(st.grades))),
                |Lates(st.grades)|, numAssigns)
  }

  /** Lines 31-45: one line per student, in order. A student with a grade for
      every assignment is never late more often than there are assignments. */
  method GradebookSimple(gb: Gradebook) returns (lines: seq<StudentLine>)
    ensures |lines| == |gb.students|
    ensures forall s :: 0 <= s < |lines| ==> lines[s] == SummarizeStudent(gb.students[s], |gb.assignments|)
    ensures Aligned(gb) ==> forall s :: 0 <= s < |lines| ==> lines[s].lateCount <= lines[s].numAssigns
  {
    var numAssigns := |gb.assignments|;
    lines := [];
    for s := 0 to |gb.students|
      invariant |lines| == s
      invariant forall t {:trigger lines[t]} :: 0 <= t < s ==> lines[t] == SummarizeStudent(gb.students[t], numAssigns)
    {
      var line := SummarizeOne(gb.students[s], numAssigns);
      lines := lines + [line];
    }
  }

  /** Lines 36-45 for one student: sort the scores, drop two, collect the lates. */
  method SummarizeOne(student: Student, numAssigns: nat) returns (line: StudentLine)
    ensures line == SummarizeStudent(student, numAssigns)
  {
    var scores := Scores(student.grades);
    scores := SortedScores(scores);
    scores := SliceFrom(scores, 2);
    var lates := Lates(student.grades);
    line := StudentLine(DisplayName(student.sortableName), Mean(scores), |lates|, numAssigns);
  }
}
