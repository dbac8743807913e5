/** `randomGradebook`: a synthetic cohort. Every value the original draws from
    `random` is supplied by the caller here, and the `requires` clauses say
    which values `random.randint`, `random.choice` and `random.random` can
    return; what is proved holds for every such outcome. */
module RandomGenerator {
  import opened Common
  import opened Text
  import Sorting
  import opened GradebookSchema

  // ------------------------------------------------------------ randomRange

  /** An inclusive range `(low, high)` as passed to `random.randint`. */
  datatype Span = Span(lo: int, hi: int)

  predicate InSpan(x: int, sp: Span)
  {
    sp.lo <= x <= sp.hi
  }

  /** The two `random.randint` results `randomRange` draws. */
  datatype DrawPair = DrawPair(first: int, second: int)

  predicate PairIn(d: DrawPair, sp: Span)
  {
    InSpan(d.first, sp) && InSpan(d.second, sp)
  }

  /** `randomRange(range, good)`: the larger of the two draws for a good
      student, the smaller for a weak one. */
  function RandomRange(sp: Span, good: bool, d: DrawPair): (r: int)
    requires PairIn(d, sp)
    ensures InSpan(r, sp)
    ensures r == d.first || r == d.second
    ensures good ==> r >= d.first && r >= d.second
    ensures !good ==> r <= d.first && r <= d.second
  {
    if good then Max(d.first, d.second) else Min(d.first, d.second)
  }

  /** With the same two draws a good student never does worse than a weak one. */
  lemma GoodNotBelowWeak(sp: Span, d: DrawPair)
    requires PairIn(d, sp)
    ensures RandomRange(sp, true, d) >= RandomRange(sp, false, d)
    ensures RandomRange(sp, true, d) + RandomRange(sp, false, d) == d.first + d.second
  {
  }

  // ---------------------------------------------------- assignment profiles

  const PostCountMenu: seq<Span> := [Span(1, 1), Span(1, 3), Span(1, 5), Span(2, 5)]
  const FirstLengthMenu: seq<Span> := [Span(200, 800), Span(700, 1300), Span(700, 1300), Span(1000, 2500)]
  const LaterLengthMenu: seq<Span> := [Span(100, 200), Span(100, 300), Span(200, 400)]
  const FirstImagesMenu: seq<Span> := [Span(0, 1), Span(0, 2), Span(1, 2)]

  /** What is "normal" for one assignment: how many posts, how long the first
      and the later ones are, and how many images the first one has. */
  datatype Profile = Profile(postCount: Span, firstLength: Span, laterLength: Span, firstImages: Span)

  /** The menu positions the four `random.choice` calls picked. */
  datatype ProfileChoice = ProfileChoice(postCount: nat, firstLength: nat, laterLength: nat, firstImages: nat)

  predicate ValidChoice(c: ProfileChoice)
  {
    c.postCount < |PostCountMenu| && c.firstLength < |FirstLengthMenu| &&
    c.laterLength < |LaterLengthMenu| && c.firstImages < |FirstImagesMenu|
  }

  predicate FromMenus(p: Profile)
  {
    p.postCount in PostCountMenu && p.firstLength in FirstLengthMenu &&
    p.laterLength in LaterLengthMenu && p.firstImages in FirstImagesMenu
  }

  function ProfileOf(c: ProfileChoice): (p: Profile)
    requires ValidChoice(c)
    ensures FromMenus(p)
  {
    Profile(PostCountMenu[c.postCount], FirstLengthMenu[c.firstLength],
            LaterLengthMenu[c.laterLength], FirstImagesMenu[c.firstImages])
  }

  /** `assignDescript`: one profile per assignment, in assignment order. */
  function Profiles(choices: seq<ProfileChoice>): (ps: seq<Profile>)
    requires forall k :: 0 <= k < |choices| ==> ValidChoice(choices[k])
    ensures |ps| == |choices|
    ensures forall k :: 0 <= k < |ps| ==> FromMenus(ps[k])
  {
    seq(|choices|, k requires 0 <= k < |choices| => ProfileOf(choices[k]))
  }

  /** Every menu range is non-empty, posts number 1 to 5, images 0 to 2. */
  lemma MenuBounds(p: Profile)
    requires FromMenus(p)
    ensures 1 <= p.postCount.lo <= p.postCount.hi <= 5
    ensures 200 <= p.firstLength.lo <= p.firstLength.hi <= 2500
    ensures 100 <= p.laterLength.lo <= p.laterLength.hi <= 400
    ensures 0 <= p.firstImages.lo <= p.firstImages.hi <= 2
  {
  }

  // ------------------------------------------------------------- one grade

  /** `random.choice([True, True, False])`. */
  const GoodMenu: seq<bool> := [true, true, false]

  function ScoreMenu(good: bool): seq<int>
  {
    if good then [50, 50, 50, 40, 40, 30] else [40, 40, 30, 30, 20]
  }

  /** The distinct scores a student can be given before any late penalty. */
  function BaseScores(good: bool): set<int>
  {
    if good then {50, 40, 30} else {40, 30, 20}
  }

  lemma ScoreMenuValues(good: bool, i: nat)
    requires i < |ScoreMenu(good)|
    ensures ScoreMenu(good)[i] in BaseScores(good)
  {
  }

  /** Everything drawn for one grade: the score's menu position, the
      `random.random()` value deciding lateness, the hours, and the pairs
      behind each `randomRange` call. */
  datatype GradeDraws = GradeDraws(
    scoreChoice: nat, lateRoll: real, lateness: int,
    firstLength: DrawPair, firstImages: DrawPair, postCount: DrawPair,
    laterLengths: seq<DrawPair>)

  /** The draws the random source can produce for a grade under profile `p`;
      one subsequent-post pair for each pass of the loop at line 137. */
  predicate ValidGradeDraws(p: Profile, good: bool, d: GradeDraws)
  {
    d.scoreChoice < |ScoreMenu(good)| &&
    0.0 <= d.lateRoll < 1.0 &&
    (if d.lateRoll < 0.25 then 4 <= d.lateness <= 72 else -48 <= d.lateness <= -4) &&
    PairIn(d.firstLength, p.firstLength) && PairIn(d.firstImages, p.firstImages) &&
    PairIn(d.postCount, p.postCount) &&
    |d.laterLengths| == RangeLength(RandomRange(p.postCount, good, d.postCount) - 1) &&
    forall i :: 0 <= i < |d.laterLengths| ==> PairIn(d.laterLengths[i], p.laterLength)
  }

  /** The grade the loop body builds from draws `d`. */
  predicate GradeDrawnFrom(g: Grade, p: Profile, good: bool, d: GradeDraws)
    requires ValidGradeDraws(p, good, d)
  {
    g.late == d.lateness &&
    g.score == ScoreMenu(good)[d.scoreChoice] - (if d.lateness > 12 then 5 else 0) &&
    |g.posts| == 1 + |d.laterLengths| &&
    g.posts[0] == Post(RandomRange(p.firstLength, good, d.firstLength),
                       RandomRange(p.firstImages, good, d.firstImages)) &&
    forall i :: 0 <= i < |d.laterLengths| ==>
      g.posts[i + 1] == Post(RandomRange(p.laterLength, good, d.laterLengths[i]), 0)
  }

  /** What holds of a synthetic grade whatever was drawn. */
  predicate PlausibleGrade(g: Grade, p: Profile, good: bool)
  {
    (4 <= g.late <= 72 || -48 <= g.late <= -4) &&
    (g.score + (if g.late > 12 then 5 else 0)) in BaseScores(good) &&
    |g.posts| >= 1 && InSpan(|g.posts|, p.postCount) &&
    InSpan(g.posts[0].length, p.firstLength) && InSpan(g.posts[0].images, p.firstImages) &&
    forall i :: 1 <= i < |g.posts| ==> g.posts[i].images == 0 && InSpan(g.posts[i].length, p.laterLength)
  }

  /** Lines 131-139: score, lateness with its penalty, then the posts. */
  method GenerateGrade(p: Profile, good: bool, d: GradeDraws) returns (g: Grade)
    requires FromMenus(p)
    requires ValidGradeDraws(p, good, d)
    ensures GradeDrawnFrom(g, p, good, d)
    ensures PlausibleGrade(g, p, good)
    ensures d.lateRoll < 0.25 ==> 4 <= g.late <= 72
    ensures d.lateRoll >= 0.25 ==> -48 <= g.late <= -4
    ensures g.late > 12 ==> g.score == ScoreMenu(good)[d.scoreChoice] - 5
    ensures g.late <= 12 ==> g.score == ScoreMenu(good)[d.scoreChoice]
    ensures |g.posts| == RandomRange(p.postCount, good, d.postCount)
    ensures 1 <= |g.posts| <= 5
  {
    MenuBounds(p);
    var score := ScoreMenu(good)[d.scoreChoice];
    // late is `d.lateRoll < 0.25`; `d.lateness` is the randint for that case
    var lateness := d.lateness;
    if lateness > 12 {
      score := score - 5;
    }
    var posts := [Post(RandomRange(p.firstLength, good, d.firstLength),
                       RandomRange(p.firstImages, good, d.firstImages))];
    var count := RandomRange(p.postCount, good, d.postCount);
    for i := 0 to RangeLength(count - 1)
      invariant |posts| == 1 + i
      invariant posts[0] == Post(RandomRange(p.firstLength, good, d.firstLength),
                                 RandomRange(p.firstImages, good, d.firstImages))
      invariant forall k :: 0 <= k < i ==>
        posts[k + 1] == Post(RandomRange(p.laterLength, good, d.laterLengths[k]), 0)
    {
      posts := posts + [Post(RandomRange(p.laterLength, good, d.laterLengths[i]), 0)];
    }
    g := Grade(score, lateness, posts);
    ScoreMenuValues(good, d.scoreChoice);
    forall i | 1 <= i < |posts|
      ensures posts[i].images == 0 && InSpan(posts[i].length, p.laterLength)
    {
      assert posts[(i - 1) + 1] == Post(RandomRange(p.laterLength, good, d.laterLengths[i - 1]), 0);
    }
  }

  // ---------------------------------------------------------------- names

  /** One line of the name list, as lines 99-100 treat it: split on single
      spaces, and when there are at least two pieces, "second, first". The
      newline that ends the line stays on the last piece. */
  function SortableName(line: string): (r: Option<string>)
    ensures r.Some? <==> ' ' in line
  {
    var t := SplitOnSpace(line);
    SplitMoreThanOne(line);
    if |t| > 1 then Some(t[1] + ", " + t[0]) else None
  }

  /** "First Last" becomes "Last, First"; any third piece is dropped. */
  lemma {:induction false} SortableNameOf(first: string, last: string, rest: string)
    requires ' ' !in first && ' ' !in last
    ensures SortableName(first + " " + last) == Some(last + ", " + first)
    ensures SortableName(first + " " + last + " " + rest) == Some(last + ", " + first)
  {
    SplitAtFirstSpace(first, last);
    SplitNoSpace(last);
    SplitAtFirstSpace(first, last + " " + rest);
    SplitAtFirstSpace(last, rest);
    assert first + " " + last + " " + rest == first + " " + (last + " " + rest);
  }

  /** A name line read from a file keeps its newline on the surname. */
  lemma NewlineStaysOnSurname()
    ensures SortableName("Ada Lovelace\n") == Some("Lovelace\n, Ada")
    ensures SortableName("Plato\n") == None
  {
    SortableNameOf("Ada", "Lovelace\n", "");
    assert "Ada" + " " + "Lovelace\n" == "Ada Lovelace\n";
    assert "Lovelace\n" + ", " + "Ada" == "Lovelace\n, Ada";
    assert forall i :: 0 <= i < |"Plato\n"| ==> "Plato\n"[i] != ' ';
  }

  /** The list comprehension of line 100: the usable lines, in file order. */
  function SortableNames(lines: seq<string>): (r: seq<string>)
    ensures |r| <= |lines|
    ensures forall k :: 0 <= k < |r| ==> exists i :: 0 <= i < |lines| && SortableName(lines[i]) == Some(r[k])
    ensures forall i :: 0 <= i < |lines| && ' ' in lines[i] ==> SortableName(lines[i]).value in r
  {
    if |lines| == 0 then []
    else
      var n := |lines| - 1;
      var front := SortableNames(lines[..n]);
      var last := match SortableName(lines[n]) case Some(x) => [x] case None => [];
      assert forall k :: 0 <= k < |front| ==> exists i :: 0 <= i < |lines| && SortableName(lines[i]) == Some(front[k]) by {
        forall k | 0 <= k < |front|
          ensures exists i :: 0 <= i < |lines| && SortableName(lines[i]) == Some(front[k])
        {
          var i :| 0 <= i < |lines[..n]| && SortableName(lines[..n][i]) == Some(front[k]);
          assert lines[..n][i] == lines[i];
        }
      }
      assert forall i :: 0 <= i < n && ' ' in lines[i] ==> SortableName(lines[i]).value in front by {
        forall i | 0 <= i < n && ' ' in lines[i]
          ensures SortableName(lines[i]).value in front
        {
          assert lines[..n][i] == lines[i];
        }
      }
      front + last
  }

  /** The positions of the lines that give a name: those holding a space. */
  function UsableLines(lines: seq<string>): set<nat>
  {
    set i: nat | i < |lines| && ' ' in lines[i]
  }

  /** One more line adds its name at the end exactly when it holds a space:
      the names keep the order of their lines. */
  lemma SortableNamesAppend(lines: seq<string>, line: string)
    ensures ' ' in line ==> SortableNames(lines + [line]) == SortableNames(lines) + [SortableName(line).value]
    ensures ' ' !in line ==> SortableNames(lines + [line]) == SortableNames(lines)
  {
    assert (lines + [line])[..|lines|] == lines;
  }

  /** The usable positions of `lines` are those of all but the last line,
      and the last one when it holds a space. */
  lemma UsableLinesStep(lines: seq<string>)
    requires |lines| > 0
    ensures ' ' in lines[|lines| - 1] ==>
      UsableLines(lines) == UsableLines(lines[..|lines| - 1]) + {|lines| - 1}
    ensures ' ' !in lines[|lines| - 1] ==>
      UsableLines(lines) == UsableLines(lines[..|lines| - 1])
  {
    var n := |lines| - 1;
    forall i: nat | i < n
      ensures lines[..n][i] == lines[i]
    {
    }
  }

  /** How many lines hold a space, counted line by line. */
  function SpacedLineCount(lines: seq<string>): nat
  {
    if |lines| == 0 then 0
    else SpacedLineCount(lines[..|lines| - 1]) + (if ' ' in lines[|lines| - 1] then 1 else 0)
  }

  lemma {:induction false} SortableNamesLength(lines: seq<string>)
    ensures |SortableNames(lines)| == SpacedLineCount(lines)
  {
    if |lines| > 0 {
      SortableNamesLength(lines[..|lines| - 1]);
    }
  }

  lemma {:induction false} SpacedLineCountIsUsable(lines: seq<string>)
    ensures SpacedLineCount(lines) == |UsableLines(lines)|
  {
    if |lines| > 0 {
      var n := |lines| - 1;
      var front := lines[..n];
      SpacedLineCountIsUsable(front);
      UsableLinesStep(lines);
      if ' ' in lines[n] {
        assert n !in UsableLines(front);
        assert |UsableLines(lines)| == |UsableLines(front)| + 1;
      }
    } else {
      assert UsableLines(lines) == {};
    }
  }

  /** There are exactly as many names as lines holding a space. */
  lemma SortableNamesCount(lines: seq<string>)
    ensures |SortableNames(lines)| == |UsableLines(lines)|
  {
    SortableNamesLength(lines);
    SpacedLineCountIsUsable(lines);
  }

  // ------------------------------------------------------------------ ids

  const IdLow: int := 1001
  const IdHigh: int := 8999

  /** The distinct values among `draws`. */
  function DrawnIds(draws: seq<int>): set<int>
  {
    set x | x in draws
  }

  /** A set of integers inside `[lo, hi]` has at most `hi - lo + 1` members. */
  lemma {:induction false} BoundedSetSize(s: set<int>, lo: int, hi: int)
    requires forall x :: x in s ==> lo <= x <= hi
    ensures |s| <= Max(0, hi - lo + 1)
    decreases hi - lo
  {
    if lo > hi {
      assert s == {} by {
        forall x | x in s ensures false { }
      }
    } else {
      BoundedSetSize(s - {hi}, lo, hi - 1);
      assert |s| <= |s - {hi}| + 1;
    }
  }

  /** One more draw adds its value to the set drawn so far. */
  lemma DrawnIdsStep(draws: seq<int>, k: nat)
    requires k < |draws|
    ensures DrawnIds(draws[..k + 1]) == DrawnIds(draws[..k]) + {draws[k]}
  {
    assert draws[..k + 1] == draws[..k] + [draws[k]];
  }

  /** The id loop of lines 108-110 can only finish when at most 7999 ids are
      wanted: there are no more distinct values in `[1001, 8999]`. */
  lemma IdLoopNeedsRoom(nstudents: int, draws: seq<int>)
    requires forall i :: 0 <= i < |draws| ==> IdLow <= draws[i] <= IdHigh
    requires nstudents <= |DrawnIds(draws)|
    ensures nstudents <= IdHigh - IdLow + 1
  {
    BoundedSetSize(DrawnIds(draws), IdLow, IdHigh);
  }

  /** Lines 108-110: keep adding `random.randint(1001, 8999)` results to a set
      until it holds `nstudents` values. `draws` are the results in order and
      must eventually hold that many distinct values. `used` is how many
      draws the loop consumed. */
  method DrawIds(nstudents: int, draws: seq<int>) returns (ids: set<int>, used: nat)
    requires forall i :: 0 <= i < |draws| ==> IdLow <= draws[i] <= IdHigh
    requires nstudents <= |DrawnIds(draws)|
    ensures used <= |draws| && ids == DrawnIds(draws[..used])
    ensures |ids| == RangeLength(nstudents)
    ensures forall x :: x in ids ==> IdLow <= x <= IdHigh
    ensures used > 0 ==> |DrawnIds(draws[..used - 1])| < nstudents
  {
    ids, used := {}, 0;
    while |ids| < nstudents
      invariant used <= |draws| && ids == DrawnIds(draws[..used])
      invariant |ids| <= RangeLength(nstudents)
      invariant used > 0 ==> |DrawnIds(draws[..used - 1])| < nstudents
      decreases |draws| - used
    {
      assert draws[..|draws|] == draws;
      assert used < |draws|;
      DrawnIdsStep(draws, used);
      ids := ids + {draws[used]};
      used := used + 1;
    }
  }

  predicate DistinctInts(l: seq<int>)
  {
    forall i, j :: 0 <= i < j < |l| ==> l[i] != l[j]
  }

  /** A set with a positive size has a member. */
  lemma HasMember(s: set<int>)
    requires |s| > 0
    ensures exists y :: y in s
  {
    if forall y :: y !in s {
      assert false;
    }
  }

  /** `list(ids)`: the members of the set, each once, in an order the
      language leaves unspecified. */
  method SetToList(s: set<int>) returns (l: seq<int>)
    ensures |l| == |s|
    ensures forall x :: x in l <==> x in s
    ensures DistinctInts(l)
  {
    l := [];
    var rest := s;
    ghost var seen: set<int> := {};
    while |rest| > 0
      invariant s == seen + rest && seen !! rest
      invariant forall i :: 0 <= i < |l| ==> l[i] in seen
      invariant forall x :: x in seen ==> x in l
      invariant |seen| == |l|
      invariant DistinctInts(l)
      decreases |rest|
    {
      HasMember(rest);
      var x :| x in rest;
      l := l + [x];
      seen := seen + {x};
      rest := rest - {x};
    }
  }

  // ------------------------------------------------------------ gradebook

  /** An integer `assigns` or an explicit list of assignment names. */
  datatype AssignmentSpec = Count(n: int) | Names(names: seq<string>)

  /** Lines 105-106: a count n becomes "Discussion 1" .. "Discussion n". */
  function AssignmentNames(spec: AssignmentSpec): (r: seq<string>)
    ensures spec.Names? ==> r == spec.names
    ensures spec.Count? ==> |r| == RangeLength(spec.n)
    ensures spec.Count? ==> forall i :: 0 <= i < |r| ==> r[i] == "Discussion " + NatToDecimal(i + 1)
  {
    match spec
    case Names(names) => names
    case Count(n) => seq(RangeLength(n), i requires 0 <= i => "Discussion " + NatToDecimal(i + 1))
  }

  /** Generated discussion names never repeat. */
  lemma DiscussionNamesDistinct(n: int, i: nat, j: nat)
    requires i < j < |AssignmentNames(Count(n))|
    ensures AssignmentNames(Count(n))[i] != AssignmentNames(Count(n))[j]
  {
    if AssignmentNames(Count(n))[i] == AssignmentNames(Count(n))[j] {
      PrefixCancel("Discussion ", NatToDecimal(i + 1), NatToDecimal(j + 1));
      DecimalInjective(i + 1, j + 1);
    }
  }

  /** The failure the original raises: `names[si]` at line 124 runs past
      the end of the name list. */
  datatype GeneratorError = NotEnoughNames

  /** The per-student draws: the `good` choice and one draw record per assignment. */
  datatype StudentDraws = StudentDraws(goodChoice: nat, grades: seq<GradeDraws>)

  predicate ValidStudentDraws(profiles: seq<Profile>, sd: StudentDraws)
  {
    sd.goodChoice < |GoodMenu| && |sd.grades| == |profiles| &&
    forall k :: 0 <= k < |profiles| ==> ValidGradeDraws(profiles[k], GoodMenu[sd.goodChoice], sd.grades[k])
  }

  function StudentNames(gb: Gradebook): (r: seq<string>)
    ensures |r| == |gb.students|
    ensures forall s :: 0 <= s < |r| ==> r[s] == gb.students[s].sortableName
  {
    seq(|gb.students|, s requires 0 <= s < |gb.students| => gb.students[s].sortableName)
  }

  /** Every grade of student `s` is what the draws make of it. */
  predicate GradesDrawn(grades: seq<Grade>, profiles: seq<Profile>, sd: StudentDraws)
    requires ValidStudentDraws(profiles, sd)
  {
    |grades| == |profiles| &&
    forall k :: 0 <= k < |grades| ==>
      GradeDrawnFrom(grades[k], profiles[k], GoodMenu[sd.goodChoice], sd.grades[k]) &&
      PlausibleGrade(grades[k], profiles[k], GoodMenu[sd.goodChoice])
  }

  /** Lines 129-139: one grade per assignment, in assignment order. */
  method GenerateGrades(profiles: seq<Profile>, sd: StudentDraws) returns (grades: seq<Grade>)
    requires forall k :: 0 <= k < |profiles| ==> FromMenus(profiles[k])
    requires ValidStudentDraws(profiles, sd)
    ensures GradesDrawn(grades, profiles, sd)
  {
    var good := GoodMenu[sd.goodChoice];
    grades := [];
    for k := 0 to |profiles|
      invariant |grades| == k
      invariant forall j :: 0 <= j < k ==>
        GradeDrawnFrom(grades[j], profiles[j], good, sd.grades[j]) &&
        PlausibleGrade(grades[j], profiles[j], good)
    {
      var g := GenerateGrade(profiles[k], good, sd.grades[k]);
      grades := grades + [g];
    }
  }

  /** Lines 102-103, after the shuffle: keep the first `nstudents` names
      and sort them. */
  function ChosenNames(shuffled: seq<string>, nstudents: int): (names: seq<string>)
    ensures Sorting.Sorted(names, LexLe)
    ensures multiset(names) == multiset(SliceTo(shuffled, nstudents))
  {
    LexLeIsTotalOrder();
    Sorting.Sort(SliceTo(shuffled, nstudents), LexLe)
  }

  /** When `shuffled` rearranges the usable lines, at most `nstudents` names
      are chosen, all of them from usable lines, and fewer only when the
      file has fewer. */
  lemma ChosenNamesFromLines(nameLines: seq<string>, shuffled: seq<string>, nstudents: int)
    requires multiset(shuffled) == multiset(SortableNames(nameLines))
    ensures nstudents >= 0 ==> |ChosenNames(shuffled, nstudents)| == Min(nstudents, |SortableNames(nameLines)|)
    ensures forall x :: x in ChosenNames(shuffled, nstudents) ==> x in SortableNames(nameLines)
  {
    var names := ChosenNames(shuffled, nstudents);
    var cut := SliceTo(shuffled, nstudents);
    SameElements(names, cut);
    SameElements(shuffled, SortableNames(nameLines));
    SliceToMembers(shuffled, nstudents);
  }

  /** Lines 123-140 for student `si`: the `si`-th name and id, and grades
      drawn for every assignment. */
  ghost predicate StudentMade(st: Student, name: string, id: int, profiles: seq<Profile>, sd: StudentDraws)
    requires ValidStudentDraws(profiles, sd)
  {
    st.sortableName == name && st.id == id && IdLow <= id <= IdHigh &&
    GradesDrawn(st.grades, profiles, sd)
  }

  /** Lines 122-140: student `si` takes the `si`-th name and id and draws a
      grade per assignment. Indexing past the end of the names (line 124)
      stops the loop with `ok` false. */
  method MakeStudents(nstudents: int, names: seq<string>, ids: seq<int>, profiles: seq<Profile>,
                      draws: seq<StudentDraws>)
    returns (students: seq<Student>, ok: bool)
    requires |ids| == RangeLength(nstudents) && forall i :: 0 <= i < |ids| ==> IdLow <= ids[i] <= IdHigh
    requires forall k :: 0 <= k < |profiles| ==> FromMenus(profiles[k])
    requires |draws| == RangeLength(nstudents)
    requires forall s :: 0 <= s < |draws| ==> ValidStudentDraws(profiles, draws[s])
    ensures ok <==> RangeLength(nstudents) <= |names|
    ensures ok ==> |students| == RangeLength(nstudents)
    ensures ok ==> forall s {:trigger students[s]} :: 0 <= s < |students| ==>
      StudentMade(students[s], names[s], ids[s], profiles, draws[s])
  {
    students := [];
    for si := 0 to RangeLength(nstudents)
      invariant |students| == si && si <= |names|
      invariant forall s {:trigger students[s]} :: 0 <= s < si ==>
        StudentMade(students[s], names[s], ids[s], profiles, draws[s])
    {
      if si >= |names| {
        return students, false;
      }
      var grades := GenerateGrades(profiles, draws[si]);
      students := students + [Student(names[si], ids[si], grades)];
    }
    ok := true;
  }

  /** `randomGradebook(nstudents, assigns)` with the name file's lines in
      `nameLines`, the list after `random.shuffle` in `shuffled`, the
      `randint` results of the id loop in `idDraws`, the profile choices in
      `choices` and the per-student draws in `draws`. */
  method RandomGradebook(nstudents: int := 5, assigns: AssignmentSpec := Count(5), nameLines: seq<string>,
                         shuffled: seq<string>, idDraws: seq<int>,
                         choices: seq<ProfileChoice>, draws: seq<StudentDraws>)
    returns (r: Result<Gradebook, GeneratorError>)
    requires multiset(shuffled) == multiset(SortableNames(nameLines))
    requires forall i :: 0 <= i < |idDraws| ==> IdLow <= idDraws[i] <= IdHigh
    requires nstudents <= |DrawnIds(idDraws)|
    requires |choices| == |AssignmentNames(assigns)|
    requires forall k :: 0 <= k < |choices| ==> ValidChoice(choices[k])
    requires |draws| == RangeLength(nstudents)
    requires forall s :: 0 <= s < |draws| ==> ValidStudentDraws(Profiles(choices), draws[s])
    ensures r.Failure? <==> nstudents > |SortableNames(nameLines)|
    ensures r.Failure? <==> nstudents > |UsableLines(nameLines)|
    ensures r.Success? ==> r.value.assignments == AssignmentNames(assigns)
    ensures r.Success? ==> |r.value.students| == RangeLength(nstudents)
    ensures r.Success? ==> WellFormed(r.value)
    ensures r.Success? ==> forall s :: 0 <= s < |r.value.students| ==> IdLow <= r.value.students[s].id <= IdHigh
    ensures r.Success? ==> Sorting.Sorted(StudentNames(r.value), LexLe)
    ensures r.Success? && nstudents >= 0 ==> multiset(StudentNames(r.value)) == multiset(SliceTo(shuffled, nstudents))
    ensures r.Success? ==> forall s :: 0 <= s < |r.value.students| ==> r.value.students[s].sortableName in SortableNames(nameLines)
    ensures r.Success? ==> forall s :: 0 <= s < |r.value.students| ==>
      GradesDrawn(r.value.students[s].grades, Profiles(choices), draws[s])
  {
    // lines 99-103: the usable names, shuffled (supplied), cut and sorted
    SortableNamesCount(nameLines);
    var names := ChosenNames(shuffled, nstudents);
    ChosenNamesFromLines(nameLines, shuffled, nstudents);
    var assignNames := AssignmentNames(assigns);
    var idSet, _ := DrawIds(nstudents, idDraws);
    var ids := SetToList(idSet);
    var profiles := Profiles(choices);

    assert forall i :: 0 <= i < |ids| ==> ids[i] in idSet;
    var students, ok := MakeStudents(nstudents, names, ids, profiles, draws);
    if !ok {
      return Failure(NotEnoughNames);
    }
    r := Success(Gradebook(assignNames, students));
    AssembledGradebook(nstudents, shuffled, nameLines, names, ids, profiles, draws, r.value);
  }

  /** What the assembled gradebook satisfies, from what the steps of
      lines 99-140 established. */
  lemma AssembledGradebook(nstudents: int, shuffled: seq<string>, nameLines: seq<string>,
                           names: seq<string>, ids: seq<int>, profiles: seq<Profile>,
                           draws: seq<StudentDraws>, gb: Gradebook)
    requires names == ChosenNames(shuffled, nstudents)
    requires forall x :: x in names ==> x in SortableNames(nameLines)
    requires nstudents >= 0 ==> |names| == Min(nstudents, |SortableNames(nameLines)|)
    requires DistinctInts(ids) && |profiles| == |gb.assignments|
    requires |gb.students| == RangeLength(nstudents) <= |names|
    requires |draws| == |gb.students| && |ids| == |gb.students|
    requires forall s :: 0 <= s < |draws| ==> ValidStudentDraws(profiles, draws[s])
    requires forall s {:trigger gb.students[s]} :: 0 <= s < |gb.students| ==>
      StudentMade(gb.students[s], names[s], ids[s], profiles, draws[s])
    ensures WellFormed(gb)
    ensures forall s :: 0 <= s < |gb.students| ==> IdLow <= gb.students[s].id <= IdHigh
    ensures Sorting.Sorted(StudentNames(gb), LexLe)
    ensures nstudents >= 0 ==> multiset(StudentNames(gb)) == multiset(SliceTo(shuffled, nstudents))
    ensures forall s :: 0 <= s < |gb.students| ==> gb.students[s].sortableName in SortableNames(nameLines)
    ensures forall s :: 0 <= s < |gb.students| ==> GradesDrawn(gb.students[s].grades, profiles, draws[s])
  {
    assert StudentNames(gb) == names[..|gb.students|];
    assert nstudents >= 0 ==> names[..|gb.students|] == names;
    forall s | 0 <= s < |gb.students|
      ensures gb.students[s].sortableName in SortableNames(nameLines)
    {
      assert gb.students[s].sortableName == names[s];
    }
  }
}
