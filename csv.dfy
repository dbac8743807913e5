/** `writeGradebookCSV`: the rows handed to the CSV writer. The header names
    the two student columns and then every assignment; each student row holds
    the name, the id and one `(score, late, [(length, images), ...])` tuple
    per grade. */
module CsvExport {
  import opened Common
  import opened GradebookSchema

  /** One cell as handed to the writer: a string, an integer, or a grade tuple. */
  datatype Cell =
    | Text(text: string)
    | Number(number: int)
    | GradeTuple(score: int, late: int, posts: seq<(int, int)>)

  function PostPair(p: Post): (int, int)
  {
    (p.length, p.images)
  }

  function PostPairs(posts: seq<Post>): (r: seq<(int, int)>)
    ensures |r| == |posts|
    ensures forall i :: 0 <= i < |r| ==> r[i] == (posts[i].length, posts[i].images)
  {
    seq(|posts|, i requires 0 <= i < |posts| => PostPair(posts[i]))
  }

  /** Line 73: a grade flattened into a tuple. */
  function GradeCell(g: Grade): (c: Cell)
    ensures c.GradeTuple? && c.score == g.score && c.late == g.late
    ensures |c.posts| == |g.posts|
    ensures forall i :: 0 <= i < |g.posts| ==> c.posts[i] == (g.posts[i].length, g.posts[i].images)
  {
    GradeTuple(g.score, g.late, PostPairs(g.posts))
  }

  /** Line 69: `["sortable_name", "id"] + assignments`. */
  function HeaderRow(gb: Gradebook): (r: seq<Cell>)
    ensures |r| == 2 + |gb.assignments|
    ensures r[0] == Text("sortable_name") && r[1] == Text("id")
    ensures forall k :: 0 <= k < |gb.assignments| ==> r[2 + k] == Text(gb.assignments[k])
  {
    [Text("sortable_name"), Text("id")] +
      seq(|gb.assignments|, k requires 0 <= k < |gb.assignments| => Text(gb.assignments[k]))
  }

  /** Line 73: one tuple per grade, in order. */
  function GradeCells(grades: seq<Grade>): (r: seq<Cell>)
    ensures |r| == |grades|
    ensures forall k :: 0 <= k < |grades| ==> r[k] == GradeCell(grades[k])
  {
    seq(|grades|, k requires 0 <= k < |grades| => GradeCell(grades[k]))
  }

  /** Lines 72-74: name, id, then one tuple per grade in assignment order. */
  function StudentRow(st: Student): (r: seq<Cell>)
    ensures |r| == 2 + |st.grades|
    ensures r[0] == Text(st.sortableName) && r[1] == Number(st.id)
    ensures forall k :: 0 <= k < |st.grades| ==> r[2 + k] == GradeCell(st.grades[k])
  {
    [Text(st.sortableName), Number(st.id)] + GradeCells(st.grades)
  }

  /** Reads a grade back from its tuple. */
  function ParseGrade(c: Cell): Option<Grade>
  {
    if c.GradeTuple? then
      Some(Grade(c.score, c.late, seq(|c.posts|, i requires 0 <= i < |c.posts| => Post(c.posts[i].0, c.posts[i].1))))
    else None
  }

  function ParseGrades(cells: seq<Cell>): Option<seq<Grade>>
  {
    if |cells| == 0 then Some([])
    else
      match (ParseGrade(cells[0]), ParseGrades(cells[1..]))
      case (Some(g), Some(rest)) => Some([g] + rest)
      case _ => None
  }

  /** Reads a student back from a row: the inverse of `StudentRow`. */
  function ParseStudentRow(row: seq<Cell>): Option<Student>
  {
    if |row| >= 2 && row[0].Text? && row[1].Number? then
      match ParseGrades(row[2..])
      case Some(grades) => Some(Student(row[0].text, row[1].number, grades))
      case None => None
    else None
  }

  /** Reads the assignment names back from a header row. */
  function ParseHeader(row: seq<Cell>): Option<seq<string>>
  {
    if |row| >= 2 && row[0] == Text("sortable_name") && row[1] == Text("id")
       && forall k :: 2 <= k < |row| ==> row[k].Text? then
      Some(seq(|row| - 2, k requires 0 <= k < |row| - 2 => row[k + 2].text))
    else None
  }

  lemma GradeRoundTrip(g: Grade)
    ensures ParseGrade(GradeCell(g)) == Some(g)
  {
    var c := GradeCell(g);
    assert ParseGrade(c).value.posts == g.posts;
  }

  lemma {:induction false} GradesRoundTrip(grades: seq<Grade>)
    ensures ParseGrades(GradeCells(grades)) == Some(grades)
  {
    var cells := GradeCells(grades);
    if |grades| > 0 {
      GradeRoundTrip(grades[0]);
      GradesRoundTrip(grades[1..]);
      assert cells[1..] == GradeCells(grades[1..]);
      assert grades == [grades[0]] + grades[1..];
    }
  }

  /** A student row holds everything about the student: it reads back unchanged. */
  lemma StudentRowRoundTrip(st: Student)
    ensures ParseStudentRow(StudentRow(st)) == Some(st)
  {
    var row := StudentRow(st);
    GradesRoundTrip(st.grades);
    assert row[2..] == GradeCells(st.grades);
  }

  /** The header row holds the assignment names, in order. */
  lemma HeaderRoundTrip(gb: Gradebook)
    ensures ParseHeader(HeaderRow(gb)) == Some(gb.assignments)
  {
    var row := HeaderRow(gb);
    assert forall k :: 2 <= k < |row| ==> row[k] == Text(gb.assignments[k - 2]);
    assert ParseHeader(row).value == gb.assignments;
  }

  /** All rows of the file: the header first, then one row per student. */
  function CsvRows(gb: Gradebook): (rows: seq<seq<Cell>>)
    ensures |rows| == 1 + |gb.students|
    ensures rows[0] == HeaderRow(gb)
    ensures forall s :: 0 <= s < |gb.students| ==> rows[1 + s] == StudentRow(gb.students[s])
  {
    [HeaderRow(gb)] + seq(|gb.students|, s requires 0 <= s < |gb.students| => StudentRow(gb.students[s]))
  }

  /** When every student has one grade per assignment, every row of the file
      is as wide as the header, and each grade sits under its assignment. */
  lemma AlignedRowsMatchHeader(gb: Gradebook)
    requires Aligned(gb)
    ensures forall i :: 0 <= i < |CsvRows(gb)| ==> |CsvRows(gb)[i]| == |HeaderRow(gb)|
  {
    var rows := CsvRows(gb);
    forall i | 0 <= i < |rows|
      ensures |rows[i]| == |HeaderRow(gb)|
    {
      if i > 0 {
        assert rows[i] == StudentRow(gb.students[i - 1]);
      }
    }
  }

  /** Lines 69-74: write the header, then each student's row in order. */
  method WriteGradebookCsv(gb: Gradebook) returns (rows: seq<seq<Cell>>)
    ensures rows == CsvRows(gb)
  {
    rows := [HeaderRow(gb)];
    for s := 0 to |gb.students|
      invariant |rows| == 1 + s
      invariant rows[0] == HeaderRow(gb)
      invariant forall t :: 0 <= t < s ==> rows[1 + t] == StudentRow(gb.students[t])
    {
      rows := rows + [StudentRow(gb.students[s])];
    }
  }
}
