/** The gradebook record: assignment names and students, each student holding
    one grade per assignment, each grade its discussion posts. */
module GradebookSchema {

  /** One discussion post: its length in characters and its number of images. */
  datatype Post = Post(length: int, images: int)

  /** `late` is in hours, negative when handed in before the deadline. */
  datatype Grade = Grade(score: int, late: int, posts: seq<Post>)

  datatype Student = Student(sortableName: string, id: int, grades: seq<Grade>)

  /** Assignments are plain names; they double as the CSV column headers. */
  datatype Gradebook = Gradebook(assignments: seq<string>, students: seq<Student>)

  /** Every student has exactly one grade per assignment. */
  predicate Aligned(gb: Gradebook)
  {
    forall s :: 0 <= s < |gb.students| ==> |gb.students[s].grades| == |gb.assignments|
  }

  /** No two students share an id. */
  predicate DistinctIds(gb: Gradebook)
  {
    forall s, t :: 0 <= s < t < |gb.students| ==> gb.students[s].id != gb.students[t].id
  }

  predicate WellFormed(gb: Gradebook)
  {
    Aligned(gb) && DistinctIds(gb)
  }
}
