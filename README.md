# Gradebook toolkit — a Dafny model

This project models the core of a small Python toolkit for a classroom design
challenge. The toolkit revolves around a flat gradebook record:

- The gradebook holds a list of assignment names and a list of students.
- A student has a sortable name ("Last, First"), an id, and one grade per assignment.
- A grade has a score, its lateness in hours (negative when early) and the discussion posts.
- A post has a length and a number of images.

The model covers:

- **Generators** (`Python/gradebook.py`):
  - `createDummyGradebook`, a deterministic nested-loop builder, is `DummyGenerator`.
  - `randomRange` and `randomGradebook` are `RandomGenerator`. The random generator builds a synthetic cohort with skewed "good" and "weak" students.
  - The rows handed to the CSV writer in `writeGradebookCSV` are `CsvExport`.
- **Text summary** (`Python/exampleReader.py`): `gradebookSimple` is `Summary`. For each student it sorts the scores, drops the two lowest, averages the rest, counts grades at least four hours late, and cuts and right-aligns the name to thirty characters.
- **SVG table** (`Python/example.py`): `Render` holds the numbers the table hands to the drawing library:
  - the global id counter behind `uniqid` (a class with one field);
  - `tupleToRGB`;
  - the geometry of `textBox`;
  - the column, bar, colour and row offsets of `makeTable`.
- **Python behaviour the code relies on**, written out rather than assumed:
  - `range(n)` for negative `n` and the slices `s[:n]` and `s[n:]` (`Common`);
  - `str.split(" ")`, decimal and `%02x` rendering, and the code-point order of `str` comparison (`Text`);
  - `list.sort` as the unique sorted permutation (`Sorting`).

Randomness is supplied by the caller. Every `random.randint`, `random.choice`
and `random.random()` result of `randomGradebook` is a parameter; `requires`
clauses say which values the library can return. `random.shuffle` is a
supplied rearrangement with the same multiset. So every property proved for
the generator holds for every possible outcome of the random source.

Element ids come from a counter that the original keeps in a module-level
variable. Here it is an `IdCounter` object passed to the methods that draw.

The model follows the code on these points:

- Negative counts. `createDummyGradebook` does not reject them: `range` of a negative number is empty, so only the list that count governs is empty. A negative `nstudents` gives no students but still every assignment name; a negative `nassign` gives students with no grades; a negative `npost` gives grades with no posts. The same holds for `nstudents` and an integer `assigns` in `randomGradebook`.
- Default arguments. `createDummyGradebook` defaults to 5 students, 5 assignments and 3 posts, and `randomGradebook` to 5 students and 5 assignments; the Dafny methods carry the same defaults.
- Name lines. A line is split on single spaces, not on any whitespace, and is not stripped. Its last piece therefore keeps the line's newline: `"Ada Lovelace\n"` becomes `"Lovelace\n, Ada"`, as `RandomGenerator.NewlineStaysOnSurname` records.
- Too many ids. Asking for more ids than `[1001, 8999]` holds does not fail: the id loop never ends. The model requires draws that give enough distinct ids, and `RandomGenerator.IdLoopNeedsRoom` shows that this forces `nstudents <= 7999`.
- Assignments. They are plain names, not records: the code builds names at `Python/gradebook.py:54` and `:106` and uses them as CSV headers.
- Missing names. When the file has fewer usable names than `nstudents`, indexing past the end of the names fails. This is the `NotEnoughNames` failure of `RandomGenerator.RandomGradebook`.

## Model

| member | source | states |
|---|---|---|
| DummyGenerator.CreateDummyGradebook | Python/gradebook.py:46-56 | Assignments are "Assignment 0" .. "Assignment n-1" in order. There are `range(nstudents)` students, all named "Student, Alfred", with ids 1000+index, strictly increasing and so distinct. Every student has one grade per assignment, with score 50, late 0 and `npost` posts of length 500 with 1 image. |
| DummyGenerator.AssignmentNamesDistinct | Python/gradebook.py:54 | Different indices give different assignment names. |
| CsvExport.HeaderRow | Python/gradebook.py:69 | The header has 2+len(assignments) cells: "sortable_name", "id", then each assignment name in order. |
| CsvExport.GradeCell | Python/gradebook.py:73 | A grade becomes the tuple (score, late, [(length, images) ...]) with its posts in order. |
| CsvExport.StudentRow | Python/gradebook.py:72-74 | A student row has 2+len(grades) cells: the name, the id, then one grade tuple per grade in order. |
| CsvExport.GradesRoundTrip | Python/gradebook.py:73 | The grade tuples of a row read back as the original grades. |
| CsvExport.StudentRowRoundTrip | Python/gradebook.py:72-74 | A student row reads back as the original student, so the row loses nothing. |
| CsvExport.HeaderRoundTrip | Python/gradebook.py:69 | The header reads back as the assignment names. |
| CsvExport.CsvRows | Python/gradebook.py:69-74 | The file is the header followed by one row per student, in order. |
| CsvExport.AlignedRowsMatchHeader | Python/gradebook.py:69-74 | When every student has one grade per assignment, every row is exactly as wide as the header. |
| CsvExport.WriteGradebookCsv | Python/gradebook.py:69-74 | The writing loop produces exactly the header and the student rows, in order. |
| RandomGenerator.RandomRange | Python/gradebook.py:87-93 | With both draws in [lo, hi] the result is in [lo, hi] and is one of the draws. It is the larger draw for a good student and the smaller for a weak one. |
| RandomGenerator.GoodNotBelowWeak | Python/gradebook.py:87-93 | For the same two draws, the good result is at least the weak result, and the two results together are the two draws. |
| RandomGenerator.Profiles | Python/gradebook.py:114-118 | There is one profile per assignment, and every range in it is taken from the menus at lines 114-117. |
| RandomGenerator.MenuBounds | Python/gradebook.py:114-117 | Every menu range is non-empty. Post counts lie in 1..5, first-post lengths in 200..2500, later lengths in 100..400 and first-post images in 0..2. |
| RandomGenerator.ScoreMenuValues | Python/gradebook.py:131 | The base score is in {50, 40, 30} for a good student and in {40, 30, 20} for a weak one. |
| RandomGenerator.GenerateGrade | Python/gradebook.py:131-139 | Lateness is in [4, 72] when the roll is below 0.25 and in [-48, -4] otherwise. The score is the base minus 5 exactly when lateness exceeds 12. There are 1 to 5 posts, as many as the post-count draw. The first post's length and images lie in the first-post ranges. Every later post has 0 images and a length in the later-post range. |
| RandomGenerator.GenerateGrades | Python/gradebook.py:129-139 | There is one grade per assignment, in assignment order, each built from its own draws under its assignment's profile. |
| RandomGenerator.SortableName | Python/gradebook.py:99-100 | A line yields a name exactly when it contains a space, i.e. splits into at least two pieces. |
| RandomGenerator.SortableNameOf | Python/gradebook.py:99-100 | "First Last" and "First Last More" both become "Last, First". |
| RandomGenerator.NewlineStaysOnSurname | Python/gradebook.py:99-100 | The newline stays on the surname: "Ada Lovelace\n" gives "Lovelace\n, Ada". A line with a single piece is skipped. |
| RandomGenerator.SortableNames | Python/gradebook.py:99-100 | Every listed name comes from some line of the file, and every line holding a space contributes its name. There are no more names than lines. |
| RandomGenerator.SortableNamesAppend | Python/gradebook.py:99-100 | One more line adds its name at the end exactly when it holds a space, so the names keep the order of their lines. |
| RandomGenerator.SortableNamesCount | Python/gradebook.py:99-100 | There are exactly as many names as lines holding a space. |
| RandomGenerator.ChosenNames | Python/gradebook.py:102-103 | The chosen names are sorted ascending in string order and are exactly the first `nstudents` shuffled names. |
| RandomGenerator.ChosenNamesFromLines | Python/gradebook.py:99-103 | min(nstudents, number of usable names) names are chosen, every one from the name file. |
| RandomGenerator.BoundedSetSize | Python/gradebook.py:110 | A set of integers inside [lo, hi] has at most hi-lo+1 members. |
| RandomGenerator.IdLoopNeedsRoom | Python/gradebook.py:108-110 | The id loop can only finish when nstudents <= 7999. |
| RandomGenerator.DrawIds | Python/gradebook.py:108-110 | The loop stops with exactly `nstudents` distinct ids, all in [1001, 8999]. Those are the distinct values of the draws it consumed, and it stops at the first draw that completes the set. |
| RandomGenerator.SetToList | Python/gradebook.py:111 | The list holds every member of the set exactly once. |
| RandomGenerator.AssignmentNames | Python/gradebook.py:105-106 | A list of names is kept unchanged. A count n becomes "Discussion 1" .. "Discussion n". |
| RandomGenerator.DiscussionNamesDistinct | Python/gradebook.py:106 | Generated discussion names never repeat. |
| RandomGenerator.MakeStudents | Python/gradebook.py:122-140 | Student si takes the si-th name and id, with grades drawn for every assignment. The loop fails exactly when there are fewer names than students. |
| RandomGenerator.RandomGradebook | Python/gradebook.py:96-142 | The call fails exactly when the file has fewer usable names, that is fewer lines holding a space, than `nstudents`. Otherwise: the assignments are the given or generated names; there are `range(nstudents)` students with distinct ids in [1001, 8999]; every student has one grade per assignment; the names are sorted; they are exactly the first `nstudents` shuffled names, all from the file; and every grade is the one its draws produce. |
| RandomGenerator.AssembledGradebook | Python/gradebook.py:122-142 | The assembled gradebook is well formed (aligned and with distinct ids). Its names are sorted and come from the file. |
| Summary.Scores | Python/exampleReader.py:36 | The score of every grade, in assignment order. |
| Summary.KeptScores | Python/exampleReader.py:38-39 | All but two scores are kept (none when there are two or fewer), in ascending order. |
| Summary.SortedScores | Python/exampleReader.py:38 | The scores in ascending order, a permutation of the input. |
| Summary.KeptScoresFacts | Python/exampleReader.py:38-39 | max(0, n-2) scores are kept and min(2, n) dropped. Kept and dropped together are a permutation of the scores. Every dropped score is at most every kept score, and the kept scores ascend. |
| Summary.KeptScoresOrderFree | Python/exampleReader.py:38-39 | The kept scores depend only on which scores there are, not on their order. |
| Summary.ScoresPermutation | Python/exampleReader.py:36 | Rearranging the grades rearranges their scores. |
| Summary.KeptScoresGradeOrderFree | Python/exampleReader.py:36-39 | The kept scores, and so the average, do not depend on the order of the grades. |
| Summary.Mean | Python/exampleReader.py:45 | The average is undefined exactly for no scores. Otherwise, times the count, it gives the sum. |
| Summary.MeanBounds | Python/exampleReader.py:45 | The average lies between any lower and upper bound of the scores. |
| Summary.MeanUndefinedForFewGrades | Python/exampleReader.py:39 | Nothing is left to average exactly when there are two grades or fewer. |
| Summary.KeptFromSorted | Python/exampleReader.py:38-39 | Any ascending arrangement of the scores, without its first two, is what is kept. |
| Summary.FiveScoresKept | Python/exampleReader.py:38-39 | From 90, 80, 70, 60, 50 the kept scores are 70, 80, 90. |
| Summary.FiveScoresMean | Python/exampleReader.py:38-45 | ... and their average is 80. |
| Summary.Lates | Python/exampleReader.py:42 | Every listed lateness is at least 4, and there are no more of them than grades. |
| Summary.LateCountIsLateGrades | Python/exampleReader.py:42 | The late count equals the number of grades with late >= 4. |
| Summary.DisplayName | Python/exampleReader.py:45 | The printed name is exactly 30 characters: spaces, then the first min(30, len) characters of the name. |
| Summary.SummarizeStudent | Python/exampleReader.py:36-45 | A student's line has a 30-character name. Its average is undefined exactly when the student has two grades or fewer. Its late count is the number of grades with late >= 4, at most the number of grades. |
| Summary.SummarizeOne | Python/exampleReader.py:36-45 | Sorting the scores, slicing off two and filtering the lates gives exactly the student's summary line. |
| Summary.GradebookSimple | Python/exampleReader.py:31-45 | There is one line per student, in order, with the kept-score average and the late count. When grades align with assignments, the late count never exceeds the number of assignments. |
| Render.IdCounter.constructor | Python/example.py:27 | The counter starts at 0. |
| Render.IdCounter.UniqId | Python/example.py:28-35 | The counter goes up by exactly one, and the id is "id-" followed by the new value. |
| Render.ElementId | Python/example.py:35 | The id is "id-" followed by at least one decimal digit. |
| Render.ElementIdReadsBack | Python/example.py:35 | The digits after "id-" read back as the counter value. |
| Render.ElementIdInjective | Python/example.py:35 | Different counter values give different ids, so successive calls return distinct ids. |
| Render.TupleToRgb | Python/example.py:71-72 | The colour starts with '#' and has at least 7 characters. |
| Render.RgbRoundTrip | Python/example.py:71-72 | With components in 0..255 the colour is '#' and three two-digit lower-case hex pairs, 7 characters in all, and the pairs decode to the components. |
| Render.TextBoxLayout | Python/example.py:48-66 | The group is moved by (boxxpad+insert.x, boxypad+fontsize+insert.y), where the text is drawn. The clip is the rectangle at (0, -boxypad-fontsize) of width `boxwidth` and height 2·boxypad+fontsize. Once translated, the clip sits `boxxpad` right of the insert point, `boxwidth` wide and 2·boxypad+fontsize tall. The background exists exactly when the fill is truthy. It then starts at the insert point and is 2·boxxpad+boxwidth wide. |
| Render.MakeTextBox | Python/example.py:43-68 | The box takes the next id from the counter for its clip path. |
| Render.BarWidth | Python/example.py:84-85 | The bar is 5·min(5, posts) wide, a multiple of 5 in [0, 25]. |
| Render.ScoreFill | Python/example.py:87-88 | The score text is "#C00" exactly when late >= 4 and "black" otherwise. |
| Render.BoxesBeforeGrows | Python/example.py:78-90 | Later rows start their ids after every id of earlier rows. |
| Render.TableClipIdsDistinct | Python/example.py:78-90 | No two text boxes of the table share a clip id. |
| Render.MakeCell | Python/example.py:84-89 | The bar of grade k starts at x = 130+30k, is 15 high and grey. The score box is 20 wide at the same x, coloured by lateness, and takes the next id. |
| Render.MakeCells | Python/example.py:81-90 | Grade k of a row is drawn at x = 130+30k and takes id c0+1+k. |
| Render.MakeRow | Python/example.py:79-91 | The name box takes the first id of the row, followed by one bar and score box per grade. The row is moved by (5, 20·sn). |
| Render.MakeTable | Python/example.py:76-92 | There is one row per student, in order. Each row is laid out from the counter value left by the rows before it. |
| Text.SplitOnSpace | Python/gradebook.py:99 | `split(" ")` yields at least one piece, and no piece holds a space. |
| Text.SplitJoin | Python/gradebook.py:99 | Joining the pieces of `split(" ")` with single spaces gives back the line. |
| Text.JoinSplit | Python/gradebook.py:99 | Splitting a join of space-free pieces gives back the pieces. |
| Text.SplitMoreThanOne | Python/gradebook.py:99-100 | A line has more than one piece exactly when it contains a space. |
| Text.NatToDecimal | Python/gradebook.py:54 | A number renders as at least one decimal digit, without a leading zero once it has two digits. |
| Text.DecimalRoundTrip | Python/gradebook.py:54 | The decimal rendering of a number reads back as the number. |
| Text.IntToDecimal | Python/example.py:87 | The rendering starts with a minus sign exactly for negative numbers. |
| Text.IntDecimalRoundTrip | Python/example.py:87 | The rendering of a score reads back as the score, sign included. |
| Text.LexLeIsTotalOrder | Python/gradebook.py:103 | String comparison is a total order, so the names can be sorted. |
| Text.Hex02 | Python/example.py:72 | `%02x` gives at least two characters, starting with a minus sign exactly for negative numbers. |
| Text.Hex02Byte | Python/example.py:72 | A byte is rendered as two hex digits that read back as the byte. |
| Sorting.Sort | Python/exampleReader.py:38 | The result is sorted and a permutation of the input. |
| Sorting.SortedUnique | Python/exampleReader.py:38 | Two sorted permutations of the same values are equal. |
| Sorting.SortPermutationInvariant | Python/exampleReader.py:38 | Sorting any rearrangement gives the same list. |
| Sorting.SortOfSorted | Python/gradebook.py:103 | Sorting a sorted list leaves it unchanged. |

## Left out

- File I/O is not modelled: `open`, reading the name file, `csv.writer` quoting and line endings, and `json.dump`/`json.load`. `writeGradebookJSON` is only `json.dump`. The CSV model stops at the cells handed to `writerow`. Python's `repr` of a grade tuple inside a CSV cell is not modelled.
- The random source itself is not modelled, and neither are the probabilities (good with 2/3, late with 1/4) or the distribution of the draws. Every draw is a parameter constrained to the values the library can return.
- `random.shuffle` and `list.sort` work in place in the original. They are modelled as values: the shuffle is any sequence with the same multiset, and the sort is the sorted permutation, which is unique.
- RandomGenerator.SetToList: the order `list(set)` produces is left unspecified. Only the members and their distinctness are stated, because CPython's set order is an implementation detail.
- RandomGenerator.DrawIds: the loop does not terminate when the draws never supply enough distinct ids. The model requires that they do, and `IdLoopNeedsRoom` states what this forces.
- A score of `None` (ungraded) is not modelled; scores are integers. The generators never produce `None`, and `exampleReader.py` would fail to sort a mix of `None` and integers.
- Summary.Mean: the average is exact (a rational), not `numpy.mean`'s floating point. The `{:5.2f}` formatting, the `print` and numpy's warning on an empty list are not modelled.
- Render.TupleToRgb: components are integers. The `int()` conversion of float components is not modelled.
- The svgwrite objects are not modelled: the drawing, group and clip elements, the style string (font family, text anchor, font size), the `clip-path` reference and `drawing.save`. Only the numbers, ids, texts and colours handed to the library are modelled.
- The `__main__` drivers of `example.py` and `exampleReader.py` are not modelled. They only handle command-line arguments and file names.
- The global `global_id_counter` is modelled as an `IdCounter` object passed explicitly, not as module-level state.
