/** The numbers behind the SVG table: element ids from a global counter,
    colour strings, the geometry of a clipped text box, and where `makeTable`
    puts each student's row, bars and scores. Only what is handed to the
    drawing library is modelled, not the library. */
module Render {
  import opened Common
  import opened Text
  import opened GradebookSchema

  // ------------------------------------------------------------ element ids

  /** `"id-%d" % n`. */
  function ElementId(n: nat): (s: string)
    ensures |s| >= 4 && s[..3] == "id-"
    ensures forall i :: 3 <= i < |s| ==> '0' <= s[i] <= '9'
  {
    "id-" + NatToDecimal(n)
  }

  /** The digits after "id-" read back as the counter value. */
  lemma ElementIdReadsBack(n: nat)
    ensures DecimalValue(ElementId(n)[3..]) == n
  {
    DecimalRoundTrip(n);
    assert ElementId(n)[3..] == NatToDecimal(n);
  }

  /** Different counter values give different ids. */
  lemma ElementIdInjective(m: nat, n: nat)
    requires m != n
    ensures ElementId(m) != ElementId(n)
  {
    if ElementId(m) == ElementId(n) {
      PrefixCancel("id-", NatToDecimal(m), NatToDecimal(n));
      DecimalInjective(m, n);
    }
  }

  /** Lines 27-35: the module-level `global_id_counter`. */
  class IdCounter {
    var count: nat

    constructor ()
      ensures count == 0
    {
      count := 0;
    }

    /** `uniqid()`: bump the counter and name the new value. */
    method UniqId() returns (id: string)
      modifies this
      ensures count == old(count) + 1
      ensures id == ElementId(count)
    {
      count := count + 1;
      id := ElementId(count);
    }
  }

  // ---------------------------------------------------------------- colours

  /** Lines 71-72: `'#%02x%02x%02x' % color`. */
  function TupleToRgb(color: (int, int, int)): (s: string)
    ensures |s| >= 7 && s[0] == '#'
  {
    "#" + Hex02(color.0) + Hex02(color.1) + Hex02(color.2)
  }

  function HexPairValue(a: char, b: char): int
  {
    HexDigitValue(a) * 16 + HexDigitValue(b)
  }

  /** Reads a `#rrggbb` colour back into its components. */
  function ParseRgb(s: string): Option<(int, int, int)>
  {
    if |s| == 7 && s[0] == '#' && forall i :: 1 <= i < 7 ==> 0 <= HexDigitValue(s[i]) then
      Some((HexPairValue(s[1], s[2]), HexPairValue(s[3], s[4]), HexPairValue(s[5], s[6])))
    else None
  }

  predicate IsByte(n: int)
  {
    0 <= n < 256
  }

  /** With components in 0..255 the colour is '#' and three two-digit
      hexadecimal pairs, seven characters, and reads back as the components. */
  lemma RgbRoundTrip(color: (int, int, int))
    requires IsByte(color.0) && IsByte(color.1) && IsByte(color.2)
    ensures |TupleToRgb(color)| == 7
    ensures ParseRgb(TupleToRgb(color)) == Some(color)
  {
    var s := TupleToRgb(color);
    var r, g, b := Hex02(color.0), Hex02(color.1), Hex02(color.2);
    Hex02Byte(color.0);
    Hex02Byte(color.1);
    Hex02Byte(color.2);
    assert s == "#" + r + g + b;
    assert s[1..3] == r && s[3..5] == g && s[5..7] == b;
    HexPairAt(s, 1, color.0, r);
    HexPairAt(s, 3, color.1, g);
    HexPairAt(s, 5, color.2, b);
  }

  /** A byte rendered at position `at` of `s` reads back there. */
  lemma HexPairAt(s: string, at: nat, n: int, pair: string)
    requires IsByte(n) && pair == Hex02(n)
    requires at + 2 <= |s| && s[at..at + 2] == pair
    ensures HexPairValue(s[at], s[at + 1]) == n
    ensures forall i :: at <= i < at + 2 ==> 0 <= HexDigitValue(s[i])
  {
    Hex02Byte(n);
    assert s[at] == pair[0] && s[at + 1] == pair[1];
  }

  // --------------------------------------------------------------- text box

  datatype Point = Point(x: int, y: int)

  /** `drawing.rect(corner, (width, height))`. */
  datatype Rect = Rect(corner: Point, width: int, height: int)

  datatype FilledRect = FilledRect(rect: Rect, fill: string)

  /** The keyword arguments of `textBox` that shape its geometry. */
  datatype BoxStyle = BoxStyle(fontSize: int, boxXPad: int, boxYPad: int, boxWidth: int, boxFill: Option<string>)

  /** Line 46's defaults. */
  const DefaultBoxStyle := BoxStyle(10, 5, 5, 120, None)

  /** What `textBox` returns: a group holding an optional background, the
      clip path (with its id) and the text, moved by `translate`. */
  datatype TextBox = TextBox(clipId: string, clip: Rect, text: string, textFill: string,
                             background: Option<FilledRect>, translate: Point)

  /** Python's `if boxfill:`: neither `None` nor the empty string. */
  predicate Truthy(fill: Option<string>)
  {
    fill.Some? && fill.value != ""
  }

  /** Where a rectangle ends up once its group is moved by `offset`. */
  function Moved(r: Rect, offset: Point): Rect
  {
    Rect(Point(r.corner.x + offset.x, r.corner.y + offset.y), r.width, r.height)
  }

  /** Lines 48-66 without the counter: the group, and with it the text, is
      moved to `boxXPad` right of `insert` and `boxYPad + fontSize` below it,
      where the text's baseline sits. In drawing coordinates the clip then
      starts `boxXPad` right of `insert`, at its height, and is as tall as
      the text with its padding; the background, drawn only for a truthy
      fill, starts exactly at `insert` and is wider by the padding on both
      sides, so it encloses the clip. */
  function TextBoxLayout(clipId: string, text: string, textFill: string, insert: Point, st: BoxStyle): (b: TextBox)
    ensures b.clipId == clipId && b.text == text && b.textFill == textFill
    ensures b.translate == Point(insert.x + st.boxXPad, insert.y + st.boxYPad + st.fontSize)
    ensures b.clip == Rect(Point(0, -st.boxYPad - st.fontSize), st.boxWidth, 2 * st.boxYPad + st.fontSize)
    ensures Moved(b.clip, b.translate) ==
      Rect(Point(insert.x + st.boxXPad, insert.y), st.boxWidth, 2 * st.boxYPad + st.fontSize)
    ensures b.background.Some? <==> Truthy(st.boxFill)
    ensures b.background.Some? ==>
      b.background.value.fill == st.boxFill.value &&
      Moved(b.background.value.rect, b.translate) ==
        Rect(insert, 2 * st.boxXPad + st.boxWidth, 2 * st.boxYPad + st.fontSize)
  {
    var clip := Rect(Point(0, -st.boxYPad - st.fontSize), st.boxWidth, 2 * st.boxYPad + st.fontSize);
    var background :=
      if Truthy(st.boxFill) then
        Some(FilledRect(Rect(Point(-st.boxXPad, -st.boxYPad - st.fontSize),
                             2 * st.boxXPad + st.boxWidth, 2 * st.boxYPad + st.fontSize),
                        st.boxFill.value))
      else None;
    TextBox(clipId, clip, text, textFill, background,
            Point(st.boxXPad + insert.x, st.boxYPad + st.fontSize + insert.y))
  }

  /** `textBox(drawing, text, ...)`: takes the next id for its clip path. */
  method MakeTextBox(counter: IdCounter, text: string, textFill: string, insert: Point, st: BoxStyle)
    returns (b: TextBox)
    modifies counter
    ensures counter.count == old(counter.count) + 1
    ensures b == TextBoxLayout(ElementId(counter.count), text, textFill, insert, st)
  {
    var clipId := counter.UniqId();
    b := TextBoxLayout(clipId, text, textFill, insert, st);
  }

  // ------------------------------------------------------------------ table

  /** Lines 84-85: the posting bar is 5 units per post, capped at 5 posts. */
  function BarWidth(g: Grade): (w: int)
    ensures 0 <= w <= 25
    ensures w % 5 == 0
    ensures |g.posts| >= 5 ==> w == 25
    ensures |g.posts| < 5 ==> w == 5 * |g.posts|
  {
    5 * Min(5, |g.posts|)
  }

  /** Line 88: red for grades four or more hours late, black otherwise. */
  function ScoreFill(late: int): (f: string)
    ensures f == "#C00" <==> late >= 4
    ensures f == "black" <==> late < 4
  {
    if late >= 4 then "#C00" else "black"
  }

  /** Line 87: the score box is 20 wide, otherwise default. */
  const ScoreStyle := BoxStyle(10, 5, 5, 20, None)

  /** One grade's drawing: the bar and the score text. */
  datatype GradeDrawing = GradeDrawing(bar: FilledRect, score: TextBox)

  /** One student's group: the name box, a drawing per grade, and where the
      group is moved. */
  datatype RowGroup = RowGroup(name: TextBox, cells: seq<GradeDrawing>, translate: Point)

  /** How many text boxes (and so ids) the rows before row `sn` use: one for
      the name and one per grade. */
  function BoxesBefore(students: seq<Student>, sn: nat): nat
    requires sn <= |students|
  {
    if sn == 0 then 0 else BoxesBefore(students, sn - 1) + 1 + |students[sn - 1].grades|
  }

  lemma {:induction false} BoxesBeforeGrows(students: seq<Student>, a: nat, b: nat)
    requires a <= b <= |students|
    ensures BoxesBefore(students, a) <= BoxesBefore(students, b)
    ensures a < b ==> BoxesBefore(students, a) + 1 + |students[a].grades| <= BoxesBefore(students, b)
    decreases b - a
  {
    if a < b {
      BoxesBeforeGrows(students, a + 1, b);
    }
  }

  /** Every text box of the table gets its own clip id: box `j` of row `sn`
      (the name is box 0, grade `k` is box `k + 1`) uses counter value
      `c0 + BoxesBefore(students, sn) + 1 + j`, and no two boxes share one. */
  lemma TableClipIdsDistinct(students: seq<Student>, c0: nat, sn: nat, j: nat, tn: nat, k: nat)
    requires sn < |students| && j <= |students[sn].grades|
    requires tn < |students| && k <= |students[tn].grades|
    requires (sn, j) != (tn, k)
    ensures ElementId(c0 + BoxesBefore(students, sn) + 1 + j) != ElementId(c0 + BoxesBefore(students, tn) + 1 + k)
  {
    var m := c0 + BoxesBefore(students, sn) + 1 + j;
    var n := c0 + BoxesBefore(students, tn) + 1 + k;
    if sn < tn {
      BoxesBeforeGrows(students, sn, tn);
      assert m < n;
    } else if tn < sn {
      BoxesBeforeGrows(students, tn, sn);
      assert n < m;
    }
    ElementIdInjective(m, n);
  }

  /** Row `sn` as lines 79-91 draw it when the counter stood at `c0`: the
      name box at the row's origin takes id `c0 + 1`; grade `k` gets a grey
      bar at x = 130 + 30k, five units wide per post up to five, and a score
      box 20 wide at the same x, red when late, taking id `c0 + 2 + k`; the
      whole row is moved down 20 units per student. */
  ghost predicate RowLaidOut(row: RowGroup, student: Student, sn: nat, c0: nat)
  {
    row.translate == Point(5, 20 * sn) &&
    row.name == TextBoxLayout(ElementId(c0 + 1), student.sortableName, "black", Point(0, 0), DefaultBoxStyle) &&
    |row.cells| == |student.grades| &&
    forall k :: 0 <= k < |student.grades| ==> CellLaidOut(row.cells[k], student.grades[k], k, c0 + 2 + k)
  }

  /** Grade `k` of a row: the bar and the score box whose clip takes id `id`. */
  ghost predicate CellLaidOut(cell: GradeDrawing, grade: Grade, k: nat, id: nat)
  {
    cell.bar == FilledRect(Rect(Point(130 + 30 * k, 0), BarWidth(grade), 15), "#CCC") &&
    cell.score == TextBoxLayout(ElementId(id), IntToDecimal(grade.score), ScoreFill(grade.late),
                                Point(130 + 30 * k, 0), ScoreStyle)
  }

  /** Lines 84-89: the bar and the score box of grade `k`, drawn at `left`. */
  method MakeCell(counter: IdCounter, grade: Grade, k: nat, left: int) returns (cell: GradeDrawing)
    requires left == 130 + 30 * k
    modifies counter
    ensures counter.count == old(counter.count) + 1
    ensures CellLaidOut(cell, grade, k, counter.count)
  {
    var nposts := Min(5, |grade.posts|);
    var bar := FilledRect(Rect(Point(left, 0), nposts * 5, 15), "#CCC");
    var scoreBox := MakeTextBox(counter, IntToDecimal(grade.score), ScoreFill(grade.late), Point(left, 0), ScoreStyle);
    cell := GradeDrawing(bar, scoreBox);
  }

  /** Lines 79-91 for one student: the name box, then for each grade a bar
      and a score box, moving `left` right by 30 each time. */
  method MakeRow(counter: IdCounter, student: Student, sn: nat) returns (row: RowGroup)
    modifies counter
    ensures counter.count == old(counter.count) + 1 + |student.grades|
    ensures RowLaidOut(row, student, sn, old(counter.count))
  {
    var nameBox := MakeTextBox(counter, student.sortableName, "black", Point(0, 0), DefaultBoxStyle);
    var cells := MakeCells(counter, student.grades);
    row := RowGroup(nameBox, cells, Point(5, sn * 20));
  }

  /** Lines 81-90: the grades of one row, left to right, with `left`
      starting after the name box and moving 30 units per grade. */
  method MakeCells(counter: IdCounter, grades: seq<Grade>) returns (cells: seq<GradeDrawing>)
    modifies counter
    ensures counter.count == old(counter.count) + |grades|
    ensures |cells| == |grades|
    ensures forall i {:trigger cells[i]} :: 0 <= i < |grades| ==>
      CellLaidOut(cells[i], grades[i], i, old(counter.count) + 1 + i)
  {
    ghost var c0 := counter.count;
    var left := 120 + 10;
    cells := [];
    for k := 0 to |grades|
      invariant left == 130 + 30 * k
      invariant |cells| == k
      invariant counter.count == c0 + k
      invariant forall i {:trigger cells[i]} :: 0 <= i < k ==> CellLaidOut(cells[i], grades[i], i, c0 + 1 + i)
    {
      var cell := MakeCell(counter, grades[k], k, left);
      assert (cells + [cell])[k] == cell;
      cells := cells + [cell];
      left := left + 20 + 10;
    }
  }

  /** Lines 76-92: one row group per student, in order, taking ids from the
      counter box by box. */
  method MakeTable(counter: IdCounter, gb: Gradebook) returns (rows: seq<RowGroup>)
    modifies counter
    ensures |rows| == |gb.students|
    ensures counter.count == old(counter.count) + BoxesBefore(gb.students, |gb.students|)
    ensures forall sn {:trigger rows[sn]} :: 0 <= sn < |rows| ==>
      RowLaidOut(rows[sn], gb.students[sn], sn, old(counter.count) + BoxesBefore(gb.students, sn))
  {
    ghost var c0 := counter.count;
    rows := [];
    for sn := 0 to |gb.students|
      invariant |rows| == sn
      invariant counter.count == c0 + BoxesBefore(gb.students, sn)
      invariant forall t {:trigger rows[t]} :: 0 <= t < sn ==>
        RowLaidOut(rows[t], gb.students[t], t, c0 + BoxesBefore(gb.students, t))
    {
      var row := MakeRow(counter, gb.students[sn], sn);
      rows := rows + [row];
    }
  }
}
