/**
  The rows of the `RetrievalArguments` dialog: a list of rows, the flat sizer of four columns
  that shows them, the number labels, the row pointers and the current line.
 */
module ArgumentRows {
  import opened RecordVector
  import opened Text

  /** Windows, in the order of their creation; the first four are the placeholders of the sizer. */
  type Widget = nat

  const PLACEHOLDERS: seq<Widget> := [0, 1, 2, 3]

  datatype QueryLine = QueryLine(pointer: Widget, number: Widget, name: Widget, typ: Widget)

  /** The widgets of a row made when `next` is the first unused one. */
  function NewLine(next: Widget): QueryLine {
    QueryLine(next, next + 1, next + 2, next + 3)
  }

  function Cells(line: QueryLine): seq<Widget> {
    [line.pointer, line.number, line.name, line.typ]
  }

  /** The widgets of the rows, row by row. */
  function Flat(lines: seq<QueryLine>): (cells: seq<Widget>)
    ensures |cells| == 4 * |lines|
  {
    if lines == [] then [] else Flat(lines[..|lines| - 1]) + Cells(lines[|lines| - 1])
  }

  /** What the sizer holds for the rows. */
  function Layout(lines: seq<QueryLine>): seq<Widget> {
    PLACEHOLDERS + Flat(lines)
  }

  lemma {:induction false} FlatConcat(a: seq<QueryLine>, b: seq<QueryLine>)
    ensures Flat(a + b) == Flat(a) + Flat(b)
    decreases |b|
  {
    if b == [] {
      assert a + b == a;
    } else {
      var k := |b| - 1;
      assert (a + b)[..|a + b| - 1] == a + b[..k];
      FlatConcat(a, b[..k]);
    }
  }

  function Without(lines: seq<QueryLine>, i: nat): seq<QueryLine>
    requires i < |lines|
  {
    lines[..i] + lines[i + 1..]
  }

  lemma SplitAround(lines: seq<QueryLine>, i: nat)
    requires i < |lines|
    ensures lines[..i] + [lines[i]] + lines[i + 1..] == lines
  {
  }

  lemma FlatOne(line: QueryLine)
    ensures Flat([line]) == Cells(line)
  {
    assert Flat([line][..0]) == [];
  }

  lemma FlatThree(a: seq<QueryLine>, line: QueryLine, b: seq<QueryLine>)
    ensures Flat(a + [line] + b) == Flat(a) + Cells(line) + Flat(b)
  {
    FlatConcat(a + [line], b);
    FlatConcat(a, [line]);
    FlatOne(line);
  }

  lemma FlatAround(lines: seq<QueryLine>, i: nat)
    requires i < |lines|
    ensures Flat(lines) == Flat(lines[..i]) + Cells(lines[i]) + Flat(lines[i + 1..])
  {
    FlatThree(lines[..i], lines[i], lines[i + 1..]);
    SplitAround(lines, i);
  }

  lemma RowCells(lines: seq<QueryLine>, i: nat)
    requires i < |lines|
    ensures Layout(lines)[4 * (i + 1)..4 * (i + 1) + 4] == Cells(lines[i])
  {
    FlatAround(lines, i);
  }

  /** Behind the placeholders the sizer holds the rows, each as pointer, number, name and type. */
  lemma RowPlace(lines: seq<QueryLine>, i: nat)
    requires i < |lines|
    ensures |Layout(lines)| == 4 * (|lines| + 1) && Layout(lines)[..4] == [0, 1, 2, 3]
    ensures
      var place := 4 * (i + 1);
      && Layout(lines)[place] == lines[i].pointer && Layout(lines)[place + 1] == lines[i].number
      && Layout(lines)[place + 2] == lines[i].name && Layout(lines)[place + 3] == lines[i].typ
  {
    var cells := Layout(lines)[4 * (i + 1)..4 * (i + 1) + 4];
    RowCells(lines, i);
    assert cells[0] == lines[i].pointer && cells[1] == lines[i].number;
    assert cells[2] == lines[i].name && cells[3] == lines[i].typ;
  }

  lemma InsertedForm(before: seq<Widget>, cells: seq<Widget>, after: seq<Widget>)
    ensures PLACEHOLDERS + before + cells + after == PLACEHOLDERS + (before + cells + after)
  {
  }

  lemma SplitFlat(lines: seq<QueryLine>, i: nat)
    requires i <= |lines|
    ensures Flat(lines) == Flat(lines[..i]) + Flat(lines[i..])
  {
    assert lines == lines[..i] + lines[i..];
    FlatConcat(lines[..i], lines[i..]);
  }

  lemma FlatInserted(lines: seq<QueryLine>, i: nat, line: QueryLine)
    requires i <= |lines|
    ensures Flat(InsertedAt(lines, i, line)) == Flat(lines[..i]) + Cells(line) + Flat(lines[i..])
  {
    FlatThree(lines[..i], line, lines[i..]);
  }

  lemma OneInserted(a: seq<Widget>, b: seq<Widget>, w: Widget)
    ensures InsertedAt(a + b, |a|, w) == a + [w] + b
  {
  }

  lemma FourInserted(a: seq<Widget>, b: seq<Widget>, line: QueryLine)
    ensures
      InsertedAt(InsertedAt(InsertedAt(InsertedAt(a + b, |a|, line.pointer), |a| + 1, line.number),
                            |a| + 2, line.name), |a| + 3, line.typ)
      == a + Cells(line) + b
  {
    OneInserted(a, b, line.pointer);
    OneInserted(a + [line.pointer], b, line.number);
    OneInserted(a + [line.pointer] + [line.number], b, line.name);
    OneInserted(a + [line.pointer] + [line.number] + [line.name], b, line.typ);
    assert a + [line.pointer] + [line.number] + [line.name] + [line.typ] == a + Cells(line);
  }

  /** Four insertions one behind the other put a row's widgets in at its place. */
  lemma LayoutInserted(lines: seq<QueryLine>, i: nat, line: QueryLine)
    requires i <= |lines|
    ensures
      var pos := 4 * (i + 1);
      InsertedAt(InsertedAt(InsertedAt(InsertedAt(Layout(lines), pos, line.pointer), pos + 1, line.number),
                            pos + 2, line.name), pos + 3, line.typ)
      == Layout(InsertedAt(lines, i, line))
  {
    var before, after := Flat(lines[..i]), Flat(lines[i..]);
    SplitFlat(lines, i);
    FlatInserted(lines, i, line);
    Assoc(PLACEHOLDERS, before, after);
    InsertedForm(before, Cells(line), after);
    FourInserted(PLACEHOLDERS + before, after, line);
  }

  // ---- destroying widgets ----

  /** `Destroy`: the window leaves its sizer. */
  function Dropped(children: seq<Widget>, w: Widget): seq<Widget> {
    if children == [] then []
    else
      var k := |children| - 1;
      Dropped(children[..k], w) + (if children[k] == w then [] else [children[k]])
  }

  /** Destroying the widgets of a row, in the order of the handler. */
  function RowDropped(children: seq<Widget>, line: QueryLine): seq<Widget> {
    Dropped(Dropped(Dropped(Dropped(children, line.pointer), line.name), line.number), line.typ)
  }

  lemma {:induction false} DroppedConcat(a: seq<Widget>, b: seq<Widget>, w: Widget)
    ensures Dropped(a + b, w) == Dropped(a, w) + Dropped(b, w)
    decreases |b|
  {
    if b == [] {
      assert a + b == a;
    } else {
      var k := |b| - 1;
      assert (a + b)[..|a + b| - 1] == a + b[..k];
      DroppedConcat(a, b[..k], w);
    }
  }

  lemma {:induction false} DroppedAbsent(s: seq<Widget>, w: Widget)
    requires w !in s
    ensures Dropped(s, w) == s
  {
    if s == [] {
    } else {
      DroppedAbsent(s[..|s| - 1], w);
    }
  }

  lemma RowDroppedConcat(a: seq<Widget>, b: seq<Widget>, line: QueryLine)
    ensures RowDropped(a + b, line) == RowDropped(a, line) + RowDropped(b, line)
  {
    DroppedConcat(a, b, line.pointer);
    var a1, b1 := Dropped(a, line.pointer), Dropped(b, line.pointer);
    DroppedConcat(a1, b1, line.name);
    var a2, b2 := Dropped(a1, line.name), Dropped(b1, line.name);
    DroppedConcat(a2, b2, line.number);
    DroppedConcat(Dropped(a2, line.number), Dropped(b2, line.number), line.typ);
  }

  lemma RowDroppedAbsent(s: seq<Widget>, line: QueryLine)
    requires forall w :: w in Cells(line) ==> w !in s
    ensures RowDropped(s, line) == s
  {
    assert line.pointer in Cells(line) && line.name in Cells(line) && line.number in Cells(line);
    assert line.typ in Cells(line);
    DroppedAbsent(s, line.pointer);
    DroppedAbsent(s, line.name);
    DroppedAbsent(s, line.number);
    DroppedAbsent(s, line.typ);
  }

  lemma {:induction false} DroppedMembers(s: seq<Widget>, w: Widget, v: Widget)
    ensures v in Dropped(s, w) <==> v in s && v != w
  {
    if s == [] {
    } else {
      DroppedMembers(s[..|s| - 1], w, v);
      assert s == s[..|s| - 1] + [s[|s| - 1]];
    }
  }

  lemma RowDroppedOwn(line: QueryLine)
    ensures RowDropped(Cells(line), line) == []
  {
    var r := RowDropped(Cells(line), line);
    if r != [] {
      var c1 := Dropped(Cells(line), line.pointer);
      var c2 := Dropped(c1, line.name);
      var c3 := Dropped(c2, line.number);
      DroppedMembers(c3, line.typ, r[0]);
      DroppedMembers(c2, line.number, r[0]);
      DroppedMembers(c1, line.name, r[0]);
      DroppedMembers(Cells(line), line.pointer, r[0]);
    }
  }

  // ---- rows with widgets of their own ----

  /** Two rows' widgets, made at different times. */
  predicate Apart(p: Widget, q: Widget) {
    p + 4 <= q || q + 4 <= p
  }

  /** Rows made one after the other before `next`, in any order in the list. */
  predicate Own(lines: seq<QueryLine>, next: Widget) {
    && next >= 4
    && (forall i :: 0 <= i < |lines| ==> lines[i] == NewLine(lines[i].pointer) && 4 <= lines[i].pointer <= next - 4)
    && (forall i, j :: 0 <= i < j < |lines| ==> Apart(lines[i].pointer, lines[j].pointer))
  }

  lemma CellRange(line: QueryLine, w: Widget)
    requires line == NewLine(line.pointer)
    ensures w in Cells(line) <==> line.pointer <= w < line.pointer + 4
  {
  }

  lemma {:induction false} CellOf(lines: seq<QueryLine>, next: Widget, w: Widget) returns (i: nat)
    requires Own(lines, next) && w in Flat(lines)
    ensures i < |lines| && lines[i].pointer <= w < lines[i].pointer + 4
  {
    var k := |lines| - 1;
    if w in Cells(lines[k]) {
      CellRange(lines[k], w);
      i := k;
    } else {
      i := CellOf(lines[..k], next, w);
    }
  }

  lemma NotPlaceholder(w: Widget)
    ensures w in PLACEHOLDERS <==> w < 4
  {
  }

  /** A row's widgets are nobody else's. */
  lemma OwnCell(lines: seq<QueryLine>, next: Widget, line: QueryLine, w: Widget)
    requires Own(lines, next) && line == NewLine(line.pointer) && line.pointer >= 4 && w in Cells(line)
    requires forall i :: 0 <= i < |lines| ==> Apart(lines[i].pointer, line.pointer)
    ensures w !in PLACEHOLDERS && w !in Flat(lines)
  {
    CellRange(line, w);
    NotPlaceholder(w);
    if w in Flat(lines) {
      var i := CellOf(lines, next, w);
    }
  }

  lemma OwnCells(lines: seq<QueryLine>, next: Widget, line: QueryLine)
    requires Own(lines, next) && line == NewLine(line.pointer) && line.pointer >= 4
    requires forall i :: 0 <= i < |lines| ==> Apart(lines[i].pointer, line.pointer)
    ensures forall w :: w in Cells(line) ==> w !in PLACEHOLDERS && w !in Flat(lines)
  {
    forall w | w in Cells(line) ensures w !in PLACEHOLDERS && w !in Flat(lines) {
      OwnCell(lines, next, line, w);
    }
  }

  lemma DroppedBetween(a: seq<Widget>, line: QueryLine, b: seq<Widget>)
    requires forall w :: w in Cells(line) ==> w !in a && w !in b
    ensures RowDropped(a + Cells(line) + b, line) == a + b
  {
    RowDroppedConcat(a + Cells(line), b, line);
    RowDroppedConcat(a, Cells(line), line);
    RowDroppedAbsent(a, line);
    RowDroppedAbsent(b, line);
    RowDroppedOwn(line);
    assert a + [] + b == a + b;
  }

  /** Destroying a row's widgets leaves the layout of the other rows. */
  lemma LayoutDropped(lines: seq<QueryLine>, next: Widget, i: nat)
    requires Own(lines, next) && i < |lines|
    ensures RowDropped(Layout(lines), lines[i]) == Layout(Without(lines, i))
  {
    var a, line, b := lines[..i], lines[i], lines[i + 1..];
    OwnCells(a, next, line);
    OwnCells(b, next, line);
    FlatAround(lines, i);
    FlatConcat(a, b);
    InsertedForm(Flat(a), Cells(line), Flat(b));
    Assoc(PLACEHOLDERS, Flat(a), Flat(b));
    DroppedBetween(PLACEHOLDERS + Flat(a), line, Flat(b));
  }

  lemma OwnInserted(lines: seq<QueryLine>, next: Widget, i: nat)
    requires Own(lines, next) && i <= |lines|
    ensures Own(InsertedAt(lines, i, NewLine(next)), next + 4)
  {
    var more := InsertedAt(lines, i, NewLine(next));
    InsertedSlots(lines, i, NewLine(next));
    assert forall k :: 0 <= k < |more| ==> more[k] == InsertedSlot(lines, i, NewLine(next), k);
  }

  lemma OwnWithout(lines: seq<QueryLine>, next: Widget, i: nat)
    requires Own(lines, next) && i < |lines|
    ensures Own(Without(lines, i), next)
  {
  }

  lemma OwnAppended(lines: seq<QueryLine>, next: Widget)
    requires Own(lines, next)
    ensures Own(lines + [NewLine(next)], next + 4)
  {
    OwnInserted(lines, next, |lines|);
    assert InsertedAt(lines, |lines|, NewLine(next)) == lines + [NewLine(next)];
  }

  // ---- the dialog as its user sees it ----

  datatype View = View(lines: seq<QueryLine>, current: int, next: Widget)

  /**
    What can happen.  `Focused` is a control getting the focus; `LeftFor` a control losing it, with
    what the handler asks about it.
   */
  datatype Event =
    | Add
    | Insert
    | Remove
    | Focused(win: Widget)
    | Up
    | Down
    | LeftFor(text: bool, button: bool, panel: bool)

  /** The buttons Insert and Delete are disabled while there are no rows. */
  predicate Enabled(v: View, e: Event) {
    (e.Insert? || e.Remove?) ==> v.lines != []
  }

  predicate Sound(v: View) {
    && Own(v.lines, v.next)
    && (if v.lines == [] then 0 <= v.current <= 1 else 1 <= v.current <= |v.lines|)
  }

  /** The first line that has the control, or -1. */
  function LineOf(lines: seq<QueryLine>, win: Widget): (line: int)
    ensures line == -1 || 1 <= line <= |lines|
    ensures line != -1 ==> lines[line - 1].name == win || lines[line - 1].typ == win
    ensures forall i :: 0 <= i < |lines| && (line == -1 || i < line - 1) ==> lines[i].name != win && lines[i].typ != win
  {
    if lines == [] then -1
    else if lines[0].name == win || lines[0].typ == win then 1
    else
      var rest := LineOf(lines[1..], win);
      assert forall i :: 0 < i < |lines| ==> lines[i] == lines[1..][i - 1];
      if rest == -1 then -1 else rest + 1
  }

  /** Rows and current line after an event. */
  function Next(v: View, e: Event): View
    requires Sound(v) && Enabled(v, e)
  {
    match e
    case Add => View(v.lines + [NewLine(v.next)], |v.lines| + 1, v.next + 4)
    case Insert => View(InsertedAt(v.lines, v.current - 1, NewLine(v.next)), v.current, v.next + 4)
    case Remove =>
      var left := Without(v.lines, v.current - 1);
      v.(lines := left, current := if left != [] && v.current > |left| then v.current - 1 else v.current)
    case Focused(win) =>
      var line := LineOf(v.lines, win);
      if line == -1 then v else v.(current := line)
    case Up => if v.current >= 2 then v.(current := v.current - 1) else v
    case Down => if v.current < |v.lines| then v.(current := v.current + 1) else v
    case LeftFor(_, button, panel) => if button && panel && v.lines != [] then v.(current := 1) else v
  }

  lemma NextSound(v: View, e: Event)
    requires Sound(v) && Enabled(v, e)
    ensures Sound(Next(v, e))
  {
    match e
    case Add =>
      OwnInserted(v.lines, v.next, |v.lines|);
      assert InsertedAt(v.lines, |v.lines|, NewLine(v.next)) == v.lines + [NewLine(v.next)];
    case Insert => OwnInserted(v.lines, v.next, v.current - 1);
    case Remove => OwnWithout(v.lines, v.next, v.current - 1);
    case _ =>
  }

  /** A run of events; those of disabled buttons do not happen. */
  function Run(v: View, events: seq<Event>): (r: View)
    requires Sound(v)
    ensures Sound(r)
    decreases |events|
  {
    if events == [] then v
    else if Enabled(v, events[0]) then
      NextSound(v, events[0]);
      Run(Next(v, events[0]), events[1..])
    else Run(v, events[1..])
  }

  /** Deleting the row just inserted gives the rows and the current line back. */
  lemma InsertRemove(v: View)
    requires Sound(v) && v.lines != []
    ensures Sound(Next(v, Insert)) && Enabled(Next(v, Insert), Remove)
    ensures Next(Next(v, Insert), Remove) == v.(next := v.next + 4)
  {
    NextSound(v, Insert);
    var more := Next(v, Insert).lines;
    assert Without(more, v.current - 1) == v.lines;
  }

  /** Deleting the row just added gives the rows back and leaves the last one current. */
  lemma AddRemove(v: View)
    requires Sound(v)
    ensures Sound(Next(v, Add)) && Enabled(Next(v, Add), Remove)
    ensures
      var last := if v.lines == [] then 1 else |v.lines|;
      Next(Next(v, Add), Remove) == v.(current := last, next := v.next + 4)
  {
    NextSound(v, Add);
    assert Without(v.lines + [NewLine(v.next)], |v.lines|) == v.lines;
  }

  /** The row with pointer `p` stands somewhere above the one with pointer `q`. */
  ghost predicate Above(lines: seq<QueryLine>, p: Widget, q: Widget) {
    exists i, j :: 0 <= i < j < |lines| && lines[i].pointer == p && lines[j].pointer == q
  }

  lemma InsertedOrder(lines: seq<QueryLine>, pos: nat, line: QueryLine, p: Widget, q: Widget)
    requires pos <= |lines| && line.pointer != p && line.pointer != q
    requires Above(InsertedAt(lines, pos, line), p, q)
    ensures Above(lines, p, q)
  {
    var after := InsertedAt(lines, pos, line);
    var i, j :| 0 <= i < j < |after| && after[i].pointer == p && after[j].pointer == q;
    InsertedSlots(lines, pos, line);
    var i0, j0 := if i < pos then i else i - 1, if j < pos then j else j - 1;
    assert lines[i0] == InsertedSlot(lines, pos, line, i) && lines[j0] == InsertedSlot(lines, pos, line, j);
  }

  lemma WithoutOrder(lines: seq<QueryLine>, pos: nat, p: Widget, q: Widget)
    requires pos < |lines| && Above(Without(lines, pos), p, q)
    ensures Above(lines, p, q)
  {
    var after := Without(lines, pos);
    var i, j :| 0 <= i < j < |after| && after[i].pointer == p && after[j].pointer == q;
    var i0, j0 := if i < pos then i else i + 1, if j < pos then j else j + 1;
    assert lines[i0] == after[i] && lines[j0] == after[j];
  }

  lemma StepOrder(v: View, e: Event, p: Widget, q: Widget)
    requires Sound(v) && Enabled(v, e) && p < v.next && q < v.next
    requires Above(Next(v, e).lines, p, q)
    ensures Above(v.lines, p, q)
  {
    match e
    case Add =>
      assert InsertedAt(v.lines, |v.lines|, NewLine(v.next)) == v.lines + [NewLine(v.next)];
      InsertedOrder(v.lines, |v.lines|, NewLine(v.next), p, q);
    case Insert => InsertedOrder(v.lines, v.current - 1, NewLine(v.next), p, q);
    case Remove => WithoutOrder(v.lines, v.current - 1, p, q);
    case _ =>
  }

  /** Rows that last through a run never change their order. */
  lemma {:induction false} RunOrder(v: View, events: seq<Event>, p: Widget, q: Widget)
    requires Sound(v) && p < v.next && q < v.next
    requires Above(Run(v, events).lines, p, q)
    ensures Above(v.lines, p, q)
    decreases |events|
  {
    if events == [] {
    } else {
      if Enabled(v, events[0]) {
        NextSound(v, events[0]);
        RunOrder(Next(v, events[0]), events[1..], p, q);
        StepOrder(v, events[0], p, q);
      } else {
        RunOrder(v, events[1..], p, q);
      }
    }
  }

  // ---- the dialog ----

  /** The first `n` rows are labelled with their places. */
  predicate Labelled(lines: seq<QueryLine>, labels: map<Widget, int>, n: nat)
    requires n <= |lines|
  {
    forall i :: 0 <= i < n ==> lines[i].number in labels && labels[lines[i].number] == i + 1
  }

  /** Labelling a row leaves the rows before it labelled. */
  lemma LabelNext(lines: seq<QueryLine>, next: Widget, labels: map<Widget, int>, i: nat)
    requires i < |lines| && Own(lines, next) && Labelled(lines, labels, i)
    ensures Labelled(lines, labels[lines[i].number := i + 1], i + 1)
  {
    forall k | 0 <= k < i ensures lines[k].number != lines[i].number {
      assert Apart(lines[k].pointer, lines[i].pointer);
    }
  }

  lemma AllLabelledInserted(lines: seq<QueryLine>, labels: map<Widget, int>, it: nat, line: QueryLine, place: int)
    requires it <= |lines| && forall i :: 0 <= i < |lines| ==> lines[i].number in labels
    ensures
      var more, after := InsertedAt(lines, it, line), labels[line.number := place];
      forall i :: 0 <= i < |more| ==> more[i].number in after
  {
    InsertedSlots(lines, it, line);
    var more := InsertedAt(lines, it, line);
    assert forall i :: 0 <= i < |more| ==> more[i] == InsertedSlot(lines, it, line, i);
  }

  /** The rows before a new one are labelled as they were, and it with its own place. */
  lemma LabelsBefore(lines: seq<QueryLine>, next: Widget, labels: map<Widget, int>, it: nat, line: QueryLine)
    requires it < |lines| && Labelled(lines, labels, |lines|) && Own(InsertedAt(lines, it, line), next)
    ensures Labelled(InsertedAt(lines, it, line), labels[line.number := it + 1], it + 1)
  {
    var more := InsertedAt(lines, it, line);
    assert more[it] == line && forall k :: 0 <= k < it ==> more[k] == lines[k];
    LabelNext(more, next, labels, it);
  }

  lemma WithoutRows(lines: seq<QueryLine>, it: nat)
    requires it < |lines|
    ensures forall k :: 0 <= k < |lines| - 1 ==> Without(lines, it)[k] == lines[if k < it then k else k + 1]
  {
  }

  lemma LabelsKept(lines: seq<QueryLine>, labels: map<Widget, int>, it: nat)
    requires it < |lines| && Labelled(lines, labels, |lines|)
    ensures Labelled(Without(lines, it), labels, it)
  {
    WithoutRows(lines, it);
  }

  /** Row `i` is labelled with the position of its argument. */
  predicate LabelledAs(lines: seq<QueryLine>, labels: map<Widget, int>, positions: seq<int>)
    requires |lines| == |positions|
  {
    forall i :: 0 <= i < |lines| ==> lines[i].number in labels && labels[lines[i].number] == positions[i]
  }

  lemma LabelledMore(lines: seq<QueryLine>, next: Widget, labels: map<Widget, int>, positions: seq<int>, position: int)
    requires Own(lines, next) && |lines| == |positions| && LabelledAs(lines, labels, positions)
    ensures LabelledAs(lines + [NewLine(next)], labels[next + 1 := position], positions + [position])
  {
  }

  lemma RowsApart(lines: seq<QueryLine>, next: Widget, k: nat, i: nat)
    requires Own(lines, next) && k < |lines| && i < |lines| && k != i
    ensures lines[k].name != lines[i].name && lines[k].typ != lines[i].name
  {
    assert Apart(lines[k].pointer, lines[i].pointer);
  }

  /** A row's name belongs to that row alone. */
  lemma NameLine(lines: seq<QueryLine>, next: Widget, i: nat)
    requires Own(lines, next) && i < |lines|
    ensures LineOf(lines, lines[i].name) == i + 1
  {
    forall k | 0 <= k < |lines| && k != i ensures lines[k].name != lines[i].name && lines[k].typ != lines[i].name {
      RowsApart(lines, next, k, i);
    }
  }

  lemma LayoutAppended(lines: seq<QueryLine>, line: QueryLine)
    ensures Layout(lines + [line]) == Layout(lines) + [line.pointer] + [line.number] + [line.name] + [line.typ]
  {
    assert (lines + [line])[..|lines|] == lines;
  }

  class RetrievalArguments {
    var lines: seq<QueryLine>
    var children: seq<Widget>
    var labels: map<Widget, int>
    var shown: set<Widget>
    var currentLine: int
    var next: Widget

    function Look(): View
      reads this
    {
      View(lines, currentLine, next)
    }

    predicate AllLabelled()
      reads this
    {
      forall i :: 0 <= i < |lines| ==> lines[i].number in labels
    }

    /** Only the current row's pointer is shown. */
    predicate Pointed()
      reads this
    {
      forall i :: 0 <= i < |lines| ==> (lines[i].pointer in shown <==> i == currentLine - 1)
    }

    /** Rows, sizer, current line and pointers are in step. */
    predicate Arranged()
      reads this
    {
      && Sound(Look())
      && children == Layout(lines)
      && Pointed()
      && AllLabelled()
    }

    /** Row `i` is labelled i + 1. */
    predicate Numbered()
      reads this
    {
      Labelled(lines, labels, |lines|)
    }

    method FindLineNumberFromControl(win: Widget) returns (line: int)
      ensures line == LineOf(lines, win)
    {
      for lineNumber := 0 to |lines|
        invariant
          var rest := LineOf(lines[lineNumber..], win);
          LineOf(lines, win) == if rest == -1 then -1 else rest + lineNumber
      {
        assert lines[lineNumber..][1..] == lines[lineNumber + 1..];
        if lines[lineNumber].name == win || lines[lineNumber].typ == win {
          return lineNumber + 1;
        }
      }
      return -1;
    }

    method SetIndicatorLine(activeLine: int)
      requires Own(lines, next)
      modifies this`shown, this`currentLine
      ensures currentLine == activeLine && Pointed()
    {
      var activeIndex := activeLine - 1;
      for lineNumber := 0 to |lines|
        invariant forall i :: 0 <= i < lineNumber ==> (lines[i].pointer in shown <==> i == activeIndex)
      {
        if activeIndex == lineNumber {
          shown := shown + {lines[lineNumber].pointer};
        } else {
          shown := shown - {lines[lineNumber].pointer};
        }
      }
      currentLine := activeLine;
    }

    method OnSetFocus(win: Widget)
      requires Own(lines, next)
      modifies this`shown, this`currentLine
      ensures forall i :: 0 <= i < |lines| && (lines[i].name == win || lines[i].typ == win) ==>
                1 <= currentLine <= i + 1
                && (lines[currentLine - 1].name == win || lines[currentLine - 1].typ == win)
      ensures LineOf(lines, win) != -1 ==> currentLine == LineOf(lines, win) && Pointed()
      ensures LineOf(lines, win) == -1 ==> currentLine == old(currentLine) && shown == old(shown)
    {
      var focusLine := FindLineNumberFromControl(win);
      if 1 <= focusLine <= |lines| {
        SetIndicatorLine(focusLine);
      }
    }

    /** `SetFocus` on the name of a row calls the focus handler. */
    method FocusName(index: nat)
      requires Own(lines, next) && index < |lines|
      modifies this`shown, this`currentLine
      ensures currentLine == index + 1 && Pointed()
    {
      NameLine(lines, next, index);
      OnSetFocus(lines[index].name);
    }

    /** The widgets of a new row behind the others, labelled `position`. */
    method AppendCells(position: int)
      requires Own(lines, next) && children == Layout(lines) && AllLabelled()
      modifies this`lines, this`children, this`labels, this`shown, this`next
      ensures lines == old(lines) + [NewLine(old(next))] && next == old(next) + 4
      ensures Own(lines, next) && children == Layout(lines) && AllLabelled()
      ensures labels == old(labels)[old(next) + 1 := position]
    {
      OwnAppended(lines, next);
      LayoutAppended(lines, NewLine(next));
      var line := NewLine(next);
      next := next + 4;
      shown := shown + {line.pointer};
      labels := labels[line.number := position];
      children := children + [line.pointer];
      children := children + [line.number];
      children := children + [line.name];
      children := children + [line.typ];
      lines := lines + [line];
    }

    /** A row at the end, labelled `position`, gets the focus. */
    method AppendRow(position: int)
      requires Arranged()
      modifies this
      ensures Arranged() && Look() == Next(old(Look()), Add)
      ensures labels == old(labels)[old(next) + 1 := position]
    {
      AppendCells(position);
      FocusName(|lines| - 1);
    }

    /** The rows for the arguments, labelled with their positions; focus ends on the last one. */
    constructor (positions: seq<int>)
      ensures Arranged() && |lines| == |positions| && currentLine == |positions|
      ensures Numbered() <==> forall i :: 0 <= i < |positions| ==> positions[i] == i + 1
    {
      lines, children, labels, shown, currentLine, next := [], PLACEHOLDERS, map[], {}, 0, 4;
      new;
      for k := 0 to |positions|
        invariant Arranged() && |lines| == k && currentLine == k && LabelledAs(lines, labels, positions[..k])
      {
        LabelledMore(lines, next, labels, positions[..k], positions[k]);
        assert positions[..k + 1] == positions[..k] + [positions[k]];
        AppendRow(positions[k]);
      }
      assert positions[..|positions|] == positions;
    }

    /** A new row at the end; it is current. */
    method OnAddArgument()
      requires Arranged()
      modifies this
      ensures Arranged() && Look() == Next(old(Look()), Add)
      ensures lines[..|lines| - 1] == old(lines) && currentLine == |lines|
      ensures old(Numbered()) ==> Numbered()
    {
      AppendRow(|lines| + 1);
    }

    /** The four insertions into the sizer. */
    method InsertCells(it: nat, line: QueryLine)
      requires children == Layout(lines) && it <= |lines|
      modifies this`children
      ensures children == Layout(InsertedAt(lines, it, line))
    {
      LayoutInserted(lines, it, line);
      var pos := 4 * (it + 1);
      children := InsertedAt(children, pos, line.pointer);
      children := InsertedAt(children, pos + 1, line.number);
      children := InsertedAt(children, pos + 2, line.name);
      children := InsertedAt(children, pos + 3, line.typ);
    }

    /** The widgets of a new row are made and put before row `it`. */
    method InsertRow(it: nat)
      requires Own(lines, next) && children == Layout(lines) && it < |lines| && AllLabelled() && it == currentLine - 1
      modifies this`lines, this`children, this`labels, this`shown, this`next
      ensures lines == InsertedAt(old(lines), it, NewLine(old(next))) && next == old(next) + 4
      ensures Own(lines, next) && children == Layout(lines)
      ensures AllLabelled() && (old(Numbered()) ==> Labelled(lines, labels, it + 1))
    {
      OwnInserted(lines, next, it);
      AllLabelledInserted(lines, labels, it, NewLine(next), currentLine);
      if Numbered() {
        LabelsBefore(lines, next + 4, labels, it, NewLine(next));
      }
      var line := NewLine(next);
      next := next + 4;
      shown := shown + {line.pointer};
      labels := labels[line.number := currentLine];
      InsertCells(it, line);
      lines := InsertedAt(lines, it, line);
    }

    /** The new row is in place and has the focus. */
    method PutRow()
      requires Arranged() && lines != []
      modifies this
      ensures Arranged() && Look() == Next(old(Look()), Insert)
      ensures old(Numbered()) ==> Labelled(lines, labels, currentLine)
    {
      var it := currentLine - 1;
      InsertRow(it);
      FocusName(it);
    }

    /** The loops that write the labels from row `from` on. */
    method Renumber(from: nat, first: int)
      requires from <= |lines| && Own(lines, next) && AllLabelled()
      modifies this`labels
      ensures AllLabelled()
      ensures Labelled(lines, old(labels), from) && first == from + 1 ==> Numbered()
    {
      var counter := first;
      for i := from to |lines|
        invariant AllLabelled()
        invariant Labelled(lines, old(labels), from) && first == from + 1 ==>
                    counter == i + 1 && Labelled(lines, labels, i)
      {
        if Labelled(lines, labels, i) {
          LabelNext(lines, next, labels, i);
        }
        labels := labels[lines[i].number := counter];
        counter := counter + 1;
      }
    }

    /** The old current row and those behind it move down by one place; their labels are written anew. */
    method OnInsertArgument()
      requires Arranged() && lines != []
      modifies this
      ensures Arranged() && Look() == Next(old(Look()), Insert)
      ensures currentLine == old(currentLine) && |lines| == old(|lines|) + 1
      ensures lines[..currentLine - 1] == old(lines)[..currentLine - 1]
              && lines[currentLine..] == old(lines)[currentLine - 1..]
      ensures old(Numbered()) ==> Numbered()
    {
      var position := labels[lines[currentLine - 1].number];
      PutRow();
      Renumber(currentLine, position + 1);
    }

    /** The widgets of row `it` are destroyed and its line erased. */
    method EraseRow(it: nat)
      requires Own(lines, next) && children == Layout(lines) && it < |lines| && AllLabelled()
      modifies this`lines, this`children
      ensures lines == Without(old(lines), it) && Own(lines, next) && children == Layout(lines)
      ensures AllLabelled() && (old(Numbered()) ==> Labelled(lines, labels, it))
    {
      WithoutRows(lines, it);
      if Numbered() {
        LabelsKept(lines, labels, it);
      }
      LayoutDropped(lines, next, it);
      OwnWithout(lines, next, it);
      children := Dropped(children, lines[it].pointer);
      children := Dropped(children, lines[it].name);
      children := Dropped(children, lines[it].number);
      children := Dropped(children, lines[it].typ);
      lines := lines[..it] + lines[it + 1..];
    }

    /** The current line moves up when the last row has gone, and the rows from it on are labelled. */
    method Settle()
      requires Own(lines, next) && AllLabelled() && 1 <= currentLine <= |lines| + 1
      modifies this`labels, this`currentLine
      ensures AllLabelled()
      ensures currentLine
           == if lines != [] && old(currentLine) > |lines| then old(currentLine) - 1 else old(currentLine)
      ensures Labelled(lines, old(labels), old(currentLine) - 1) ==> Numbered()
    {
      var counter := currentLine;
      var it := currentLine - 1;
      if |lines| > 0 {
        if it == |lines| {
          it := it - 1;
          counter := counter - 1;
          currentLine := currentLine - 1;
        }
        Renumber(it, counter);
      }
    }

    method SetActiveLine(line: int)
      requires Own(lines, next)
      modifies this`shown, this`currentLine
      ensures 1 <= line <= |lines| ==> currentLine == line && Pointed()
      ensures !(1 <= line <= |lines|) ==> currentLine == old(currentLine) && shown == old(shown)
    {
      var index := line - 1;
      if index < 0 || index >= |lines| {
        return;
      }
      FocusName(index);
    }

    /** The current row is gone and the rows behind it are labelled; the pointers are still to be set. */
    method DropRow()
      requires Arranged() && lines != []
      modifies this`lines, this`children, this`labels, this`currentLine
      ensures Sound(Look()) && Look() == Next(old(Look()), Remove)
      ensures children == Layout(lines) && AllLabelled() && (old(Numbered()) ==> Numbered())
      ensures lines == old(lines)[..old(currentLine) - 1] + old(lines)[old(currentLine)..]
      ensures currentLine == if 1 <= |lines| < old(currentLine) then |lines| else old(currentLine)
    {
      NextSound(Look(), Remove);
      EraseRow(currentLine - 1);
      Settle();
    }

    /** The current row goes; the one behind it is current, or the new last one. */
    method OnRemoveArgument()
      requires Arranged() && lines != []
      modifies this
      ensures Arranged() && Look() == Next(old(Look()), Remove)
      ensures lines == old(lines)[..old(currentLine) - 1] + old(lines)[old(currentLine)..]
      ensures currentLine == if 1 <= |lines| < old(currentLine) then |lines| else old(currentLine)
      ensures old(Numbered()) ==> Numbered()
    {
      DropRow();
      SetActiveLine(currentLine);
    }

    method OnKeyDown(up: bool, down: bool)
      requires Arranged()
      modifies this`shown, this`currentLine
      ensures Arranged()
      ensures Look() == if up then Next(old(Look()), Up) else if down then Next(old(Look()), Down) else old(Look())
      ensures up && old(currentLine) >= 2 ==> currentLine == old(currentLine) - 1
      ensures !up && down && old(currentLine) < |lines| ==> currentLine == old(currentLine) + 1
      ensures !(up && old(currentLine) >= 2) && !(!up && down && old(currentLine) < |lines|) ==>
                currentLine == old(currentLine) && shown == old(shown)
    {
      if up {
        SetActiveLine(currentLine - 1);
      } else if down {
        SetActiveLine(currentLine + 1);
      }
    }

    method OnKillFocus(text: bool, button: bool, panel: bool)
      requires Arranged()
      modifies this`shown, this`currentLine
      ensures Arranged() && Look() == Next(old(Look()), LeftFor(text, button, panel))
      ensures button && panel && lines != [] ==> currentLine == 1
      ensures !(button && panel && lines != []) ==> currentLine == old(currentLine) && shown == old(shown)
    {
      if button && panel {
        if |lines| > 0 {
          FocusName(0);
        }
      }
    }

    /** A click on one of the three buttons. */
    method HandleClick(e: Event)
      requires Arranged() && Enabled(Look(), e) && (e.Add? || e.Insert? || e.Remove?)
      modifies this
      ensures Arranged() && Look() == Next(old(Look()), e)
      ensures old(Numbered()) ==> Numbered()
    {
      if e.Add? {
        OnAddArgument();
      } else if e.Insert? {
        OnInsertArgument();
      } else {
        OnRemoveArgument();
      }
    }

    /** One event. */
    method Handle(e: Event)
      requires Arranged() && Enabled(Look(), e)
      modifies this
      ensures Arranged() && Look() == Next(old(Look()), e)
      ensures old(Numbered()) ==> Numbered()
    {
      match e
      case Focused(win) => OnSetFocus(win);
      case Up => OnKeyDown(true, false);
      case Down => OnKeyDown(false, true);
      case LeftFor(text, button, panel) => OnKillFocus(text, button, panel);
      case _ => HandleClick(e);
    }

    /** In every run everything stays in step. */
    method HandleAll(events: seq<Event>)
      requires Arranged()
      modifies this
      ensures Arranged() && Look() == Run(old(Look()), events)
      ensures old(Numbered()) ==> Numbered()
    {
      for k := 0 to |events|
        invariant old(Numbered()) ==> Numbered()
        invariant Arranged() && Run(Look(), events[k..]) == Run(old(Look()), events)
      {
        assert events[k..][0] == events[k] && events[k..][1..] == events[k + 1..];
        if Enabled(Look(), events[k]) {
          Handle(events[k]);
        }
      }
    }
  }
}
