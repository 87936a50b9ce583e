/**
  The strip of field boxes (`FieldWindow`): where the boxes stand, and what dragging one does to
  the list of names.
 */
module FieldStrip {
  import opened Wrappers
  import opened Seqs
  import opened RecordVector
  import opened FieldLists

  /** A box of the strip and the name in it. */
  datatype FieldWin = FieldWin(name: string, left: int, width: nat) {
    /** `wxRect::GetRight`: the last column that belongs to the box. */
    function Right(): int {
      left + width - 1
    }

    function Middle(): int
      requires width > 0
    {
      (Right() - left) / 2 + left
    }
  }

  /** The width the text of a name needs. */
  type Measure = string -> nat

  /** Where the next box goes behind boxes for `names`: ten, and each width with a gap of five. */
  function NextX(names: seq<string>, w: Measure): int {
    if names == [] then 10
    else NextX(names[..|names| - 1], w) + w(names[|names| - 1]) + 5
  }

  /** The boxes for a list of names, side by side. */
  function Placed(names: seq<string>, w: Measure): (shapes: seq<FieldWin>)
    ensures |shapes| == |names|
    ensures forall i :: 0 <= i < |names| ==> shapes[i] == FieldWin(names[i], NextX(names[..i], w), w(names[i]))
  {
    seq(|names|, i requires 0 <= i < |names| => FieldWin(names[i], NextX(names[..i], w), w(names[i])))
  }

  /** One more name is one more box behind the others. */
  lemma PlacedMore(names: seq<string>, name: string, w: Measure)
    ensures Placed(names + [name], w) == Placed(names, w) + [FieldWin(name, NextX(names, w), w(name))]
    ensures NextX(names + [name], w) == NextX(names, w) + w(name) + 5
  {
    var more := names + [name];
    assert more[..|names|] == names;
    forall i | 0 <= i < |names| ensures more[..i] == names[..i] {
    }
  }

  /** The first box is at column ten, and each has five free columns between its last one and the next box. */
  lemma SideBySide(names: seq<string>, w: Measure, i: nat)
    requires i < |names|
    ensures Placed(names, w)[0].left == 10
    ensures i + 1 < |names| ==> Placed(names, w)[i + 1].left - Placed(names, w)[i].Right() == 6
  {
    assert names[..0] == [];
    if i + 1 < |names| {
      assert names[..i + 1][..i] == names[..i];
    }
  }

  /** A box behind others of the list starts at least five beyond each of them. */
  lemma {:induction false} LeftsGrow(names: seq<string>, w: Measure, i: nat, j: nat)
    requires i < j <= |names|
    ensures NextX(names[..i], w) + w(names[i]) + 5 <= NextX(names[..j], w)
    ensures j == i + 1 ==> NextX(names[..i], w) + w(names[i]) + 5 == NextX(names[..j], w)
    ensures j > i + 1 ==> NextX(names[..i], w) + w(names[i]) + 5 < NextX(names[..j], w)
    decreases j
  {
    assert names[..j][..j - 1] == names[..j - 1];
    if j == i + 1 {
    } else {
      LeftsGrow(names, w, i, j - 1);
    }
  }

  /** The test of the drag code holds exactly for a box and the one right behind it. */
  lemma Neighbours(names: seq<string>, w: Measure, i: nat, j: nat)
    requires i < |names| && j < |names|
    ensures Placed(names, w)[i].Right() + 6 == Placed(names, w)[j].left <==> j == i + 1
  {
    LeftsGrow(names, w, i, i + 1);
    if j <= i {
      if j < i {
        LeftsGrow(names, w, j, i);
      }
    } else {
      LeftsGrow(names, w, i, j);
    }
  }

  /** The column is one of the box. */
  predicate Under(shape: FieldWin, x: int) {
    shape.left <= x <= shape.Right()
  }

  /** Boxes do not overlap: a column is in at most one of them. */
  lemma OneBoxAt(names: seq<string>, w: Measure, i: nat, j: nat, x: int)
    requires i < j < |names|
    ensures !(Under(Placed(names, w)[i], x) && Under(Placed(names, w)[j], x))
  {
    LeftsGrow(names, w, i, j);
  }

  // ---- what a drag should do to the names ----

  /** The list with the name moved to its end. */
  function MovedToEnd(names: seq<string>, name: string): seq<string> {
    Without(names, name) + [name]
  }

  /** The list with the name moved right behind the target. */
  function MovedBehind(names: seq<string>, name: string, target: string): seq<string>
    requires target in Without(names, name)
  {
    var rest := Without(names, name);
    InsertedAt(rest, IndexOf(rest, target) + 1, name)
  }

  /** The list with the name moved right before the target. */
  function MovedBefore(names: seq<string>, name: string, target: string): seq<string>
    requires target in Without(names, name)
  {
    var rest := Without(names, name);
    InsertedAt(rest, IndexOf(rest, target), name)
  }

  /** Nothing but the place of `name` differs. */
  predicate OnlyMoves(names: seq<string>, name: string, after: seq<string>) {
    multiset(after) == multiset(names) && Without(after, name) == Without(names, name)
  }

  lemma CountOut(names: seq<string>, name: string)
    requires NoRepeats(names) && name in names
    ensures multiset(Without(names, name)) + multiset{name} == multiset(names)
  {
    WithoutCount(names, name);
    CountOnce(names, name);
  }

  lemma EndMoves(names: seq<string>, name: string)
    requires NoRepeats(names) && name in names
    ensures OnlyMoves(names, name, MovedToEnd(names, name))
  {
    CountOut(names, name);
    WithoutAbsent(names, name);
    WithoutLast(Without(names, name), name);
  }

  /** The names after box `i` has been dropped on empty space. */
  function DropOff(names: seq<string>, i: nat): seq<string>
    requires i < |names|
  {
    if names[i] == names[|names| - 1] then names else MovedToEnd(names, names[i])
  }

  lemma LastInPlace(names: seq<string>, i: nat)
    requires i == |names| - 1
    ensures names[..i] + names[i + 1..] + [names[i]] == names
  {
  }

  lemma {:induction false} IndexFirst(s: seq<string>, x: string, k: nat)
    requires k < |s| && s[k] == x && x !in s[..k]
    ensures IndexOf(s, x) == k
    decreases k
  {
    if k == 0 {
    } else {
      assert s[..k] == [s[0]] + s[1..][..k - 1];
      IndexFirst(s[1..], x, k - 1);
    }
  }

  lemma RestAround(names: seq<string>, i: nat)
    requires NoRepeats(names) && i < |names|
    ensures Without(names, names[i]) == names[..i] + names[i + 1..] && |Without(names, names[i])| == |names| - 1
  {
    WithoutAround(names, names[i]);
    IndexFirst(names, names[i], i);
  }

  /** A drop on empty space is a permutation that moves only this field, to the end. */
  lemma DropAtEnd(names: seq<string>, i: nat)
    requires NoRepeats(names) && i < |names|
    ensures DropOff(names, i) == MovedToEnd(names, names[i]) && OnlyMoves(names, names[i], DropOff(names, i))
  {
    EndMoves(names, names[i]);
    if names[i] == names[|names| - 1] {
      RestAround(names, i);
      LastInPlace(names, i);
    }
  }

  lemma InsertMoves(names: seq<string>, name: string, pos: nat)
    requires NoRepeats(names) && name in names && pos <= |Without(names, name)|
    ensures OnlyMoves(names, name, InsertedAt(Without(names, name), pos, name))
  {
    CountOut(names, name);
    WithoutAbsent(names, name);
    WithoutInserted(Without(names, name), pos, name);
    InsertedCount(Without(names, name), pos, name);
  }

  lemma StaysIn(names: seq<string>, name: string, target: string)
    requires target in names && target != name
    ensures target in Without(names, name)
  {
    WithoutCount(names, name);
    assert multiset(names)[target] > 0;
    assert multiset(Without(names, name))[target] > 0;
  }

  lemma IndexKept(s: seq<string>, target: string, pos: nat, x: string)
    requires target in s && IndexOf(s, target) < pos <= |s|
    ensures IndexOf(InsertedAt(s, pos, x), target) == IndexOf(s, target)
    ensures InsertedAt(s, pos, x)[pos] == x
  {
    var r, k := InsertedAt(s, pos, x), IndexOf(s, target);
    assert r[..k] == s[..k] && r[k] == target;
    IndexFirst(r, target, k);
  }

  /** Behind the target means in the place after it, and only the one name moves. */
  lemma BehindMoves(names: seq<string>, name: string, target: string)
    requires NoRepeats(names) && name in names && target in names && target != name
    ensures target in Without(names, name)
    ensures
      var r := MovedBehind(names, name, target);
      OnlyMoves(names, name, r) && IndexOf(r, target) + 1 < |r| && r[IndexOf(r, target) + 1] == name
  {
    StaysIn(names, name, target);
    var rest := Without(names, name);
    var k := IndexOf(rest, target);
    InsertMoves(names, name, k + 1);
    IndexKept(rest, target, k + 1, name);
  }

  lemma IndexOwn(s: seq<string>, k: nat)
    requires NoRepeats(s) && k < |s|
    ensures IndexOf(s, s[k]) == k
  {
    IndexFirst(s, s[k], k);
  }

  lemma RestAt(names: seq<string>, i: nat, k: nat)
    requires i < |names| && k < |names| - 1
    ensures (names[..i] + names[i + 1..])[k] == names[if k < i then k else k + 1]
  {
  }

  /** Where a name stands when name `i` is taken out. */
  lemma RestIndex(names: seq<string>, i: nat, j: nat)
    requires NoRepeats(names) && i < |names| && j < |names| && i != j
    ensures names[j] in Without(names, names[i])
    ensures IndexOf(Without(names, names[i]), names[j]) == if j < i then j else j - 1
  {
    WithoutNoRepeats(names, names[i]);
    RestAround(names, i);
    var k := if j < i then j else j - 1;
    RestAt(names, i, k);
    IndexOwn(Without(names, names[i]), k);
  }

  /** Moving a name behind the one it follows changes nothing. */
  lemma BehindSame(names: seq<string>, j: nat)
    requires NoRepeats(names) && j + 1 < |names|
    ensures names[j] in Without(names, names[j + 1]) && MovedBehind(names, names[j + 1], names[j]) == names
  {
    PutBack(names, j + 1);
    RestAround(names, j + 1);
    RestIndex(names, j + 1, j);
  }

  /** Moving a name before the one that follows it changes nothing. */
  lemma BeforeSame(names: seq<string>, i: nat)
    requires NoRepeats(names) && i + 1 < |names|
    ensures names[i + 1] in Without(names, names[i]) && MovedBefore(names, names[i], names[i + 1]) == names
  {
    PutBack(names, i);
    RestAround(names, i);
    RestIndex(names, i, i + 1);
  }

  lemma OneTooEarly(rest: seq<string>, name: string, k: nat)
    requires 1 <= k <= |rest| && name !in rest
    ensures InsertedAt(rest, k - 1, name) != InsertedAt(rest, k, name)
  {
    assert InsertedAt(rest, k - 1, name)[k - 1] == name && InsertedAt(rest, k, name)[k - 1] == rest[k - 1];
  }

  // ---- a drop on a box ----

  datatype Direction = UNINITIALIZED | BEFORE | AFTER

  /** Which half of the box the mouse is on; the exact middle is neither. */
  function Half(shape: FieldWin, x: int): Direction
    requires Under(shape, x)
  {
    if x > shape.Middle() then AFTER else if x < shape.Middle() then BEFORE else UNINITIALIZED
  }

  /**
    The right half are the columns nearer to the right edge, the left half those nearer to the left one by two columns
    at least; a column or two in the middle are neither.
   */
  lemma HalfMeans(shape: FieldWin, x: int)
    requires Under(shape, x)
    ensures
      var last := shape.left + shape.width - 1;
      && (Half(shape, x) == AFTER <==> x - shape.left > last - x)
      && (Half(shape, x) == BEFORE <==> x - shape.left + 1 < last - x)
  {
  }

  /** The test for a drop that would leave the field where it is. */
  predicate StaysPut(dragger: FieldWin, shape: FieldWin, x: int)
    requires shape.width > 0
  {
    || (x > shape.left && x < shape.Middle() && dragger.Right() + 6 == shape.left)
    || (x < shape.Right() && x > shape.Middle() && shape.Right() + 6 == dragger.left)
  }

  /**
    `find` and `insert` on the list without the dragged name; `None` when the insertion point is
    outside the list.
   */
  function Inserted(rest: seq<string>, name: string, target: string, dirs: Direction): Option<seq<string>> {
    var it := IndexOf(rest, target);
    match dirs
    case AFTER => if it + 1 > |rest| then None else Some(InsertedAt(rest, it + 1, name))
    case BEFORE => if it < 1 then None else Some(InsertedAt(rest, it - 1, name))
    case UNINITIALIZED => Some(rest)
  }

  /** The names in a strip, from left to right. */
  function NamesIn(shapes: seq<FieldWin>): (names: seq<string>)
    ensures |names| == |shapes| && forall i :: 0 <= i < |shapes| ==> names[i] == shapes[i].name
  {
    Map(shapes, (f: FieldWin) => f.name)
  }

  lemma NamesPlaced(names: seq<string>, w: Measure)
    ensures NamesIn(Placed(names, w)) == names
  {
  }

  /** The names after box `i` of a strip has been dropped on box `j`, wherever the boxes stand. */
  function DropOn(shapes: seq<FieldWin>, i: nat, j: nat, x: int): Option<seq<string>>
    requires i < |shapes| && j < |shapes| && Under(shapes[j], x)
  {
    if StaysPut(shapes[i], shapes[j], x) then Some(NamesIn(shapes))
    else Inserted(Without(NamesIn(shapes), shapes[i].name), shapes[i].name, shapes[j].name, Half(shapes[j], x))
  }

  /** The drop leaves the field where it is: on the near side of the box next to it. */
  predicate OnNearSide(names: seq<string>, w: Measure, i: nat, j: nat, x: int)
    requires i < |names| && j < |names| && Under(Placed(names, w)[j], x)
  {
    match Half(Placed(names, w)[j], x)
    case AFTER => i == j + 1 && x < Placed(names, w)[j].Right()
    case BEFORE => j == i + 1 && x > Placed(names, w)[j].left
    case UNINITIALIZED => false
  }

  lemma StaysNear(names: seq<string>, w: Measure, i: nat, j: nat, x: int)
    requires i < |names| && j < |names| && Under(Placed(names, w)[j], x)
    ensures StaysPut(Placed(names, w)[i], Placed(names, w)[j], x) <==> OnNearSide(names, w, i, j, x)
  {
    Neighbours(names, w, i, j);
    Neighbours(names, w, j, i);
  }

  lemma DropFar(names: seq<string>, w: Measure, i: nat, j: nat, x: int, half: Direction)
    requires i < |names| && j < |names| && Under(Placed(names, w)[j], x) && Half(Placed(names, w)[j], x) == half
    ensures DropOn(Placed(names, w), i, j, x) == if OnNearSide(names, w, i, j, x) then Some(names)
                                         else Inserted(Without(names, names[i]), names[i], names[j], half)
  {
    NamesPlaced(names, w);
    StaysNear(names, w, i, j, x);
  }

  lemma InsertedBehind(names: seq<string>, i: nat, j: nat)
    requires NoRepeats(names) && i < |names| && j < |names| && i != j
    ensures names[j] in Without(names, names[i])
    ensures Inserted(Without(names, names[i]), names[i], names[j], AFTER)
         == Some(MovedBehind(names, names[i], names[j]))
  {
    RestIndex(names, i, j);
  }

  /** A drop on the right half of another box puts the field right behind it. */
  lemma DropBehind(names: seq<string>, w: Measure, i: nat, j: nat, x: int)
    requires NoRepeats(names) && i < |names| && j < |names| && i != j
    requires Under(Placed(names, w)[j], x) && Half(Placed(names, w)[j], x) == AFTER
    ensures names[j] in Without(names, names[i])
    ensures DropOn(Placed(names, w), i, j, x) == Some(MovedBehind(names, names[i], names[j]))
  {
    InsertedBehind(names, i, j);
    if i == j + 1 {
      BehindSame(names, j);
    }
    DropFar(names, w, i, j, x, AFTER);
  }

  /** The place the code inserts at for a drop on the left half is never right before the target. */
  lemma InsertedEarly(rest: seq<string>, name: string, target: string)
    requires name !in rest && target in rest
    ensures Inserted(rest, name, target, BEFORE) != Some(InsertedAt(rest, IndexOf(rest, target), name))
  {
    var k := IndexOf(rest, target);
    if k >= 1 {
      OneTooEarly(rest, name, k);
    }
  }

  lemma InsertedBefore(names: seq<string>, i: nat, j: nat)
    requires NoRepeats(names) && i < |names| && j < |names| && i != j
    ensures names[j] in Without(names, names[i])
    ensures Inserted(Without(names, names[i]), names[i], names[j], BEFORE)
         != Some(MovedBefore(names, names[i], names[j]))
  {
    WithoutAbsent(names, names[i]);
    RestIndex(names, i, j);
    InsertedEarly(Without(names, names[i]), names[i], names[j]);
  }

  /**
    A drop on the left half of another box puts the field right before it only where it already
    is; everywhere else it lands one place too early, or outside the list.
   */
  lemma DropBefore(names: seq<string>, w: Measure, i: nat, j: nat, x: int)
    requires NoRepeats(names) && i < |names| && j < |names| && i != j
    requires Under(Placed(names, w)[j], x) && Half(Placed(names, w)[j], x) == BEFORE
    ensures names[j] in Without(names, names[i])
    ensures DropOn(Placed(names, w), i, j, x) == Some(MovedBefore(names, names[i], names[j]))
       <==> j == i + 1 && x > Placed(names, w)[j].left
  {
    InsertedBefore(names, i, j);
    if j == i + 1 {
      BeforeSame(names, i);
    }
    DropFar(names, w, i, j, x, BEFORE);
  }

  lemma EarlyPlace(rest: seq<string>, name: string, target: string)
    requires target in rest && IndexOf(rest, target) > 0
    ensures
      var k := IndexOf(rest, target);
      var r := Inserted(rest, name, target, BEFORE);
      && r == Some(InsertedAt(rest, k - 1, name)) && |r.value| == |rest| + 1
      && r.value[k - 1] == name && r.value[k + 1] == target
  {
  }

  /** The drop on the left half has put the field one name too early. */
  predicate TooEarly(names: seq<string>, i: nat, j: nat, r: seq<string>)
    requires i < |names| && j < |names| && i != j
  {
    var k := if j < i then j else j - 1;
    && 0 < k && |r| == |names| && r[k - 1] == names[i] && r[k + 1] == names[j] && OnlyMoves(names, names[i], r)
  }

  lemma EarlyMoves(names: seq<string>, i: nat, j: nat)
    requires NoRepeats(names) && i < |names| && j < |names| && i != j
    ensures
      var r := Inserted(Without(names, names[i]), names[i], names[j], BEFORE);
      if (if j < i then j else j - 1) == 0 then r == None else r.Some? && TooEarly(names, i, j, r.value)
  {
    var k := if j < i then j else j - 1;
    RestIndex(names, i, j);
    RestAround(names, i);
    if k > 0 {
      EarlyPlace(Without(names, names[i]), names[i], names[j]);
      InsertMoves(names, names[i], k - 1);
    }
  }

  /**
    Where it lands otherwise: one name before the right place, with a name between it and the box, or outside the list
    when the box is the first of the others.
   */
  lemma DropTooEarly(names: seq<string>, w: Measure, i: nat, j: nat, x: int)
    requires NoRepeats(names) && i < |names| && j < |names| && i != j
    requires Under(Placed(names, w)[j], x) && Half(Placed(names, w)[j], x) == BEFORE
    requires !(j == i + 1 && x > Placed(names, w)[j].left)
    ensures
      var r := DropOn(Placed(names, w), i, j, x);
      if (if j < i then j else j - 1) == 0 then r == None else r.Some? && TooEarly(names, i, j, r.value)
  {
    EarlyMoves(names, i, j);
    DropFar(names, w, i, j, x, BEFORE);
  }

  lemma InsertedThere(s: seq<string>, pos: nat, x: string)
    requires pos <= |s|
    ensures InsertedAt(s, pos, x)[pos] == x
  {
  }

  lemma InsertedAlone(names: seq<string>, i: nat, half: Direction)
    requires NoRepeats(names) && i < |names|
    ensures Inserted(Without(names, names[i]), names[i], names[i], half) == Some(names)
       <==> half == BEFORE && i + 2 == |names|
  {
    var rest := Without(names, names[i]);
    WithoutAbsent(names, names[i]);
    RestAround(names, i);
    PutBack(names, i);
    if half == BEFORE && |rest| >= 1 {
      InsertedThere(rest, |rest| - 1, names[i]);
    }
  }

  /** A field dropped on its own box stays where it is only on the left half, from the last place but one. */
  lemma DropOnItself(names: seq<string>, w: Measure, i: nat, x: int)
    requires NoRepeats(names) && i < |names| && Under(Placed(names, w)[i], x)
    ensures DropOn(Placed(names, w), i, i, x) == Some(names)
       <==> Half(Placed(names, w)[i], x) == BEFORE && i + 2 == |names|
  {
    var half := Half(Placed(names, w)[i], x);
    InsertedAlone(names, i, half);
    DropFar(names, w, i, i, x, half);
  }

  /** A drop on the exact middle of a box loses the field. */
  lemma DropInMiddle(names: seq<string>, w: Measure, i: nat, j: nat, x: int)
    requires NoRepeats(names) && i < |names| && j < |names|
    requires Under(Placed(names, w)[j], x) && Half(Placed(names, w)[j], x) == UNINITIALIZED
    ensures DropOn(Placed(names, w), i, j, x) == Some(names[..i] + names[i + 1..])
  {
    RestAround(names, i);
    DropFar(names, w, i, j, x, UNINITIALIZED);
  }

  lemma BehindOnly(names: seq<string>, i: nat, j: nat)
    requires NoRepeats(names) && i < |names| && j < |names| && i != j && names[j] in Without(names, names[i])
    ensures MovedBehind(names, names[i], names[j]) == names <==> i == j + 1
  {
    RestIndex(names, i, j);
    var rest := Without(names, names[i]);
    InsertedThere(rest, IndexOf(rest, names[j]) + 1, names[i]);
    if i == j + 1 {
      BehindSame(names, j);
    }
  }

  /**
    On any strip, side by side or not, a drop on the right half of another box puts the field right
    behind it exactly when the test for a drop in place does not take a box elsewhere for the next one.
   */
  lemma DropBehindAnywhere(shapes: seq<FieldWin>, i: nat, j: nat, x: int)
    requires NoRepeats(NamesIn(shapes)) && i < |shapes| && j < |shapes| && i != j
    requires Under(shapes[j], x) && Half(shapes[j], x) == AFTER
    ensures shapes[j].name in Without(NamesIn(shapes), shapes[i].name)
    ensures DropOn(shapes, i, j, x) == Some(MovedBehind(NamesIn(shapes), shapes[i].name, shapes[j].name))
       <==> (StaysPut(shapes[i], shapes[j], x) ==> i == j + 1)
  {
    InsertedBehind(NamesIn(shapes), i, j);
    BehindOnly(NamesIn(shapes), i, j);
  }

  lemma LastBox(shapes: seq<FieldWin>, a: FieldWin, b: FieldWin)
    ensures shapes + [a] == shapes + [b] <==> a == b
  {
    assert (shapes + [a])[|shapes|] == a && (shapes + [b])[|shapes|] == b;
  }

  /** A box at `x` behind the boxes of a list is the one of the next name exactly when `x` is the next place. */
  lemma AlignedMore(names: seq<string>, name: string, w: Measure, x: int)
    ensures Placed(names, w) + [FieldWin(name, x, w(name))] == Placed(names + [name], w) <==> x == NextX(names, w)
    ensures x + w(name) + 5 == NextX(names + [name], w) <==> x == NextX(names, w)
  {
    PlacedMore(names, name, w);
    LastBox(Placed(names, w), FieldWin(name, x, w(name)), FieldWin(name, NextX(names, w), w(name)));
  }

  lemma BoxNamesMore(shapes: seq<FieldWin>, field: FieldWin)
    ensures NamesIn(shapes + [field]) == NamesIn(shapes) + [field.name]
  {
  }

  lemma NextName(before: seq<string>, names: seq<string>, i: nat)
    requires i < |names|
    ensures before + names[..i] + [names[i]] == before + names[..i + 1]
  {
  }

  // ---- the window ----

  class FieldWindow {
    const measure: Measure
    var startX: int
    var shapes: seq<FieldWin>
    var selectedFields: seq<string>
    var isDragging: bool
    var draggingField: Option<FieldWin>

    /** The boxes are those of the names, side by side. */
    ghost predicate Aligned()
      reads this
    {
      shapes == Placed(selectedFields, measure)
    }

    /** The boxes are those of the names, wherever they stand. */
    predicate Named()
      reads this
    {
      NamesIn(shapes) == selectedFields
    }

    /** The next box will go behind the last one. */
    ghost predicate Ready()
      reads this
    {
      startX == NextX(selectedFields, measure)
    }

    constructor (measure: Measure)
      ensures Aligned() && Ready() && selectedFields == [] && !isDragging && draggingField == None
    {
      this.measure := measure;
      startX, shapes, selectedFields, isDragging, draggingField := 10, [], [], false, None;
    }

    /** The boxes stay side by side exactly when the next place was up to date. */
    method AddField(fieldName: string)
      modifies this`startX, this`shapes, this`selectedFields
      ensures selectedFields == old(selectedFields) + [fieldName]
      ensures shapes == old(shapes) + [FieldWin(fieldName, old(startX), measure(fieldName))]
      ensures startX == old(startX) + measure(fieldName) + 5
      ensures old(Aligned()) ==> (Aligned() <==> old(Ready())) && (Ready() <==> old(Ready()))
      ensures old(Named()) ==> Named()
    {
      AlignedMore(selectedFields, fieldName, measure, startX);
      var field := FieldWin(fieldName, startX, measure(fieldName));
      BoxNamesMore(shapes, field);
      shapes := shapes + [field];
      startX := startX + field.width + 5;
      selectedFields := selectedFields + [field.name];
    }

    /** Adding names one at a time comes to the same as one rebuild. */
    method AddAll(names: seq<string>)
      requires Aligned() && Ready()
      modifies this`startX, this`shapes, this`selectedFields
      ensures Aligned() && Ready() && selectedFields == old(selectedFields) + names
    {
      for i := 0 to |names|
        invariant Aligned() && Ready() && selectedFields == old(selectedFields) + names[..i]
      {
        NextName(old(selectedFields), names, i);
        AddField(names[i]);
      }
      assert names[..|names|] == names;
    }

    method RemoveField(names: seq<string>)
      modifies this`startX, this`shapes, this`selectedFields
      ensures Aligned() && Ready() && selectedFields == names
    {
      startX := 10;
      shapes := [];
      selectedFields := [];
      AddAll(names);
    }

    /** The rebuild of the drag code: boxes for the names there are. */
    method Rebuild()
      modifies this`startX, this`shapes
      ensures Aligned() && Ready()
    {
      startX := 10;
      shapes := [];
      for i := 0 to |selectedFields|
        invariant shapes == Placed(selectedFields[..i], measure) && startX == NextX(selectedFields[..i], measure)
      {
        PlacedMore(selectedFields[..i], selectedFields[i], measure);
        assert selectedFields[..i + 1] == selectedFields[..i] + [selectedFields[i]];
        var field := FieldWin(selectedFields[i], startX, measure(selectedFields[i]));
        shapes := shapes + [field];
        startX := startX + field.width + 5;
      }
      assert selectedFields[..|selectedFields|] == selectedFields;
    }

    /** `shape` is the box under the mouse, if any. */
    method OnMouseMove(dragging: bool, shape: Option<FieldWin>)
      modifies this`isDragging, this`draggingField
      ensures draggingField == if dragging && old(draggingField) == None then shape else old(draggingField)
      ensures isDragging == (old(isDragging) || (dragging && draggingField != None))
    {
      if dragging {
        if shape.Some? && draggingField.None? {
          draggingField := shape;
        }
        if draggingField.Some? {
          isDragging := true;
        }
      }
    }

    /** Box `i` is being dragged. */
    ghost predicate Drags(i: nat)
      reads this
    {
      Named() && i < |shapes| && draggingField == Some(shapes[i])
    }

    /** A drop on empty space: the field goes to the end, but its width is not counted for the next box. */
    method DropOnSpace(ghost i: nat) returns (moved: bool)
      requires Drags(i)
      modifies this`startX, this`shapes, this`selectedFields
      ensures moved == (old(selectedFields)[i] != old(selectedFields)[|old(selectedFields)| - 1])
      ensures moved ==>
                selectedFields == MovedToEnd(old(selectedFields), old(selectedFields)[i]) && Aligned() && !Ready()
      ensures !moved ==> selectedFields == old(selectedFields) && startX == old(startX) && shapes == old(shapes)
    {
      var name := draggingField.value.name;
      if name == selectedFields[|selectedFields| - 1] {
        return false;
      }
      selectedFields := Without(selectedFields, name);
      Rebuild();
      PlacedMore(selectedFields, name, measure);
      shapes := shapes + [FieldWin(name, startX, measure(name))];
      selectedFields := selectedFields + [name];
      moved := true;
    }

    /** A drop on box `j`; `ok` is false when the source inserts outside the list. */
    method DropOnBox(ghost i: nat, j: nat, x: int) returns (ok: bool, moved: bool)
      requires Drags(i) && j < |shapes| && Under(shapes[j], x)
      modifies this`startX, this`shapes, this`selectedFields
      ensures (if ok then Some(selectedFields) else None) == DropOn(old(shapes), i, j, x)
      ensures ok && moved ==> Aligned() && Ready()
      ensures !moved ==> ok && selectedFields == old(selectedFields) && startX == old(startX) && shapes == old(shapes)
    {
      var shape := shapes[j];
      var name := draggingField.value.name;
      if StaysPut(draggingField.value, shape, x) {
        return true, false;
      }
      moved := true;
      var dirs := UNINITIALIZED;
      if x > shape.Middle() && x < shape.Right() + 5 {
        dirs := AFTER;
      }
      if x < shape.Middle() && x > shape.left - 5 {
        dirs := BEFORE;
      }
      var list := Inserted(Without(selectedFields, name), name, shape.name, dirs);
      if list.None? {
        return false, true;
      }
      selectedFields := list.value;
      Rebuild();
      ok := true;
    }

    /** The button is released; when the field does not move the drag stays on. */
    method OnLeftUp(ghost i: nat, under: Option<nat>, x: int) returns (ok: bool)
      requires isDragging ==> Drags(i)
      requires under.Some? ==> under.value < |shapes| && Under(shapes[under.value], x)
      modifies this
      ensures !old(isDragging) ==> ok && startX == old(startX) && shapes == old(shapes)
                                   && selectedFields == old(selectedFields) && !isDragging
                                   && draggingField == old(draggingField)
      ensures ok ==> (old(Named()) ==> Named()) && (old(Aligned()) ==> Aligned())
      ensures old(isDragging) && under.None? ==> ok && selectedFields == DropOff(old(selectedFields), i)
      ensures old(isDragging) && under.Some? ==>
                (if ok then Some(selectedFields) else None) == DropOn(old(shapes), i, under.value, x)
      ensures old(isDragging) && ok ==>
                (isDragging <==> draggingField.Some?) && (isDragging ==> selectedFields == old(selectedFields))
    {
      ok := true;
      if draggingField.None? && under.Some? {
        return;
      }
      if isDragging {
        var moved: bool;
        if under.None? {
          moved := DropOnSpace(i);
        } else {
          ok, moved := DropOnBox(i, under.value, x);
        }
        if ok && moved {
          isDragging := false;
          draggingField := None;
        }
      }
    }
  }
}
