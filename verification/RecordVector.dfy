/**
  The in-place vector operations `remove_if` + `erase` and `insert` on the records of the field
  lists (`FieldSorter`, `GroupFields`), whose assignment operator does nothing when both sides
  have the same name.
 */
module RecordVector {

  /** A record with its name and whatever else it carries. */
  datatype Field<T> = Field(name: string, data: T)

  /** `dst = src` with the guarded `operator=`: what `dst` holds afterwards. */
  function Assigned<T>(dst: Field<T>, src: Field<T>): Field<T> {
    if dst.name == src.name then dst else src
  }

  /** The assignment has the effect it should have. */
  predicate Compatible<T(==)>(dst: Field<T>, src: Field<T>) {
    dst.name == src.name ==> dst == src
  }

  // ---- what the operations should give ----

  function Kept<T>(s: seq<Field<T>>, name: string): seq<Field<T>> {
    if s == [] then []
    else Kept(s[..|s| - 1], name) + (if s[|s| - 1].name == name then [] else [s[|s| - 1]])
  }

  function InsertedAt<A>(s: seq<A>, pos: nat, x: A): seq<A>
    requires pos <= |s|
  {
    s[..pos] + [x] + s[pos..]
  }

  // ---- what the in-place algorithms give ----

  /** The slots written by `remove_if` once `s` has been looked at, each still holding its old record when written. */
  function Compacted<T>(s: seq<Field<T>>, name: string): (out: seq<Field<T>>)
    ensures |out| <= |s|
  {
    if s == [] then []
    else
      var k := |s| - 1;
      var out := Compacted(s[..k], name);
      if s[k].name == name then out
      else if |out| == k then out + [s[k]]
      else out + [Assigned(s[|out|], s[k])]
  }

  /** Slot `i` of `InsertedAt(s, pos, x)`. */
  function InsertedSlot<A>(s: seq<A>, pos: nat, x: A, i: nat): A
    requires pos <= |s| && i <= |s|
  {
    if i < pos then s[i] else if i == pos then x else s[i - 1]
  }

  /** Slot `i` after the shifts: the last one is constructed, the others behind `pos` are assigned. */
  function ShiftedSlot<T>(s: seq<Field<T>>, pos: nat, x: Field<T>, i: nat): Field<T>
    requires pos <= |s| && i <= |s|
  {
    if pos <= i < |s| then Assigned(s[i], InsertedSlot(s, pos, x, i)) else InsertedSlot(s, pos, x, i)
  }

  /** The vector after an `insert` that shifts the records behind `pos` in place. */
  function Shifted<T>(s: seq<Field<T>>, pos: nat, x: Field<T>): (out: seq<Field<T>>)
    requires pos <= |s|
    ensures |out| == |s| + 1
  {
    seq(|s| + 1, i requires 0 <= i <= |s| => ShiftedSlot(s, pos, x, i))
  }

  // ---- when they agree ----

  lemma {:induction false} CompactedSize<T>(s: seq<Field<T>>, name: string)
    ensures |Compacted(s, name)| == |Kept(s, name)|
  {
    if s == [] {
    } else {
      CompactedSize(s[..|s| - 1], name);
    }
  }

  /** Every record moved forward differs in name from the one it overwrites, or is equal to it. */
  predicate MovesTake<T(==)>(s: seq<Field<T>>, name: string) {
    s == [] ||
    var k := |s| - 1;
    && MovesTake(s[..k], name)
    && (s[k].name != name && |Compacted(s[..k], name)| < k ==> Compatible(s[|Compacted(s[..k], name)|], s[k]))
  }

  lemma SameEnd<A>(s: seq<A>, a: A, t: seq<A>, b: A)
    requires |s| == |t|
    ensures s + [a] == t + [b] <==> s == t && a == b
  {
    if s + [a] == t + [b] {
      assert (s + [a])[..|s|] == s && (t + [b])[..|t|] == t;
      assert (s + [a])[|s|] == a && (t + [b])[|t|] == b;
    }
  }

  /** `remove_if` filters exactly when every move takes effect. */
  lemma {:induction false} CompactedIsKept<T>(s: seq<Field<T>>, name: string)
    ensures Compacted(s, name) == Kept(s, name) <==> MovesTake(s, name)
  {
    if s == [] {
    } else {
      var k := |s| - 1;
      CompactedIsKept(s[..k], name);
      CompactedSize(s[..k], name);
      var c, d := Compacted(s[..k], name), Kept(s[..k], name);
      SameEnd(c, if |c| == k then s[k] else Assigned(s[|c|], s[k]), d, s[k]);
    }
  }

  predicate DistinctNames<T>(s: seq<Field<T>>) {
    forall i, j :: 0 <= i < j < |s| ==> s[i].name != s[j].name
  }

  lemma {:induction false} DistinctMoves<T>(s: seq<Field<T>>, name: string)
    requires DistinctNames(s)
    ensures MovesTake(s, name)
  {
    if s == [] {
    } else {
      DistinctMoves(s[..|s| - 1], name);
    }
  }

  /** Every record shifted back, and the new one, differs in name from what it overwrites, or is equal to it. */
  predicate ShiftsTake<T(==)>(s: seq<Field<T>>, pos: nat, x: Field<T>)
    requires pos <= |s|
  {
    forall i {:trigger InsertedSlot(s, pos, x, i)} :: pos <= i < |s| ==> Compatible(s[i], InsertedSlot(s, pos, x, i))
  }

  lemma InsertedSlots<A>(s: seq<A>, pos: nat, x: A)
    requires pos <= |s|
    ensures |InsertedAt(s, pos, x)| == |s| + 1
    ensures forall i {:trigger InsertedAt(s, pos, x)[i]} ::
              0 <= i <= |s| ==> InsertedAt(s, pos, x)[i] == InsertedSlot(s, pos, x, i)
  {
  }

  /** `insert` puts the record in place exactly when every shift takes effect. */
  lemma ShiftedIsInserted<T>(s: seq<Field<T>>, pos: nat, x: Field<T>)
    requires pos <= |s|
    ensures Shifted(s, pos, x) == InsertedAt(s, pos, x) <==> ShiftsTake(s, pos, x)
  {
    var u, v := Shifted(s, pos, x), InsertedAt(s, pos, x);
    InsertedSlots(s, pos, x);
    if u == v {
      forall i | pos <= i < |s| ensures Compatible(s[i], InsertedSlot(s, pos, x, i)) {
        assert u[i] == v[i];
      }
    } else {
      var i :| 0 <= i <= |s| && u[i] != v[i];
      assert !Compatible(s[i], InsertedSlot(s, pos, x, i));
    }
  }

  /** With distinct names both operations are what they should be. */
  lemma DistinctCompacted<T>(s: seq<Field<T>>, name: string)
    requires DistinctNames(s)
    ensures Compacted(s, name) == Kept(s, name)
  {
    CompactedIsKept(s, name);
    DistinctMoves(s, name);
  }

  lemma DistinctShifted<T>(s: seq<Field<T>>, pos: nat, x: Field<T>)
    requires DistinctNames(s) && pos <= |s|
    requires forall i :: 0 <= i < |s| ==> s[i].name != x.name
    ensures Shifted(s, pos, x) == InsertedAt(s, pos, x)
  {
    ShiftedIsInserted(s, pos, x);
  }

  // ---- the algorithms ----

  lemma CompactedStep<T>(s: seq<Field<T>>, i: nat, name: string)
    requires i < |s|
    ensures
      var out := Compacted(s[..i], name);
      Compacted(s[..i + 1], name) ==
        if s[i].name == name then out
        else if |out| == i then out + [s[i]]
        else out + [Assigned(s[|out|], s[i])]
  {
    assert s[..i + 1][..i] == s[..i];
  }

  /** Its search for the first record to remove; the records before it stay where they are. */
  method FindNamed<T>(data: array<Field<T>>, size: nat, name: string) returns (result: nat)
    requires size <= data.Length
    ensures result <= size && Compacted(data[..size][..result], name) == data[..size][..result]
    ensures result < size ==> data[result].name == name
  {
    result := 0;
    while result < size && data[result].name != name
      invariant result <= size && Compacted(data[..size][..result], name) == data[..size][..result]
    {
      CompactedStep(data[..size], result, name);
      result := result + 1;
    }
  }

  /** `result` slots hold what is kept of the first `i` records; the slots behind are untouched. */
  ghost predicate SlotsMoved<T>(slots: seq<Field<T>>, name: string, result: nat, i: nat, s: seq<Field<T>>) {
    && result < i <= |s| <= |slots|
    && slots[..result] == Compacted(s[..i], name)
    && forall r :: result <= r < |s| ==> slots[r] == s[r]
  }

  /** The same of the vector's own slots. */
  ghost predicate Compacting<T>(data: array<Field<T>>, name: string, result: nat, i: nat, s: seq<Field<T>>)
    reads data
  {
    SlotsMoved(data[..], name, result, i, s)
  }

  /** `*result = src` */
  method AssignNext<T>(data: array<Field<T>>, r: nat, src: Field<T>)
    requires r < data.Length
    modifies data
    ensures data[..r + 1] == old(data[..r]) + [Assigned(old(data[r]), src)]
    ensures forall k :: r < k < data.Length ==> data[k] == old(data[k])
  {
    data[r] := Assigned(data[r], src);
  }

  /** One round of its second loop. */
  method MoveNext<T>(data: array<Field<T>>, size: nat, name: string, first: nat, i: nat, ghost s: seq<Field<T>>)
    returns (result: nat)
    requires Compacting(data, name, first, i, s) && i < size == |s|
    modifies data
    ensures Compacting(data, name, result, i + 1, s)
  {
    result := first;
    CompactedStep(s, i, name);
    if data[i].name != name {
      AssignNext(data, first, data[i]);
      result := result + 1;
    }
  }

  /** Its second loop: the records kept are assigned to the front. */
  method MoveKept<T>(data: array<Field<T>>, size: nat, name: string, first: nat, next: nat, ghost s: seq<Field<T>>)
    returns (result: nat)
    requires Compacting(data, name, first, next, s) && size == |s|
    modifies data
    ensures Compacting(data, name, result, size, s)
  {
    result := first;
    var i := next;
    while i < size
      invariant Compacting(data, name, result, i, s)
    {
      result := MoveNext(data, size, name, result, i, s);
      i := i + 1;
    }
  }

  /** `std::remove_if` on the first `size` slots; the result is the new end. */
  method RemoveIf<T>(data: array<Field<T>>, size: nat, name: string) returns (result: nat)
    requires size <= data.Length
    modifies data
    ensures result <= size && data[..result] == Compacted(old(data[..size]), name)
  {
    ghost var s := data[..size];
    result := FindNamed(data, size, name);
    assert data[..result] == s[..result] && s[..size] == s;
    if result < size {
      CompactedStep(s, result, name);
      result := MoveKept(data, size, name, result, result + 1, s);
    }
  }

  /** The backward assignments of an `insert` before the end. */
  method ShiftBack<T>(data: array<Field<T>>, size: nat, pos: nat, x: Field<T>)
    requires pos < size < data.Length
    modifies data
    ensures data[..size + 1] == Shifted(old(data[..size]), pos, x)
  {
    ghost var s := data[..size];
    data[size] := data[size - 1];
    var k := size - 1;
    while k > pos
      invariant pos <= k < size
      invariant forall j {:trigger data[j]} :: 0 <= j <= k ==> data[j] == s[j]
      invariant forall j {:trigger data[j]} :: k < j <= size ==> data[j] == ShiftedSlot(s, pos, x, j)
    {
      data[k] := Assigned(data[k], data[k - 1]);
      k := k - 1;
    }
    data[pos] := Assigned(data[pos], x);
  }

  /** The copy an `insert` makes when there is no room: nothing is assigned over a record. */
  method CopyAround<T>(data: array<Field<T>>, pos: nat, x: Field<T>) returns (bigger: array<Field<T>>)
    requires pos <= data.Length
    ensures fresh(bigger) && bigger.Length > data.Length
    ensures bigger[..data.Length + 1] == InsertedAt(data[..], pos, x)
  {
    var size := data.Length;
    bigger := new Field<T>[2 * size + 1](_ => x);
    for i := 0 to pos
      invariant forall j :: 0 <= j < i ==> bigger[j] == data[j]
      invariant bigger[pos] == x
    {
      bigger[i] := data[i];
    }
    for i := pos to size
      invariant forall j :: 0 <= j < pos ==> bigger[j] == data[j]
      invariant bigger[pos] == x
      invariant forall j :: pos <= j < i ==> bigger[j + 1] == data[j]
    {
      bigger[i + 1] := data[i];
    }
    InsertedSlots(data[..], pos, x);
  }

  class Vector<T> {
    var data: array<Field<T>>
    var size: nat

    ghost predicate Valid()
      reads this
    {
      size <= data.Length
    }

    ghost function Contents(): seq<Field<T>>
      requires Valid()
      reads this, data
    {
      data[..size]
    }

    /** `v.erase( std::remove_if( v.begin(), v.end(), name ), v.end() )` */
    method RemoveNamed(name: string)
      requires Valid()
      modifies this`size, data
      ensures Valid() && Contents() == Compacted(old(Contents()), name)
    {
      size := RemoveIf(data, size, name);
    }

    /**
      `v.insert( v.begin() + pos, x )`.  With room left the last record is constructed in the
      new slot and the others are assigned backwards; without, everything is constructed anew.
     */
    method Insert(pos: nat, x: Field<T>)
      requires Valid() && pos <= size
      modifies this, data
      ensures Valid() && size == old(size) + 1
      ensures old(size < data.Length) ==> data == old(data) && Contents() == Shifted(old(Contents()), pos, x)
      ensures old(size == data.Length) ==> fresh(data) && Contents() == InsertedAt(old(Contents()), pos, x)
    {
      if size == data.Length {
        assert data[..] == data[..size];
        data := CopyAround(data, pos, x);
      } else if pos == size {
        data[size] := x;
      } else {
        ShiftBack(data, size, pos, x);
      }
      size := size + 1;
    }
  }
}
