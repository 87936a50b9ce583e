/**
  The document's "available" and "selected" field lists: fields move from one to the other and
  back, and within the selected one, by the vector operations of `RecordVector`.
 */
module FieldLists {
  import opened Wrappers
  import opened Seqs
  import opened RecordVector
  import opened Text

  function Names<T>(s: seq<Field<T>>): (names: seq<string>)
    ensures |names| == |s| && forall i :: 0 <= i < |s| ==> names[i] == s[i].name
  {
    Map(s, (x: Field<T>) => x.name)
  }

  /** One pair of lists, for sorting or for grouping. */
  datatype Lists<T> = Lists(available: seq<Field<T>>, selected: seq<Field<T>>)

  function AllNames<T>(l: Lists<T>): seq<string> {
    Names(l.available) + Names(l.selected)
  }

  predicate NoRepeats(names: seq<string>) {
    forall i, j :: 0 <= i < j < |names| ==> names[i] != names[j]
  }

  /**
    What the predicate of a shuffle has copied, record by record, from those to remove: the guarded
    assignment lets only the first one in.
   */
  function Picked<T>(s: seq<Field<T>>, name: string, none: Field<T>): Field<T> {
    if s == [] then none
    else
      var k := |s| - 1;
      var picked := Picked(s[..k], name, none);
      if s[k].name == name then Assigned(picked, s[k]) else picked
  }

  /** A move: to the selected list, back, or within it.  `data` is what the new record carries. */
  datatype Move<T> =
    | Take(name: string, pos: nat, data: T)
    | Return(name: string, pos: nat, data: T)
    | Shuffle(name: string, pos: nat, data: T)

  /** The lists after a move; a position out of range is undefined behaviour in the source. */
  function Moved<T>(l: Lists<T>, m: Move<T>): Option<Lists<T>> {
    match m
    case Take(name, pos, data) =>
      if pos > |l.selected| then None
      else Some(Lists(Kept(l.available, name), InsertedAt(l.selected, pos, Field(name, data))))
    case Return(name, pos, data) =>
      if pos > |l.available| then None
      else Some(Lists(InsertedAt(l.available, pos, Field(name, data)), Kept(l.selected, name)))
    case Shuffle(name, pos, data) =>
      if pos > |Kept(l.selected, name)| then None
      else Some(Lists(l.available, InsertedAt(Kept(l.selected, name), pos, Field(name, data))))
  }

  /** The list a move takes its field from. */
  function From<T>(l: Lists<T>, m: Move<T>): seq<Field<T>> {
    if m.Take? then l.available else l.selected
  }

  // ---- names of a filtered and of an extended list ----

  function Without(names: seq<string>, name: string): seq<string> {
    if names == [] then []
    else Without(names[..|names| - 1], name) + (if names[|names| - 1] == name then [] else [names[|names| - 1]])
  }

  lemma {:induction false} NamesKept<T>(s: seq<Field<T>>, name: string)
    ensures Names(Kept(s, name)) == Without(Names(s), name)
  {
    if s == [] {
    } else {
      var k := |s| - 1;
      NamesKept(s[..k], name);
      assert Names(s)[..k] == Names(s[..k]);
    }
  }

  lemma NamesMore<T>(s: seq<Field<T>>, x: Field<T>)
    ensures Names(s + [x]) == Names(s) + [x.name]
  {
  }

  lemma NamesInserted<T>(s: seq<Field<T>>, pos: nat, x: Field<T>)
    requires pos <= |s|
    ensures Names(InsertedAt(s, pos, x)) == InsertedAt(Names(s), pos, x.name)
  {
  }

  lemma {:induction false} WithoutCount(names: seq<string>, name: string)
    ensures multiset(Without(names, name)) == multiset(names)[name := 0]
  {
    if names == [] {
    } else {
      var k := |names| - 1;
      WithoutCount(names[..k], name);
      assert names == names[..k] + [names[k]];
    }
  }

  lemma InsertedCount(names: seq<string>, pos: nat, name: string)
    requires pos <= |names|
    ensures multiset(InsertedAt(names, pos, name)) == multiset(names) + multiset{name}
  {
    assert names == names[..pos] + names[pos..];
  }

  lemma {:induction false} CountOnce(names: seq<string>, x: string)
    requires NoRepeats(names)
    ensures multiset(names)[x] <= 1
  {
    if names == [] {
    } else {
      var k := |names| - 1;
      CountOnce(names[..k], x);
      assert names == names[..k] + [names[k]];
      if names[k] == x {
        assert x !in names[..k];
      }
    }
  }

  lemma NoRepeatsCount(names: seq<string>)
    ensures NoRepeats(names) <==> forall x :: multiset(names)[x] <= 1
  {
    if NoRepeats(names) {
      forall x ensures multiset(names)[x] <= 1 {
        CountOnce(names, x);
      }
    } else {
      var i, j :| 0 <= i < j < |names| && names[i] == names[j];
      assert names == names[..i] + [names[i]] + names[i + 1..j] + [names[j]] + names[j + 1..];
      assert multiset(names)[names[i]] >= 2;
    }
  }

  // ---- conservation ----

  /** The list a move leaves its field out of. */
  function Other<T>(l: Lists<T>, m: Move<T>): seq<Field<T>> {
    if m.Take? then l.selected else l.available
  }

  /** The same names as often, whichever of the two lists they are in. */
  ghost predicate SameNames<T>(l: Lists<T>, r: Lists<T>) {
    multiset(AllNames(l)) == multiset(AllNames(r))
  }

  lemma AllCount<T>(l: Lists<T>)
    ensures multiset(AllNames(l)) == multiset(Names(l.available)) + multiset(Names(l.selected))
  {
  }

  lemma MovedCount<T>(l: Lists<T>, m: Move<T>)
    requires Moved(l, m).Some?
    ensures multiset(AllNames(Moved(l, m).value))
         == multiset(Names(From(l, m)))[m.name := 0] + (multiset(Names(Other(l, m))) + multiset{m.name})
  {
    var n, x := m.name, Field(m.name, m.data);
    AllCount(Moved(l, m).value);
    NamesKept(From(l, m), n);
    WithoutCount(Names(From(l, m)), n);
    var target := if m.Shuffle? then Kept(l.selected, n) else Other(l, m);
    NamesInserted(target, m.pos, x);
    InsertedCount(Names(target), m.pos, n);
  }

  lemma SameCounts(a: seq<string>, b: seq<string>, n: string)
    requires multiset(a)[n] <= 1
    ensures multiset(a)[n := 0] + (multiset(b) + multiset{n}) == multiset(a) + multiset(b) <==> n in a
  {
    var u, v := multiset(a)[n := 0] + (multiset(b) + multiset{n}), multiset(a) + multiset(b);
    assert n in a <==> multiset(a)[n] == 1;
    assert u[n] == multiset(b)[n] + 1;
    assert forall x :: x != n ==> u[x] == v[x];
  }

  /** A move keeps every name, as often as it was there, exactly when the field comes from the right list. */
  lemma MoveConserves<T>(l: Lists<T>, m: Move<T>)
    requires NoRepeats(AllNames(l)) && Moved(l, m).Some?
    ensures SameNames(Moved(l, m).value, l) <==> m.name in Names(From(l, m))
  {
    NoRepeatsCount(AllNames(l));
    AllCount(l);
    MovedCount(l, m);
    assert multiset(AllNames(l))[m.name] <= 1;
    SameCounts(Names(From(l, m)), Names(Other(l, m)), m.name);
  }

  /** The lists after a run of moves. */
  function MovedAll<T>(l: Lists<T>, ms: seq<Move<T>>): Option<Lists<T>>
    decreases |ms|
  {
    if ms == [] then Some(l)
    else
      match Moved(l, ms[0])
      case None => None
      case Some(next) => MovedAll(next, ms[1..])
  }

  /** Every move of the run names a field of the list it takes from. */
  predicate Sensible<T>(l: Lists<T>, ms: seq<Move<T>>)
    decreases |ms|
  {
    ms == [] ||
    (ms[0].name in Names(From(l, ms[0])) && Moved(l, ms[0]).Some? && Sensible(Moved(l, ms[0]).value, ms[1..]))
  }

  /**
    Over a whole run no name is lost or doubled.  Runs are sensible on the lists for grouping, and on those for
    sorting when both hold the names the page lists.
   */
  lemma {:induction false} RunConserves<T>(l: Lists<T>, ms: seq<Move<T>>)
    requires NoRepeats(AllNames(l)) && Sensible(l, ms)
    ensures MovedAll(l, ms).Some?
    ensures
      var r := MovedAll(l, ms).value;
      && SameNames(r, l)
      && NoRepeats(AllNames(r))
    decreases |ms|
  {
    if ms == [] {
    } else {
      var next := Moved(l, ms[0]).value;
      MoveConserves(l, ms[0]);
      NoRepeatsCount(AllNames(l));
      NoRepeatsCount(AllNames(next));
      RunConserves(next, ms[1..]);
    }
  }

  // ---- order ----

  lemma {:induction false} WithoutConcat(a: seq<string>, b: seq<string>, n: string)
    ensures Without(a + b, n) == Without(a, n) + Without(b, n)
    decreases |b|
  {
    if b == [] {
      assert a + b == a;
    } else {
      var k := |b| - 1;
      assert (a + b)[..|a + b| - 1] == a + b[..k];
      WithoutConcat(a, b[..k], n);
    }
  }

  lemma {:induction false} WithoutAbsent(s: seq<string>, n: string)
    ensures n !in Without(s, n) && (n !in s ==> Without(s, n) == s)
  {
    if s == [] {
    } else {
      WithoutAbsent(s[..|s| - 1], n);
      assert s == s[..|s| - 1] + [s[|s| - 1]];
    }
  }

  lemma WithoutLast(a: seq<string>, n: string)
    requires n !in a
    ensures Without(a + [n], n) == a
  {
    WithoutAbsent(a, n);
    assert (a + [n])[..|a|] == a;
  }

  lemma WithoutMiddle(a: seq<string>, n: string, b: seq<string>)
    requires n !in a && n !in b
    ensures Without(a + [n] + b, n) == a + b
  {
    WithoutLast(a, n);
    WithoutAbsent(b, n);
    WithoutConcat(a + [n], b, n);
  }

  /** Taking out what was just put in. */
  lemma WithoutInserted(s: seq<string>, pos: nat, n: string)
    requires pos <= |s| && n !in s
    ensures Without(InsertedAt(s, pos, n), n) == s
  {
    WithoutMiddle(s[..pos], n, s[pos..]);
  }

  /** The first place of a name, or the length of the list. */
  function IndexOf(s: seq<string>, n: string): (i: nat)
    ensures i <= |s| && (n in s <==> i < |s|)
    ensures i < |s| ==> s[i] == n
    ensures n !in s[..i]
  {
    if s == [] then 0
    else if s[0] == n then 0
    else
      assert s == [s[0]] + s[1..];
      assert forall j :: 0 < j <= |s| ==> s[..j] == [s[0]] + s[1..][..j - 1];
      1 + IndexOf(s[1..], n)
  }

  /** Without repeats, taking out a name leaves what is before and what is behind it. */
  lemma WithoutAround(s: seq<string>, n: string)
    requires NoRepeats(s) && n in s
    ensures var i := IndexOf(s, n); Without(s, n) == s[..i] + s[i + 1..]
  {
    var i := IndexOf(s, n);
    forall k | i < k < |s| ensures s[k] != n {
      assert s[i] != s[k];
    }
    assert s == s[..i] + [n] + s[i + 1..];
    WithoutMiddle(s[..i], n, s[i + 1..]);
  }

  lemma PutBack(s: seq<string>, i: nat)
    requires i < |s|
    ensures InsertedAt(s[..i] + s[i + 1..], i, s[i]) == s
  {
  }

  /** Putting it back where it was. */
  lemma InsertedBack(s: seq<string>, n: string)
    requires NoRepeats(s) && n in s
    ensures |Without(s, n)| == |s| - 1 && InsertedAt(Without(s, n), IndexOf(s, n), n) == s
  {
    PutBack(s, IndexOf(s, n));
    WithoutAround(s, n);
  }

  /** A shuffle puts the field where it is asked to and leaves the order of the others alone. */
  lemma ShuffleMovesOne<T>(l: Lists<T>, name: string, pos: nat, data: T)
    requires NoRepeats(Names(l.selected)) && name in Names(l.selected) && pos < |l.selected|
    ensures Moved(l, Shuffle(name, pos, data)).Some?
    ensures
      var r := Moved(l, Shuffle(name, pos, data)).value;
      && r.available == l.available
      && |r.selected| == |l.selected| && r.selected[pos] == Field(name, data)
      && Without(Names(r.selected), name) == Without(Names(l.selected), name)
  {
    InsertedBack(Names(l.selected), name);
    NamesKept(l.selected, name);
    var rest := Kept(l.selected, name);
    NamesInserted(rest, pos, Field(name, data));
    WithoutAbsent(Names(l.selected), name);
    WithoutInserted(Names(rest), pos, name);
  }

  // ---- nested moves ----

  /** Moves nested like brackets: take a field, do the inner ones, return it, go on with `next`. */
  datatype Nest<T> = Done | Around(name: string, pos: nat, out: T, back: T, inner: Nest<T>, next: Nest<T>)

  /** Each return uses the index the field had in the available list when it was taken. */
  function RunNest<T>(l: Lists<T>, nest: Nest<T>): Option<Lists<T>>
    decreases nest
  {
    match nest
    case Done => Some(l)
    case Around(name, pos, out, back, inner, next) =>
      match Moved(l, Take(name, pos, out))
      case None => None
      case Some(taken) =>
        match RunNest(taken, inner)
        case None => None
        case Some(after) =>
          match Moved(after, Return(name, IndexOf(Names(l.available), name), back))
          case None => None
          case Some(returned) => RunNest(returned, next)
  }

  /** Only available fields are taken, to places within the selected list. */
  predicate Takeable<T>(available: seq<string>, selected: nat, nest: Nest<T>)
    decreases nest
  {
    match nest
    case Done => true
    case Around(name, pos, _, _, inner, next) =>
      && name in available && pos <= selected
      && Takeable(Without(available, name), selected + 1, inner)
      && Takeable(available, selected, next)
  }

  lemma {:induction false} KeptConcat<T>(a: seq<Field<T>>, b: seq<Field<T>>, name: string)
    ensures Kept(a + b, name) == Kept(a, name) + Kept(b, name)
    decreases |b|
  {
    if b == [] {
      assert a + b == a;
    } else {
      var k := |b| - 1;
      assert (a + b)[..|a + b| - 1] == a + b[..k];
      KeptConcat(a, b[..k], name);
    }
  }

  lemma {:induction false} KeptAll<T>(s: seq<Field<T>>, name: string)
    requires forall k :: 0 <= k < |s| ==> s[k].name != name
    ensures Kept(s, name) == s
  {
    if s == [] {
    } else {
      KeptAll(s[..|s| - 1], name);
    }
  }

  lemma KeptInserted<T>(s: seq<Field<T>>, pos: nat, x: Field<T>)
    requires pos <= |s| && forall k :: 0 <= k < |s| ==> s[k].name != x.name
    ensures Kept(InsertedAt(s, pos, x), x.name) == s
  {
    var a, b := s[..pos], s[pos..];
    KeptConcat(a + [x], b, x.name);
    KeptConcat(a, [x], x.name);
    KeptAll(a, x.name);
    KeptAll(b, x.name);
    assert Kept([x], x.name) == [];
  }

  /** Taken and returned with nothing in between but what leaves both lists as they were. */
  lemma TakeReturn<T>(l: Lists<T>, name: string, pos: nat, out: T, back: T, after: Lists<T>)
    requires NoRepeats(AllNames(l)) && name in Names(l.available) && pos <= |l.selected|
    requires Names(after.available) == Without(Names(l.available), name)
    requires after.selected == InsertedAt(l.selected, pos, Field(name, out))
    ensures
      var r := Moved(after, Return(name, IndexOf(Names(l.available), name), back));
      r.Some? && Names(r.value.available) == Names(l.available) && r.value.selected == l.selected
  {
    var all := AllNames(l);
    assert Names(l.available) == all[..|l.available|] && Names(l.selected) == all[|l.available|..];
    InsertedBack(Names(l.available), name);
    NamesInserted(after.available, IndexOf(Names(l.available), name), Field(name, back));
    var i := IndexOf(Names(l.available), name);
    forall k | 0 <= k < |l.selected| ensures l.selected[k].name != name {
      assert all[i] != all[|l.available| + k];
    }
    KeptInserted(l.selected, pos, Field(name, out));
  }

  lemma TakeKeeps<T>(l: Lists<T>, name: string, pos: nat, out: T)
    requires NoRepeats(AllNames(l)) && name in Names(l.available) && pos <= |l.selected|
    ensures
      var taken := Moved(l, Take(name, pos, out));
      && taken.Some? && NoRepeats(AllNames(taken.value))
      && Names(taken.value.available) == Without(Names(l.available), name)
      && taken.value.selected == InsertedAt(l.selected, pos, Field(name, out))
      && |taken.value.selected| == |l.selected| + 1
  {
    MoveConserves(l, Take(name, pos, out));
    NoRepeatsCount(AllNames(l));
    NoRepeatsCount(AllNames(Moved(l, Take(name, pos, out)).value));
    NamesKept(l.available, name);
  }

  /**
    Properly nested moves restore the available names in their order, and the selected list entirely, for fields
    that the available list holds by the name taken.
   */
  lemma {:induction false} NestRestores<T>(l: Lists<T>, nest: Nest<T>)
    requires NoRepeats(AllNames(l)) && Takeable(Names(l.available), |l.selected|, nest)
    ensures RunNest(l, nest).Some?
    ensures Names(RunNest(l, nest).value.available) == Names(l.available)
    ensures RunNest(l, nest).value.selected == l.selected
    decreases nest
  {
    match nest
    case Done =>
    case Around(name, pos, out, back, inner, next) =>
      TakeKeeps(l, name, pos, out);
      var taken := Moved(l, Take(name, pos, out)).value;
      NestRestores(taken, inner);
      var after := RunNest(taken, inner).value;
      TakeReturn(l, name, pos, out, back, after);
      var returned := Moved(after, Return(name, IndexOf(Names(l.available), name), back)).value;
      assert AllNames(returned) == AllNames(l);
      NestRestores(returned, next);
  }

  // ---- the document ----

  datatype SortData = SortData(isAscending: bool, originalPosition: int)
  datatype GroupData = GroupData(position: int, internalPosition: int)

  const SEPARATOR := ",\n         "

  /** `t` is what `vector::insert` may leave of `s`. */
  predicate Inserts<T(==)>(s: seq<Field<T>>, pos: nat, x: Field<T>, t: seq<Field<T>>)
    requires pos <= |s|
  {
    t == InsertedAt(s, pos, x) || (pos < |s| && t == Shifted(s, pos, x))
  }

  /** The name a shuffle puts back: the one it has taken out, or that of the default record. */
  function Shuffled(names: seq<string>, name: string): string {
    if name in names then name else ""
  }

  /** `r` is what the in-place operations of a move may leave of the lists, whatever names are in them. */
  predicate LeftBy<T(==)>(l: Lists<T>, m: Move<T>, r: Lists<T>) {
    match m
    case Take(name, pos, data) =>
      && pos <= |l.selected| && r.available == Compacted(l.available, name)
      && Inserts(l.selected, pos, Field(name, data), r.selected)
    case Return(name, pos, data) =>
      && pos <= |l.available| && r.selected == Compacted(l.selected, name)
      && Inserts(l.available, pos, Field(name, data), r.available)
    case Shuffle(name, pos, data) =>
      && pos <= |Compacted(l.selected, name)| && r.available == l.available
      && Inserts(Compacted(l.selected, name), pos, Field(Shuffled(Names(l.selected), name), data), r.selected)
  }

  /** The move is done: by the in-place operations, which for a sensible move give its lists. */
  predicate Performs<T(==)>(l: Lists<T>, m: Move<T>, r: Lists<T>) {
    && LeftBy(l, m, r)
    && (NoRepeats(AllNames(l)) && m.name in Names(From(l, m)) ==> Some(r) == Moved(l, m) && NoRepeats(AllNames(r)))
  }

  lemma OwnNames<T>(l: Lists<T>)
    requires NoRepeats(AllNames(l))
    ensures NoRepeats(Names(l.available)) && NoRepeats(Names(l.selected))
  {
    var all := AllNames(l);
    assert Names(l.available) == all[..|l.available|] && Names(l.selected) == all[|l.available|..];
  }

  lemma NamesDistinct<T>(s: seq<Field<T>>)
    requires NoRepeats(Names(s))
    ensures DistinctNames(s)
  {
    assert forall i :: 0 <= i < |s| ==> Names(s)[i] == s[i].name;
  }

  lemma OtherDistinct<T>(l: Lists<T>, m: Move<T>)
    requires NoRepeats(AllNames(l)) && m.name in Names(From(l, m)) && !m.Shuffle?
    ensures DistinctNames(Other(l, m)) && forall i :: 0 <= i < |Other(l, m)| ==> Other(l, m)[i].name != m.name
  {
    OwnNames(l);
    NamesDistinct(Other(l, m));
    var all, n := AllNames(l), |l.available|;
    var k := IndexOf(Names(From(l, m)), m.name);
    forall i | 0 <= i < |Other(l, m)| ensures Other(l, m)[i].name != m.name {
      if m.Take? {
        assert all[k] != all[n + i];
      } else {
        assert all[i] != all[n + k];
      }
    }
  }

  lemma WithoutNoRepeats(s: seq<string>, n: string)
    requires NoRepeats(s)
    ensures NoRepeats(Without(s, n)) && n !in Without(s, n)
  {
    WithoutAbsent(s, n);
    if n in s {
      WithoutAround(s, n);
    }
  }

  lemma TargetDistinct<T>(l: Lists<T>, m: Move<T>)
    requires NoRepeats(AllNames(l)) && m.name in Names(From(l, m))
    ensures
      var target := if m.Shuffle? then Kept(l.selected, m.name) else Other(l, m);
      DistinctNames(target) && forall i :: 0 <= i < |target| ==> target[i].name != m.name
  {
    if m.Shuffle? {
      OwnNames(l);
      NamesKept(l.selected, m.name);
      WithoutNoRepeats(Names(l.selected), m.name);
      NamesDistinct(Kept(l.selected, m.name));
      var kept := Kept(l.selected, m.name);
      assert forall i :: 0 <= i < |kept| ==> kept[i].name == Names(kept)[i];
    } else {
      OtherDistinct(l, m);
    }
  }

  lemma MoveStaysDistinct<T>(l: Lists<T>, m: Move<T>)
    requires NoRepeats(AllNames(l)) && Moved(l, m).Some? && m.name in Names(From(l, m))
    ensures NoRepeats(AllNames(Moved(l, m).value))
  {
    MoveConserves(l, m);
    NoRepeatsCount(AllNames(l));
    NoRepeatsCount(AllNames(Moved(l, m).value));
  }

  /** The in-place operations a sensible move is made of give the move's lists: no assignment is skipped. */
  lemma InPlaceMoves<T>(l: Lists<T>, m: Move<T>)
    ensures NoRepeats(AllNames(l)) && m.name in Names(From(l, m)) ==>
      var x := Field(m.name, m.data);
      var target := if m.Shuffle? then Kept(l.selected, m.name) else Other(l, m);
      && Compacted(From(l, m), m.name) == Kept(From(l, m), m.name)
      && (m.pos <= |target| ==>
            && (forall t :: Inserts(target, m.pos, x, t) ==> t == InsertedAt(target, m.pos, x))
            && Moved(l, m).Some? && NoRepeats(AllNames(Moved(l, m).value)))
  {
    if NoRepeats(AllNames(l)) && m.name in Names(From(l, m)) {
      OwnNames(l);
      DistinctCompacted(From(l, m), m.name);
      TargetDistinct(l, m);
      var target := if m.Shuffle? then Kept(l.selected, m.name) else Other(l, m);
      if m.pos <= |target| {
        MoveStaysDistinct(l, m);
        DistinctShifted(target, m.pos, Field(m.name, m.data));
      }
    }
  }

  lemma InPlacePerforms<T>(l: Lists<T>, m: Move<T>, r: Lists<T>)
    requires LeftBy(l, m, r)
    ensures Performs(l, m, r)
  {
    InPlaceMoves(l, m);
  }

  predicate Holds<T(==)>(s: seq<Field<T>>, i: nat, x: Field<T>) {
    i < |s| && s[i] == x
  }

  /** The list a move puts its field into. */
  function Target<T>(m: Move<T>, r: Lists<T>): seq<Field<T>> {
    if m.Return? then r.available else r.selected
  }

  /** A sensible move leaves the new record at its position. */
  lemma RecordPlaced<T>(l: Lists<T>, m: Move<T>, r: Lists<T>)
    requires Performs(l, m, r)
    ensures NoRepeats(AllNames(l)) && m.name in Names(From(l, m)) ==> Holds(Target(m, r), m.pos, Field(m.name, m.data))
  {
  }

  // ---- the names alone ----

  datatype NameLists = NameLists(available: seq<string>, selected: seq<string>)

  function NamesOf<T>(l: Lists<T>): NameLists {
    NameLists(Names(l.available), Names(l.selected))
  }

  /** What a move does to the names, whether or not they are where it looks for them. */
  function MovedNames<T>(l: NameLists, m: Move<T>): Option<NameLists> {
    match m
    case Take(name, pos, _) =>
      if pos > |l.selected| then None
      else Some(NameLists(Without(l.available, name), InsertedAt(l.selected, pos, name)))
    case Return(name, pos, _) =>
      if pos > |l.available| then None
      else Some(NameLists(InsertedAt(l.available, pos, name), Without(l.selected, name)))
    case Shuffle(name, pos, _) =>
      if pos > |Without(l.selected, name)| then None
      else Some(NameLists(l.available, InsertedAt(Without(l.selected, name), pos, Shuffled(l.selected, name))))
  }

  /** An assignment that is skipped leaves the name it would have written. */
  lemma ShiftedNames<T>(s: seq<Field<T>>, pos: nat, x: Field<T>)
    requires pos <= |s|
    ensures Names(Shifted(s, pos, x)) == Names(InsertedAt(s, pos, x))
  {
    InsertedSlots(s, pos, x);
    forall i | 0 <= i <= |s| ensures Shifted(s, pos, x)[i].name == InsertedAt(s, pos, x)[i].name {
      assert InsertedAt(s, pos, x)[i] == InsertedSlot(s, pos, x, i);
    }
  }

  lemma InsertsNames<T>(s: seq<Field<T>>, pos: nat, x: Field<T>, t: seq<Field<T>>)
    requires pos <= |s| && Inserts(s, pos, x, t)
    ensures Names(t) == InsertedAt(Names(s), pos, x.name)
  {
    NamesInserted(s, pos, x);
    if t != InsertedAt(s, pos, x) {
      ShiftedNames(s, pos, x);
    }
  }

  /** The names `remove_if` leaves are the other names whatever assignments are skipped. */
  lemma {:induction false} CompactedNames<T>(s: seq<Field<T>>, name: string)
    ensures Names(Compacted(s, name)) == Without(Names(s), name)
  {
    if s == [] {
    } else {
      var k := |s| - 1;
      CompactedNames(s[..k], name);
      assert Names(s)[..k] == Names(s[..k]);
    }
  }

  /** The in-place operations do to the names what the move says, in all lists. */
  lemma LeftByNames<T>(l: Lists<T>, m: Move<T>, r: Lists<T>)
    requires LeftBy(l, m, r)
    ensures Some(NamesOf(r)) == MovedNames(NamesOf(l), m)
  {
    match m
    case Take(name, pos, data) =>
      CompactedNames(l.available, name);
      InsertsNames(l.selected, pos, Field(name, data), r.selected);
    case Return(name, pos, data) =>
      CompactedNames(l.selected, name);
      InsertsNames(l.available, pos, Field(name, data), r.available);
    case Shuffle(name, pos, data) =>
      CompactedNames(l.selected, name);
      InsertsNames(Compacted(l.selected, name), pos, Field(Shuffled(Names(l.selected), name), data), r.selected);
  }

  /** `r` is `s` with `x` at `pos`, the others in their order. */
  predicate PutIn(s: seq<string>, pos: nat, x: string, r: seq<string>) {
    |r| == |s| + 1 && pos <= |s| && r[pos] == x && r[..pos] == s[..pos] && r[pos + 1..] == s[pos..]
  }

  lemma InsertedPutIn(s: seq<string>, pos: nat, x: string)
    requires pos <= |s|
    ensures PutIn(s, pos, x, InsertedAt(s, pos, x))
  {
  }

  /** Where every move leaves its field, on all lists: at the position asked for, and gone from where it was. */
  lemma MovePlaces<T>(l: Lists<T>, m: Move<T>, r: Lists<T>)
    requires LeftBy(l, m, r)
    ensures
      var before, after := NamesOf(l), NamesOf(r);
      match m
      case Take(name, pos, _) =>
        after.available == Without(before.available, name) && PutIn(before.selected, pos, name, after.selected)
      case Return(name, pos, _) =>
        after.selected == Without(before.selected, name) && PutIn(before.available, pos, name, after.available)
      case Shuffle(name, pos, _) =>
        && after.available == before.available
        && PutIn(Without(before.selected, name), pos, if name in before.selected then name else "", after.selected)
  {
    LeftByNames(l, m, r);
    match m
    case Take(name, pos, _) => InsertedPutIn(Names(l.selected), pos, name);
    case Return(name, pos, _) => InsertedPutIn(Names(l.available), pos, name);
    case Shuffle(name, pos, _) =>
      InsertedPutIn(Without(Names(l.selected), name), pos, Shuffled(Names(l.selected), name));
  }

  /** A field put into the list is there; one taken from it was. */
  lemma InListChanges<T>(l: Lists<T>, m: Move<T>, r: Lists<T>)
    ensures LeftBy(l, m, r) ==>
              && (m.Return? || r.selected != [])
              && (!m.Take? && m.name in Names(l.selected) ==> l.selected != [])
  {
  }

  lemma TakenCounts(a: multiset<string>, b: multiset<string>, n: string)
    ensures a[n := 0] + (b + multiset{n}) == a + b <==> a[n] == 1
  {
    var u, v := a[n := 0] + (b + multiset{n}), a + b;
    assert u[n] == b[n] + 1 && v[n] == a[n] + b[n];
    assert forall x :: x != n ==> u[x] == v[x];
  }

  /** A take keeps all names as often as they were there exactly when the available list holds the name once. */
  lemma TakeConserves<T>(l: Lists<T>, name: string, pos: nat, data: T, r: Lists<T>)
    requires LeftBy(l, Take(name, pos, data), r)
    ensures SameNames(r, l) <==> multiset(Names(l.available))[name] == 1
  {
    LeftByNames(l, Take(name, pos, data), r);
    AllCount(l);
    AllCount(r);
    WithoutCount(Names(l.available), name);
    InsertedCount(Names(l.selected), pos, name);
    TakenCounts(multiset(Names(l.available)), multiset(Names(l.selected)), name);
  }

  /** `vector::insert`: whether it shifts in place or copies depends on the room left in the vector. */
  method VectorInsert<T>(s: seq<Field<T>>, pos: nat, x: Field<T>) returns (t: seq<Field<T>>)
    requires pos <= |s|
    ensures Inserts(s, pos, x, t)
  {
    var room: bool := *;
    if pos == |s| {
      t := s + [x];
    } else if room {
      t := Shifted(s, pos, x);
    } else {
      t := InsertedAt(s, pos, x);
    }
    assert s[..|s|] == s;
  }

  lemma SeparatorParts(text: string, name: string)
    ensures text + ",\n" + "         " + name == text + SEPARATOR + name
  {
  }

  lemma ClauseGrows(keyword: string, names: seq<string>, i: nat)
    requires 0 < i < |names|
    ensures keyword + Join(names[..i], SEPARATOR) + ",\n" + "         " + names[i]
         == keyword + Join(names[..i + 1], SEPARATOR)
  {
    JoinAppend(names[..i], names[i], SEPARATOR);
    assert names[..i + 1] == names[..i] + [names[i]];
    SeparatorParts(keyword + Join(names[..i], SEPARATOR), names[i]);
    Assoc(keyword, Join(names[..i], SEPARATOR) + SEPARATOR, names[i]);
    Assoc(keyword, Join(names[..i], SEPARATOR), SEPARATOR);
  }

  /** The loop that writes a clause: its keyword and the names, one to a line. */
  method ClauseText<T>(fields: seq<Field<T>>, keyword: string) returns (text: string)
    ensures text == keyword + Join(Names(fields), SEPARATOR)
  {
    text := keyword;
    for i := 0 to |fields|
      invariant text == keyword + Join(Names(fields)[..i], SEPARATOR)
    {
      if i == 0 {
        text := text + fields[i].name;
        assert Names(fields)[..1] == [fields[0].name];
      } else {
        text := text + ",\n";
        text := text + "         ";
        text := text + fields[i].name;
        ClauseGrows(keyword, Names(fields), i);
      }
    }
    assert Names(fields)[..|fields|] == Names(fields);
  }

  method ClauseOrNothing<T>(fields: seq<Field<T>>, keyword: string) returns (text: string)
    ensures text == if fields == [] then "" else keyword + Join(Names(fields), SEPARATOR)
  {
    text := "";
    if |fields| != 0 {
      text := ClauseText(fields, keyword);
    }
  }

  // ---- the fields of the SELECT list ----

  /** A field of a table; `id` tells field objects of the same table and name apart. */
  datatype TableField = TableField(id: nat, table: string, name: string)

  datatype QueryFieldChange = ADD | REMOVE | SHUFFLE

  function BareNames(fields: seq<TableField>): (names: seq<string>)
    ensures |names| == |fields| && forall i :: 0 <= i < |fields| ==> names[i] == fields[i].name
  {
    Map(fields, (f: TableField) => f.name)
  }

  /** `std::remove` and `erase` of one field object. */
  function Others(fields: seq<TableField>, field: TableField): seq<TableField> {
    if fields == [] then []
    else Others(fields[..|fields| - 1], field) + (if fields[|fields| - 1] == field then [] else [fields[|fields| - 1]])
  }

  /** Only this field has its name. */
  predicate SoleOfName(fields: seq<TableField>, field: TableField) {
    forall i :: 0 <= i < |fields| && fields[i].name == field.name ==> fields[i] == field
  }

  lemma {:induction false} OthersSize(fields: seq<TableField>, field: TableField)
    ensures |Without(BareNames(fields), field.name)| <= |Others(fields, field)|
    ensures |Without(BareNames(fields), field.name)| == |Others(fields, field)| <==> SoleOfName(fields, field)
  {
    if fields == [] {
    } else {
      var k := |fields| - 1;
      assert BareNames(fields)[..k] == BareNames(fields[..k]);
      OthersSize(fields[..k], field);
      assert SoleOfName(fields, field) <==>
        SoleOfName(fields[..k], field) && (fields[k].name == field.name ==> fields[k] == field);
    }
  }

  /** Taking out a field and taking out its name come to the same exactly when no other field has the name. */
  lemma {:induction false} OthersNames(fields: seq<TableField>, field: TableField)
    ensures Without(BareNames(fields), field.name) == BareNames(Others(fields, field)) <==> SoleOfName(fields, field)
  {
    OthersSize(fields, field);
    if SoleOfName(fields, field) && fields != [] {
      var k := |fields| - 1;
      assert BareNames(fields)[..k] == BareNames(fields[..k]);
      OthersNames(fields[..k], field);
    }
  }

  const NO_GROUP: Field<GroupData> := Field("", GroupData(-1, -1))

  /** The record a shuffle puts back: a copy of the one it took out, with the new position. */
  function Replaced(fields: seq<Field<GroupData>>, name: string, position: nat): Field<GroupData> {
    var picked := Picked(fields, name, NO_GROUP);
    Field(picked.name, GroupData(position, picked.data.internalPosition))
  }

  lemma {:induction false} IndexLast(s: seq<string>, last: string, n: string)
    ensures IndexOf(s + [last], n) == if n in s then IndexOf(s, n) else if last == n then |s| else |s| + 1
  {
    if s != [] {
      assert (s + [last])[1..] == s[1..] + [last];
      IndexLast(s[1..], last, n);
      assert s == [s[0]] + s[1..];
    } else {
      assert s + [last] == [last];
    }
  }

  /** A shuffled field keeps its name, and with a name of its own is the first record of that name. */
  lemma {:induction false} PickedNamed<T>(s: seq<Field<T>>, name: string, none: Field<T>)
    ensures Picked(s, name, none).name == if name in Names(s) then name else none.name
    ensures name in Names(s) && name != none.name ==> Picked(s, name, none) == s[IndexOf(Names(s), name)]
  {
    if s == [] {
    } else {
      var k := |s| - 1;
      PickedNamed(s[..k], name, none);
      assert Names(s) == Names(s[..k]) + [s[k].name];
      IndexLast(Names(s[..k]), s[k].name, name);
    }
  }

  /** It carries the position asked for; its inner position is kept. */
  lemma ReplacedRecord(fields: seq<Field<GroupData>>, name: string, position: nat)
    ensures Replaced(fields, name, position).name == if name in Names(fields) then name else ""
    ensures name in Names(fields) && name != "" ==>
              var k := IndexOf(Names(fields), name);
              Replaced(fields, name, position) == Field(name, GroupData(position, fields[k].data.internalPosition))
  {
    PickedNamed(fields, name, NO_GROUP);
  }

  /** DrawingDocument: the lists for GROUP BY and for ORDER BY, with the fields still available for each. */
  class DrawingDocument {
    var groupFieldsAll: seq<Field<GroupData>>
    var groupFields: seq<Field<GroupData>>
    var sortedFieldsAll: seq<Field<SortData>>
    var sortedFields: seq<Field<SortData>>
    var queryFields: seq<TableField>

    function Groups(): Lists<GroupData>
      reads this
    {
      Lists(groupFieldsAll, groupFields)
    }

    function Sorts(): Lists<SortData>
      reads this
    {
      Lists(sortedFieldsAll, sortedFields)
    }

    /** No field is twice in the lists of a clause. */
    predicate Valid()
      reads this
    {
      NoRepeats(AllNames(Groups())) && NoRepeats(AllNames(Sorts()))
    }

    constructor ()
      ensures Valid() && Groups() == Lists([], []) && Sorts() == Lists([], []) && queryFields == []
    {
      groupFieldsAll, groupFields, sortedFieldsAll, sortedFields, queryFields := [], [], [], [], [];
    }

    /** The fields available for sorting are those of the query, in its order. */
    predicate SortsQueryFields()
      reads this
    {
      Names(sortedFieldsAll) == BareNames(queryFields)
    }

    /** The record for sorting carries the bare name, so REMOVE may take other fields' records with it. */
    method AddRemoveField(field: TableField, isAdded: QueryFieldChange)
      modifies this`queryFields, this`sortedFieldsAll
      ensures queryFields == match isAdded
                             case ADD => old(queryFields) + [field]
                             case REMOVE => Others(old(queryFields), field)
                             case SHUFFLE => old(queryFields)
      ensures
        var record := Field(field.name, SortData(old(|sortedFieldsAll|) != 0, old(|queryFields|)));
        sortedFieldsAll == match isAdded
                           case ADD => old(sortedFieldsAll) + [record]
                           case REMOVE => Compacted(old(sortedFieldsAll), field.name)
                           case SHUFFLE => old(sortedFieldsAll)
      ensures old(SortsQueryFields()) ==>
                (SortsQueryFields() <==> isAdded == REMOVE ==> SoleOfName(old(queryFields), field))
    {
      var position, originalPosition := |sortedFieldsAll|, |queryFields|;
      if isAdded == ADD {
        queryFields := queryFields + [field];
        sortedFieldsAll := sortedFieldsAll + [Field(field.name, SortData(position != 0, originalPosition))];
      } else if isAdded == REMOVE {
        OthersNames(queryFields, field);
        CompactedNames(sortedFieldsAll, field.name);
        queryFields := Others(queryFields, field);
        sortedFieldsAll := Compacted(sortedFieldsAll, field.name);
      }
    }

    method AddGroupByFieldToQuery(name: string, position: nat, original: int) returns (replace: string)
      requires position <= |groupFields|
      modifies this`groupFieldsAll, this`groupFields
      ensures Performs(old(Groups()), Take(name, position, GroupData(position, original)), Groups())
      ensures old(Valid() && name in Names(groupFieldsAll)) ==>
                Valid() && Some(Groups()) == Moved(old(Groups()), Take(name, position, GroupData(position, original)))
      ensures old(Valid() && name in Names(groupFieldsAll)) ==>
                Holds(groupFields, position, Field(name, GroupData(position, original)))
      ensures replace == "GROUP BY " + Join(Names(groupFields), SEPARATOR)
    {
      groupFieldsAll := Compacted(groupFieldsAll, name);
      groupFields := VectorInsert(groupFields, position, Field(name, GroupData(position, original)));
      InPlacePerforms(old(Groups()), Take(name, position, GroupData(position, original)), Groups());
      replace := ClauseText(groupFields, "GROUP BY ");
    }

    method DeleteGroupByField(name: string, original: nat) returns (replace: string)
      requires original <= |groupFieldsAll|
      modifies this`groupFieldsAll, this`groupFields
      ensures Performs(old(Groups()), Return(name, original, GroupData(original, original)), Groups())
      ensures old(Valid() && name in Names(groupFields)) ==>
                Valid() && Some(Groups()) == Moved(old(Groups()), Return(name, original, GroupData(original, original)))
      ensures replace == if groupFields == [] then "" else "GROUP BY " + Join(Names(groupFields), SEPARATOR)
    {
      groupFields := Compacted(groupFields, name);
      groupFieldsAll := VectorInsert(groupFieldsAll, original, Field(name, GroupData(original, original)));
      InPlacePerforms(old(Groups()), Return(name, original, GroupData(original, original)), Groups());
      replace := ClauseOrNothing(groupFields, "GROUP BY ");
    }

    /** The record is taken out and a copy of it put in at the new position. */
    method ReplaceGroup(name: string, newPosition: nat)
      requires newPosition <= |Compacted(groupFields, name)|
      modifies this`groupFields
      ensures Performs(old(Groups()), Shuffle(name, newPosition, Replaced(old(groupFields), name, newPosition).data),
                       Groups())
    {
      var picked := Replaced(groupFields, name, newPosition);
      ReplacedRecord(groupFields, name, newPosition);
      groupFields := Compacted(groupFields, name);
      groupFields := VectorInsert(groupFields, newPosition, picked);
      InPlacePerforms(old(Groups()), Shuffle(name, newPosition, picked.data), Groups());
    }

    /** `before` is what the caller's text holds; the names are appended to it without a keyword. */
    method ShuffleGroupByFields(name: string, newPosition: nat, before: string) returns (replace: string)
      requires newPosition <= |Compacted(groupFields, name)|
      modifies this`groupFields
      ensures Performs(old(Groups()), Shuffle(name, newPosition, Replaced(old(groupFields), name, newPosition).data),
                       Groups())
      ensures old(Valid() && name in Names(groupFields)) ==>
                var data := Replaced(old(groupFields), name, newPosition).data;
                Valid() && Some(Groups()) == Moved(old(Groups()), Shuffle(name, newPosition, data))
      ensures old(Valid() && name in Names(groupFields)) && name != "" ==>
                var k := IndexOf(old(Names(groupFields)), name);
                Holds(groupFields, newPosition,
                      Field(name, GroupData(newPosition, old(groupFields)[k].data.internalPosition)))
      ensures replace == before + Join(Names(groupFields), SEPARATOR)
    {
      ReplacedRecord(groupFields, name, newPosition);
      ReplaceGroup(name, newPosition);
      RecordPlaced(old(Groups()), Shuffle(name, newPosition, Replaced(old(groupFields), name, newPosition).data),
                   Groups());
      replace := ClauseText(groupFields, before);
    }

    /** The position is passed where the record has its ascending flag. */
    method AddSortedField(name: string, originalPosition: int, position: nat) returns (replace: string)
      requires position <= |sortedFields|
      modifies this`sortedFieldsAll, this`sortedFields
      ensures Performs(old(Sorts()), Take(name, position, SortData(position != 0, originalPosition)), Sorts())
      ensures old(Valid() && name in Names(sortedFieldsAll)) ==>
                Valid()
                && Some(Sorts()) == Moved(old(Sorts()), Take(name, position, SortData(position != 0, originalPosition)))
      ensures replace == "ORDER BY " + Join(Names(sortedFields), SEPARATOR)
    {
      sortedFieldsAll := Compacted(sortedFieldsAll, name);
      sortedFields := VectorInsert(sortedFields, position, Field(name, SortData(position != 0, originalPosition)));
      InPlacePerforms(old(Sorts()), Take(name, position, SortData(position != 0, originalPosition)), Sorts());
      replace := ClauseText(sortedFields, "ORDER BY ");
    }

    /** The text for a list that stays non-empty begins with the keyword of the other clause. */
    method DeleteSortedField(name: string, original: nat) returns (replace: string)
      requires original <= |sortedFieldsAll|
      modifies this`sortedFieldsAll, this`sortedFields
      ensures Performs(old(Sorts()), Return(name, original, SortData(original != 0, original)), Sorts())
      ensures old(Valid() && name in Names(sortedFields)) ==>
                Valid()
                && Some(Sorts()) == Moved(old(Sorts()), Return(name, original, SortData(original != 0, original)))
      ensures replace == if sortedFields == [] then "" else "GROUP BY " + Join(Names(sortedFields), SEPARATOR)
    {
      sortedFields := Compacted(sortedFields, name);
      sortedFieldsAll := VectorInsert(sortedFieldsAll, original, Field(name, SortData(original != 0, original)));
      InPlacePerforms(old(Sorts()), Return(name, original, SortData(original != 0, original)), Sorts());
      replace := ClauseOrNothing(sortedFields, "GROUP BY ");
    }
  }
}
