/**
  `DrawingView`'s handlers for the query text: the SELECT list follows the document's query
  fields, the GROUP BY and ORDER BY clauses its other lists.
 */
module QueryEditing {
  import opened Wrappers
  import opened Seqs
  import opened Text
  import opened RecordVector
  import opened FieldLists
  import opened GroupSortText
  import opened ClauseEffects
  import JoinText
  import SelectText

  /** The name a field has in the text. */
  function Label(field: TableField): string {
    "\"" + field.table + "." + field.name + "\""
  }

  function Labels(fields: seq<TableField>): (names: seq<string>)
    ensures |names| == |fields| && forall i :: 0 <= i < |fields| ==> names[i] == Label(fields[i])
  {
    Map(fields, Label)
  }

  // ---- reading the fields back ----

  /** The table and the name in a label: up to the first dot between the quotes, and behind it. */
  function ReadLabel(listed: string): (string, string) {
    var parts := Pieces(listed, "\"");
    var dot := if |parts| == 3 then Find(parts[1], ".") else -1;
    if dot == -1 then ("", listed) else (parts[1][..dot], parts[1][dot + 1..])
  }

  /** The fields a text lists, as tables and names. */
  function ReadFields(query: string): Option<seq<(string, string)>> {
    match SelectText.ReadSelect(query)
    case None => None
    case Some(names) => Some(Map(names, ReadLabel))
  }

  function Pairs(fields: seq<TableField>): (pairs: seq<(string, string)>)
    ensures |pairs| == |fields| && forall i :: 0 <= i < |fields| ==> pairs[i] == (fields[i].table, fields[i].name)
  {
    Map(fields, (f: TableField) => (f.table, f.name))
  }

  /** A field whose label can be read back: no quote, comma or FROM, and no dot in the table. */
  predicate Readable(f: TableField) {
    var text := f.table + "." + f.name;
    '"' !in text && ',' !in text && Find(text, "FROM") == -1 && '.' !in f.table
  }

  predicate AllReadable(fields: seq<TableField>) {
    forall i :: 0 <= i < |fields| ==> Readable(fields[i])
  }

  lemma FirstDot(table: string, name: string)
    ensures
      var text := table + "." + name;
      var dot := Find(text, ".");
      dot != -1 && (text[..dot] == table && text[dot + 1..] == name <==> '.' !in table)
  {
    var text := table + "." + name;
    assert text == table + ("." + name);
    assert OccursAt(text, ".", |table|);
    assert OccursAt("." + name, ".", 0);
    ContainsChar(table, '.');
    if '.' in table {
      FindLeft(table, "." + name, ".");
    } else {
      SkipLeft(table, "." + name, ".");
      assert text[..|table|] == table && text[|table| + 1..] == name;
    }
  }

  lemma JoinThree(a: string, b: string, c: string, sep: string)
    ensures Join([a, b, c], sep) == a + sep + (b + sep + c)
  {
    assert [a, b, c][1..] == [b, c] && [b, c][1..] == [c];
    assert Join([b, c], sep) == b + sep + c;
  }

  lemma LabelForm(f: TableField)
    ensures Label(f) == Join(["", f.table + "." + f.name, ""], "\"")
  {
    JoinThree("", f.table + "." + f.name, "", "\"");
  }

  /** A label without inner quotes tells table and name exactly when the table has no dot. */
  lemma LabelReads(f: TableField)
    requires '"' !in f.table && '"' !in f.name
    ensures ReadLabel(Label(f)) == (f.table, f.name) <==> '.' !in f.table
  {
    var text := f.table + "." + f.name;
    var parts := ["", text, ""];
    LabelForm(f);
    PiecesExactly(parts, '"');
    FirstDot(f.table, f.name);
  }

  lemma ReadableName(f: TableField)
    requires Readable(f)
    ensures SelectText.IsName(Label(f)) && Find(Label(f), "FROM") == -1 && ReadLabel(Label(f)) == (f.table, f.name)
  {
    var text := f.table + "." + f.name;
    LabelReads(f);
    assert Label(f) == "\"" + text + "\"";
    FindPast(text, "\"", "FROM");
    SkipLeft("\"", text + "\"", "FROM");
    Assoc("\"", text, "\"");
  }

  /** The names of readable fields can be read from the SELECT list. */
  lemma ReadableNames(fields: seq<TableField>)
    requires AllReadable(fields)
    ensures SelectText.AreNames(Labels(fields)) && SelectText.NoneContains(Labels(fields), "FROM")
    ensures Map(Labels(fields), ReadLabel) == Pairs(fields)
  {
    forall i | 0 <= i < |fields|
      ensures
        var listed := Labels(fields)[i];
        && SelectText.IsName(listed) && Find(listed, "FROM") == -1
        && ReadLabel(listed) == (fields[i].table, fields[i].name)
    {
      ReadableName(fields[i]);
    }
  }

  /** The text of readable fields tells their tables and names, in order. */
  lemma ReadsFields(fields: seq<TableField>, tail: string)
    requires fields != [] && AllReadable(fields) && SelectText.IsTail(tail)
    ensures ReadFields(SelectText.Query(Labels(fields), tail)) == Some(Pairs(fields))
  {
    ReadableNames(fields);
    SelectText.ReadsNames(Labels(fields), tail);
  }

  /** After an ADD these are the old ones and the new field's. */
  lemma ReadsAdded(fields: seq<TableField>, field: TableField, tail: string)
    ensures AllReadable(fields + [field]) && SelectText.IsTail(tail) ==>
              ReadFields(SelectText.Query(Labels(fields + [field]), tail))
              == Some(Pairs(fields) + [(field.table, field.name)])
  {
    if AllReadable(fields + [field]) && SelectText.IsTail(tail) {
      ReadsFields(fields + [field], tail);
      assert Pairs(fields + [field]) == Pairs(fields) + [(field.table, field.name)];
    }
  }

  // ---- one change of the SELECT list ----

  /** ADD keeps text and fields in step exactly then. */
  predicate AddFits(names: seq<string>, tail: string) {
    if names == [] then Find(tail, SelectText.UNKNOWN) == -1
    else SelectText.NoneContains(names, "FROM") && Find(tail, SelectText.Listed(names)) == -1
  }

  lemma AddEffect(names: seq<string>, name: string, tail: string)
    requires SelectText.IsTail(tail)
    ensures
      var added := Some(SelectText.Query(names + [name], tail));
      SelectText.AddText(SelectText.Query(names, tail), |names| + 1, name) == added <==> AddFits(names, tail)
  {
    if names == [] {
      assert names + [name] == [name];
      SelectText.AddFirst(name, tail);
    } else {
      SelectText.AddNext(names, name, tail);
    }
  }

  /** REMOVE takes out the name, and nothing else, exactly then. */
  predicate RemoveFits(names: seq<string>, i: nat, tail: string)
    requires i < |names|
  {
    if |names| == 1 then Find(tail, names[i]) == -1
    else i == 0 ==> Find(tail, ", " + names[i]) == -1
  }

  lemma RemoveEffect(names: seq<string>, i: nat, tail: string)
    requires i < |names| && SelectText.AreNames(names) && SelectText.Distinct(names)
    ensures
      var removed := Some(SelectText.Removed(names, i, tail));
      var query := SelectText.Query(names, tail);
      SelectText.RemoveText(query, |names| - 1, names[i]) == removed <==> RemoveFits(names, i, tail)
  {
    if |names| == 1 {
      assert names == [names[0]];
      SelectText.RemoveOnly(names[0], tail);
    } else if i == 0 {
      SelectText.RemoveHead(names, tail);
    } else {
      SelectText.RemoveLater(names, i, tail);
    }
  }

  lemma {:induction false} OthersAbsent(fields: seq<TableField>, field: TableField)
    requires field !in fields
    ensures Others(fields, field) == fields
  {
    if fields == [] {
    } else {
      OthersAbsent(fields[..|fields| - 1], field);
    }
  }

  lemma {:induction false} OthersAround(a: seq<TableField>, field: TableField, b: seq<TableField>)
    requires field !in a && field !in b
    ensures Others(a + [field] + b, field) == a + b
    decreases |b|
  {
    var s := a + [field] + b;
    if b == [] {
      assert s == a + [field] && s[..|s| - 1] == a;
      OthersAbsent(a, field);
    } else {
      assert s[..|s| - 1] == a + [field] + b[..|b| - 1];
      OthersAround(a, field, b[..|b| - 1]);
    }
  }

  lemma OnlyPlace(fields: seq<TableField>, i: nat)
    requires i < |fields| && SelectText.Distinct(Labels(fields))
    ensures fields[i] !in fields[..i] && fields[i] !in fields[i + 1..]
  {
    forall k | 0 <= k < |fields| && k != i ensures fields[k] != fields[i] {
      assert Labels(fields)[k] != Labels(fields)[i];
    }
  }

  lemma LabelsAround(fields: seq<TableField>, i: nat)
    requires i < |fields|
    ensures Labels(fields[..i] + fields[i + 1..]) == Labels(fields)[..i] + Labels(fields)[i + 1..]
  {
  }

  /** With distinct labels REMOVE takes out the one place of the field. */
  lemma OthersLabels(fields: seq<TableField>, i: nat)
    requires i < |fields| && SelectText.Distinct(Labels(fields))
    ensures Others(fields, fields[i]) == fields[..i] + fields[i + 1..]
    ensures Labels(Others(fields, fields[i])) == Labels(fields)[..i] + Labels(fields)[i + 1..]
    ensures |Others(fields, fields[i])| == |fields| - 1
  {
    OnlyPlace(fields, i);
    assert fields == fields[..i] + [fields[i]] + fields[i + 1..];
    OthersAround(fields[..i], fields[i], fields[i + 1..]);
    LabelsAround(fields, i);
  }

  /** What a REMOVE of name `i` comes to: `left` are the labels of the fields left. */
  predicate RemovesOne(names: seq<string>, i: nat, tail: string, ok: bool, text: string, left: seq<string>)
    requires i < |names|
  {
    SelectText.AreNames(names) && SelectText.Distinct(names) ==>
      && left == names[..i] + names[i + 1..]
      && (ok && text == SelectText.Removed(names, i, tail) <==> RemoveFits(names, i, tail))
      && (RemoveFits(names, i, tail) && SelectText.NoneContains(names, "FROM") && SelectText.IsTail(tail) ==>
            SelectText.ReadSelect(text) == Some(if left == [] then [SelectText.UNKNOWN] else left))
  }

  lemma RemoveEffects(fields: seq<TableField>, field: TableField, tail: string)
    ensures
      var names, left := Labels(fields), Others(fields, field);
      var r := SelectText.RemoveText(SelectText.Query(names, tail), |left|, Label(field));
      forall i, ok, text :: 0 <= i < |fields| && fields[i] == field && r == (if ok then Some(text) else None) ==>
        RemovesOne(names, i, tail, ok, text, Labels(left))
  {
    var names, left := Labels(fields), Others(fields, field);
    var r := SelectText.RemoveText(SelectText.Query(names, tail), |left|, Label(field));
    forall i, ok, text | 0 <= i < |fields| && fields[i] == field && r == (if ok then Some(text) else None)
      ensures RemovesOne(names, i, tail, ok, text, Labels(left))
    {
      if SelectText.AreNames(names) && SelectText.Distinct(names) {
        OthersLabels(fields, i);
        RemoveEffect(names, i, tail);
        if RemoveFits(names, i, tail) && SelectText.NoneContains(names, "FROM") && SelectText.IsTail(tail) {
          SelectText.ReadsRemaining(names, i, tail);
        }
      }
    }
  }

  lemma ReadsLeft(left: seq<TableField>, text: string)
    requires AllReadable(left) && SelectText.ReadSelect(text) == Some(Labels(left))
    ensures ReadFields(text) == Some(Pairs(left))
  {
    ReadableNames(left);
  }

  lemma PairsAround(fields: seq<TableField>, i: nat)
    requires i < |fields| && AllReadable(fields)
    ensures Pairs(fields[..i] + fields[i + 1..]) == Pairs(fields)[..i] + Pairs(fields)[i + 1..]
    ensures AllReadable(fields[..i] + fields[i + 1..])
  {
  }

  /** A field is removed whose label is its alone, from a text in which REMOVE works. */
  predicate RemovesWell(fields: seq<TableField>, field: TableField, i: nat, tail: string) {
    && i < |fields| && fields[i] == field && |fields| > 1 && AllReadable(fields) && SelectText.IsTail(tail)
    && SelectText.Distinct(Labels(fields)) && RemoveFits(Labels(fields), i, tail)
  }

  /** What is read after a REMOVE of readable fields. */
  lemma ReadsRemoved(fields: seq<TableField>, field: TableField, i: nat, tail: string, ok: bool, text: string)
    requires RemovesWell(fields, field, i, tail)
    requires RemovesOne(Labels(fields), i, tail, ok, text, Labels(Others(fields, field)))
    ensures ReadFields(text) == Some(Pairs(fields)[..i] + Pairs(fields)[i + 1..])
  {
    ReadableNames(fields);
    OthersLabels(fields, i);
    PairsAround(fields, i);
    ReadsLeft(Others(fields, field), text);
  }

  /** The ADD branch of the handler. */
  method AddEdit(query: string, count: nat, name: string) returns (text: Option<string>)
    ensures text == SelectText.AddText(query, count, name)
  {
    if count == 1 {
      text := Some(ReplaceAll(query, "<unknown fields>", name + " "));
    } else {
      var blank := Find(query, " ");
      if blank == -1 {
        return None;
      }
      var temp := query[blank..];
      temp := SelectText.Prefix(temp, Find(temp, "FROM") - 1);
      text := Some(ReplaceAll(query, temp, temp + ", " + name + " "));
    }
  }

  /** The REMOVE branch. */
  method RemoveEdit(query: string, count: nat, name: string) returns (text: Option<string>)
    ensures text == SelectText.RemoveText(query, count, name)
  {
    if count == 0 {
      text := Some(ReplaceAll(query, name, "<unknown fields>"));
    } else {
      var str := ",";
      str := str + " ";
      str := str + name;
      assert str == ", " + name;
      var temp := SelectText.Prefix(query, Find(query, str));
      var from := Find(query, name) + |name|;
      if from < 0 || from > |query| {
        return None;
      }
      var temp1 := query[from..];
      if temp == query {
        temp := "SELECT ";
        if |temp1| < 2 {
          return None;
        }
        temp1 := temp1[2..];
      }
      text := Some(temp + temp1);
    }
  }

  // ---- which moves the page's actions are ----

  function GroupMove(action: int, name: string, pos: Positions, fields: seq<Field<GroupData>>): Move<GroupData> {
    if action == ADDFIELD then Take(name, pos.position, GroupData(pos.position, pos.originalPosition))
    else if action == REMOVEFIELD then
      Return(name, pos.originalPosition, GroupData(pos.originalPosition, pos.originalPosition))
    else Shuffle(name, pos.position, Replaced(fields, name, pos.position).data)
  }

  /** For additions and removals; nothing else happens to the lists for sorting. */
  function SortMove(action: int, name: string, pos: Positions): Move<SortData> {
    if action == ADDFIELD then Take(name, pos.position, SortData(pos.position != 0, pos.originalPosition))
    else Return(name, pos.originalPosition, SortData(pos.originalPosition != 0, pos.originalPosition))
  }

  /** Where an action on the group page leaves the field; the other names keep their places. */
  predicate GroupsPlaced(l: NameLists, action: int, name: string, pos: Positions, r: NameLists) {
    if action == ADDFIELD then
      PutIn(l.selected, pos.position, name, r.selected) && r.available == Without(l.available, name)
    else if action == REMOVEFIELD then
      PutIn(l.available, pos.originalPosition, name, r.available) && r.selected == Without(l.selected, name)
    else
      && r.available == l.available
      && PutIn(Without(l.selected, name), pos.position, if name in l.selected then name else "", r.selected)
  }

  /** The same for an addition or removal on the sort page. */
  predicate SortsPlaced(l: NameLists, action: int, name: string, pos: Positions, r: NameLists) {
    if action == ADDFIELD then
      PutIn(l.selected, pos.position, name, r.selected) && r.available == Without(l.available, name)
    else PutIn(l.available, pos.originalPosition, name, r.available) && r.selected == Without(l.selected, name)
  }

  /** The record the action leaves there carries the new position, and a shuffled one keeps its inner position. */
  predicate GroupRecorded(fields: seq<Field<GroupData>>, action: int, name: string, pos: Positions,
                          r: Lists<GroupData>)
  {
    if action == ADDFIELD then
      Holds(r.selected, pos.position, Field(name, GroupData(pos.position, pos.originalPosition)))
    else if action == REMOVEFIELD then
      Holds(r.available, pos.originalPosition, Field(name, GroupData(pos.originalPosition, pos.originalPosition)))
    else
      var k := IndexOf(Names(fields), name);
      name != "" && k < |fields| ==>
        Holds(r.selected, pos.position, Field(name, GroupData(pos.position, fields[k].data.internalPosition)))
  }

  lemma GroupActionPlaces(l: Lists<GroupData>, action: int, name: string, pos: Positions, r: Lists<GroupData>)
    requires Performs(l, GroupMove(action, name, pos, l.selected), r)
    ensures GroupsPlaced(NamesOf(l), action, name, pos, NamesOf(r))
    ensures NoRepeats(AllNames(l)) && name in Names(From(l, GroupMove(action, name, pos, l.selected))) ==>
              GroupRecorded(l.selected, action, name, pos, r)
  {
    var m := GroupMove(action, name, pos, l.selected);
    MovePlaces(l, m, r);
    RecordPlaced(l, m, r);
    ReplacedRecord(l.selected, name, pos.position);
  }

  /** The sort record carries the original position, and its flag is a position other than the first. */
  predicate SortRecorded(action: int, name: string, pos: Positions, r: Lists<SortData>) {
    if action == ADDFIELD then
      Holds(r.selected, pos.position, Field(name, SortData(pos.position != 0, pos.originalPosition)))
    else
      Holds(r.available, pos.originalPosition, Field(name, SortData(pos.originalPosition != 0, pos.originalPosition)))
  }

  lemma SortActionPlaces(l: Lists<SortData>, action: int, name: string, pos: Positions, r: Lists<SortData>)
    requires Sorting(action) && Performs(l, SortMove(action, name, pos), r)
    ensures SortsPlaced(NamesOf(l), action, name, pos, NamesOf(r))
    ensures NoRepeats(AllNames(l)) && name in Names(From(l, SortMove(action, name, pos))) ==>
              SortRecorded(action, name, pos, r)
  {
    MovePlaces(l, SortMove(action, name, pos), r);
    RecordPlaced(l, SortMove(action, name, pos), r);
  }

  // ---- fields for sorting ----

  /**
    The sort page lists the label of a query field, the document its bare name: taking the label
    keeps the names exactly when it is, once, the bare name of a query field.
   */
  lemma SortTakeConserves(l: Lists<SortData>, fields: seq<TableField>, f: TableField, pos: nat, data: SortData,
                          r: Lists<SortData>)
    requires Names(l.available) == BareNames(fields) && LeftBy(l, Take(Label(f), pos, data), r)
    ensures SameNames(r, l) <==> multiset(BareNames(fields))[Label(f)] == 1
  {
    TakeConserves(l, Label(f), pos, data, r);
  }

  /** With bare names that do not begin with a quote nothing leaves the available list. */
  lemma SortTakeDoubles(l: Lists<SortData>, fields: seq<TableField>, f: TableField, pos: nat, data: SortData,
                        r: Lists<SortData>)
    requires Names(l.available) == BareNames(fields) && LeftBy(l, Take(Label(f), pos, data), r)
    requires forall i :: 0 <= i < |fields| ==> fields[i].name == "" || fields[i].name[0] != '"'
    ensures Names(r.available) == BareNames(fields) && Names(r.selected) == InsertedAt(Names(l.selected), pos, Label(f))
    ensures !SameNames(r, l)
  {
    LeftByNames(l, Take(Label(f), pos, data), r);
    assert Label(f)[0] == '"';
    assert Label(f) !in BareNames(fields);
    WithoutAbsent(BareNames(fields), Label(f));
    SortTakeConserves(l, fields, f, pos, data, r);
  }

  lemma OnlySort(f: TableField, record: SortData, data: SortData, r: Lists<SortData>)
    requires f.name == "" || f.name[0] != '"'
    requires LeftBy(Lists([Field(f.name, record)], []), Take(Label(f), 0, data), r)
    ensures Names(r.available) == [f.name] && Names(r.selected) == [Label(f)]
  {
    var l := Lists([Field(f.name, record)], []);
    assert Names(l.available) == BareNames([f]) == [f.name];
    SortTakeDoubles(l, [f], f, 0, data, r);
    assert InsertedAt(Names(l.selected), 0, Label(f)) == [Label(f)];
  }

  /** A field added to a new query and dragged to the sort list, as `"t.id"` for `id`, is in both lists. */
  method SortsTwice(document: DrawingDocument, f: TableField)
    requires document.queryFields == [] && document.Sorts() == Lists([], [])
    requires f.name == "" || f.name[0] != '"'
    modifies document
    ensures Names(document.sortedFieldsAll) == [f.name] && Names(document.sortedFields) == [Label(f)]
  {
    document.AddRemoveField(f, ADD);
    ghost var record := document.sortedFieldsAll[0].data;
    assert document.Sorts() == Lists([Field(f.name, record)], []);
    ghost var l := document.Sorts();
    var clause := document.AddSortedField(Label(f), 0, 0);
    OnlySort(f, record, SortData(false, 0), document.Sorts());
  }

  // ---- the names the window shows, over runs ----

  /** The names in the document's lists, and its query fields. */
  datatype Shown = Shown(fields: seq<TableField>, groups: NameLists, sorts: NameLists)

  /** What a user does: a field is ticked in a table, or a page's list is changed. */
  datatype Edit =
    | AddTo(field: TableField)
    | OnPage(action: int, page: int, name: string, pos: Positions)

  /** The positions are those of places in the lists. */
  predicate Possible(v: Shown, e: Edit) {
    match e
    case AddTo(_) => true
    case OnPage(action, page, name, pos) =>
      if page == GROUP_PAGE then MovedNames(v.groups, GroupMove(action, name, pos, [])).Some?
      else Sorting(action) ==> MovedNames(v.sorts, SortMove(action, name, pos)).Some?
  }

  /** The names afterwards. */
  function NextShown(v: Shown, e: Edit): Shown
    requires Possible(v, e)
  {
    match e
    case AddTo(f) => v.(fields := v.fields + [f], sorts := v.sorts.(available := v.sorts.available + [f.name]))
    case OnPage(action, page, name, pos) =>
      if page == GROUP_PAGE then v.(groups := MovedNames(v.groups, GroupMove(action, name, pos, [])).value)
      else if Sorting(action) then v.(sorts := MovedNames(v.sorts, SortMove(action, name, pos)).value)
      else v
  }

  function Clauses(groups: seq<string>, sorts: seq<string>): string {
    (if groups == [] then "" else "\n" + GroupClause(groups)) + (if sorts == [] then "" else "\n" + OrderClause(sorts))
  }

  /** What stands behind the SELECT list. */
  function TailOf(v: Shown, from: string): string {
    from + Clauses(v.groups.selected, v.sorts.selected) + ";"
  }

  /** The text of what is shown, with `from` between the fields and the clauses. */
  function TextOf(v: Shown, from: string): string {
    Query(SelectText.Query(Labels(v.fields), from), v.groups.selected, v.sorts.selected)
  }

  /** The selected names of a page. */
  function SelectedOn(v: Shown, page: int): seq<string> {
    if page == GROUP_PAGE then v.groups.selected else v.sorts.selected
  }

  /** A field is removed from, or moved in, a list that holds it. */
  predicate InList(names: seq<string>, action: int, page: int, name: string) {
    action == ADDFIELD || (action != REMOVEFIELD && page != GROUP_PAGE) || name in names
  }

  /** An edit of the pages that finds nothing misleading in the text, of a field that is where it should be. */
  predicate Regular(v: Shown, from: string, e: Edit) {
    match e
    case AddTo(_) => true
    case OnPage(action, page, name, _) =>
      && (page == GROUP_PAGE || page == SORT_PAGE) && InList(SelectedOn(v, page), action, page, name)
      && Plain(SelectText.Query(Labels(v.fields), from), v.groups.selected)
      && (page == GROUP_PAGE ==> AllSortable(v.sorts.selected))
  }

  /** The edit leaves text and document in step. */
  predicate Follows(v: Shown, from: string, e: Edit)
    requires Possible(v, e)
  {
    match e
    case AddTo(_) => AddFits(Labels(v.fields), TailOf(v, from))
    case OnPage(action, page, _, _) =>
      Regular(v, from, e) && Steady(v.sorts.selected, action, page, SelectedOn(NextShown(v, e), page))
  }

  predicate AllFollow(v: Shown, from: string, edits: seq<Edit>)
    decreases |edits|
  {
    edits == [] ||
    (Possible(v, edits[0]) && Follows(v, from, edits[0]) && AllFollow(NextShown(v, edits[0]), from, edits[1..]))
  }

  function ShownAfter(v: Shown, from: string, edits: seq<Edit>): Shown
    requires AllFollow(v, from, edits)
    decreases |edits|
  {
    if edits == [] then v else ShownAfter(NextShown(v, edits[0]), from, edits[1..])
  }

  lemma GroupedForm(base: string, groups: seq<string>)
    ensures Grouped(base, groups) == base + (if groups == [] then "" else "\n" + GroupClause(groups))
  {
    if groups == [] {
      assert base + "" == base;
    } else {
      Assoc(base, "\n", GroupClause(groups));
    }
  }

  lemma OrderedForm(body: string, sorts: seq<string>)
    ensures (if sorts == [] then body else Line(body, OrderClause(sorts)))
         == body + (if sorts == [] then "" else "\n" + OrderClause(sorts))
  {
    if sorts == [] {
      assert body + "" == body;
    } else {
      Assoc(body, "\n", OrderClause(sorts));
    }
  }

  lemma ClausesForm(list: string, from: string, groups: seq<string>, sorts: seq<string>)
    ensures Query(list + from, groups, sorts) == list + (from + Clauses(groups, sorts) + ";")
  {
    var g := if groups == [] then "" else "\n" + GroupClause(groups);
    var o := if sorts == [] then "" else "\n" + OrderClause(sorts);
    GroupedForm(list + from, groups);
    OrderedForm(list + from + g, sorts);
    Assoc(list + from, g, o);
    Assoc(list, from, g + o);
    Assoc(list, from + (g + o), ";");
  }

  /** The clauses are part of what stands behind the SELECT list. */
  lemma TextTail(v: Shown, from: string)
    ensures TextOf(v, from) == SelectText.Query(Labels(v.fields), TailOf(v, from))
  {
    var names := Labels(v.fields);
    var list := "SELECT" + (if names == [] then " " + SelectText.UNKNOWN else SelectText.Listed(names));
    ClausesForm(list, from, v.groups.selected, v.sorts.selected);
  }

  lemma TailBegins(v: Shown, from: string)
    requires SelectText.IsTail(from)
    ensures SelectText.IsTail(TailOf(v, from))
  {
    var clauses := Clauses(v.groups.selected, v.sorts.selected);
    assert (from + clauses + ";")[..5] == from[..5];
  }

  /** What is shown can be read back from the text: the fields, the group names and the sort names. */
  lemma ReadsShown(v: Shown, from: string)
    requires SelectText.IsTail(from) && v.fields != [] && AllReadable(v.fields)
    requires Plain(SelectText.Query(Labels(v.fields), from), v.groups.selected)
    requires FreeOf(v.groups.selected, '\n') && FreeOf(v.sorts.selected, '\n')
    ensures ReadFields(TextOf(v, from)) == Some(Pairs(v.fields))
    ensures ReadClauses(TextOf(v, from)) == (v.groups.selected, v.sorts.selected)
  {
    TextTail(v, from);
    TailBegins(v, from);
    ReadsFields(v.fields, TailOf(v, from));
    ReadsLists(SelectText.Query(Labels(v.fields), from), v.groups.selected, v.sorts.selected);
  }

  /** Which record a shuffle puts back does not matter to the names. */
  lemma MoveOfNames(v: NameLists, action: int, name: string, pos: Positions, fields: seq<Field<GroupData>>)
    ensures MovedNames(v, GroupMove(action, name, pos, fields)) == MovedNames(v, GroupMove(action, name, pos, []))
  {
  }

  lemma AddKeepsTail(v: Shown, f: TableField, from: string)
    ensures TailOf(NextShown(v, AddTo(f)), from) == TailOf(v, from)
  {
  }

  // ---- runs from a new window ----

  function AddEdits(fields: seq<TableField>): seq<Edit> {
    if fields == [] then [] else [AddTo(fields[0])] + AddEdits(fields[1..])
  }

  function PageEdits(page: int, adds: seq<Addition>): seq<Edit> {
    if adds == [] then []
    else [OnPage(ADDFIELD, page, adds[0].name, Positions(adds[0].pos, adds[0].original))] + PageEdits(page, adds[1..])
  }

  /** The names after all additions. */
  function InsertAll(names: seq<string>, adds: seq<Addition>): seq<string>
    requires InRange(|names|, adds)
    decreases |adds|
  {
    if adds == [] then names else InsertAll(InsertedAt(names, adds[0].pos, adds[0].name), adds[1..])
  }

  lemma NoClauses(v: Shown, from: string)
    requires v.groups.selected == [] && v.sorts.selected == []
    ensures TailOf(v, from) == from + ";"
  {
    assert Clauses([], []) == "" && from + "" == from;
  }

  lemma AddFollows(v: Shown, from: string, all: seq<string>)
    requires v.groups.selected == [] && v.sorts.selected == [] && SelectText.RunnableFrom(all, from + ";")
    requires |v.fields| < |all| && Labels(v.fields) == all[..|v.fields|]
    ensures AddFits(Labels(v.fields), TailOf(v, from))
  {
    NoClauses(v, from);
    var k := |v.fields|;
    if k > 0 {
      SelectText.PrefixAbsent(all, k, from + ";");
      assert forall i :: 0 <= i < k ==> all[..k][i] == all[..|all| - 1][i];
    }
  }

  lemma LabelsPrefix(fields: seq<TableField>, more: seq<TableField>)
    ensures Labels(fields) == Labels(fields + more)[..|fields|]
  {
  }

  /** ADDs follow as long as there are no clauses. */
  lemma {:induction false} AddsFollow(v: Shown, from: string, fields: seq<TableField>)
    requires v.groups.selected == [] && v.sorts.selected == []
    requires SelectText.RunnableFrom(Labels(v.fields + fields), from + ";")
    ensures AllFollow(v, from, AddEdits(fields))
    ensures
      var w := ShownAfter(v, from, AddEdits(fields));
      w.fields == v.fields + fields && w.groups == v.groups && w.sorts.selected == []
    decreases |fields|
  {
    if fields == [] {
      assert v.fields + fields == v.fields;
    } else {
      var e := AddTo(fields[0]);
      LabelsPrefix(v.fields, fields);
      AddFollows(v, from, Labels(v.fields + fields));
      assert v.fields + fields == NextShown(v, e).fields + fields[1..];
      AddsFollow(NextShown(v, e), from, fields[1..]);
      assert AddEdits(fields)[1..] == AddEdits(fields[1..]);
    }
  }

  /** Nothing in the text of the fields that the page handlers look for. */
  predicate PlainBase(fields: seq<TableField>, from: string) {
    var base := SelectText.Query(Labels(fields), from);
    NoKeywords(base) && Find(base, ";") == -1
  }

  /** Group additions follow before the first sort field. */
  lemma {:induction false} GroupsFollow(v: Shown, from: string, adds: seq<Addition>)
    requires PlainBase(v.fields, from) && AllGroupable(v.groups.selected) && v.sorts.selected == []
    requires AddsGroupable(adds) && InRange(|v.groups.selected|, adds)
    ensures AllFollow(v, from, PageEdits(GROUP_PAGE, adds))
    ensures
      var w := ShownAfter(v, from, PageEdits(GROUP_PAGE, adds));
      && w.fields == v.fields && w.sorts == v.sorts && w.groups.selected == InsertAll(v.groups.selected, adds)
      && AllGroupable(w.groups.selected)
    decreases |adds|
  {
    if adds == [] {
    } else {
      var e := OnPage(ADDFIELD, GROUP_PAGE, adds[0].name, Positions(adds[0].pos, adds[0].original));
      RestOfAdds(|v.groups.selected|, adds);
      MoreGroupable(v.groups.selected, adds[0].pos, adds[0].name);
      assert Possible(v, e) && Follows(v, from, e);
      GroupsFollow(NextShown(v, e), from, adds[1..]);
      assert PageEdits(GROUP_PAGE, adds)[1..] == PageEdits(GROUP_PAGE, adds[1..]);
    }
  }

  /** Sort additions always follow. */
  lemma {:induction false} SortsFollow(v: Shown, from: string, adds: seq<Addition>)
    requires PlainBase(v.fields, from) && AllGroupable(v.groups.selected) && InRange(|v.sorts.selected|, adds)
    ensures AllFollow(v, from, PageEdits(SORT_PAGE, adds))
    ensures
      var w := ShownAfter(v, from, PageEdits(SORT_PAGE, adds));
      w.fields == v.fields && w.groups == v.groups && w.sorts.selected == InsertAll(v.sorts.selected, adds)
    decreases |adds|
  {
    if adds == [] {
    } else {
      var e := OnPage(ADDFIELD, SORT_PAGE, adds[0].name, Positions(adds[0].pos, adds[0].original));
      MoreSorts(v.sorts.selected, adds);
      assert Possible(v, e) && Follows(v, from, e);
      SortsFollow(NextShown(v, e), from, adds[1..]);
      assert PageEdits(SORT_PAGE, adds)[1..] == PageEdits(SORT_PAGE, adds[1..]);
    }
  }

  lemma ReadsComposed(v: Shown, from: string)
    requires SelectText.IsTail(from) && PlainBase(v.fields, from) && AllGroupable(v.groups.selected)
    ensures v.fields != [] && AllReadable(v.fields) && FreeOf(v.groups.selected + v.sorts.selected, '\n') ==>
              ReadFields(TextOf(v, from)) == Some(Pairs(v.fields))
              && ReadClauses(TextOf(v, from)) == (v.groups.selected, v.sorts.selected)
  {
    if v.fields != [] && AllReadable(v.fields) && FreeOf(v.groups.selected + v.sorts.selected, '\n') {
      var both := v.groups.selected + v.sorts.selected;
      assert v.groups.selected == both[..|v.groups.selected|] && v.sorts.selected == both[|v.groups.selected|..];
      ReadsShown(v, from);
    }
  }

  /** After an action of a field in its list the text follows exactly when the action is a steady one. */
  lemma PageFollows(base: string, g: Lists<GroupData>, k: Lists<SortData>, action: int, page: int, name: string,
                    pos: Positions, newG: Lists<GroupData>, newK: Lists<SortData>)
    requires page == GROUP_PAGE || page == SORT_PAGE
    requires Plain(base, Names(g.selected)) && (page == GROUP_PAGE ==> AllSortable(Names(k.selected)))
    requires InList(if page == GROUP_PAGE then Names(g.selected) else Names(k.selected), action, page, name)
    requires page == GROUP_PAGE ==> newK == k && LeftBy(g, GroupMove(action, name, pos, g.selected), newG)
    requires page == SORT_PAGE ==>
               newG == g && if Sorting(action) then LeftBy(k, SortMove(action, name, pos), newK) else newK == k
    ensures InStepAfter(base, Names(g.selected), Names(k.selected), action, page, Names(newG.selected),
                        Names(newK.selected))
       <==> Steady(Names(k.selected), action, page,
                   if page == GROUP_PAGE then Names(newG.selected) else Names(newK.selected))
  {
    InListChanges(g, GroupMove(action, name, pos, g.selected), newG);
    InListChanges(k, SortMove(action, name, pos), newK);
    TextFollows(base, Names(g.selected), Names(k.selected), action, page, Names(newG.selected), Names(newK.selected));
  }

  class DrawingView {
    const document: DrawingDocument
    var query: string

    constructor (document: DrawingDocument, query: string)
      ensures this.document == document && this.query == query
    {
      this.document, this.query := document, query;
    }

    /** The positions are those of places in the lists, as the pages' drag handlers give them. */
    predicate InPlace(action: int, queryType: int, name: string, pos: Positions)
      reads this, document
    {
      if queryType == GROUP_PAGE then
        if action == ADDFIELD then pos.position <= |document.groupFields|
        else if action == REMOVEFIELD then pos.originalPosition <= |document.groupFieldsAll|
        else pos.position <= |Compacted(document.groupFields, name)|
      else
        if action == ADDFIELD then pos.position <= |document.sortedFields|
        else action != REMOVEFIELD || pos.originalPosition <= |document.sortedFieldsAll|
    }

    /** The text the document returns for its lists after the action. */
    function Replacement(action: int, queryType: int): string
      reads document
    {
      ClauseFor(action, queryType, Names(document.groupFields), Names(document.sortedFields))
    }

    /** The names selected on a page. */
    function Selected(queryType: int): seq<string>
      reads document
    {
      if queryType == GROUP_PAGE then Names(document.groupFields) else Names(document.sortedFields)
    }

    /** Nothing in the text misleads the handler of a page. */
    predicate Clean(base: string, queryType: int)
      reads document
    {
      && (queryType == GROUP_PAGE || queryType == SORT_PAGE) && Plain(base, Names(document.groupFields))
      && (queryType == GROUP_PAGE ==> AllSortable(Names(document.sortedFields)))
    }

    /** The text is the base with the document's two lists as its clauses. */
    predicate InStep(base: string)
      reads this, document
    {
      query == Query(base, Names(document.groupFields), Names(document.sortedFields))
    }

    /** The record for sorting that comes with a new query field. */
    function SortRecord(field: TableField): Field<SortData>
      reads document
    {
      Field(field.name, SortData(|document.sortedFieldsAll| != 0, |document.queryFields|))
    }

    /** The text lists the document's query fields and goes on with `tail`. */
    predicate Selects(tail: string)
      reads this, document
    {
      query == SelectText.Query(Labels(document.queryFields), tail)
    }

    method AddField(field: TableField, ghost tail: string) returns (ok: bool)
      modifies this, document`queryFields, document`sortedFieldsAll
      ensures document.queryFields == old(document.queryFields) + [field]
      ensures document.sortedFieldsAll == old(document.sortedFieldsAll + [SortRecord(field)])
      ensures SelectText.AddText(old(query), |document.queryFields|, Label(field)) == if ok then Some(query) else None
      ensures !ok ==> query == old(query)
      ensures old(Selects(tail)) && SelectText.IsTail(tail) ==>
                (ok && Selects(tail) <==> AddFits(old(Labels(document.queryFields)), tail))
    {
      var name := Label(field);
      ghost var names := Labels(document.queryFields);
      if SelectText.IsTail(tail) {
        AddEffect(names, name, tail);
      }
      document.AddRemoveField(field, ADD);
      assert Labels(document.queryFields) == names + [name];
      var text := AddEdit(query, |document.queryFields|, name);
      ok := text.Some?;
      if ok {
        query := text.value;
      }
    }

    method RemoveField(field: TableField, ghost tail: string) returns (ok: bool)
      modifies this, document`queryFields, document`sortedFieldsAll
      ensures document.queryFields == Others(old(document.queryFields), field)
      ensures document.sortedFieldsAll == Compacted(old(document.sortedFieldsAll), field.name)
      ensures SelectText.RemoveText(old(query), |document.queryFields|, Label(field))
           == if ok then Some(query) else None
      ensures !ok ==> query == old(query)
      ensures old(Selects(tail)) ==>
                forall i :: 0 <= i < old(|document.queryFields|) && old(document.queryFields)[i] == field ==>
                  RemovesOne(old(Labels(document.queryFields)), i, tail, ok, query, Labels(document.queryFields))
    {
      RemoveEffects(document.queryFields, field, tail);
      document.AddRemoveField(field, REMOVE);
      var text := RemoveEdit(query, |document.queryFields|, Label(field));
      ok := text.Some?;
      if ok {
        query := text.value;
      }
    }

    /**
      `ok` is false when `substr` throws, after the document has been changed.  From a text in
      step ADD leaves one in step exactly when `AddFits`, and REMOVE exactly when `RemoveFits`
      leaves one from which the fields left are read back.
     */
    method AddFieldToQuery(field: TableField, isAdding: QueryFieldChange, ghost tail: string) returns (ok: bool)
      modifies this, document`queryFields, document`sortedFieldsAll
      ensures document.queryFields == match isAdding
                                      case ADD => old(document.queryFields) + [field]
                                      case REMOVE => Others(old(document.queryFields), field)
                                      case SHUFFLE => old(document.queryFields)
      ensures document.sortedFieldsAll == match isAdding
                                          case ADD => old(document.sortedFieldsAll + [SortRecord(field)])
                                          case REMOVE => Compacted(old(document.sortedFieldsAll), field.name)
                                          case SHUFFLE => old(document.sortedFieldsAll)
      ensures isAdding == ADD ==>
                SelectText.AddText(old(query), |document.queryFields|, Label(field)) == if ok then Some(query) else None
      ensures isAdding == REMOVE ==>
                SelectText.RemoveText(old(query), |document.queryFields|, Label(field))
                == if ok then Some(query) else None
      ensures isAdding == SHUFFLE ==> ok
      ensures !ok || isAdding == SHUFFLE ==> query == old(query)
      ensures isAdding == ADD && old(Selects(tail)) && SelectText.IsTail(tail) ==>
                (ok && Selects(tail) <==> AddFits(old(Labels(document.queryFields)), tail))
      ensures isAdding == ADD && old(Selects(tail)) && SelectText.IsTail(tail)
              && AddFits(old(Labels(document.queryFields)), tail) && AllReadable(document.queryFields) ==>
                ReadFields(query) == Some(old(Pairs(document.queryFields)) + [(field.table, field.name)])
      ensures isAdding == REMOVE && old(Selects(tail)) && SelectText.IsTail(tail) ==>
                forall i :: 0 <= i < old(|document.queryFields|) && old(document.queryFields)[i] == field ==>
                  RemovesOne(old(Labels(document.queryFields)), i, tail, ok, query, Labels(document.queryFields))
      ensures isAdding == REMOVE && old(Selects(tail)) ==>
                forall i :: 0 <= i < old(|document.queryFields|)
                            && RemovesWell(old(document.queryFields), field, i, tail) ==>
                  ReadFields(query)
                  == Some(old(Pairs(document.queryFields))[..i] + old(Pairs(document.queryFields))[i + 1..])
    {
      ok := true;
      if isAdding == ADD {
        ok := AddField(field, tail);
        ReadsAdded(old(document.queryFields), field, tail);
      } else if isAdding == REMOVE {
        ok := RemoveField(field, tail);
        forall i | 0 <= i < old(|document.queryFields|) && old(Selects(tail))
                   && RemovesWell(old(document.queryFields), field, i, tail)
          ensures ReadFields(query)
               == Some(old(Pairs(document.queryFields))[..i] + old(Pairs(document.queryFields))[i + 1..])
        {
          ReadsRemoved(old(document.queryFields), field, i, tail, ok, query);
        }
      }
    }

    /** The move an action on the group page is. */
    function GroupAction(action: int, name: string, pos: Positions): Move<GroupData>
      reads document
    {
      GroupMove(action, name, pos, document.groupFields)
    }

    /** The field is in the list the action takes it from. */
    predicate Sensible(action: int, queryType: int, name: string, pos: Positions)
      reads document
    {
      if queryType == GROUP_PAGE then name in Names(From(document.Groups(), GroupAction(action, name, pos)))
      else Sorting(action) ==> name in Names(From(document.Sorts(), SortMove(action, name, pos)))
    }

    /** The document's method for the action is called. */
    method CallDocument(action: int, fieldName: string, queryType: int, pos: Positions) returns (replace: string)
      requires InPlace(action, queryType, fieldName, pos)
      modifies document
      ensures replace == Replacement(action, queryType)
      ensures document.queryFields == old(document.queryFields)
      ensures queryType == GROUP_PAGE ==>
                && document.Sorts() == old(document.Sorts())
                && Performs(old(document.Groups()), old(GroupAction(action, fieldName, pos)), document.Groups())
      ensures queryType != GROUP_PAGE ==>
                && document.Groups() == old(document.Groups())
                && (if Sorting(action)
                       then Performs(old(document.Sorts()), SortMove(action, fieldName, pos), document.Sorts())
                    else document.Sorts() == old(document.Sorts()))
      ensures old(document.Valid() && Sensible(action, queryType, fieldName, pos)) ==> document.Valid()
    {
      replace := "";
      if queryType == GROUP_PAGE {
        if action == ADDFIELD {
          replace := document.AddGroupByFieldToQuery(fieldName, pos.position, pos.originalPosition);
        } else if action == REMOVEFIELD {
          replace := document.DeleteGroupByField(fieldName, pos.originalPosition);
        } else {
          replace := document.ShuffleGroupByFields(fieldName, pos.position, "");
        }
      } else if action == ADDFIELD {
        replace := document.AddSortedField(fieldName, pos.originalPosition, pos.position);
      } else if action == REMOVEFIELD {
        replace := document.DeleteSortedField(fieldName, pos.originalPosition);
      }
    }

    /** The document's part of the handling: its lists change and the clause text comes back. */
    method ChangeLists(action: int, fieldName: string, queryType: int, pos: Positions) returns (replace: string)
      requires InPlace(action, queryType, fieldName, pos)
      modifies document
      ensures replace == Replacement(action, queryType)
      ensures document.queryFields == old(document.queryFields)
      ensures queryType == GROUP_PAGE ==>
                && document.Sorts() == old(document.Sorts())
                && Performs(old(document.Groups()), old(GroupAction(action, fieldName, pos)), document.Groups())
      ensures queryType != GROUP_PAGE ==>
                && document.Groups() == old(document.Groups())
                && (if Sorting(action)
                       then Performs(old(document.Sorts()), SortMove(action, fieldName, pos), document.Sorts())
                    else document.Sorts() == old(document.Sorts()))
      ensures old(document.Valid() && Sensible(action, queryType, fieldName, pos)) ==> document.Valid()
      ensures queryType == GROUP_PAGE ==>
                GroupsPlaced(old(NamesOf(document.Groups())), action, fieldName, pos, NamesOf(document.Groups()))
      ensures queryType != GROUP_PAGE && Sorting(action) ==>
                SortsPlaced(old(NamesOf(document.Sorts())), action, fieldName, pos, NamesOf(document.Sorts()))
      ensures old(document.Valid() && Sensible(action, queryType, fieldName, pos)) && queryType == GROUP_PAGE ==>
                GroupRecorded(old(document.groupFields), action, fieldName, pos, document.Groups())
      ensures old(document.Valid() && Sensible(action, queryType, fieldName, pos)) && queryType != GROUP_PAGE
              && Sorting(action) ==>
                SortRecorded(action, fieldName, pos, document.Sorts())
    {
      replace := CallDocument(action, fieldName, queryType, pos);
      if queryType == GROUP_PAGE {
        GroupActionPlaces(old(document.Groups()), action, fieldName, pos, document.Groups());
      } else if Sorting(action) {
        SortActionPlaces(old(document.Sorts()), action, fieldName, pos, document.Sorts());
      }
    }

    /** The region is found, the lists are changed and the text is edited. */
    method EditClause(action: int, fieldName: string, queryType: int, pos: Positions) returns (ok: bool)
      requires InPlace(action, queryType, fieldName, pos)
      modifies this, document
      ensures ok <==> Region(old(query), queryType).Some?
      ensures ok ==> Some(query) == Handled(old(query), action, queryType, Replacement(action, queryType))
      ensures document.queryFields == old(document.queryFields)
      ensures !ok ==> query == old(query) && document.Groups() == old(document.Groups())
                      && document.Sorts() == old(document.Sorts())
      ensures ok && queryType == GROUP_PAGE ==>
                && document.Sorts() == old(document.Sorts())
                && Performs(old(document.Groups()), old(GroupAction(action, fieldName, pos)), document.Groups())
      ensures ok && queryType != GROUP_PAGE ==>
                && document.Groups() == old(document.Groups())
                && (if Sorting(action)
                       then Performs(old(document.Sorts()), SortMove(action, fieldName, pos), document.Sorts())
                    else document.Sorts() == old(document.Sorts()))
      ensures old(document.Valid() && Sensible(action, queryType, fieldName, pos)) ==> document.Valid()
      ensures ok && queryType == GROUP_PAGE ==>
                GroupsPlaced(old(NamesOf(document.Groups())), action, fieldName, pos, NamesOf(document.Groups()))
      ensures ok && queryType != GROUP_PAGE && Sorting(action) ==>
                SortsPlaced(old(NamesOf(document.Sorts())), action, fieldName, pos, NamesOf(document.Sorts()))
      ensures ok && old(document.Valid() && Sensible(action, queryType, fieldName, pos)) && queryType == GROUP_PAGE ==>
                GroupRecorded(old(document.groupFields), action, fieldName, pos, document.Groups())
      ensures ok && old(document.Valid() && Sensible(action, queryType, fieldName, pos)) && queryType != GROUP_PAGE
              && Sorting(action) ==>
                SortRecorded(action, fieldName, pos, document.Sorts())
    {
      var region := Region(query, queryType);
      if region.None? {
        return false;
      }
      ok := true;
      var str := region.value;
      var replace := ChangeLists(action, fieldName, queryType, pos);
      query := EditText(query, str, action, queryType, replace);
    }

    /**
      `ok` is false when `substr` throws, before the document is touched.  A text in step with
      the lists stays in step exactly under the actions of `Steady`.
     */
    method SortGroupByHandling(action: int, fieldName: string, queryType: int, pos: Positions, ghost base: string)
      returns (ok: bool)
      requires InPlace(action, queryType, fieldName, pos)
      modifies this, document
      ensures ok <==> Region(old(query), queryType).Some?
      ensures old(InStep(base)) && (queryType == GROUP_PAGE || queryType == SORT_PAGE) ==> ok
      ensures ok ==> Some(query) == Handled(old(query), action, queryType, Replacement(action, queryType))
      ensures document.queryFields == old(document.queryFields)
      ensures !ok ==> query == old(query) && document.Groups() == old(document.Groups())
                      && document.Sorts() == old(document.Sorts())
      ensures ok && queryType == GROUP_PAGE ==>
                && document.Sorts() == old(document.Sorts())
                && Performs(old(document.Groups()), old(GroupAction(action, fieldName, pos)), document.Groups())
                && GroupsPlaced(old(NamesOf(document.Groups())), action, fieldName, pos, NamesOf(document.Groups()))
      ensures ok && queryType != GROUP_PAGE ==>
                && document.Groups() == old(document.Groups())
                && (if Sorting(action) then
                      && Performs(old(document.Sorts()), SortMove(action, fieldName, pos), document.Sorts())
                      && SortsPlaced(old(NamesOf(document.Sorts())), action, fieldName, pos, NamesOf(document.Sorts()))
                    else document.Sorts() == old(document.Sorts()))
      ensures old(document.Valid() && Sensible(action, queryType, fieldName, pos)) ==> document.Valid()
      ensures ok && old(document.Valid() && Sensible(action, queryType, fieldName, pos)) && queryType == GROUP_PAGE ==>
                GroupRecorded(old(document.groupFields), action, fieldName, pos, document.Groups())
      ensures ok && old(document.Valid() && Sensible(action, queryType, fieldName, pos)) && queryType != GROUP_PAGE
              && Sorting(action) ==>
                SortRecorded(action, fieldName, pos, document.Sorts())
      ensures old(InStep(base) && Clean(base, queryType)
                  && InList(Selected(queryType), action, queryType, fieldName)) ==>
                (InStep(base) <==> Steady(old(Names(document.sortedFields)), action, queryType, Selected(queryType)))
    {
      ghost var groups, sorts := Names(document.groupFields), Names(document.sortedFields);
      SteadyRegion(base, groups, sorts, queryType);
      ok := EditClause(action, fieldName, queryType, pos);
      if ok {
        if old(Clean(base, queryType) && InList(Selected(queryType), action, queryType, fieldName)) {
          PageFollows(base, old(document.Groups()), old(document.Sorts()), action, queryType, fieldName, pos,
                      document.Groups(), document.Sorts());
        }
      }
    }

    // ---- runs ----

    function Look(): Shown
      reads document
    {
      Shown(document.queryFields, NamesOf(document.Groups()), NamesOf(document.Sorts()))
    }

    /** The text is that of the document's own lists. */
    predicate Shows(from: string)
      reads this, document
    {
      query == TextOf(Look(), from)
    }

    method HandleAdd(field: TableField, ghost from: string) returns (ok: bool)
      modifies this, document
      ensures Look() == NextShown(old(Look()), AddTo(field))
      ensures old(Shows(from)) && SelectText.IsTail(from) ==>
                (ok && Shows(from) <==> Follows(old(Look()), from, AddTo(field)))
    {
      ghost var v := Look();
      TextTail(v, from);
      if SelectText.IsTail(from) {
        TailBegins(v, from);
      }
      NamesMore(document.sortedFieldsAll, SortRecord(field));
      ok := AddFieldToQuery(field, ADD, TailOf(v, from));
      AddKeepsTail(v, field, from);
      TextTail(NextShown(v, AddTo(field)), from);
    }

    method HandlePage(action: int, page: int, name: string, pos: Positions, ghost from: string) returns (ok: bool)
      requires Possible(Look(), OnPage(action, page, name, pos))
      modifies this, document
      ensures ok ==> Look() == NextShown(old(Look()), OnPage(action, page, name, pos))
      ensures old(Shows(from) && Regular(Look(), from, OnPage(action, page, name, pos))) ==>
                ok && (Shows(from) <==> old(Follows(Look(), from, OnPage(action, page, name, pos))))
    {
      CompactedNames(document.groupFields, name);
      ghost var v, m := Look(), GroupAction(action, name, pos);
      MoveOfNames(v.groups, action, name, pos, document.groupFields);
      ok := SortGroupByHandling(action, name, page, pos, SelectText.Query(Labels(v.fields), from));
      if ok {
        if page == GROUP_PAGE {
          LeftByNames(old(document.Groups()), m, document.Groups());
        } else if Sorting(action) {
          LeftByNames(old(document.Sorts()), SortMove(action, name, pos), document.Sorts());
        }
      }
    }

    /** In every run of edits that follow, text and document stay in step and the lists are those of the edits. */
    method HandleAll(edits: seq<Edit>, ghost from: string)
      requires Shows(from) && SelectText.IsTail(from) && AllFollow(Look(), from, edits)
      modifies this, document
      ensures Shows(from) && Look() == ShownAfter(old(Look()), from, edits)
    {
      for k := 0 to |edits|
        invariant Shows(from) && AllFollow(Look(), from, edits[k..])
        invariant ShownAfter(Look(), from, edits[k..]) == ShownAfter(old(Look()), from, edits)
      {
        assert edits[k..][0] == edits[k] && edits[k..][1..] == edits[k + 1..];
        var ok: bool;
        match edits[k]
        case AddTo(field) => ok := HandleAdd(field, from);
        case OnPage(action, page, name, pos) => ok := HandlePage(action, page, name, pos, from);
      }
    }

    /**
      A query composed in a new window: fields ticked, then group fields dragged, then sort fields.
      The text is that of the document's own three lists, and they hold what was added.
     */
    method ComposeQuery(fields: seq<TableField>, groupAdds: seq<Addition>, sortAdds: seq<Addition>, ghost from: string)
      requires query == SelectText.Query([], from + ";")
      requires document.queryFields == [] && document.groupFields == [] && document.sortedFields == []
      requires SelectText.IsTail(from) && SelectText.RunnableFrom(Labels(fields), from + ";") && PlainBase(fields, from)
      requires AddsGroupable(groupAdds) && InRange(0, groupAdds) && InRange(0, sortAdds)
      modifies this, document
      ensures query == Query(SelectText.Query(Labels(document.queryFields), from), Names(document.groupFields),
                             Names(document.sortedFields))
      ensures document.queryFields == fields
      ensures Names(document.groupFields) == InsertAll([], groupAdds)
      ensures Names(document.sortedFields) == InsertAll([], sortAdds)
      ensures fields != [] && AllReadable(fields)
              && FreeOf(Names(document.groupFields) + Names(document.sortedFields), '\n')
              ==> ReadFields(query) == Some(Pairs(fields))
                  && ReadClauses(query) == (Names(document.groupFields), Names(document.sortedFields))
    {
      NoClauses(Look(), from);
      TextTail(Look(), from);
      assert Labels([]) == [] && [] + fields == fields;
      AddsFollow(Look(), from, fields);
      HandleAll(AddEdits(fields), from);
      GroupsFollow(Look(), from, groupAdds);
      HandleAll(PageEdits(GROUP_PAGE, groupAdds), from);
      SortsFollow(Look(), from, sortAdds);
      HandleAll(PageEdits(SORT_PAGE, sortAdds), from);
      ReadsComposed(Look(), from);
    }
  }

  lemma QueryEnd(names: seq<string>, from: string)
    ensures SelectText.Query(names, from + ";") == SelectText.Query(names, from) + ";"
  {
    Assoc("SELECT" + (if names == [] then " " + SelectText.UNKNOWN else SelectText.Listed(names)), from, ";");
  }

  /**
    The whole text of a query: after any run of ADDs from a new query, then any group additions,
    then any sort additions, it is the SELECT list of the fields in order, the line of FROM, and
    the clauses of the two lists.
   */
  lemma WholeQuery(names: seq<string>, from: string, groupAdds: seq<Addition>, sortAdds: seq<Addition>)
    requires SelectText.RunnableFrom(names, from + ";")
    requires NoKeywords(SelectText.Query(names, from)) && Find(SelectText.Query(names, from), ";") == -1
    requires AddsGroupable(groupAdds) && InRange(0, groupAdds) && InRange(0, sortAdds)
    ensures
      var a := SelectText.AddRun(SelectText.Query([], from + ";"), 0, names);
      a.Some? &&
      var g := Additions(a.value, [], groupAdds, GROUP_PAGE);
      g.Some? &&
      var s := Additions(g.value.text, [], sortAdds, SORT_PAGE);
      s.Some? && s.value.text == Query(SelectText.Query(names, from), g.value.names, s.value.names)
  {
    var base := SelectText.Query(names, from);
    SelectText.AddsInOrder(names, from + ";");
    QueryEnd(names, from);
    assert Query(base, [], []) == base + ";";
    ClausesFollowLists(base, groupAdds, sortAdds);
  }

  /** From the text a new query window starts with, ADDs list the fields in front of its own FROM and WHERE. */
  lemma NewWindow(displayed: seq<JoinText.Table>, hits: seq<string>, names: seq<string>)
    requires
      var rest := JoinText.FromText(JoinText.QueryView, displayed) + JoinText.WhereText(JoinText.QueryView, hits) + ";";
      SelectText.RunnableFrom(names, "\nFROM " + rest)
    ensures
      var from := JoinText.FromText(JoinText.QueryView, displayed);
      var where_ := JoinText.WhereText(JoinText.QueryView, hits);
      SelectText.AddRun(JoinText.NEW_QUERY + from + where_ + ";", 0, names)
      == Some(SelectText.Query(names, "\nFROM " + (from + where_ + ";")))
  {
    var rest := JoinText.FromText(JoinText.QueryView, displayed) + JoinText.WhereText(JoinText.QueryView, hits) + ";";
    JoinText.NewQuery(displayed, hits);
    SelectText.AddsInOrder(names, "\nFROM " + rest);
  }
}
