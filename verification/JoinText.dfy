/**
  `DatabaseCanvas::DisplayTables`: the FROM list and the WHERE clause written from the tables and
  their foreign keys.
 */
module JoinText {
  import opened Seqs
  import opened Text
  import SelectText

  /** A field of a foreign key. */
  datatype FKField = FKField(referencedTable: string, referencedField: string, originalField: string)

  /** A table; its foreign keys are in the order of their numbers. */
  datatype Table = Table(name: string, foreignKeys: seq<seq<FKField>>)

  datatype ViewType = DatabaseView | QueryView | NewView

  const AND_SEPARATOR := " AND\r      "
  const FROM_SEPARATOR := ",\r     "

  // ---- what the call should write ----

  /** The equality for a foreign-key field. */
  function Relation(table: string, f: FKField): string {
    "\"" + f.referencedTable + "\".\"" + f.referencedField + "\" = \"" + table + "\".\"" + f.originalField + "\""
  }

  lemma JoinTwo(a: string, b: string, more: seq<string>)
    requires more != []
    ensures Join([a, b] + more, "\"") == a + "\"" + (b + "\"" + Join(more, "\""))
  {
    JoinHead(b, more, "\"");
    JoinHead(a, [b] + more, "\"");
    assert [a, b] + more == [a] + ([b] + more);
  }

  lemma QuoteTwo(a: string, b: string, rest: string)
    ensures a + "\"" + (b + "\"" + rest) == a + "\"" + b + "\"" + rest
  {
  }

  lemma DotForm(head: string, b: string, rest: string)
    ensures head + "\"" + ("." + "\"" + b + "\"" + rest) == head + "\".\"" + b + "\"" + rest
  {
    assert "\".\"" == "\"" + "." + "\"";
  }

  /** Two names in quotes: `before`, the first, a dot, the second, and what is behind. */
  lemma JoinColumn(before: string, a: string, b: string, more: seq<string>)
    requires more != []
    ensures Join([before, a, ".", b] + more, "\"") == before + "\"" + a + "\".\"" + b + "\"" + Join(more, "\"")
  {
    var rest := Join(more, "\"");
    JoinTwo(".", b, more);
    JoinTwo(before, a, [".", b] + more);
    assert [before, a, ".", b] + more == [before, a] + ([".", b] + more);
    QuoteTwo(".", b, rest);
    QuoteTwo(before, a, "." + "\"" + b + "\"" + rest);
    DotForm(before + "\"" + a, b, rest);
  }

  lemma RelationJoin(left: string, c: string, d: string)
    ensures left + (" = " + "\"" + c + "\".\"" + d + "\"" + "") == left + " = \"" + c + "\".\"" + d + "\""
  {
    assert " = " + "\"" == " = \"";
  }

  lemma EqualsForm(left: string, right: string)
    ensures left + "\"" + " = \"" + right == left + "\" = \"" + right
  {
    assert "\"" + " = \"" == "\" = \"";
  }

  lemma RelationForm(a: string, b: string, c: string, d: string)
    ensures Join(["", a, ".", b, " = ", c, ".", d, ""], "\"")
         == "\"" + a + "\".\"" + b + "\" = \"" + c + "\".\"" + d + "\""
  {
    JoinColumn("", a, b, [" = ", c, ".", d, ""]);
    JoinColumn(" = ", c, d, [""]);
    assert ["", a, ".", b] + [" = ", c, ".", d, ""] == ["", a, ".", b, " = ", c, ".", d, ""];
    assert [" = ", c, ".", d] + [""] == [" = ", c, ".", d, ""];
    var left := "\"" + a + "\".\"" + b + "\"";
    assert "" + "\"" + a + "\".\"" + b + "\"" == left;
    RelationJoin(left, c, d);
    EqualsForm("\"" + a + "\".\"" + b, c + "\".\"" + d + "\"");
    Assoc(left + " = \"", c, "\".\"" + d + "\"");
  }

  lemma PartsFree(a: string, b: string, c: string, d: string)
    ensures FreeOf(["", a, ".", b, " = ", c, ".", d, ""], '"') <==> FreeOf([a, b, c, d], '"')
  {
    var names, parts := [a, b, c, d], ["", a, ".", b, " = ", c, ".", d, ""];
    assert parts[1] == names[0] && parts[3] == names[1] && parts[5] == names[2] && parts[7] == names[3];
  }

  /**
    An equality read by its quotes: referenced table and field on the left, the key's own on the right, exactly when
    there is no quote in the names.
   */
  lemma RelationReads(table: string, f: FKField)
    ensures Pieces(Relation(table, f), "\"")
         == ["", f.referencedTable, ".", f.referencedField, " = ", table, ".", f.originalField, ""]
       <==> FreeOf([f.referencedTable, f.referencedField, table, f.originalField], '"')
  {
    RelationForm(f.referencedTable, f.referencedField, table, f.originalField);
    PartsFree(f.referencedTable, f.referencedField, table, f.originalField);
    PiecesExactly(["", f.referencedTable, ".", f.referencedField, " = ", table, ".", f.originalField, ""], '"');
  }

  function KeyHits(table: string, key: seq<FKField>, selections: seq<string>): seq<string> {
    if key == [] then []
    else
      var k := |key| - 1;
      KeyHits(table, key[..k], selections) +
      (if key[k].referencedTable in selections then [Relation(table, key[k])] else [])
  }

  function KeysHits(table: string, keys: seq<seq<FKField>>, selections: seq<string>): seq<string> {
    if keys == [] then []
    else KeysHits(table, keys[..|keys| - 1], selections) + KeyHits(table, keys[|keys| - 1], selections)
  }

  /** The equalities for all foreign-key fields that refer to a selected table, by table, key and field. */
  function Hits(tables: seq<Table>, selections: seq<string>): seq<string> {
    if tables == [] then []
    else
      var t := tables[|tables| - 1];
      Hits(tables[..|tables| - 1], selections) + KeysHits(t.name, t.foreignKeys, selections)
  }

  /** The field is one of the key `k` of table `t`, and refers to a selected table. */
  predicate Refers(tables: seq<Table>, selections: seq<string>, t: nat, k: nat, i: nat) {
    && t < |tables| && k < |tables[t].foreignKeys| && i < |tables[t].foreignKeys[k]|
    && tables[t].foreignKeys[k][i].referencedTable in selections
  }

  lemma {:induction false} KeyHitsMembers(table: string, key: seq<FKField>, selections: seq<string>, r: string)
    ensures r in KeyHits(table, key, selections) <==>
            exists i :: 0 <= i < |key| && key[i].referencedTable in selections && r == Relation(table, key[i])
  {
    if key == [] {
    } else {
      var k := |key| - 1;
      KeyHitsMembers(table, key[..k], selections, r);
      assert forall i :: 0 <= i < k ==> key[..k][i] == key[i];
    }
  }

  lemma KeysHitsLast(table: string, keys: seq<seq<FKField>>, selections: seq<string>, r: string)
    requires keys != []
    ensures
      var k := |keys| - 1;
      r in KeysHits(table, keys, selections) <==>
        r in KeysHits(table, keys[..k], selections) || r in KeyHits(table, keys[k], selections)
  {
  }

  lemma {:induction false} KeysHitsMembers(table: string, keys: seq<seq<FKField>>, selections: seq<string>, r: string)
    ensures r in KeysHits(table, keys, selections) <==>
            exists k :: 0 <= k < |keys| && r in KeyHits(table, keys[k], selections)
  {
    if keys == [] {
    } else {
      var k, some := |keys| - 1, keys[..|keys| - 1];
      KeysHitsMembers(table, some, selections, r);
      KeysHitsLast(table, keys, selections, r);
      if r in KeysHits(table, some, selections) {
        var i :| 0 <= i < |some| && r in KeyHits(table, some[i], selections);
        assert keys[i] == some[i];
      }
      forall i | 0 <= i < k && r in KeyHits(table, keys[i], selections) ensures r in KeysHits(table, some, selections) {
        assert some[i] == keys[i];
      }
    }
  }

  lemma {:induction false} HitsMembers(tables: seq<Table>, selections: seq<string>, r: string)
    ensures r in Hits(tables, selections) <==>
            exists t :: 0 <= t < |tables| && r in KeysHits(tables[t].name, tables[t].foreignKeys, selections)
  {
    if tables == [] {
    } else {
      var k := |tables| - 1;
      HitsMembers(tables[..k], selections, r);
      assert forall i :: 0 <= i < k ==> tables[..k][i] == tables[i];
    }
  }

  /** Every field that refers to a selected table has its equality, and there are no others. */
  lemma HitsExactly(tables: seq<Table>, selections: seq<string>, r: string)
    ensures r in Hits(tables, selections) <==>
            exists t: nat, k: nat, i: nat :: Refers(tables, selections, t, k, i)
                                             && r == Relation(tables[t].name, tables[t].foreignKeys[k][i])
  {
    HitsMembers(tables, selections, r);
    if r in Hits(tables, selections) {
      var t :| 0 <= t < |tables| && r in KeysHits(tables[t].name, tables[t].foreignKeys, selections);
      KeysHitsMembers(tables[t].name, tables[t].foreignKeys, selections, r);
      var k :| 0 <= k < |tables[t].foreignKeys| && r in KeyHits(tables[t].name, tables[t].foreignKeys[k], selections);
      KeyHitsMembers(tables[t].name, tables[t].foreignKeys[k], selections, r);
      var i :| 0 <= i < |tables[t].foreignKeys[k]| && tables[t].foreignKeys[k][i].referencedTable in selections
               && r == Relation(tables[t].name, tables[t].foreignKeys[k][i]);
      assert Refers(tables, selections, t, k, i);
    }
    forall t: nat, k: nat, i: nat |
      Refers(tables, selections, t, k, i) && r == Relation(tables[t].name, tables[t].foreignKeys[k][i])
      ensures r in Hits(tables, selections)
    {
      KeyHitsMembers(tables[t].name, tables[t].foreignKeys[k], selections, r);
      KeysHitsMembers(tables[t].name, tables[t].foreignKeys, selections, r);
    }
  }

  lemma KeysHitsMore(table: string, keys: seq<seq<FKField>>, key: seq<FKField>, selections: seq<string>)
    ensures KeysHits(table, keys + [key], selections)
         == KeysHits(table, keys, selections) + KeyHits(table, key, selections)
  {
    assert (keys + [key])[..|keys|] == keys;
  }

  lemma KeysHitsStep(table: string, a: seq<seq<FKField>>, b: seq<seq<FKField>>, key: seq<FKField>,
                     selections: seq<string>)
    requires KeysHits(table, a + b, selections) == KeysHits(table, a, selections) + KeysHits(table, b, selections)
    ensures KeysHits(table, a + (b + [key]), selections)
         == KeysHits(table, a, selections) + KeysHits(table, b + [key], selections)
  {
    KeysHitsMore(table, a + b, key, selections);
    KeysHitsMore(table, b, key, selections);
    Assoc(a, b, [key]);
    Assoc(KeysHits(table, a, selections), KeysHits(table, b, selections), KeyHits(table, key, selections));
  }

  /** The equalities of a table stand in the order of its keys. */
  lemma {:induction false} KeysHitsInOrder(table: string, a: seq<seq<FKField>>, b: seq<seq<FKField>>,
                                           selections: seq<string>)
    ensures KeysHits(table, a + b, selections) == KeysHits(table, a, selections) + KeysHits(table, b, selections)
    decreases |b|
  {
    if b == [] {
      assert a + b == a;
    } else {
      KeysHitsInOrder(table, a, b[..|b| - 1], selections);
      KeysHitsStep(table, a, b[..|b| - 1], b[|b| - 1], selections);
      assert b == b[..|b| - 1] + [b[|b| - 1]];
    }
  }

  lemma HitsMore(tables: seq<Table>, t: Table, selections: seq<string>)
    ensures Hits(tables + [t], selections) == Hits(tables, selections) + KeysHits(t.name, t.foreignKeys, selections)
  {
    assert (tables + [t])[..|tables|] == tables;
  }

  lemma HitsStep(a: seq<Table>, b: seq<Table>, t: Table, selections: seq<string>)
    requires Hits(a + b, selections) == Hits(a, selections) + Hits(b, selections)
    ensures Hits(a + (b + [t]), selections) == Hits(a, selections) + Hits(b + [t], selections)
  {
    HitsMore(a + b, t, selections);
    HitsMore(b, t, selections);
    Assoc(a, b, [t]);
    Assoc(Hits(a, selections), Hits(b, selections), KeysHits(t.name, t.foreignKeys, selections));
  }

  /** All equalities stand in the order of the tables. */
  lemma {:induction false} HitsInOrder(a: seq<Table>, b: seq<Table>, selections: seq<string>)
    ensures Hits(a + b, selections) == Hits(a, selections) + Hits(b, selections)
    decreases |b|
  {
    if b == [] {
      assert a + b == a;
    } else {
      HitsInOrder(a, b[..|b| - 1], selections);
      HitsStep(a, b[..|b| - 1], b[|b| - 1], selections);
      assert b == b[..|b| - 1] + [b[|b| - 1]];
    }
  }

  function WhereText(view: ViewType, hits: seq<string>): string {
    if hits == [] then ""
    else "\nWHERE " + (if view == QueryView then Join(hits, AND_SEPARATOR) else "")
  }

  /** The WHERE clause tells the equalities. */
  lemma WhereReadBack(a: seq<string>, b: seq<string>)
    requires FreeOf(a, '\r') && FreeOf(b, '\r')
    ensures WhereText(QueryView, a) == WhereText(QueryView, b) <==> a == b
  {
    if WhereText(QueryView, a) == WhereText(QueryView, b) && a != [] && b != [] {
      assert WhereText(QueryView, a)[7..] == Join(a, AND_SEPARATOR);
      assert WhereText(QueryView, b)[7..] == Join(b, AND_SEPARATOR);
      assert AND_SEPARATOR[4] == '\r';
      JoinInjective(a, b, AND_SEPARATOR, '\r');
    }
  }

  function TableNames(tables: seq<Table>): (names: seq<string>)
    ensures |names| == |tables| && forall i :: 0 <= i < |tables| ==> names[i] == tables[i].name
  {
    Map(tables, (t: Table) => t.name)
  }

  function QuotedNames(tables: seq<Table>): (names: seq<string>)
    ensures |names| == |tables| && forall i :: 0 <= i < |tables| ==> names[i] == "\"" + tables[i].name + "\""
  {
    Map(tables, (t: Table) => "\"" + t.name + "\"")
  }

  function FromText(view: ViewType, displayed: seq<Table>): string {
    if view == QueryView then Join(QuotedNames(displayed), FROM_SEPARATOR) else ""
  }

  /** Names put behind a list, each only if it is not there yet. */
  function Extended(selections: seq<string>, names: seq<string>): seq<string> {
    if names == [] then selections
    else
      var some := Extended(selections, names[..|names| - 1]);
      if names[|names| - 1] in some then some else some + [names[|names| - 1]]
  }

  /** Nothing is lost or said twice by the extension. */
  lemma {:induction false} ExtendedSet(selections: seq<string>, names: seq<string>)
    ensures selections <= Extended(selections, names)
    ensures forall n :: n in Extended(selections, names) <==> n in selections || n in names
    ensures SelectText.Distinct(selections) ==> SelectText.Distinct(Extended(selections, names))
  {
    if names == [] {
    } else {
      ExtendedSet(selections, names[..|names| - 1]);
      assert names == names[..|names| - 1] + [names[|names| - 1]];
    }
  }

  /** The tables displayed after the call: those displayed before, and the others, one for a name. */
  function Displayed(displayed: seq<Table>, tables: seq<Table>): seq<Table> {
    if tables == [] then displayed
    else
      var k := |tables| - 1;
      var some := Displayed(displayed, tables[..k]);
      if tables[k].name in TableNames(some) then some else some + [tables[k]]
  }

  lemma TableNamesMore(tables: seq<Table>, t: Table)
    ensures TableNames(tables + [t]) == TableNames(tables) + [t.name]
  {
  }

  /** No table is displayed twice; those displayed stay in front, and every name given is displayed. */
  lemma {:induction false} DisplayedOnce(displayed: seq<Table>, tables: seq<Table>)
    ensures displayed <= Displayed(displayed, tables)
    ensures forall n :: n in TableNames(Displayed(displayed, tables)) <==>
              n in TableNames(displayed) || n in TableNames(tables)
    ensures SelectText.Distinct(TableNames(displayed)) ==>
              SelectText.Distinct(TableNames(Displayed(displayed, tables)))
    ensures forall t :: t in Displayed(displayed, tables) ==> t in displayed || t in tables
  {
    if tables == [] {
    } else {
      var k := |tables| - 1;
      var some := Displayed(displayed, tables[..k]);
      DisplayedOnce(displayed, tables[..k]);
      assert tables == tables[..k] + [tables[k]];
      TableNamesMore(tables[..k], tables[k]);
      TableNamesMore(some, tables[k]);
    }
  }

  // ---- reading the text ----

  /** The FROM list in front of WHERE. */
  function ReadFrom(from: string): seq<string> {
    if from == "" then [] else Pieces(from, ",\r     ")
  }

  /** The tables of a FROM list and the equalities behind WHERE. */
  function ReadJoin(text: string): (seq<string>, seq<string>) {
    var i := Find(text, "\nWHERE ");
    var from := if i == -1 then text else text[..i];
    (ReadFrom(from), if i == -1 || i + 7 > |text| then [] else Pieces(text[i + 7..], " AND\r      "))
  }

  lemma {:induction false} JoinKeeps(xs: seq<string>, sep: string, c: char)
    requires FreeOf(xs, c) && c !in sep
    ensures c !in Join(xs, sep)
  {
    if |xs| <= 1 {
    } else {
      JoinKeeps(xs[1..], sep, c);
    }
  }

  lemma FromReads(displayed: seq<Table>)
    requires FreeOf(TableNames(displayed), '\r') && FreeOf(TableNames(displayed), '\n')
    ensures
      var from := FromText(QueryView, displayed);
      '\n' !in from && ReadFrom(from) == QuotedNames(displayed)
  {
    var names := QuotedNames(displayed);
    if displayed != [] {
      PiecesJoin(names, FROM_SEPARATOR, '\r');
      JoinKeeps(names, FROM_SEPARATOR, '\n');
      assert names[0] != "";
    }
  }

  lemma WhereReads(from: string, hits: seq<string>)
    requires '\n' !in from && FreeOf(hits, '\r') && hits != []
    ensures Find(from + WhereText(QueryView, hits), "\nWHERE ") == |from|
    ensures Pieces((from + WhereText(QueryView, hits))[|from| + 7..], " AND\r      ") == hits
  {
    var joined := Join(hits, AND_SEPARATOR);
    var text := from + ("\nWHERE " + joined);
    SkipLeft(from, "\nWHERE " + joined, "\nWHERE ");
    assert OccursAt("\nWHERE " + joined, "\nWHERE ", 0);
    assert text[|from| + 7..] == joined;
    assert AND_SEPARATOR[4] == '\r';
    PiecesJoin(hits, AND_SEPARATOR, '\r');
  }

  lemma JoinReads(text: string, from: string, hits: seq<string>)
    requires '\n' !in from && FreeOf(hits, '\r') && text == from + WhereText(QueryView, hits)
    ensures ReadJoin(text) == (ReadFrom(from), hits)
  {
    if hits == [] {
      assert text == from;
      NotWithout(from, "\nWHERE ", '\n');
    } else {
      WhereReads(from, hits);
      assert text[..|from|] == from && |from| + 7 <= |text|;
    }
  }

  /** In a query the text behind `start` tells the displayed tables and the equalities written. */
  lemma DisplayReads(displayed: seq<Table>, hits: seq<string>)
    requires FreeOf(TableNames(displayed), '\r') && FreeOf(TableNames(displayed), '\n') && FreeOf(hits, '\r')
    ensures ReadJoin(FromText(QueryView, displayed) + WhereText(QueryView, hits)) == (QuotedNames(displayed), hits)
  {
    var from := FromText(QueryView, displayed);
    FromReads(displayed);
    JoinReads(from + WhereText(QueryView, hits), from, hits);
  }

  // ---- the canvas ----

  /** What the loops over the foreign keys carry along. */
  datatype Progress = Progress(query: string, relations: seq<string>, found: bool, secondIteration: bool)

  /** `hits` have been written behind `start`. */
  predicate Wrote(p: Progress, view: ViewType, start: string, relations: seq<string>, hits: seq<string>) {
    && p.query == start + WhereText(view, hits)
    && p.relations == relations + (if view == QueryView then hits else [])
    && p.found == (hits != []) && p.secondIteration == (|hits| > 1)
  }

  lemma WhereMore(start: string, hits: seq<string>, r: string)
    ensures start + WhereText(QueryView, hits + [r]) ==
            if hits == [] then start + "\nWHERE " + r
            else start + WhereText(QueryView, hits) + AND_SEPARATOR + r
  {
    if hits == [] {
      assert [] + [r] == [r];
      Assoc(start, "\nWHERE ", r);
    } else {
      JoinAppend(hits, r, AND_SEPARATOR);
      var j := Join(hits, AND_SEPARATOR);
      Assoc("\nWHERE ", j + AND_SEPARATOR, r);
      Assoc("\nWHERE ", j, AND_SEPARATOR);
      Assoc(start, "\nWHERE " + j + AND_SEPARATOR, r);
      Assoc(start, "\nWHERE " + j, AND_SEPARATOR);
    }
  }

  /** What the loop over the displayed tables has written before table `i`. */
  function FromTo(view: ViewType, displayed: seq<Table>, i: nat): string
    requires i <= |displayed|
  {
    if view != QueryView || i == 0 then ""
    else Join(QuotedNames(displayed)[..i], FROM_SEPARATOR) + (if i == |displayed| then "" else FROM_SEPARATOR)
  }

  lemma FromAll(view: ViewType, displayed: seq<Table>)
    ensures FromTo(view, displayed, |displayed|) == FromText(view, displayed)
  {
    var names := QuotedNames(displayed);
    assert names[..|names|] == names;
    assert Join(names, FROM_SEPARATOR) + "" == Join(names, FROM_SEPARATOR);
  }

  lemma FromMore(query: string, displayed: seq<Table>, i: nat)
    requires i < |displayed|
    ensures
      var end := if i == |displayed| - 1 then "" else FROM_SEPARATOR;
      query + FromTo(QueryView, displayed, i + 1)
      == query + FromTo(QueryView, displayed, i) + ("\"" + displayed[i].name + "\"") + end
  {
    var end := if i == |displayed| - 1 then "" else FROM_SEPARATOR;
    var names, name := QuotedNames(displayed), "\"" + displayed[i].name + "\"";
    assert names[..i + 1] == names[..i] + [name];
    if i == 0 {
      assert names[..i] + [name] == [name] && query + "" == query;
      Assoc(query, name, end);
    } else {
      var done := Join(names[..i], FROM_SEPARATOR);
      JoinAppend(names[..i], name, FROM_SEPARATOR);
      Assoc(done + FROM_SEPARATOR, name, end);
      Assoc(query, done + FROM_SEPARATOR, name + end);
      Assoc(query + (done + FROM_SEPARATOR), name, end);
    }
  }

  class DatabaseCanvas {
    const view: ViewType
    var displayedTables: seq<Table>

    constructor (view: ViewType)
      ensures this.view == view && displayedTables == []
    {
      this.view, displayedTables := view, [];
    }

    method ShowTables(tables: seq<Table>)
      modifies this
      ensures displayedTables == Displayed(old(displayedTables), tables)
    {
      for i := 0 to |tables|
        invariant displayedTables == Displayed(old(displayedTables), tables[..i])
      {
        assert tables[..i + 1][..i] == tables[..i];
        if tables[i].name !in TableNames(displayedTables) {
          displayedTables := displayedTables + [tables[i]];
        }
      }
      assert tables[..|tables|] == tables;
    }

    /** The name of a displayed table in the FROM list. */
    method ListTable(before: string, i: nat, ghost query: string) returns (text: string)
      requires i < |displayedTables| && before == query + FromTo(view, displayedTables, i)
      ensures text == query + FromTo(view, displayedTables, i + 1)
    {
      text := before;
      if view == QueryView {
        FromMore(query, displayedTables, i);
        text := text + ("\"" + displayedTables[i].name + "\"");
        if i != |displayedTables| - 1 {
          text := text + ",\r     ";
        } else {
          assert text + "" == text;
        }
      }
    }

    method ListTables(selections: seq<string>, query: string) returns (names: seq<string>, text: string)
      ensures names == Extended(selections, TableNames(displayedTables))
      ensures text == query + FromText(view, displayedTables)
    {
      names, text := selections, query;
      var all := TableNames(displayedTables);
      for i := 0 to |displayedTables|
        invariant names == Extended(selections, all[..i])
        invariant text == query + FromTo(view, displayedTables, i)
      {
        var name := displayedTables[i].name;
        assert all[..i + 1][..i] == all[..i];
        text := ListTable(text, i, query);
        if name !in names {
          names := names + [name];
        }
      }
      assert all[..|all|] == all;
      FromAll(view, displayedTables);
    }

    /** A field that refers to a selected table. */
    method WriteRelation(before: Progress, table: string, f: FKField, ghost start: string, ghost relations: seq<string>,
                         ghost hits: seq<string>)
      returns (p: Progress)
      requires Wrote(before, view, start, relations, hits)
      ensures Wrote(p, view, start, relations, hits + [Relation(table, f)])
    {
      p := before;
      var relation := Relation(table, f);
      WhereMore(start, hits, relation);
      Assoc(relations, hits, [relation]);
      if p.found {
        p := p.(secondIteration := true);
      }
      if !p.found {
        assert start + "" == start;
        p := p.(query := p.query + "\nWHERE ", found := true);
      }
      if view == QueryView {
        if p.secondIteration {
          p := p.(query := p.query + " AND\r      ");
        }
        p := p.(query := p.query + relation, relations := p.relations + [relation]);
      }
    }

    /** The field is written when it refers to a selected table. */
    method WriteField(before: Progress, table: string, f: FKField, selections: seq<string>, ghost start: string,
                      ghost relations: seq<string>, ghost hits: seq<string>)
      returns (p: Progress)
      requires Wrote(before, view, start, relations, hits)
      ensures Wrote(p, view, start, relations,
                    hits + (if f.referencedTable in selections then [Relation(table, f)] else []))
    {
      p := before;
      if f.referencedTable in selections {
        p := WriteRelation(p, table, f, start, relations, hits);
      } else {
        assert hits + [] == hits;
      }
    }

    method WriteKey(before: Progress, table: string, key: seq<FKField>, selections: seq<string>, ghost start: string,
                    ghost relations: seq<string>, ghost hits: seq<string>)
      returns (p: Progress)
      requires Wrote(before, view, start, relations, hits)
      ensures Wrote(p, view, start, relations, hits + KeyHits(table, key, selections))
    {
      p := before;
      assert hits + [] == hits;
      for i := 0 to |key|
        invariant Wrote(p, view, start, relations, hits + KeyHits(table, key[..i], selections))
      {
        assert key[..i + 1][..i] == key[..i];
        Assoc(hits, KeyHits(table, key[..i], selections),
              if key[i].referencedTable in selections then [Relation(table, key[i])] else []);
        p := WriteField(p, table, key[i], selections, start, relations, hits + KeyHits(table, key[..i], selections));
      }
      assert key[..|key|] == key;
    }

    method WriteKeys(before: Progress, table: Table, selections: seq<string>, ghost start: string,
                     ghost relations: seq<string>, ghost hits: seq<string>)
      returns (p: Progress)
      requires Wrote(before, view, start, relations, hits)
      ensures Wrote(p, view, start, relations, hits + KeysHits(table.name, table.foreignKeys, selections))
    {
      p := before;
      var keys := table.foreignKeys;
      assert hits + [] == hits;
      for i := 0 to |keys|
        invariant Wrote(p, view, start, relations, hits + KeysHits(table.name, keys[..i], selections))
      {
        assert keys[..i + 1][..i] == keys[..i];
        Assoc(hits, KeysHits(table.name, keys[..i], selections), KeyHits(table.name, keys[i], selections));
        p := WriteKey(p, table.name, keys[i], selections, start, relations,
                      hits + KeysHits(table.name, keys[..i], selections));
      }
      assert keys[..|keys|] == keys;
    }

    method WriteRelations(tables: seq<Table>, selections: seq<string>, query: string, relations: seq<string>)
      returns (p: Progress)
      ensures Wrote(p, view, query, relations, Hits(tables, selections))
    {
      p := Progress(query, relations, false, false);
      assert query + "" == query && relations + [] == relations;
      for i := 0 to |tables|
        invariant Wrote(p, view, query, relations, Hits(tables[..i], selections))
      {
        assert tables[..i + 1][..i] == tables[..i];
        p := WriteKeys(p, tables[i], selections, query, relations, Hits(tables[..i], selections));
      }
      assert tables[..|tables|] == tables;
    }

    /** The tables of the document are put on the canvas and the query text is completed. */
    method DisplayTables(tables: seq<Table>, selections: seq<string>, query: string, relations: seq<string>)
      returns (newSelections: seq<string>, newQuery: string, newRelations: seq<string>)
      modifies this
      ensures displayedTables == Displayed(old(displayedTables), tables)
      ensures newSelections == Extended(selections, TableNames(displayedTables))
      ensures
        var hits := Hits(tables, newSelections);
        && newQuery == query + FromText(view, displayedTables) + WhereText(view, hits) + ";"
        && newRelations == relations + (if view == QueryView then hits else [])
    {
      ShowTables(tables);
      newSelections, newQuery := ListTables(selections, query);
      var p := WriteRelations(tables, newSelections, newQuery, relations);
      newQuery := p.query + ";";
      newRelations := p.relations;
    }
  }

  // ---- a new query ----

  const NEW_QUERY := "SELECT " + SelectText.UNKNOWN + "\nFROM "

  lemma NewForm(rest: string)
    ensures NEW_QUERY + rest == SelectText.Query([], "\nFROM " + rest) && SelectText.IsTail("\nFROM " + rest)
  {
    assert ("\nFROM " + rest)[..5] == "\nFROM";
    Assoc("SELECT " + SelectText.UNKNOWN, "\nFROM ", rest);
    assert "SELECT" + (" " + SelectText.UNKNOWN) == "SELECT " + SelectText.UNKNOWN;
  }

  /** The text of a new query is one without fields, ready for the first ADD. */
  lemma NewQuery(displayed: seq<Table>, hits: seq<string>)
    ensures
      var rest := FromText(QueryView, displayed) + WhereText(QueryView, hits) + ";";
      && NEW_QUERY + FromText(QueryView, displayed) + WhereText(QueryView, hits) + ";"
         == SelectText.Query([], "\nFROM " + rest)
      && SelectText.IsTail("\nFROM " + rest)
  {
    var f, w := FromText(QueryView, displayed), WhereText(QueryView, hits);
    NewForm(f + w + ";");
    Assoc(NEW_QUERY, f, w);
    Assoc(NEW_QUERY, f + w, ";");
  }
}
