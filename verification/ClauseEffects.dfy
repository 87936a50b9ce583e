/**
  What each action on the pages for grouping and sorting does to a text in step with the lists,
  and which actions leave it in step.
 */
module ClauseEffects {
  import opened Wrappers
  import opened Text
  import opened FieldLists
  import opened GroupSortText

  // ---- a text with both clauses ----

  /** A name that can stand in the sort list while group fields change. */
  predicate Sortable(name: string) {
    Find(name, "HAVING") == -1 && Find(name, "GROUP BY") == -1
  }

  predicate AllSortable(names: seq<string>) {
    forall i :: 0 <= i < |names| ==> Sortable(names[i])
  }

  lemma OrderKeyword(rest: string)
    requires !Contains(rest, "GROUP BY")
    ensures !Contains("ORDER BY " + rest, "GROUP BY")
  {
    SkipLeft("ORDER BY ", rest, "GROUP BY");
  }

  lemma OrderClauseFree(sorts: seq<string>)
    requires AllSortable(sorts)
    ensures !Contains(OrderClause(sorts), "HAVING") && !Contains(OrderClause(sorts), "GROUP BY")
  {
    JoinFree(sorts, "HAVING");
    JoinFree(sorts, "GROUP BY");
    SkipLeft("ORDER BY ", Join(sorts, SEPARATOR), "HAVING");
    OrderKeyword(Join(sorts, SEPARATOR));
  }

  /** Where the words are in a group clause and the sort clause behind it. */
  lemma WordsInBoth(clause: string, order: string)
    requires Begins(order, "ORDER BY") && !Contains(clause, "HAVING") && !Contains(clause, "ORDER BY")
    requires !Contains(order, "HAVING")
    ensures UpToWords(clause + "\n" + order) == |clause| + 1
  {
    Assoc(clause, "\n", order);
    SkipLeft("\n", order, "HAVING");
    ContainsParts(clause, "\n" + order, "HAVING");
    SkipLeft("\n", order, "ORDER BY");
    assert OccursAt(order, "ORDER BY", 0);
    FindPast(clause, "\n" + order, "ORDER BY");
  }

  lemma BothForm(body: string, clause: string, order: string)
    ensures body + "\n" + (clause + "\n" + order) + ";" == body + "\n" + (clause + "\n") + (order + ";")
    ensures body + "\n" + (clause + "\n" + order) + ";" == body + "\n" + clause + "\n" + order + ";"
  {
    Assoc(body + "\n", clause + "\n", order);
    Assoc(body + "\n" + (clause + "\n"), order, ";");
    Assoc(body + "\n", clause, "\n");
  }

  /** With a sort line the group clause is taken with the line break behind it. */
  lemma BothRegion(body: string, clause: string, order: string)
    requires NoKeywords(body) && Begins(clause, "GROUP BY") && Begins(order, "ORDER BY")
    requires !Contains(clause, "HAVING") && !Contains(clause, "ORDER BY") && !Contains(order, "HAVING")
    ensures
      var q := body + "\n" + (clause + "\n") + (order + ";");
      Find(q, "GROUP BY") == |body| + 1 && Region(q, GROUP_PAGE) == Some(clause + "\n")
  {
    var both := clause + "\n" + order;
    assert both[..8] == clause[..8];
    GroupRegion(body, both);
    WordsInBoth(clause, order);
    assert both[..|clause| + 1] == clause + "\n";
    BothForm(body, clause, order);
  }

  lemma NotReplaced(s: string, old_: string, new_: string)
    requires !Contains(s, old_)
    ensures ReplaceAll(s, old_, new_) == s
  {
  }

  lemma EndHoldsNone(clause: string, order: string)
    requires Begins(clause, "GROUP BY") && !Contains(order, "GROUP BY")
    ensures !Contains(order + ";", clause + "\n")
  {
    FindPast(order, ";", "GROUP BY");
    assert clause + "\n" == "GROUP BY" + (clause[8..] + "\n");
    if Contains(order + ";", clause + "\n") {
      ContainsPart(order + ";", "GROUP BY", clause[8..] + "\n");
    }
  }

  /** Over a sort line any new group clause runs into it: the line break is lost. */
  lemma GroupOverSort(body: string, clause: string, order: string, action: int, new_: string)
    requires NoKeywords(body) && Begins(clause, "GROUP BY") && Begins(order, "ORDER BY") && Rewrites(action, new_)
    requires !Contains(clause, "HAVING") && !Contains(clause, "ORDER BY")
    requires !Contains(order, "HAVING") && !Contains(order, "GROUP BY")
    ensures Handled(body + "\n" + clause + "\n" + order + ";", action, GROUP_PAGE, new_)
         == Some(body + "\n" + new_ + (order + ";"))
  {
    BothForm(body, clause, order);
    BothRegion(body, clause, order);
    assert (clause + "\n")[..8] == "GROUP BY";
    CutFound(body + "\n", clause + "\n", order + ";");
    ReplaceFirst(body + "\n", clause + "\n", order + ";", new_);
    EndHoldsNone(clause, order);
    NotReplaced(order + ";", clause + "\n", new_);
  }

  /** Without a group line the first group field takes the place of the whole sort line, semicolon included. */
  lemma GroupBeforeSort(body: string, order: string, new_: string)
    requires NoKeywords(body) && Begins(order, "ORDER BY") && !Contains(order, "HAVING") && !Contains(order, "GROUP BY")
    ensures Handled(body + "\n" + order + ";", ADDFIELD, GROUP_PAGE, new_) == Some(body + "\n" + new_)
  {
    var q := body + "\n" + order + ";";
    WordAt(body, order, "GROUP BY");
    WordAt(body, order, "HAVING");
    KeywordAt(body, order, "ORDER BY");
    var a, str := body + "\n", order + ";";
    Assoc(a, order, ";");
    assert q[|a|..] == str;
    assert q[|a|..|q|] == str;
    assert order == "ORDER BY" + order[8..] && str == "ORDER BY" + (order[8..] + ";");
    assert OccursAt(q, str, |a|);
    forall j | OccursAt(q, str, j) ensures j >= |a| {
      OccursParts(q, "ORDER BY", order[8..] + ";", j);
    }
    assert a + str + "" == q && a + new_ + "" == a + new_;
    ReplaceFirst(a, str, "", new_);
  }

  // ---- the other actions ----

  predicate Sorting(action: int) {
    action == ADDFIELD || action == REMOVEFIELD
  }

  lemma SecondChar(body: string, clause: string)
    requires Begins(clause, "GROUP BY")
    ensures (body + "\n" + clause + ";")[|body|] == '\n' && (body + "\n" + clause + ";")[|body| + 2] == 'R'
  {
    assert clause[1] == clause[..8][1];
  }

  lemma NotBehindReturn(body: string, clause: string, j: int)
    requires NoKeywords(body) && Begins(clause, "GROUP BY")
    ensures !OccursAt(body + "\n" + clause + ";", "\r" + clause, j)
  {
    var q := body + "\n" + clause + ";";
    if OccursAt(q, "\r" + clause, j) {
      OccursParts(q, "\r", clause, j);
      assert clause == "GROUP BY" + clause[8..];
      OccursParts(q, "GROUP BY", clause[8..], j + 1);
      KeywordAt(body, clause, "GROUP BY");
      SecondChar(body, clause);
    }
  }

  /** The clause of a lone group field is looked for behind a carriage return, which is not there: it stays. */
  lemma GroupRemoveLast(body: string, clause: string)
    requires NoKeywords(body) && Begins(clause, "GROUP BY") && !Contains(clause, "HAVING")
    requires !Contains(clause, "ORDER BY")
    ensures Handled(body + "\n" + clause + ";", REMOVEFIELD, GROUP_PAGE, "") == Some(body + "\n" + clause + ";")
  {
    var q := body + "\n" + clause + ";";
    forall j ensures !OccursAt(q, "\r" + clause, j) {
      NotBehindReturn(body, clause, j);
    }
    NotReplaced(q, "\r" + clause, "");
    GroupRegion(body, clause);
    assert clause[..|clause|] == clause;
  }

  /** Any other action on the sort page takes the clause out and leaves its line break. */
  lemma SortOther(body: string, clause: string, action: int)
    requires !Sorting(action)
    requires Begins(clause, "ORDER BY") && !Contains(body, "ORDER BY")
    ensures Handled(body + "\n" + clause + ";", action, SORT_PAGE, "") == Some(body + "\n" + ";")
  {
    KeywordAt(body, clause, "ORDER BY");
    SortRegion(body + "\n", clause);
    ReplaceClause(body + "\n", clause, "ORDER BY", "");
    assert body + "\n" + "" + ";" == body + "\n" + ";";
  }

  /** Without a sort line it takes the semicolon. */
  lemma SortOtherNone(body: string, action: int)
    requires !Sorting(action)
    requires !Contains(body, "ORDER BY") && !Contains(body, ";")
    ensures Handled(body + ";", action, SORT_PAGE, "") == Some(body)
  {
    FindPast(body, ";", "ORDER BY");
    assert (body + ";")[|body|..] == ";";
    ContainsChar(body, ';');
    SkipLeft(body, ";", ";");
    assert OccursAt(";", ";", 0);
    assert body + ";" + "" == body + ";" && body + "" + "" == body;
    ReplaceFirst(body, ";", "", "");
  }

  /** An empty text stays empty on the group page; on the sort page `substr` throws. */
  lemma EmptyText(action: int, clause: string)
    ensures Handled("", action, GROUP_PAGE, clause) == Some("") && Handled("", action, SORT_PAGE, clause) == None
  {
    assert Find("", "\r") == -1;
  }

  // ---- which actions keep the text in step ----

  /** What the document returns, from the names in its lists. */
  function ClauseFor(action: int, page: int, groups: seq<string>, sorts: seq<string>): string {
    if page == GROUP_PAGE then
      if action == ADDFIELD then GroupClause(groups)
      else if action == REMOVEFIELD then (if groups == [] then "" else GroupClause(groups))
      else Join(groups, SEPARATOR)
    else
      if action == ADDFIELD then OrderClause(sorts)
      else if action == REMOVEFIELD && sorts != [] then GroupClause(sorts)
      else ""
  }

  /** Nothing in the base text and the group names that the handler searches for. */
  predicate Plain(base: string, groups: seq<string>) {
    NoKeywords(base) && Find(base, ";") == -1 && AllGroupable(groups)
  }

  /** How an action may change the lists: a field is added, one of the list is removed or moved. */
  predicate Changes(groups: seq<string>, sorts: seq<string>, action: int, page: int, newGroups: seq<string>,
                    newSorts: seq<string>)
  {
    if page == GROUP_PAGE then
      newSorts == sorts && (action == ADDFIELD || groups != []) && (action == REMOVEFIELD || newGroups != [])
    else
      && page == SORT_PAGE && newGroups == groups
      && (if action == ADDFIELD then newSorts != []
          else if action == REMOVEFIELD then sorts != []
          else newSorts == sorts)
  }

  /**
    A text in step stays in step under additions and removals of group fields while there is no sort line, and one
    group field at least is left; under all sort additions; and when the last sort field is removed.  `left` is the
    page's list afterwards.
   */
  predicate Steady(sorts: seq<string>, action: int, page: int, left: seq<string>) {
    if page == GROUP_PAGE then sorts == [] && (action == ADDFIELD || (action == REMOVEFIELD && left != []))
    else action == ADDFIELD || (action == REMOVEFIELD && left == [])
  }

  /** The text of the lists after the action is what the handler has made. */
  predicate InStepAfter(base: string, groups: seq<string>, sorts: seq<string>, action: int, page: int,
                        newGroups: seq<string>, newSorts: seq<string>)
  {
    Handled(Query(base, groups, sorts), action, page, ClauseFor(action, page, newGroups, newSorts))
    == Some(Query(base, newGroups, newSorts))
  }

  lemma LongerText(a: string, b: string)
    requires |a| != |b|
    ensures a != b
  {
  }

  lemma GroupsAlone(base: string, groups: seq<string>, action: int, newGroups: seq<string>)
    requires Plain(base, groups) && Changes(groups, [], action, GROUP_PAGE, newGroups, [])
    ensures InStepAfter(base, groups, [], action, GROUP_PAGE, newGroups, [])
       <==> action == ADDFIELD || (action == REMOVEFIELD && newGroups != [])
  {
    if action == ADDFIELD {
      GroupAddStep(base, groups, newGroups);
    } else {
      GroupClauseFree(groups);
      ClauseBegins(groups);
      if action == REMOVEFIELD && newGroups == [] {
        GroupRemoveLast(base, GroupClause(groups));
        LongerText(Query(base, groups, []), Query(base, [], []));
      } else {
        var clause := ClauseFor(action, GROUP_PAGE, newGroups, []);
        GroupRewrite(base, GroupClause(groups), action, clause);
        if action != REMOVEFIELD {
          LongerText(base + "\n" + clause + ";", Query(base, newGroups, []));
        }
      }
    }
  }

  /** What is taken out is the pattern, some number of times. */
  lemma ShrinksBy(s: string, old_: string)
    requires |old_| > 0
    ensures ReplaceAll(s, old_, "") == s || |ReplaceAll(s, old_, "")| <= |s| - |old_|
  {
    if Find(s, old_) != -1 {
      ReplaceSize(s, old_, "");
      ReplaceLength(s[Find(s, old_) + |old_|..], old_, "");
    }
  }

  /** The last group field cannot be removed over a sort line either. */
  lemma GroupLastOverSort(base: string, groups: seq<string>, sorts: seq<string>)
    requires Plain(base, groups) && AllSortable(sorts) && groups != [] && sorts != []
    ensures !InStepAfter(base, groups, sorts, REMOVEFIELD, GROUP_PAGE, [], sorts)
  {
    var clause, order, q := GroupClause(groups), OrderClause(sorts), Query(base, groups, sorts);
    GroupClauseFree(groups);
    OrderClauseFree(sorts);
    ClauseBegins(groups);
    ClauseBegins(sorts);
    BothForm(base, clause, order);
    BothRegion(base, clause, order);
    ShrinksBy(q, "\r" + (clause + "\n"));
    LongerText(ReplaceAll(q, "\r" + (clause + "\n"), ""), Query(base, [], sorts));
  }

  lemma GroupsOverSorts(base: string, groups: seq<string>, sorts: seq<string>, action: int, newGroups: seq<string>)
    requires Plain(base, groups) && AllSortable(sorts) && sorts != []
    requires Changes(groups, sorts, action, GROUP_PAGE, newGroups, sorts)
    ensures !InStepAfter(base, groups, sorts, action, GROUP_PAGE, newGroups, sorts)
  {
    var clause, order := GroupClause(groups), OrderClause(sorts);
    var new_ := ClauseFor(action, GROUP_PAGE, newGroups, sorts);
    GroupClauseFree(groups);
    OrderClauseFree(sorts);
    ClauseBegins(groups);
    ClauseBegins(sorts);
    if groups == [] {
      GroupBeforeSort(base, order, new_);
      LongerText(base + "\n" + new_, Query(base, newGroups, sorts));
    } else if action == REMOVEFIELD && newGroups == [] {
      GroupLastOverSort(base, groups, sorts);
    } else {
      GroupOverSort(base, clause, order, action, new_);
      LongerText(base + "\n" + new_ + (order + ";"), Query(base, newGroups, sorts));
    }
  }

  lemma SortsAfterGroups(base: string, groups: seq<string>, sorts: seq<string>, action: int, newSorts: seq<string>)
    requires Plain(base, groups) && Changes(groups, sorts, action, SORT_PAGE, groups, newSorts)
    ensures InStepAfter(base, groups, sorts, action, SORT_PAGE, groups, newSorts)
       <==> action == ADDFIELD || (action == REMOVEFIELD && newSorts == [])
  {
    var body := Grouped(base, groups);
    GroupedFree(base, groups);
    ClauseBegins(sorts);
    if action == ADDFIELD {
      SortAddStep(base, groups, sorts, newSorts);
    } else if action == REMOVEFIELD {
      SortRemove(body, OrderClause(sorts), newSorts);
    } else if sorts == [] {
      SortOtherNone(body, action);
      LongerText(body, Query(base, groups, newSorts));
    } else {
      SortOther(body, OrderClause(sorts), action);
      LongerText(body + "\n" + ";", Query(base, groups, newSorts));
    }
  }

  /** The text is that of the lists after an action exactly when the action is a steady one. */
  lemma TextFollows(base: string, groups: seq<string>, sorts: seq<string>, action: int, page: int,
                    newGroups: seq<string>, newSorts: seq<string>)
    requires Plain(base, groups) && Changes(groups, sorts, action, page, newGroups, newSorts)
    requires page == GROUP_PAGE ==> AllSortable(sorts)
    ensures InStepAfter(base, groups, sorts, action, page, newGroups, newSorts)
       <==> Steady(sorts, action, page, if page == GROUP_PAGE then newGroups else newSorts)
  {
    if page == SORT_PAGE {
      SortsAfterGroups(base, groups, sorts, action, newSorts);
    } else if sorts == [] {
      GroupsAlone(base, groups, action, newGroups);
    } else {
      GroupsOverSorts(base, groups, sorts, action, newGroups);
    }
  }
}
