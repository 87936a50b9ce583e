/**
  The GROUP BY and ORDER BY clauses of the query text, edited by
  `DrawingView::SortGroupByHandling` (`QueryEditing`), beside the document's lists.
 */
module GroupSortText {
  import opened Wrappers
  import opened Text
  import opened RecordVector
  import opened FieldLists

  const ADDFIELD := 0
  const REMOVEFIELD := 1

  /** Page numbers of the notebook. */
  const SORT_PAGE := 0
  const GROUP_PAGE := 2

  // ---- what the code does to a text ----

  /** `substr( start, end - start )` in `size_t`: an end before the start wraps to the end of the text. */
  function Slice(s: string, start: nat, end: nat): string
    requires start <= |s|
  {
    if start <= end <= |s| then s[start..end] else s[start..]
  }

  /** The part of the text that a handler takes for its clause; `None` when `substr` throws. */
  function Region(query: string, queryType: int): Option<string> {
    if query == "" then (if queryType == GROUP_PAGE then Some("") else None)
    else
      var last := |query| - 1;
      if queryType == GROUP_PAGE then
        var start := Find(query, "GROUP BY");
        var having := Find(query, "HAVING");
        var end := if having == -1 then Find(query, "ORDER BY") else having;
        if start == -1 then Some(Slice(query, if end == -1 then last else end, |query|))
        else Some(Slice(query, start, if end == -1 then last else end))
      else
        var start := Find(query, "ORDER BY");
        if start != -1 then Some(Slice(query, start, last))
        else if queryType == SORT_PAGE || queryType == 4 then Some(query[last..])
        else None
  }

  /** The text afterwards, for the `replace` text the document has returned. */
  function Handled(query: string, action: int, queryType: int, replace: string): Option<string> {
    match Region(query, queryType)
    case None => None
    case Some(str) =>
      if action == ADDFIELD then
        Some(ReplaceAll(query, str, if str == ";" then "\n" + replace + ";" else replace))
      else if action == REMOVEFIELD && replace == "" then
        Some(ReplaceAll(query, (if queryType == GROUP_PAGE then "\r" else "\n") + str, replace))
      else Some(ReplaceAll(query, str, replace))
  }

  // ---- the forms the clauses have ----

  function GroupClause(names: seq<string>): string {
    "GROUP BY " + Join(names, SEPARATOR)
  }

  function OrderClause(names: seq<string>): string {
    "ORDER BY " + Join(names, SEPARATOR)
  }

  /** A clause starts with its keyword. */
  predicate Begins(clause: string, keyword: string) {
    |keyword| > 1 && |clause| > |keyword| && clause[..|keyword|] == keyword
  }

  /** Free of everything the handler for grouping looks for. */
  predicate NoKeywords(s: string) {
    Find(s, "GROUP BY") == -1 && Find(s, "HAVING") == -1 && Find(s, "ORDER BY") == -1
  }

  // ---- replacing at the semicolon ----

  lemma EarlierEnd(body: string, new_: string)
    requires |new_| > 1 && ';' in body
    ensures |ReplaceAll(body + ";", ";", new_)| > |body + new_|
  {
    var q := body + ";";
    ContainsChar(q, ';');
    ContainsChar(body, ';');
    FindLeft(body, ";", ";");
    var i := Find(q, ";");
    ReplaceSize(q, ";", new_);
    var rest := q[i + 1..];
    assert rest[|rest| - 1] == ';';
    ContainsChar(rest, ';');
    ReplaceResizes(rest, ";", new_);
    ReplaceLength(rest, ";", new_);
  }

  /** The closing semicolon is found, and only it, exactly when there is no other. */
  lemma ReplaceEnd(body: string, new_: string)
    requires |new_| > 1
    ensures ReplaceAll(body + ";", ";", new_) == body + new_ <==> !Contains(body, ";")
  {
    ContainsChar(body, ';');
    if ';' in body {
      EarlierEnd(body, new_);
    } else {
      ReplaceAfter(body, ";", "", new_);
      assert body + ";" + "" == body + ";" && body + new_ + "" == body + new_;
    }
  }

  // ---- replacing a clause ----

  /** A clause is found at its keyword and replaced there, once. */
  lemma ReplaceClause(a: string, clause: string, keyword: string, new_: string)
    requires Begins(clause, keyword) && Find(a + clause + ";", keyword) == |a|
    ensures ReplaceAll(a + clause + ";", clause, new_) == a + new_ + ";"
  {
    var q := a + clause + ";";
    var more := clause[|keyword|..];
    assert clause == keyword + more;
    assert OccursAt(q, clause, |a|);
    forall j | OccursAt(q, clause, j) ensures j >= |a| {
      OccursParts(q, keyword, more, j);
    }
    ReplaceFirst(a, clause, ";", new_);
  }

  /** Where the first keyword stands in a text with a clause behind a line break. */
  lemma KeywordAt(body: string, clause: string, keyword: string)
    requires Begins(clause, keyword) && '\n' !in keyword
    ensures Find(body + "\n" + clause + ";", keyword)
         == if Contains(body, keyword) then Find(body, keyword) else |body| + 1
  {
    var rest := "\n" + (clause + ";");
    Assoc(body, "\n", clause);
    Assoc(body, "\n" + clause, ";");
    Assoc("\n", clause, ";");
    if Contains(body, keyword) {
      FindLeft(body, rest, keyword);
    } else {
      FindPast(body, rest, keyword);
      SkipLeft("\n", clause + ";", keyword);
      assert (clause + ";")[..|keyword|] == keyword;
      assert OccursAt(clause + ";", keyword, 0);
    }
  }

  // ---- sorting ----

  lemma LineForm(body: string, clause: string)
    ensures body + ("\n" + clause + ";") == body + "\n" + clause + ";"
  {
    Assoc(body, "\n" + clause, ";");
    Assoc(body, "\n", clause);
  }

  /** The first sort field opens an ORDER BY line before the closing semicolon exactly when there is no other one. */
  lemma SortAddFirst(body: string, clause: string)
    requires !Contains(body, "ORDER BY")
    ensures Handled(body + ";", ADDFIELD, SORT_PAGE, clause) == Some(body + "\n" + clause + ";")
       <==> !Contains(body, ";")
  {
    FindPast(body, ";", "ORDER BY");
    assert (body + ";")[|body|..] == ";";
    ReplaceEnd(body, "\n" + clause + ";");
    LineForm(body, clause);
  }

  /** A text cut at the first ORDER BY. */
  lemma SortRegion(a: string, rest: string)
    requires Begins(rest, "ORDER BY") && Find(a + rest + ";", "ORDER BY") == |a|
    ensures Region(a + rest + ";", SORT_PAGE) == Some(rest)
  {
    assert (a + rest + ";")[|a|..|a| + |rest|] == rest;
  }

  lemma RejoinLine(body: string, p: nat, clause: string)
    requires p <= |body|
    ensures body[..p] + (body[p..] + "\n" + clause) + ";" == body + "\n" + clause + ";"
  {
    assert body == body[..p] + body[p..];
    Assoc(body[..p], body[p..] + "\n", clause);
    Assoc(body[..p], body[p..], "\n");
  }

  /** A later sort field rewrites the ORDER BY line exactly when no ORDER BY comes before it. */
  lemma SortAddNext(body: string, clause: string, new_: string)
    requires Begins(clause, "ORDER BY")
    ensures Handled(body + "\n" + clause + ";", ADDFIELD, SORT_PAGE, new_) == Some(body + "\n" + new_ + ";")
       <==> !Contains(body, "ORDER BY")
  {
    KeywordAt(body, clause, "ORDER BY");
    if Contains(body, "ORDER BY") {
      var p := Find(body, "ORDER BY");
      var a, rest := body[..p], body[p..] + "\n" + clause;
      RejoinLine(body, p, clause);
      assert rest[..8] == body[p..p + 8];
      SortRegion(a, rest);
      ReplaceClause(a, rest, "ORDER BY", new_);
    } else {
      SortRegion(body + "\n", clause);
      ReplaceClause(body + "\n", clause, "ORDER BY", new_);
    }
  }

  lemma LineFound(body: string, clause: string)
    requires Begins(clause, "ORDER BY") && Find(body + "\n" + clause + ";", "ORDER BY") == |body| + 1
    ensures Find(body + ("\n" + clause) + ";", "\n" + clause) == |body|
  {
    var q, line := body + ("\n" + clause) + ";", "\n" + clause;
    Assoc(body, "\n", clause);
    assert OccursAt(q, line, |body|);
    assert clause == "ORDER BY" + clause[8..];
    forall j | OccursAt(q, line, j) ensures j >= |body| {
      OccursParts(q, "\n", clause, j);
      OccursParts(q, "ORDER BY", clause[8..], j + 1);
    }
  }

  /** Removing the only sort field takes its line away again. */
  lemma SortRemoveLone(body: string, clause: string)
    requires Begins(clause, "ORDER BY") && !Contains(body, "ORDER BY")
    ensures Handled(body + "\n" + clause + ";", REMOVEFIELD, SORT_PAGE, "") == Some(body + ";")
  {
    var q, line := body + "\n" + clause + ";", "\n" + clause;
    KeywordAt(body, clause, "ORDER BY");
    SortRegion(body + "\n", clause);
    Assoc(body, "\n", clause);
    LineFound(body, clause);
    ReplaceFirst(body, line, ";", "");
    assert body + "" + ";" == body + ";";
  }

  /** With fields left the line is rewritten, under the keyword of the other clause. */
  lemma SortRemoveNext(body: string, clause: string, names: seq<string>)
    requires Begins(clause, "ORDER BY") && !Contains(body, "ORDER BY")
    ensures Handled(body + "\n" + clause + ";", REMOVEFIELD, SORT_PAGE, GroupClause(names))
         == Some(body + "\n" + "GROUP BY " + Join(names, SEPARATOR) + ";")
  {
    KeywordAt(body, clause, "ORDER BY");
    SortRegion(body + "\n", clause);
    Assoc(body + "\n", "GROUP BY ", Join(names, SEPARATOR));
    ReplaceClause(body + "\n", clause, "ORDER BY", GroupClause(names));
  }

  /** So the text follows the list exactly when the list has become empty. */
  lemma SortRemove(body: string, clause: string, names: seq<string>)
    requires Begins(clause, "ORDER BY") && !Contains(body, "ORDER BY")
    ensures
      var replace := if names == [] then "" else GroupClause(names);
      var right := if names == [] then body + ";" else body + "\n" + OrderClause(names) + ";";
      Handled(body + "\n" + clause + ";", REMOVEFIELD, SORT_PAGE, replace) == Some(right) <==> names == []
  {
    if names == [] {
      SortRemoveLone(body, clause);
    } else {
      SortRemoveNext(body, clause, names);
      var got := body + "\n" + "GROUP BY " + Join(names, SEPARATOR) + ";";
      var right := body + "\n" + OrderClause(names) + ";";
      assert got[|body| + 1] == 'G' && right[|body| + 1] == 'O';
    }
  }

  // ---- grouping ----

  lemma NoKeywordsEnd(body: string)
    requires NoKeywords(body)
    ensures NoKeywords(body + ";")
  {
    FindPast(body, ";", "GROUP BY");
    FindPast(body, ";", "HAVING");
    FindPast(body, ";", "ORDER BY");
  }

  /** The first group field, as for sorting. */
  lemma GroupAddFirst(body: string, clause: string)
    requires NoKeywords(body)
    ensures Handled(body + ";", ADDFIELD, GROUP_PAGE, clause) == Some(body + "\n" + clause + ";")
       <==> !Contains(body, ";")
  {
    NoKeywordsEnd(body);
    assert (body + ";")[|body|..] == ";";
    ReplaceEnd(body, "\n" + clause + ";");
    LineForm(body, clause);
  }

  /** Where a word of the handler stands in a text with a clause behind a line break. */
  lemma WordAt(body: string, clause: string, t: string)
    requires |t| > 1 && '\n' !in t && ';' !in t && !Contains(body, t)
    ensures Find(body + "\n" + clause + ";", t) == if Contains(clause, t) then |body| + 1 + Find(clause, t) else -1
  {
    Assoc(body, "\n", clause);
    Assoc(body, "\n" + clause, ";");
    Assoc("\n", clause, ";");
    FindPast(body, "\n" + (clause + ";"), t);
    SkipLeft("\n", clause + ";", t);
    if Contains(clause, t) {
      FindLeft(clause, ";", t);
      ContainsLeft(clause, ";", t);
    } else {
      FindPast(clause, ";", t);
    }
  }

  /** The words come behind the keyword of the clause. */
  lemma HavingBehind(rest: string)
    requires Contains("GROUP BY" + rest, "HAVING")
    ensures Find("GROUP BY" + rest, "HAVING") >= 8
  {
    SkipLeft("GROUP BY", rest, "HAVING");
  }

  lemma OrderBehind(rest: string)
    requires Contains("GROUP BY" + rest, "ORDER BY")
    ensures Find("GROUP BY" + rest, "ORDER BY") >= 8
  {
    var s := "GROUP BY" + rest;
    var j := Find(s, "ORDER BY");
    assert s[j..j + 8][0] == s[j] && s[j..j + 8][1] == s[j + 1];
    assert forall k :: 0 <= k < 8 ==> s[k] == "GROUP BY"[k];
  }

  lemma CutFound(a: string, cut: string, end: string)
    requires |cut| >= 8 && cut[..8] == "GROUP BY" && Find(a + cut + end, "GROUP BY") == |a|
    ensures Find(a + cut + end, cut) == |a|
  {
    var q, more := a + cut + end, cut[8..];
    assert cut == "GROUP BY" + more;
    assert OccursAt(q, cut, |a|);
    forall j | OccursAt(q, cut, j) ensures j >= |a| {
      OccursParts(q, "GROUP BY", more, j);
    }
  }

  lemma EndsDiffer(a: string, x: string, y: string)
    requires x != "" && y != "" && x[0] != y[0]
    ensures a + x != a + y
  {
    assert (a + x)[|a|] == x[0] && (a + y)[|a|] == y[0];
  }

  /** A clause cut short is replaced and leaves its end behind. */
  lemma CutReplaced(a: string, cut: string, end: string, new_: string)
    requires |cut| >= 8 && cut[..8] == "GROUP BY" && end != "" && end[0] != 'G' && end[0] != ';'
    requires Find(a + cut + end, "GROUP BY") == |a|
    ensures ReplaceAll(a + cut + end, cut, new_) != a + new_ + ";"
  {
    assert cut[0] == cut[..8][0];
    ReplaceKeepsFirst(end, cut, new_);
    EndsDiffer(a + new_, ReplaceAll(end, cut, new_), ";");
    CutFound(a, cut, end);
    ReplaceFirst(a, cut, end, new_);
  }

  lemma CutLine(body: string, clause: string, q: nat)
    requires q <= |clause|
    ensures body + "\n" + clause + ";" == body + "\n" + clause[..q] + (clause[q..] + ";")
  {
    assert clause == clause[..q] + clause[q..];
    Assoc(body + "\n", clause[..q], clause[q..]);
    Assoc(body + "\n" + clause[..q], clause[q..], ";");
  }

  /** The handler puts a new clause text in the place of the region. */
  predicate Rewrites(action: int, new_: string) {
    action != REMOVEFIELD || new_ != ""
  }

  /** With one of the words in the clause the region ends there. */
  lemma GroupRewriteCut(body: string, clause: string, q: nat, action: int, new_: string)
    requires Begins(clause, "GROUP BY") && 8 <= q < |clause| && clause[q] != 'G' && clause[q] != ';'
    requires Find(body + "\n" + clause + ";", "GROUP BY") == |body| + 1 && Rewrites(action, new_)
    requires Region(body + "\n" + clause + ";", GROUP_PAGE) == Some(clause[..q])
    ensures Handled(body + "\n" + clause + ";", action, GROUP_PAGE, new_) != Some(body + "\n" + new_ + ";")
  {
    CutLine(body, clause, q);
    assert clause[..q][..8] == "GROUP BY";
    CutReplaced(body + "\n", clause[..q], clause[q..] + ";", new_);
  }

  /** Where the region for grouping ends in a text. */
  function GroupEnd(query: string): int {
    var having := Find(query, "HAVING");
    var end := if having == -1 then Find(query, "ORDER BY") else having;
    if end == -1 then |query| - 1 else end
  }

  lemma RegionCut(query: string, a: string, clause: string, q: nat)
    requires query == a + clause + ";" && q <= |clause|
    requires Find(query, "GROUP BY") == |a| && GroupEnd(query) == |a| + q
    ensures Region(query, GROUP_PAGE) == Some(clause[..q])
  {
    assert query[|a|..|a| + q] == clause[..q];
  }

  /** How much of a clause comes before the words of the handler. */
  function UpToWords(clause: string): (q: nat)
    ensures q <= |clause|
  {
    var having, order := Find(clause, "HAVING"), Find(clause, "ORDER BY");
    if having != -1 then having else if order != -1 then order else |clause|
  }

  lemma EndOfLine(body: string, clause: string)
    requires NoKeywords(body)
    ensures GroupEnd(body + "\n" + clause + ";") == |body| + 1 + UpToWords(clause)
  {
    WordAt(body, clause, "HAVING");
    WordAt(body, clause, "ORDER BY");
  }

  /** The region of a text with a GROUP BY line. */
  lemma GroupRegion(body: string, clause: string)
    requires NoKeywords(body) && Begins(clause, "GROUP BY")
    ensures Find(body + "\n" + clause + ";", "GROUP BY") == |body| + 1
    ensures Region(body + "\n" + clause + ";", GROUP_PAGE) == Some(clause[..UpToWords(clause)])
  {
    KeywordAt(body, clause, "GROUP BY");
    EndOfLine(body, clause);
    RegionCut(body + "\n" + clause + ";", body + "\n", clause, UpToWords(clause));
  }

  lemma CutAt(clause: string, q: nat, t: string)
    requires Begins(clause, "GROUP BY") && OccursAt(clause, t, q) && |t| > 1
    ensures q < |clause| && clause[q] == t[0]
  {
    assert clause[q..q + |t|][0] == clause[q];
  }

  /**
    A new group clause takes the place of the old one, and nothing else changes, exactly when no listed name holds one
    of the words.
   */
  lemma GroupRewrite(body: string, clause: string, action: int, new_: string)
    requires NoKeywords(body) && Begins(clause, "GROUP BY") && Rewrites(action, new_)
    ensures Handled(body + "\n" + clause + ";", action, GROUP_PAGE, new_) == Some(body + "\n" + new_ + ";")
       <==> !Contains(clause, "HAVING") && !Contains(clause, "ORDER BY")
  {
    var rest := clause[8..];
    assert clause == "GROUP BY" + rest;
    GroupRegion(body, clause);
    if Contains(clause, "HAVING") {
      HavingBehind(rest);
      CutAt(clause, Find(clause, "HAVING"), "HAVING");
      GroupRewriteCut(body, clause, Find(clause, "HAVING"), action, new_);
    } else if Contains(clause, "ORDER BY") {
      OrderBehind(rest);
      CutAt(clause, Find(clause, "ORDER BY"), "ORDER BY");
      GroupRewriteCut(body, clause, Find(clause, "ORDER BY"), action, new_);
    } else {
      assert clause[..|clause|] == clause;
      ReplaceClause(body + "\n", clause, "GROUP BY", new_);
    }
  }

  // ---- the whole text, over runs ----

  /** A clause on a line of its own. */
  function Line(body: string, clause: string): string {
    body + "\n" + clause
  }

  function Grouped(base: string, groups: seq<string>): string {
    if groups == [] then base else Line(base, GroupClause(groups))
  }

  /** The query of a base text, a group list and a sort list. */
  function Query(base: string, groups: seq<string>, sorts: seq<string>): string {
    (if sorts == [] then Grouped(base, groups) else Line(Grouped(base, groups), OrderClause(sorts))) + ";"
  }

  /** A field dropped on a page: its name, the place, and the place it comes from. */
  datatype Addition = Addition(name: string, pos: nat, original: nat)

  datatype Edited = Edited(text: string, names: seq<string>)

  function ClauseOn(page: int, names: seq<string>): string {
    if page == GROUP_PAGE then GroupClause(names) else OrderClause(names)
  }

  /** The text and the list after a run of additions on one page. */
  function Additions(query: string, names: seq<string>, adds: seq<Addition>, page: int): Option<Edited>
    decreases |adds|
  {
    if adds == [] then Some(Edited(query, names))
    else if adds[0].pos > |names| then None
    else
      var more := InsertedAt(names, adds[0].pos, adds[0].name);
      match Handled(query, ADDFIELD, page, ClauseOn(page, more))
      case None => None
      case Some(q) => Additions(q, more, adds[1..], page)
  }

  lemma AdditionsStep(q: string, names: seq<string>, adds: seq<Addition>, page: int, next: string)
    requires adds != [] && adds[0].pos <= |names|
    requires Handled(q, ADDFIELD, page, ClauseOn(page, InsertedAt(names, adds[0].pos, adds[0].name))) == Some(next)
    ensures Additions(q, names, adds, page)
         == Additions(next, InsertedAt(names, adds[0].pos, adds[0].name), adds[1..], page)
  {
  }

  predicate InRange(count: nat, adds: seq<Addition>)
    decreases |adds|
  {
    adds == [] || (adds[0].pos <= count && InRange(count + 1, adds[1..]))
  }

  /** A name that can stand in the group list: none of the words and signs the handlers search for. */
  predicate Groupable(name: string) {
    Find(name, "HAVING") == -1 && Find(name, "ORDER BY") == -1 && Find(name, ";") == -1
  }

  predicate AllGroupable(names: seq<string>) {
    forall i :: 0 <= i < |names| ==> Groupable(names[i])
  }

  predicate AddsGroupable(adds: seq<Addition>) {
    forall i :: 0 <= i < |adds| ==> Groupable(adds[i].name)
  }

  lemma {:induction false} JoinFree(names: seq<string>, t: string)
    requires t != "" && t[0] !in SEPARATOR && ',' !in t
    requires forall i :: 0 <= i < |names| ==> !Contains(names[i], t)
    ensures !Contains(Join(names, SEPARATOR), t)
  {
    if |names| <= 1 {
    } else {
      JoinFree(names[1..], t);
      SkipLeft(SEPARATOR, Join(names[1..], SEPARATOR), t);
      ContainsParts(names[0], SEPARATOR + Join(names[1..], SEPARATOR), t);
      Assoc(names[0], SEPARATOR, Join(names[1..], SEPARATOR));
    }
  }

  lemma GroupKeywordOnce(rest: string)
    requires !Contains(rest, "ORDER BY")
    ensures !Contains("GROUP BY " + rest, "ORDER BY")
  {
    var s, t := "GROUP BY " + rest, "ORDER BY";
    forall j ensures !OccursAt(s, t, j) {
      if OccursAt(s, t, j) {
        assert s[j..j + 8][0] == 'O' && s[j..j + 8][1] == 'R';
        if j >= 9 {
          OccursRight("GROUP BY ", rest, t, j);
        }
      }
    }
  }

  lemma GroupClauseFree(groups: seq<string>)
    requires AllGroupable(groups)
    ensures !Contains(GroupClause(groups), "HAVING")
    ensures !Contains(GroupClause(groups), "ORDER BY")
    ensures !Contains(GroupClause(groups), ";")
  {
    var rest := Join(groups, SEPARATOR);
    JoinFree(groups, "HAVING");
    JoinFree(groups, "ORDER BY");
    JoinFree(groups, ";");
    SkipLeft("GROUP BY ", rest, "HAVING");
    SkipLeft("GROUP BY ", rest, ";");
    GroupKeywordOnce(rest);
  }

  /** The text before the sort line has no ORDER BY and no semicolon. */
  lemma GroupedFree(base: string, groups: seq<string>)
    requires NoKeywords(base) && !Contains(base, ";") && AllGroupable(groups)
    ensures !Contains(Grouped(base, groups), "ORDER BY") && !Contains(Grouped(base, groups), ";")
  {
    if groups != [] {
      GroupClauseFree(groups);
      var clause := GroupClause(groups);
      SkipLeft("\n", clause, "ORDER BY");
      SkipLeft("\n", clause, ";");
      ContainsParts(base, "\n" + clause, "ORDER BY");
      ContainsParts(base, "\n" + clause, ";");
      Assoc(base, "\n", clause);
    }
  }

  lemma ClauseBegins(names: seq<string>)
    ensures Begins(GroupClause(names), "GROUP BY") && Begins(OrderClause(names), "ORDER BY")
  {
    assert GroupClause(names)[..8] == "GROUP BY";
    assert OrderClause(names)[..8] == "ORDER BY";
  }

  lemma GroupAddStep(base: string, groups: seq<string>, more: seq<string>)
    requires NoKeywords(base) && !Contains(base, ";") && AllGroupable(groups) && more != []
    ensures Handled(Query(base, groups, []), ADDFIELD, GROUP_PAGE, GroupClause(more)) == Some(Query(base, more, []))
  {
    if groups == [] {
      GroupAddFirst(base, GroupClause(more));
    } else {
      GroupClauseFree(groups);
      ClauseBegins(groups);
      GroupRewrite(base, GroupClause(groups), ADDFIELD, GroupClause(more));
    }
  }

  lemma SortAddStep(base: string, groups: seq<string>, sorts: seq<string>, more: seq<string>)
    requires NoKeywords(base) && !Contains(base, ";") && AllGroupable(groups) && more != []
    ensures Handled(Query(base, groups, sorts), ADDFIELD, SORT_PAGE, OrderClause(more))
         == Some(Query(base, groups, more))
  {
    GroupedFree(base, groups);
    if sorts == [] {
      SortAddFirst(Grouped(base, groups), OrderClause(more));
    } else {
      ClauseBegins(sorts);
      SortAddNext(Grouped(base, groups), OrderClause(sorts), OrderClause(more));
    }
  }

  lemma MoreGroupable(names: seq<string>, pos: nat, name: string)
    requires AllGroupable(names) && Groupable(name) && pos <= |names|
    ensures AllGroupable(InsertedAt(names, pos, name))
  {
    InsertedSlots(names, pos, name);
  }

  lemma GroupAddOn(base: string, groups: seq<string>, more: seq<string>)
    requires NoKeywords(base) && !Contains(base, ";") && AllGroupable(groups) && more != []
    ensures Handled(Query(base, groups, []), ADDFIELD, GROUP_PAGE, ClauseOn(GROUP_PAGE, more))
         == Some(Query(base, more, []))
  {
    GroupAddStep(base, groups, more);
  }

  lemma SortAddOn(base: string, groups: seq<string>, sorts: seq<string>, more: seq<string>)
    requires NoKeywords(base) && !Contains(base, ";") && AllGroupable(groups) && more != []
    ensures Handled(Query(base, groups, sorts), ADDFIELD, SORT_PAGE, ClauseOn(SORT_PAGE, more))
         == Some(Query(base, groups, more))
  {
    SortAddStep(base, groups, sorts, more);
  }

  lemma GroupRunStep(base: string, groups: seq<string>, adds: seq<Addition>)
    requires NoKeywords(base) && !Contains(base, ";") && AllGroupable(groups)
    requires adds != [] && adds[0].pos <= |groups|
    ensures
      var more := InsertedAt(groups, adds[0].pos, adds[0].name);
      Additions(Query(base, groups, []), groups, adds, GROUP_PAGE)
      == Additions(Query(base, more, []), more, adds[1..], GROUP_PAGE)
  {
    var more := InsertedAt(groups, adds[0].pos, adds[0].name);
    GroupAddOn(base, groups, more);
    AdditionsStep(Query(base, groups, []), groups, adds, GROUP_PAGE, Query(base, more, []));
  }

  /** A run's outcome shows its own list over fixed sort fields. */
  predicate ShowsGroups(r: Option<Edited>, base: string) {
    r.Some? && AllGroupable(r.value.names) && r.value.text == Query(base, r.value.names, [])
  }

  predicate ShowsSorts(r: Option<Edited>, base: string, groups: seq<string>) {
    r.Some? && r.value.text == Query(base, groups, r.value.names)
  }

  lemma RestOfAdds(count: nat, adds: seq<Addition>)
    requires adds != [] && AddsGroupable(adds) && InRange(count, adds)
    ensures adds[0].pos <= count && Groupable(adds[0].name) && AddsGroupable(adds[1..]) && InRange(count + 1, adds[1..])
  {
  }

  lemma GroupRunEnd(base: string, groups: seq<string>)
    requires AllGroupable(groups)
    ensures ShowsGroups(Additions(Query(base, groups, []), groups, [], GROUP_PAGE), base)
  {
  }

  lemma {:induction false} GroupRun(base: string, groups: seq<string>, adds: seq<Addition>)
    requires NoKeywords(base) && !Contains(base, ";") && AllGroupable(groups)
    requires AddsGroupable(adds) && InRange(|groups|, adds)
    ensures ShowsGroups(Additions(Query(base, groups, []), groups, adds, GROUP_PAGE), base)
    decreases |adds|
  {
    if adds == [] {
      GroupRunEnd(base, groups);
    } else {
      var more := InsertedAt(groups, adds[0].pos, adds[0].name);
      RestOfAdds(|groups|, adds);
      MoreGroupable(groups, adds[0].pos, adds[0].name);
      GroupRun(base, more, adds[1..]);
      GroupRunStep(base, groups, adds);
    }
  }

  lemma SortRunStep(base: string, groups: seq<string>, sorts: seq<string>, adds: seq<Addition>)
    requires NoKeywords(base) && !Contains(base, ";") && AllGroupable(groups)
    requires adds != [] && adds[0].pos <= |sorts|
    ensures
      var more := InsertedAt(sorts, adds[0].pos, adds[0].name);
      Additions(Query(base, groups, sorts), sorts, adds, SORT_PAGE)
      == Additions(Query(base, groups, more), more, adds[1..], SORT_PAGE)
  {
    var more := InsertedAt(sorts, adds[0].pos, adds[0].name);
    SortAddOn(base, groups, sorts, more);
    AdditionsStep(Query(base, groups, sorts), sorts, adds, SORT_PAGE, Query(base, groups, more));
  }

  lemma SortRunEnd(base: string, groups: seq<string>, sorts: seq<string>)
    ensures ShowsSorts(Additions(Query(base, groups, sorts), sorts, [], SORT_PAGE), base, groups)
  {
  }

  lemma MoreSorts(sorts: seq<string>, adds: seq<Addition>)
    requires adds != [] && InRange(|sorts|, adds)
    ensures adds[0].pos <= |sorts| && InRange(|InsertedAt(sorts, adds[0].pos, adds[0].name)|, adds[1..])
  {
  }

  lemma {:induction false} SortRun(base: string, groups: seq<string>, sorts: seq<string>, adds: seq<Addition>)
    requires NoKeywords(base) && !Contains(base, ";") && AllGroupable(groups) && InRange(|sorts|, adds)
    ensures ShowsSorts(Additions(Query(base, groups, sorts), sorts, adds, SORT_PAGE), base, groups)
    decreases |adds|
  {
    if adds == [] {
      SortRunEnd(base, groups, sorts);
    } else {
      MoreSorts(sorts, adds);
      SortRun(base, groups, InsertedAt(sorts, adds[0].pos, adds[0].name), adds[1..]);
      SortRunStep(base, groups, sorts, adds);
    }
  }

  /**
    Any group additions followed by any sort additions: the text is the base, the group line, the sort line,
    the semicolon.
   */
  lemma ClausesFollowLists(base: string, groupAdds: seq<Addition>, sortAdds: seq<Addition>)
    requires NoKeywords(base) && !Contains(base, ";")
    requires AddsGroupable(groupAdds) && InRange(0, groupAdds) && InRange(0, sortAdds)
    ensures Additions(Query(base, [], []), [], groupAdds, GROUP_PAGE).Some?
    ensures
      var g := Additions(Query(base, [], []), [], groupAdds, GROUP_PAGE).value;
      var s := Additions(g.text, [], sortAdds, SORT_PAGE);
      s.Some? && s.value.text == Query(base, g.names, s.value.names)
  {
    GroupRun(base, [], groupAdds);
    SortRun(base, Additions(Query(base, [], []), [], groupAdds, GROUP_PAGE).value.names, [], sortAdds);
  }

  /** Adding one sort field and removing it gives back the text there was. */
  lemma SortAddRemove(base: string, groups: seq<string>, name: string)
    requires NoKeywords(base) && !Contains(base, ";") && AllGroupable(groups)
    ensures
      var q := Query(base, groups, []);
      var added := Handled(q, ADDFIELD, SORT_PAGE, OrderClause([name]));
      added.Some? && Handled(added.value, REMOVEFIELD, SORT_PAGE, "") == Some(q)
  {
    SortAddStep(base, groups, [], [name]);
    GroupedFree(base, groups);
    ClauseBegins([name]);
    SortRemoveLone(Grouped(base, groups), OrderClause([name]));
  }

  // ---- reading the lists back ----

  /** The names in a text from position `k` on, behind a keyword of nine characters and up to `end`. */
  function NamesFrom(s: string, k: int, end: nat): seq<string>
    requires end <= |s|
  {
    if k < 0 || k + 9 > end then [] else Pieces(s[k + 9..end], ",\n         ")
  }

  /** The lists behind ORDER BY and, before it, GROUP BY: one name to a line, separated by commas. */
  function ReadClauses(query: string): (seq<string>, seq<string>)
    requires query != ""
  {
    var end := |query| - 1;
    var order := Find(query, "ORDER BY ");
    var head := query[..if order < 1 then end else order - 1];
    (NamesFrom(head, Find(head, "GROUP BY "), |head|), NamesFrom(query, order, end))
  }

  /** A clause begins with the keyword and a blank. */
  lemma KeywordBlank(s: string, keyword: string)
    requires !Contains(s, keyword)
    ensures Find(s, keyword + " ") == -1
  {
    if Contains(s, keyword + " ") {
      ContainsPart(s, keyword, " ");
    }
  }

  lemma LineNames(s: string, body: string, clause: string, keyword: string, names: seq<string>, end: string)
    requires names != [] && FreeOf(names, '\n') && |keyword| == 9
    requires s == body + "\n" + clause + end && clause == keyword + Join(names, SEPARATOR)
    ensures NamesFrom(s, |body| + 1, |s| - |end|) == names
  {
    assert clause[9..] == Join(names, SEPARATOR);
    assert s[|body| + 10..|s| - |end|] == clause[9..];
    assert SEPARATOR[1] == '\n';
    PiecesJoin(names, SEPARATOR, '\n');
  }

  /** Where the keyword of a clause, with its blank, stands in a text. */
  lemma BlankKeywordAt(body: string, clause: string, keyword: string, end: string)
    requires |keyword| > 0 && '\n' !in keyword && !Contains(body, keyword) && keyword <= clause
    ensures Find(body + "\n" + clause + end, keyword) == |body| + 1
  {
    var rest := "\n" + (clause + end);
    Assoc(body, "\n", clause);
    Assoc(body, "\n" + clause, end);
    Assoc("\n", clause, end);
    FindPast(body, rest, keyword);
    SkipLeft("\n", clause + end, keyword);
    assert (clause + end)[..|keyword|] == keyword;
    assert OccursAt(clause + end, keyword, 0);
  }

  lemma GroupsFound(base: string, clause: string, groups: seq<string>)
    requires NoKeywords(base) && FreeOf(groups, '\n') && groups != [] && clause == GroupClause(groups)
    ensures
      var head := base + "\n" + clause;
      NamesFrom(head, Find(head, "GROUP BY "), |head|) == groups
  {
    var head := base + "\n" + clause;
    KeywordBlank(base, "GROUP BY");
    assert "GROUP BY" + " " == "GROUP BY ";
    assert head + "" == head;
    BlankKeywordAt(base, clause, "GROUP BY ", "");
    LineNames(head, base, clause, "GROUP BY ", groups, "");
  }

  lemma ReadsGroups(base: string, groups: seq<string>)
    requires NoKeywords(base) && FreeOf(groups, '\n')
    ensures
      var head := Grouped(base, groups);
      NamesFrom(head, Find(head, "GROUP BY "), |head|) == groups
  {
    if groups == [] {
      KeywordBlank(base, "GROUP BY");
      assert "GROUP BY" + " " == "GROUP BY ";
    } else {
      GroupsFound(base, GroupClause(groups), groups);
    }
  }

  /** A text without a sort line. */
  lemma NoSortLine(body: string)
    requires !Contains(body, "ORDER BY")
    ensures ReadClauses(body + ";") == (NamesFrom(body, Find(body, "GROUP BY "), |body|), [])
  {
    KeywordBlank(body, "ORDER BY");
    assert "ORDER BY" + " " == "ORDER BY ";
    FindPast(body, ";", "ORDER BY ");
    assert (body + ";")[..|body|] == body;
  }

  lemma SortLine(body: string, clause: string, sorts: seq<string>)
    requires !Contains(body, "ORDER BY") && FreeOf(sorts, '\n') && sorts != [] && clause == OrderClause(sorts)
    ensures ReadClauses(body + "\n" + clause + ";") == (NamesFrom(body, Find(body, "GROUP BY "), |body|), sorts)
  {
    var q := body + "\n" + clause + ";";
    KeywordBlank(body, "ORDER BY");
    assert "ORDER BY" + " " == "ORDER BY ";
    BlankKeywordAt(body, clause, "ORDER BY ", ";");
    assert q[..|body|] == body;
    LineNames(q, body, clause, "ORDER BY ", sorts, ";");
  }

  /** Reading the text of a base and two lists gives the lists. */
  lemma ReadsLists(base: string, groups: seq<string>, sorts: seq<string>)
    requires NoKeywords(base) && !Contains(base, ";") && AllGroupable(groups)
    requires FreeOf(groups, '\n') && FreeOf(sorts, '\n')
    ensures ReadClauses(Query(base, groups, sorts)) == (groups, sorts)
  {
    GroupedFree(base, groups);
    ReadsGroups(base, groups);
    if sorts == [] {
      NoSortLine(Grouped(base, groups));
    } else {
      SortLine(Grouped(base, groups), OrderClause(sorts), sorts);
    }
  }

  /** For a given base the text tells both lists. */
  lemma ListsReadBack(base: string, groups: seq<string>, sorts: seq<string>, groups2: seq<string>, sorts2: seq<string>)
    requires NoKeywords(base) && !Contains(base, ";") && AllGroupable(groups) && AllGroupable(groups2)
    requires FreeOf(groups, '\n') && FreeOf(groups2, '\n') && FreeOf(sorts, '\n') && FreeOf(sorts2, '\n')
    ensures Query(base, groups, sorts) == Query(base, groups2, sorts2) <==> groups == groups2 && sorts == sorts2
  {
    ReadsLists(base, groups, sorts);
    ReadsLists(base, groups2, sorts2);
  }

  // ---- the handler ----

  datatype Positions = Positions(position: nat, originalPosition: nat)

  /** The text edit of the handler, for the region and the clause text it has found. */
  method EditText(query: string, region: string, action: int, queryType: int, clause: string) returns (text: string)
    requires Region(query, queryType) == Some(region)
    ensures Some(text) == Handled(query, action, queryType, clause)
  {
    var str, replace := region, clause;
    if action == ADDFIELD {
      if str == ";" {
        replace := "\n" + replace + ";";
      }
    } else if action == REMOVEFIELD {
      if replace == "" {
        str := (if queryType == GROUP_PAGE then "\r" else "\n") + str;
      }
    }
    text := ReplaceAll(query, str, replace);
  }

  lemma SteadyRegion(base: string, groups: seq<string>, sorts: seq<string>, page: int)
    ensures page == GROUP_PAGE || page == SORT_PAGE ==> Region(Query(base, groups, sorts), page).Some?
  {
  }
}
