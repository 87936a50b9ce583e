/**
  The SELECT list of the query text, edited by `DrawingView::AddFieldToQuery` with `Find`,
  `substr` and `Replace` on the whole text, beside the document's vector of query fields.
 */
module SelectText {
  import opened Text
  import opened Wrappers

  const UNKNOWN := "<unknown fields>"

  // ---- what the code does to a text ----

  /** `substr( 0, n )` for a signed `n` turned into `size_t`: a negative one takes everything. */
  function Prefix(s: string, n: int): string {
    if 0 <= n <= |s| then s[..n] else s
  }

  /** What the code takes for the list: from the blank on, up to one character before FROM. */
  function TakenList(temp: string): string {
    Prefix(temp, Find(temp, "FROM") - 1)
  }

  /**
    The text after an ADD that leaves `count` query fields.  `substr` throws when the text has
    no blank.
   */
  function AddText(query: string, count: nat, name: string): Option<string> {
    if count == 1 then Some(ReplaceAll(query, UNKNOWN, name + " "))
    else
      var blank := Find(query, " ");
      if blank == -1 then None
      else
        var list := TakenList(query[blank..]);
        Some(ReplaceAll(query, list, list + ", " + name + " "))
  }

  /** The text after a REMOVE that leaves `count` query fields; `substr` may throw. */
  function RemoveText(query: string, count: nat, name: string): Option<string> {
    if count == 0 then Some(ReplaceAll(query, name, UNKNOWN))
    else
      var temp := Prefix(query, Find(query, ", " + name));
      var rest := Find(query, name) + |name|;
      if rest > |query| || rest < 0 then None
      else
        var temp1 := query[rest..];
        if temp != query then Some(temp + temp1)
        else if |temp1| < 2 then None
        else Some("SELECT " + temp1[2..])
  }

  // ---- the form the ADDs produce ----

  function Listed(names: seq<string>): string {
    if names == [] then ""
    else if |names| == 1 then " " + names[0] + " "
    else " " + names[0] + " ," + Listed(names[1..])
  }

  /** The query of `names` whose text from the line break before FROM on is `tail`. */
  function Query(names: seq<string>, tail: string): string {
    "SELECT" + (if names == [] then " " + UNKNOWN else Listed(names)) + tail
  }

  predicate IsTail(tail: string) {
    |tail| >= 5 && tail[..5] == "\nFROM"
  }

  lemma {:induction false} ListedAppend(names: seq<string>, name: string)
    requires names != []
    ensures Listed(names + [name]) == Listed(names) + ", " + name + " "
  {
    if |names| > 1 {
      ListedAppend(names[1..], name);
      assert (names + [name])[1..] == names[1..] + [name];
    } else {
      assert (names + [name])[1..] == [name];
    }
  }

  predicate NoneContains(names: seq<string>, t: string) {
    forall i :: 0 <= i < |names| ==> Find(names[i], t) == -1
  }

  lemma HeadRest(names: seq<string>, rest: string)
    requires names != [] && rest == if |names| == 1 then " " else " ," + Listed(names[1..])
    ensures Listed(names) == " " + (names[0] + rest)
  {
  }

  lemma NoneHead(names: seq<string>, t: string)
    requires names != []
    ensures NoneContains(names, t) <==> Find(names[0], t) == -1 && NoneContains(names[1..], t)
  {
    assert forall i :: 0 < i < |names| ==> names[i] == names[1..][i - 1];
    assert forall i :: 0 <= i < |names[1..]| ==> names[1..][i] == names[i + 1];
  }

  /** FROM is in the list exactly when it is in one of the names. */
  lemma {:induction false} FromListed(names: seq<string>)
    ensures NoneContains(names, "FROM") <==> !Contains(Listed(names), "FROM")
  {
    if names == [] {
    } else {
      var rest := if |names| == 1 then " " else " ," + Listed(names[1..]);
      HeadRest(names, rest);
      SkipLeft(" ", names[0] + rest, "FROM");
      ContainsParts(names[0], rest, "FROM");
      if |names| == 1 {
        assert !Contains(rest, "FROM");
        assert names == [names[0]];
      } else {
        SkipLeft(" ,", Listed(names[1..]), "FROM");
        FromListed(names[1..]);
        NoneHead(names, "FROM");
      }
    }
  }

  // ---- ADD ----

  lemma ShortQueries(name: string, tail: string)
    ensures Query([], tail) == "SELECT " + UNKNOWN + tail
    ensures Query([name], tail) == "SELECT " + (name + " ") + tail
  {
    assert "SELECT " == "SELECT" + " ";
  }

  /** The first field takes the place of the marker, and only there if the tail has none. */
  lemma AddFirst(name: string, tail: string)
    ensures AddText(Query([], tail), 1, name) == Some(Query([name], tail)) <==> !Contains(tail, UNKNOWN)
  {
    var old_, new_ := UNKNOWN, name + " ";
    assert old_[|old_| - 1] != new_[|new_| - 1];
    ReplaceAfter("SELECT ", old_, tail, new_);
    ShortQueries(name, tail);
  }

  lemma BlankFound(names: seq<string>, tail: string)
    requires names != []
    ensures Find(Query(names, tail), " ") == 6 && Query(names, tail)[6..] == Listed(names) + tail
  {
    var rest := Listed(names) + tail;
    assert Query(names, tail) == "SELECT" + rest;
    assert rest[0] == ' ';
    SkipLeft("SELECT", rest, " ");
    assert OccursAt(rest, " ", 0);
  }

  lemma TakesList(list: string, tail: string)
    requires IsTail(tail) && !Contains(list, "FROM")
    ensures TakenList(list + tail) == list
  {
    FindPast(list, tail, "FROM");
    assert tail == "\n" + tail[1..];
    SkipLeft("\n", tail[1..], "FROM");
    assert OccursAt(tail[1..], "FROM", 0);
  }

  lemma TakesTooLittle(list: string, tail: string)
    requires Contains(list, "FROM") && list[0] == ' '
    ensures Find(list, "FROM") >= 1 && TakenList(list + tail) == list[..Find(list, "FROM") - 1]
  {
    FindLeft(list, tail, "FROM");
  }

  /** ADD in the middle of the list: the text is not the intended one. */
  lemma MisplacedAdd(cut: string, u: string, tail: string, more: string)
    requires |u| >= 2 && |more| >= 2 && u[1] != more[1]
    requires cut != "" ==> cut[0] == ' '
    ensures ReplaceAll("SELECT" + (cut + u) + tail, cut, cut + more) != "SELECT" + (cut + u + more) + tail
  {
    var q := "SELECT" + cut + (u + tail);
    assert "SELECT" + (cut + u) + tail == q;
    var intended := "SELECT" + (cut + u + more) + tail;
    if cut != "" {
      SkipLeft("SELECT", cut + (u + tail), cut);
      assert "SELECT" + (cut + (u + tail)) == q;
      assert OccursAt(cut + (u + tail), cut, 0);
      ReplaceFirst("SELECT", cut, u + tail, cut + more);
      assert ReplaceAll(q, cut, cut + more)[6 + |cut| + 1] == more[1];
      assert intended[6 + |cut| + 1] == u[1];
    }
  }

  /** A later ADD, seen on the list and the tail. */
  lemma AddNextText(names: seq<string>, name: string, tail: string)
    requires names != []
    ensures
      var list, more := Listed(names), ", " + name + " ";
      && AddText(Query(names, tail), |names| + 1, name)
         == Some(ReplaceAll("SELECT" + list + tail, TakenList(list + tail), TakenList(list + tail) + more))
      && Query(names + [name], tail) == "SELECT" + (list + more) + tail
  {
    var list, more := Listed(names), ", " + name + " ";
    BlankFound(names, tail);
    ListedAppend(names, name);
    assert list + ", " + name + " " == list + more;
    var cut := TakenList(list + tail);
    assert cut + ", " + name + " " == cut + more;
  }

  lemma CutBefore(list: string, j: nat, more: string)
    requires j >= 1 && OccursAt(list, "FROM", j)
    ensures list == list[..j - 1] + list[j - 1..] && list + more == list[..j - 1] + list[j - 1..] + more
    ensures list[j - 1..][1] == 'F'
  {
    assert list[j] == list[j..j + 4][0];
  }

  /** Replacing the taken list puts `more` behind the list. */
  predicate Extends(list: string, tail: string, more: string) {
    var taken := TakenList(list + tail);
    ReplaceAll("SELECT" + list + tail, taken, taken + more) == "SELECT" + (list + more) + tail
  }

  lemma ExtendShort(list: string, tail: string, more: string)
    requires |more| >= 2 && more[1] == ' ' && list != "" && list[0] == ' ' && Contains(list, "FROM")
    ensures !Extends(list, tail, more)
  {
    TakesTooLittle(list, tail);
    var j := Find(list, "FROM");
    CutBefore(list, j, more);
    MisplacedAdd(list[..j - 1], list[j - 1..], tail, more);
  }

  /** Putting `more` behind the taken list puts it behind the list under exactly these conditions. */
  lemma ExtendList(list: string, tail: string, more: string)
    requires |more| >= 2 && more[1] == ' ' && list != "" && list[0] == ' ' && IsTail(tail)
    ensures Extends(list, tail, more) <==> !Contains(list, "FROM") && !Contains(tail, list)
  {
    if Contains(list, "FROM") {
      ExtendShort(list, tail, more);
    } else {
      TakesList(list, tail);
      ReplaceExtend("SELECT", list, tail, more);
    }
  }

  lemma AddExtends(names: seq<string>, name: string, tail: string)
    requires names != []
    ensures AddText(Query(names, tail), |names| + 1, name) == Some(Query(names + [name], tail))
       <==> Extends(Listed(names), tail, ", " + name + " ")
  {
    AddNextText(names, name, tail);
  }

  /** ADD appends to the list exactly when no listed name holds FROM and the list is not repeated in the tail. */
  lemma AddNext(names: seq<string>, name: string, tail: string)
    requires names != [] && IsTail(tail)
    ensures AddText(Query(names, tail), |names| + 1, name) == Some(Query(names + [name], tail))
       <==> NoneContains(names, "FROM") && !Contains(tail, Listed(names))
  {
    ExtendList(Listed(names), tail, ", " + name + " ");
    FromListed(names);
    AddExtends(names, name, tail);
  }

  /** The text after a whole sequence of ADDs. */
  function AddRun(query: string, count: nat, names: seq<string>): Option<string>
    decreases |names|
  {
    if names == [] then Some(query)
    else
      match AddText(query, count + 1, names[0])
      case None => None
      case Some(q) => AddRun(q, count + 1, names[1..])
  }

  /** What a run of ADDs asks of the names, the last one excepted, and of the rest of the text. */
  predicate RunnableFrom(names: seq<string>, tail: string) {
    && IsTail(tail)
    && Find(tail, UNKNOWN) == -1
    && (names != [] ==> NoneContains(names[..|names| - 1], "FROM") && Find(tail, Listed(names[..1])) == -1)
  }

  lemma PrefixAbsent(names: seq<string>, k: nat, tail: string)
    requires 1 <= k <= |names| && !Contains(tail, Listed(names[..1]))
    ensures !Contains(tail, Listed(names[..k]))
  {
    var some := names[..k];
    if k > 1 && Contains(tail, Listed(some)) {
      assert some[0] == names[0] && names[..1] == [names[0]];
      var rest := "," + Listed(some[1..]);
      assert Listed(some) == (" " + names[0] + " ") + rest;
      ContainsPart(tail, " " + names[0] + " ", rest);
    }
  }

  lemma EarlierNames(names: seq<string>, k: nat, t: string)
    requires k < |names| && NoneContains(names[..|names| - 1], t)
    ensures NoneContains(names[..k], t)
  {
    assert names[..k] == names[..|names| - 1][..k];
  }

  lemma OneMore(names: seq<string>, k: nat)
    requires k < |names|
    ensures names[..k] + [names[k]] == names[..k + 1]
  {
  }

  lemma AddRunStep(names: seq<string>, k: nat, tail: string)
    requires k < |names| && RunnableFrom(names, tail)
    ensures AddText(Query(names[..k], tail), k + 1, names[k]) == Some(Query(names[..k + 1], tail))
  {
    OneMore(names, k);
    if k == 0 {
      AddFirst(names[0], tail);
    } else {
      PrefixAbsent(names, k, tail);
      EarlierNames(names, k, "FROM");
      AddNext(names[..k], names[k], tail);
    }
  }

  lemma AddRunMore(names: seq<string>, k: nat, tail: string)
    requires k < |names|
    requires AddText(Query(names[..k], tail), k + 1, names[k]) == Some(Query(names[..k + 1], tail))
    ensures AddRun(Query(names[..k], tail), k, names[k..]) == AddRun(Query(names[..k + 1], tail), k + 1, names[k + 1..])
  {
    assert names[k..][0] == names[k] && names[k..][1..] == names[k + 1..];
  }

  lemma AddRunEnd(names: seq<string>, tail: string)
    ensures AddRun(Query(names[..|names|], tail), |names|, names[|names|..]) == Some(Query(names, tail))
  {
    assert names[..|names|] == names && names[|names|..] == [];
  }

  lemma {:induction false} AddRunFrom(names: seq<string>, k: nat, tail: string)
    requires k <= |names| && RunnableFrom(names, tail)
    ensures AddRun(Query(names[..k], tail), k, names[k..]) == Some(Query(names, tail))
    decreases |names| - k
  {
    if k == |names| {
      AddRunEnd(names, tail);
    } else {
      AddRunFrom(names, k + 1, tail);
      AddRunStep(names, k, tail);
      AddRunMore(names, k, tail);
    }
  }

  /** A run of ADDs from the text without fields lists the names added, in order, and keeps the rest. */
  lemma AddsInOrder(names: seq<string>, tail: string)
    requires RunnableFrom(names, tail)
    ensures AddRun(Query([], tail), 0, names) == Some(Query(names, tail))
  {
    AddRunFrom(names, 0, tail);
    assert names[..0] == [] && names[0..] == names;
  }

  // ---- reading the list back ----

  function TrimLeft(s: string): string {
    if s != "" && s[0] == ' ' then TrimLeft(s[1..]) else s
  }

  function TrimRight(s: string): string {
    if s != "" && s[|s| - 1] == ' ' then TrimRight(s[..|s| - 1]) else s
  }

  function Trim(s: string): string {
    TrimRight(TrimLeft(s))
  }

  /** The pieces of a list between its commas, without the blanks around them. */
  function Read(list: string): seq<string>
    decreases |list|
  {
    var i := Find(list, ",");
    if i == -1 then [Trim(list)] else [Trim(list[..i])] + Read(list[i + 1..])
  }

  /** The SELECT list of a text: what stands between the word SELECT and the line of FROM. */
  function ReadSelect(query: string): Option<seq<string>> {
    var end := Find(query, "\nFROM");
    if end < 6 then None else Some(Read(query[6..end]))
  }

  predicate IsName(s: string) {
    && |s| >= 2 && s[0] == '"' && s[|s| - 1] == '"'
    && forall i :: 0 < i < |s| - 1 ==> s[i] != '"' && s[i] != ','
  }

  predicate AreNames(names: seq<string>) {
    forall i :: 0 <= i < |names| ==> IsName(names[i])
  }

  lemma ReadOne(list: string)
    requires !Contains(list, ",")
    ensures Read(list) == [Trim(list)]
  {
  }

  lemma ReadFirst(a: string, b: string)
    requires ',' !in a
    ensures Read(a + "," + b) == [Trim(a)] + Read(b)
  {
    var s := a + ("," + b);
    assert a + "," + b == s;
    SkipLeft(a, "," + b, ",");
    assert OccursAt("," + b, ",", 0);
    assert s[..|a|] == a && s[|a| + 1..] == b;
  }

  lemma SplitComma(a: string) returns (u: string, v: string)
    requires ',' in a
    ensures a == u + "," + v && ',' !in u
  {
    ContainsChar(a, ',');
    var i := Find(a, ",");
    u, v := a[..i], a[i + 1..];
    assert a[i..i + 1] == ",";
    forall j | 0 <= j < i ensures a[j] != ',' {
      assert !OccursAt(a, ",", j);
      assert a[j..j + 1] == [a[j]];
    }
  }

  lemma MoveComma(u: string, v: string, b: string)
    ensures u + "," + v + "," + b == u + "," + (v + "," + b)
  {
  }

  lemma ReadCommaLater(u: string, v: string, b: string)
    requires ',' !in u && Read(v + "," + b) == Read(v) + Read(b)
    ensures Read(u + "," + v + "," + b) == Read(u + "," + v) + Read(b)
  {
    MoveComma(u, v, b);
    ReadFirst(u, v + "," + b);
    ReadFirst(u, v);
    Assoc([Trim(u)], Read(v), Read(b));
  }

  /** Reading a list is reading its parts. */
  lemma {:induction false} ReadComma(a: string, b: string)
    ensures Read(a + "," + b) == Read(a) + Read(b)
    decreases |a|
  {
    if ',' !in a {
      ContainsChar(a, ',');
      ReadFirst(a, b);
      ReadOne(a);
    } else {
      var u, v := SplitComma(a);
      ReadComma(v, b);
      ReadCommaLater(u, v, b);
    }
  }

  lemma {:induction false} TrimRightBlank(s: string)
    ensures Trim(s + " ") == Trim(s)
    decreases |s|
  {
    if s == "" {
      assert s + " " == " ";
    } else if s[0] == ' ' {
      TrimRightBlank(s[1..]);
      assert (s + " ")[1..] == s[1..] + " ";
    } else {
      assert (s + " ")[..|s|] == s;
    }
  }

  lemma TrimLeftBlank(s: string)
    ensures Trim(" " + s) == Trim(s)
  {
    assert (" " + s)[1..] == s;
  }

  /** Blanks at the ends of the list do not matter. */
  lemma ReadLeftBlank(list: string)
    ensures Read(" " + list) == Read(list)
  {
    if ',' in list {
      var u, v := SplitComma(list);
      assert " " + list == " " + u + "," + v;
      ReadFirst(u, v);
      ReadFirst(" " + u, v);
      TrimLeftBlank(u);
    } else {
      ContainsChar(list, ',');
      ContainsChar(" " + list, ',');
      ReadOne(list);
      ReadOne(" " + list);
      TrimLeftBlank(list);
    }
  }

  lemma {:induction false} ReadRightBlank(list: string)
    ensures Read(list + " ") == Read(list)
    decreases |list|
  {
    if ',' in list {
      var u, v := SplitComma(list);
      assert list + " " == u + "," + (v + " ");
      ReadFirst(u, v);
      ReadFirst(u, v + " ");
      ReadRightBlank(v);
    } else {
      ContainsChar(list, ',');
      ContainsChar(list + " ", ',');
      ReadOne(list);
      ReadOne(list + " ");
      TrimRightBlank(list);
    }
  }

  lemma ReadName(name: string)
    requires IsName(name)
    ensures Read(" " + name + " ") == [name]
  {
    Assoc(" ", name, " ");
    ReadLeftBlank(name + " ");
    ReadRightBlank(name);
    ContainsChar(name, ',');
    ReadOne(name);
    assert Trim(name) == name;
  }

  lemma {:induction false} ReadListed(names: seq<string>)
    requires AreNames(names) && names != []
    ensures Read(Listed(names)) == names
  {
    ReadName(names[0]);
    if |names| <= 1 {
    } else {
      var rest := Listed(names[1..]);
      assert Listed(names) == (" " + names[0] + " ") + "," + rest;
      ReadComma(" " + names[0] + " ", rest);
      ReadListed(names[1..]);
    }
  }

  // ---- where a name stands in the list ----

  predicate Distinct(names: seq<string>) {
    forall i, j :: 0 <= i < j < |names| ==> names[i] != names[j]
  }

  function Before(names: seq<string>, i: nat): string
    requires i < |names|
  {
    if i == 0 then " " else Listed(names[..i]) + ", "
  }

  function After(names: seq<string>, i: nat): string
    requires i < |names|
  {
    if i == |names| - 1 then " " else " ," + Listed(names[i + 1..])
  }

  lemma CommaForm(name: string, rest: string)
    ensures " " + name + " ," + rest == " " + name + " " + ("," + rest)
  {
  }

  /** The first of several names in front of the others. */
  lemma ListedHead(names: seq<string>, tail: string)
    requires |names| > 1
    ensures Listed(names) == " " + names[0] + " ," + Listed(names[1..])
    ensures Listed(names) + tail == " " + names[0] + " ," + (Listed(names[1..]) + tail)
    ensures Listed(names) + tail == " " + names[0] + " " + ("," + (Listed(names[1..]) + tail))
  {
    Assoc(" " + names[0] + " ,", Listed(names[1..]), tail);
    CommaForm(names[0], Listed(names[1..]) + tail);
  }

  lemma AfterLater(names: seq<string>, i: nat)
    requires 0 < i < |names|
    ensures After(names, i) == After(names[1..], i - 1)
  {
    assert names[1..][i..] == names[i + 1..];
  }

  lemma BeforeLater(names: seq<string>, i: nat)
    requires 0 < i < |names|
    ensures Before(names, i) == " " + names[0] + " ," + Before(names[1..], i - 1)
    ensures |Before(names, i)| == |names[0]| + 3 + |Before(names[1..], i - 1)|
  {
    if i > 1 {
      assert names[..i][1..] == names[1..][..i - 1];
    } else {
      assert names[..1] == [names[0]];
    }
  }

  lemma {:induction false} ListedAround(names: seq<string>, i: nat)
    requires i < |names|
    ensures Listed(names) == Before(names, i) + names[i] + After(names, i)
    decreases i
  {
    if i == 0 {
    } else {
      var head := " " + names[0] + " ,";
      ListedAround(names[1..], i - 1);
      BeforeLater(names, i);
      AfterLater(names, i);
      Assoc(head, Before(names[1..], i - 1) + names[i], After(names, i));
      Assoc(head, Before(names[1..], i - 1), names[i]);
    }
  }

  /** Two quoted names that begin at the same place are the same. */
  lemma SameQuotes(first: string, name: string, rest: string)
    requires IsName(first) && IsName(name) && OccursAt(" " + first + rest, name, 1)
    ensures name == first
  {
    var s := " " + first + rest;
    assert s[1..1 + |name|] == name;
    assert forall k :: 0 <= k < |name| ==> name[k] == s[k + 1];
    assert forall k :: 0 <= k < |first| ==> first[k] == s[k + 1];
    assert |name| <= |first| ==> first[|name| - 1] == name[|name| - 1];
    assert |first| <= |name| ==> name[|first| - 1] == first[|first| - 1];
  }

  lemma NotInside(first: string, name: string, rest: string, j: nat)
    requires IsName(first) && IsName(name) && OccursAt(" " + first + " ," + rest, name, j)
    ensures j == 1 || j >= |first| + 3
  {
    var s := " " + first + " ," + rest;
    assert forall k :: 0 <= k < |name| ==> name[k] == s[j..j + |name|][k] == s[j + k];
    assert name[0] == s[j] && name[1] == s[j + 1];
    assert |name| >= 3 ==> name[2] == s[j + 2];
    assert s[1..|first| + 1] == first;
    assert forall k :: 0 <= k < |first| ==> s[k + 1] == first[k];
    assert s[|first| + 1] == ' ' && s[|first| + 2] == ',';
    assert 1 <= j <= |first| ==> s[j] == first[j - 1];
  }

  lemma BlankComma(first: string, rest: string)
    ensures " " + first + " ," + rest == " " + first + (" ," + rest)
  {
  }

  lemma PassesAt(first: string, name: string, rest: string, j: nat)
    requires IsName(first) && IsName(name) && first != name && OccursAt(" " + first + " ," + rest, name, j)
    ensures j >= |first| + 3 && OccursAt(rest, name, j - (|first| + 3))
  {
    var head := " " + first + " ,";
    NotInside(first, name, rest, j);
    if j == 1 {
      BlankComma(first, rest);
      SameQuotes(first, name, " ," + rest);
    }
    OccursRight(head, rest, name, j);
  }

  /** A name does not begin inside another one, nor at its closing quote. */
  lemma PassesName(first: string, name: string, rest: string)
    requires IsName(first) && IsName(name) && first != name
    ensures
      var head := " " + first + " ,";
      Find(head + rest, name) == if Contains(rest, name) then |head| + Find(rest, name) else -1
  {
    var head := " " + first + " ,";
    forall j | OccursAt(head + rest, name, j) ensures j >= |head| && OccursAt(rest, name, j - |head|) {
      PassesAt(first, name, rest, j);
    }
    if Contains(rest, name) {
      OccursRight(head, rest, name, |head| + Find(rest, name));
    }
  }

  lemma FindLater(names: seq<string>, name: string, tail: string)
    requires |names| > 1 && IsName(names[0]) && IsName(name) && names[0] != name
    requires Find(Listed(names[1..]) + tail, name) != -1
    ensures Find(Listed(names) + tail, name) == |names[0]| + 3 + Find(Listed(names[1..]) + tail, name)
  {
    ListedHead(names, tail);
    PassesName(names[0], name, Listed(names[1..]) + tail);
  }

  lemma OthersNamed(names: seq<string>)
    requires names != [] && AreNames(names) && Distinct(names)
    ensures AreNames(names[1..]) && Distinct(names[1..])
    ensures forall i :: 0 < i < |names| ==> names[1..][i - 1] == names[i] != names[0]
  {
  }

  lemma FindHead(names: seq<string>, tail: string)
    requires names != [] && IsName(names[0])
    ensures Find(Listed(names) + tail, names[0]) == 1
  {
    var name := names[0];
    ListedAround(names, 0);
    Assoc(" " + name, After(names, 0), tail);
    Assoc(" ", name, After(names, 0) + tail);
    var rest := name + (After(names, 0) + tail);
    SkipLeft(" ", rest, name);
    assert OccursAt(rest, name, 0);
  }

  /** The first place where a listed name occurs is its own. */
  lemma {:induction false} FindName(names: seq<string>, i: nat, tail: string)
    requires i < |names| && AreNames(names) && Distinct(names)
    ensures Find(Listed(names) + tail, names[i]) == |Before(names, i)|
    decreases i
  {
    if i == 0 {
      FindHead(names, tail);
    } else {
      OthersNamed(names);
      FindName(names[1..], i - 1, tail);
      FindLater(names, names[i], tail);
      BeforeLater(names, i);
    }
  }

  /** A comma that is not followed by the name leaves the search to what comes after it. */
  lemma PassesComma(rest: string, t: string)
    requires |t| > 1 && t[0] == ',' && !OccursAt("," + rest, t, 0)
    ensures Contains("," + rest, t) <==> Contains(rest, t)
  {
    if Contains(rest, t) {
      ContainsRight(",", rest, t);
    }
    if Contains("," + rest, t) {
      var j :| OccursAt("," + rest, t, j);
      OccursRight(",", rest, t, j);
    }
  }

  lemma HeadForm(names: seq<string>, tail: string)
    requires names != []
    ensures Listed(names) + tail == " " + names[0] + (After(names, 0) + tail)
  {
    ListedAround(names, 0);
    Assoc(" " + names[0], After(names, 0), tail);
  }

  lemma AfterComma(rest: string, name: string)
    requires OccursAt("," + rest, ", " + name, 0)
    ensures OccursAt(rest, name, 1)
  {
    OccursParts("," + rest, ", ", name, 0);
    OccursRight(",", rest, name, 2);
  }

  lemma FirstAfterComma(names: seq<string>, name: string, tail: string)
    requires names != [] && AreNames(names) && IsName(name)
    requires OccursAt("," + (Listed(names) + tail), ", " + name, 0)
    ensures name == names[0]
  {
    AfterComma(Listed(names) + tail, name);
    HeadForm(names, tail);
    SameQuotes(names[0], name, After(names, 0) + tail);
  }

  /** A name behind a comma and a blank that is not listed there is not in the list. */
  lemma {:induction false} CommaName(names: seq<string>, name: string, tail: string)
    requires names != [] && AreNames(names) && IsName(name)
    requires forall k :: 0 < k < |names| ==> names[k] != name
    ensures Contains(Listed(names) + tail, ", " + name) <==> Contains(tail, ", " + name)
  {
    var t, head := ", " + name, " " + names[0] + " ";
    assert ',' !in head;
    if |names| == 1 {
      SkipLeft(head, tail, t);
    } else {
      var rest := Listed(names[1..]) + tail;
      ListedHead(names, tail);
      SkipLeft(head, "," + rest, t);
      CommaName(names[1..], name, tail);
      if OccursAt("," + rest, t, 0) {
        FirstAfterComma(names[1..], name, tail);
      }
      PassesComma(rest, t);
    }
  }

  // ---- REMOVE ----

  /** The text after removing name `i`: the marker, or the rest with one blank more at the seam. */
  function Removed(names: seq<string>, i: nat, tail: string): string
    requires i < |names|
  {
    if |names| == 1 then "SELECT " + UNKNOWN + " " + tail
    else if i == 0 then "SELECT " + Listed(names[1..]) + tail
    else "SELECT" + (Listed(names[..i]) + After(names, i)) + tail
  }

  lemma MarkerBack(head: string, name: string, tail: string, mark: string)
    requires |name| > 0 && name[0] !in head && name[0] != ' ' && name != mark
    ensures ReplaceAll(head + name + (" " + tail), name, mark) == head + mark + (" " + tail) <==> !Contains(tail, name)
  {
    ReplaceAfter(head, name, " " + tail, mark);
    SkipLeft(" ", tail, name);
  }

  lemma OnlyForms(name: string, tail: string)
    ensures Query([name], tail) == "SELECT " + name + (" " + tail)
    ensures Removed([name], 0, tail) == "SELECT " + UNKNOWN + (" " + tail)
  {
  }

  /** The only name gives way to the marker exactly when the tail does not hold it as well. */
  lemma RemoveOnly(name: string, tail: string)
    requires IsName(name)
    ensures RemoveText(Query([name], tail), 0, name) == Some(Removed([name], 0, tail)) <==> !Contains(tail, name)
  {
    assert name[0] != UNKNOWN[0];
    OnlyForms(name, tail);
    MarkerBack("SELECT ", name, tail, UNKNOWN);
  }

  /** `RemoveText` on a text cut at the name: `before` up to it, `after` behind it. */
  lemma RemoveCut(query: string, count: nat, name: string, before: string, after: string)
    requires count > 0 && query == before + name + after && Find(query, name) == |before|
    ensures
      var comma := Find(query, ", " + name);
      RemoveText(query, count, name) ==
        if 0 <= comma <= |query| && query[..comma] != query then Some(query[..comma] + after)
        else if |after| < 2 then None
        else Some("SELECT " + after[2..])
  {
    assert query[|before| + |name|..] == after;
  }

  lemma CutForm(head: string, before: string, name: string, after: string, tail: string)
    ensures head + (before + name + after) + tail == head + before + name + (after + tail)
  {
    Assoc(head, before + name, after);
    Assoc(head, before, name);
    Assoc(head + before + name, after, tail);
  }

  lemma CutText(head: string, before: string, name: string, after: string, tail: string)
    requires |name| > 0 && name[0] !in head && Find(before + name + after + tail, name) == |before|
    ensures
      var q := head + (before + name + after) + tail;
      q == head + before + name + (after + tail) && Find(q, name) == |head + before|
  {
    Assoc(head, before + name + after, tail);
    SkipLeft(head, before + name + after + tail, name);
    CutForm(head, before, name, after, tail);
  }

  lemma CutQuery(names: seq<string>, i: nat, tail: string)
    requires i < |names| && AreNames(names) && Distinct(names)
    ensures
      var q, before, after := Query(names, tail), "SELECT" + Before(names, i), After(names, i) + tail;
      q == before + names[i] + after && Find(q, names[i]) == |before|
  {
    ListedAround(names, i);
    FindName(names, i, tail);
    CutText("SELECT", Before(names, i), names[i], After(names, i), tail);
  }

  lemma CommaThere(list: string, name: string, after: string)
    ensures OccursAt(list + ", " + name + after, ", " + name, |list|)
  {
    assert list + ", " + name + after == list + (", " + name) + after;
  }

  /** The comma before a later name is found where the list before it ends. */
  lemma CommaFound(q: string, list: string, name: string, after: string)
    requires q == list + ", " + name + after && Find(q, name) == |list| + 2
    ensures Find(q, ", " + name) == |list|
  {
    CommaThere(list, name, after);
    forall j | OccursAt(q, ", " + name, j) ensures j >= |list| {
      OccursParts(q, ", ", name, j);
    }
  }

  lemma RemoveBehind(q: string, count: nat, list: string, name: string, after: string)
    requires count > 0 && q == list + ", " + name + after && Find(q, name) == |list| + 2
    ensures RemoveText(q, count, name) == Some(list + after)
  {
    RemoveCut(q, count, name, list + ", ", after);
    CommaFound(q, list, name, after);
    assert q[..|list|] == list;
  }

  /** A later name is always removed as intended. */
  lemma RemoveLater(names: seq<string>, i: nat, tail: string)
    requires 0 < i < |names| && AreNames(names) && Distinct(names)
    ensures RemoveText(Query(names, tail), |names| - 1, names[i]) == Some(Removed(names, i, tail))
  {
    CutQuery(names, i, tail);
    var front := Listed(names[..i]);
    Assoc("SELECT", front, ", ");
    RemoveBehind(Query(names, tail), |names| - 1, "SELECT" + front, names[i], After(names, i) + tail);
    Assoc("SELECT" + front, After(names, i), tail);
    Assoc("SELECT", front, After(names, i));
  }

  lemma CommaTooLate(q: string, name: string, after: string)
    requires q == "SELECT " + name + after && IsName(name) && |after| >= 2 && Contains(q, ", " + name)
    ensures
      var comma := Find(q, ", " + name);
      0 <= comma < |q| && |q[..comma] + after| > |"SELECT " + after[2..]|
  {
    Assoc("SELECT ", name, after);
    SkipLeft("SELECT ", name + after, ", " + name);
  }

  lemma RemoveFront(q: string, count: nat, name: string, rest: string)
    requires count > 0 && IsName(name) && q == "SELECT " + name + (" ," + rest) && Find(q, name) == 7
    ensures RemoveText(q, count, name) == Some("SELECT " + rest) <==> !Contains(q, ", " + name)
  {
    var after := " ," + rest;
    RemoveCut(q, count, name, "SELECT ", after);
    assert after[2..] == rest;
    if Contains(q, ", " + name) {
      CommaTooLate(q, name, after);
    }
  }

  lemma SelectBlank()
    ensures "SELECT" + " " == "SELECT "
  {
  }

  lemma CutHead(names: seq<string>, tail: string)
    requires |names| > 1 && AreNames(names) && Distinct(names)
    ensures
      var q := Query(names, tail);
      q == "SELECT " + names[0] + (" ," + (Listed(names[1..]) + tail)) && Find(q, names[0]) == 7
  {
    CutQuery(names, 0, tail);
    Assoc(" ,", Listed(names[1..]), tail);
    SelectBlank();
  }

  lemma CommaInTail(names: seq<string>, tail: string)
    requires |names| > 1 && AreNames(names) && Distinct(names)
    ensures Contains(Query(names, tail), ", " + names[0]) <==> Contains(tail, ", " + names[0])
  {
    CommaName(names, names[0], tail);
    Assoc("SELECT", Listed(names), tail);
    SkipLeft("SELECT", Listed(names) + tail, ", " + names[0]);
  }

  /** The first of several names is removed as intended exactly when the tail has no comma, blank and that name. */
  lemma RemoveHead(names: seq<string>, tail: string)
    requires |names| > 1 && AreNames(names) && Distinct(names)
    ensures RemoveText(Query(names, tail), |names| - 1, names[0]) == Some(Removed(names, 0, tail))
       <==> !Contains(tail, ", " + names[0])
  {
    var rest := Listed(names[1..]);
    CutHead(names, tail);
    CommaInTail(names, tail);
    RemoveFront(Query(names, tail), |names| - 1, names[0], rest + tail);
    Assoc("SELECT ", rest, tail);
  }

  // ---- what is read after a REMOVE ----

  /** The line of FROM is found right behind the list. */
  lemma ListEnd(list: string, tail: string)
    requires IsTail(tail) && !Contains(list, "FROM")
    ensures Find(list + tail, "\nFROM") == |list|
  {
    var rest, t := list + tail, "\nFROM";
    FindPast(list, tail, "FROM");
    forall j | OccursAt(rest, t, j) ensures j >= |list| {
      assert rest[j..j + 5][1..] == rest[j + 1..j + 5];
      assert OccursAt(rest, "FROM", j + 1);
    }
    assert rest[|list|..|list| + 5] == tail[..5];
    assert OccursAt(rest, t, |list|);
  }

  lemma ReadText(list: string, tail: string)
    requires IsTail(tail) && !Contains(list, "FROM")
    ensures ReadSelect("SELECT" + list + tail) == Some(Read(list))
  {
    ListEnd(list, tail);
    Assoc("SELECT", list, tail);
    SkipLeft("SELECT", list + tail, "\nFROM");
    assert ("SELECT" + list + tail)[6..6 + |list|] == list;
  }

  /** The list read back is the names, in order. */
  lemma ReadsNames(names: seq<string>, tail: string)
    requires names != [] && AreNames(names) && NoneContains(names, "FROM") && IsTail(tail)
    ensures ReadSelect(Query(names, tail)) == Some(names)
  {
    FromListed(names);
    ReadText(Listed(names), tail);
    ReadListed(names);
  }

  lemma SeamForm(front: string, back: string)
    ensures front + (" ," + back) == front + " " + "," + back
  {
  }

  lemma ReadSeam(front: string, back: string)
    requires !Contains(front, "FROM") && !Contains(back, "FROM")
    ensures !Contains(front + (" ," + back), "FROM") && Read(front + (" ," + back)) == Read(front) + Read(back)
  {
    ContainsParts(front, " ," + back, "FROM");
    SkipLeft(" ,", back, "FROM");
    ReadRightBlank(front);
    ReadComma(front + " ", back);
    SeamForm(front, back);
  }

  lemma AfterSeam(names: seq<string>, i: nat)
    requires 0 < i < |names| && AreNames(names) && NoneContains(names, "FROM")
    ensures
      var list := Listed(names[..i]) + After(names, i);
      !Contains(list, "FROM") && Read(list) == names[..i] + names[i + 1..]
  {
    var front, back := names[..i], names[i + 1..];
    FromListed(front);
    ReadListed(front);
    if back == [] {
      ContainsParts(Listed(front), " ", "FROM");
      ReadRightBlank(Listed(front));
    } else {
      FromListed(back);
      ReadListed(back);
      ReadSeam(Listed(front), Listed(back));
    }
  }

  lemma SpacedForm(list: string, tail: string)
    ensures "SELECT " + list + tail == "SELECT" + (" " + list) + tail
  {
  }

  lemma ReadSpaced(list: string, tail: string)
    requires IsTail(tail) && !Contains(list, "FROM")
    ensures ReadSelect("SELECT " + list + tail) == Some(Read(list))
  {
    SkipLeft(" ", list, "FROM");
    ReadText(" " + list, tail);
    ReadLeftBlank(list);
    SpacedForm(list, tail);
  }

  lemma ReadPlain(s: string)
    requires ',' !in s && 'F' !in s && s != "" && s[0] != ' ' && s[|s| - 1] != ' '
    ensures Read(s + " ") == [s] && !Contains(s + " ", "FROM")
  {
    ContainsChar(s, ',');
    ReadOne(s);
    ReadRightBlank(s);
    SkipLeft(s + " ", "", "FROM");
    assert s + " " + "" == s + " ";
  }

  lemma ReadMarker()
    ensures Read(UNKNOWN + " ") == [UNKNOWN] && !Contains(UNKNOWN + " ", "FROM")
  {
    ReadPlain(UNKNOWN);
  }

  /** Reading the text after a REMOVE gives the other names in order, or the marker. */
  lemma ReadsRemaining(names: seq<string>, i: nat, tail: string)
    requires i < |names| && AreNames(names) && NoneContains(names, "FROM") && IsTail(tail)
    ensures ReadSelect(Removed(names, i, tail))
         == Some(if |names| == 1 then [UNKNOWN] else names[..i] + names[i + 1..])
  {
    if |names| == 1 {
      ReadMarker();
      ReadSpaced(UNKNOWN + " ", tail);
      assert "SELECT " + (UNKNOWN + " ") + tail == Removed(names, i, tail);
    } else if i == 0 {
      FromListed(names[1..]);
      ReadListed(names[1..]);
      ReadSpaced(Listed(names[1..]), tail);
      assert names[..0] + names[1..] == names[1..];
    } else {
      AfterSeam(names, i);
      ReadText(Listed(names[..i]) + After(names, i), tail);
    }
  }
}
