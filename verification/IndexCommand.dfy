/**
  The command of the `CreateIndex` dialog read back: which words, columns, clauses and options it
  holds, and what each of them says about the settings.
 */
module IndexCommand {
  import opened Seqs
  import opened Text
  import opened IndexDialog

  // ---- the words of a text ----

  /** The words, each with a blank behind it. */
  function Spelled(words: seq<string>): string {
    if words == [] then "" else Spelled(words[..|words| - 1]) + words[|words| - 1] + " "
  }

  lemma SpelledMore(words: seq<string>, word: string)
    ensures Spelled(words + [word]) == Spelled(words) + word + " "
  {
    assert (words + [word])[..|words|] == words;
  }

  /** A text that spells words goes on with a word, or not. */
  lemma SpelledOpt(text: string, words: seq<string>, on: bool, word: string, blank: string)
    requires text == Spelled(words) && blank == word + " "
    ensures text + When(on, blank) == Spelled(words + Opt(on, word))
  {
    if on {
      SpelledMore(words, word);
      Assoc(text, word, " ");
    } else {
      assert words + [] == words && text + "" == text;
    }
  }

  lemma SpelledLast(words: seq<string>, rest: string)
    requires words != []
    ensures
      var some, word := words[..|words| - 1], words[|words| - 1];
      Spelled(words) + rest == Spelled(some) + (word + " " + rest)
  {
    var some, word := words[..|words| - 1], words[|words| - 1];
    Assoc(Spelled(some), word, " ");
    Assoc(Spelled(some), word + " ", rest);
  }

  lemma WordRead(some: seq<string>, word: string, rest: string, pieces: seq<string>)
    requires ' ' !in word && pieces == some + Pieces(word + " " + rest, " ")
    ensures pieces == some + [word] + Pieces(rest, " ")
  {
    FirstPiece(word, " ", rest, ' ');
    Assoc(some, [word], Pieces(rest, " "));
  }

  /** The words are read back at the front of a text. */
  lemma {:induction false} SpelledWords(words: seq<string>, rest: string)
    requires FreeOf(words, ' ')
    ensures Pieces(Spelled(words) + rest, " ") == words + Pieces(rest, " ")
    decreases |words|
  {
    if words == [] {
      assert "" + rest == rest && [] + Pieces(rest, " ") == Pieces(rest, " ");
    } else {
      var some, word := words[..|words| - 1], words[|words| - 1];
      SpelledWords(some, word + " " + rest);
      SpelledLast(words, rest);
      WordRead(some, word, rest, Pieces(Spelled(words) + rest, " "));
      assert words == some + [word];
    }
  }

  // ---- the head of the command ----

  /** The words up to INDEX. */
  function KindWords(s: Settings): seq<string> {
    ["CREATE"] + Opt(s.kind == Unique, "UNIQUE") + Opt(s.Server() && s.clustering == Unclustered, "UNCLUSTERED")
    + Opt(s.Server() && s.clustering == Clustered, "CLUSTERED")
    + Opt(s.MySql() && s.kind == FullText, "FULLTEXT") + Opt(s.MySql() && s.kind == Spatial, "SPATIAL")
  }

  lemma SpelledOne(word: string)
    ensures Spelled([word]) == word + " "
  {
    SpelledMore([], word);
    assert [] + [word] == [word] && Spelled([]) + word + " " == word + " ";
  }

  lemma KindSpelled(s: Settings)
    ensures HeadKind(s) == Spelled(KindWords(s))
  {
    var a, b := s.Server() && s.clustering == Unclustered, s.Server() && s.clustering == Clustered;
    var c, d := s.MySql() && s.kind == FullText, s.MySql() && s.kind == Spatial;
    var t1, w1 := "CREATE " + When(s.kind == Unique, "UNIQUE "), ["CREATE"] + Opt(s.kind == Unique, "UNIQUE");
    var t2, w2 := t1 + When(a, "UNCLUSTERED "), w1 + Opt(a, "UNCLUSTERED");
    var t3, w3 := t2 + When(b, "CLUSTERED "), w2 + Opt(b, "CLUSTERED");
    var t4, w4 := t3 + When(c, "FULLTEXT "), w3 + Opt(c, "FULLTEXT");
    SpelledOne("CREATE");
    SpelledOpt("CREATE ", ["CREATE"], s.kind == Unique, "UNIQUE", "UNIQUE ");
    SpelledOpt(t1, w1, a, "UNCLUSTERED", "UNCLUSTERED ");
    SpelledOpt(t2, w2, b, "CLUSTERED", "CLUSTERED ");
    SpelledOpt(t3, w3, c, "FULLTEXT", "FULLTEXT ");
    SpelledOpt(t4, w4, d, "SPATIAL", "SPATIAL ");
  }

  function Using(on: bool, kind: string): seq<string> {
    if on then ["USING", kind] else []
  }

  lemma SpelledUsing(text: string, words: seq<string>, on: bool, kind: string, blank: string)
    requires text == Spelled(words) && blank == "USING " + kind + " "
    ensures text + When(on, blank) == Spelled(words + Using(on, kind))
  {
    if on {
      SpelledMore(words, "USING");
      SpelledMore(words + ["USING"], kind);
      assert words + ["USING"] + [kind] == words + ["USING", kind];
      assert text + blank == text + "USING" + " " + kind + " ";
    } else {
      assert words + [] == words && text + "" == text;
    }
  }

  function IndexWords(s: Settings): seq<string> {
    KindWords(s) + ["INDEX"] + Opt(s.Postgres() && s.concurrently, "CONCURRENTLY")
  }

  function NameWords(s: Settings): seq<string> {
    IndexWords(s) + [s.name] + Using(s.MySql() && s.indexType == Btree, "BTREE")
    + Using(s.MySql() && s.indexType == Hash, "HASH")
  }

  /** The words of the command up to its columns. */
  function HeadWords(s: Settings): seq<string> {
    NameWords(s) + ["ON"] + [s.table] + Using(s.Postgres() && s.indexType == Btree, "BTREE")
    + Using(s.Postgres() && s.indexType == Hash, "HASH") + Using(s.Postgres() && s.indexType == Gist, "GIST")
    + Using(s.Postgres() && s.indexType == Gin, "GIN")
  }

  lemma IndexSpelled(s: Settings)
    ensures HeadIndex(s) == Spelled(IndexWords(s))
  {
    KindSpelled(s);
    SpelledMore(KindWords(s), "INDEX");
    assert HeadKind(s) + "INDEX" + " " == HeadKind(s) + "INDEX ";
    SpelledOpt(HeadKind(s) + "INDEX ", KindWords(s) + ["INDEX"], s.Postgres() && s.concurrently, "CONCURRENTLY",
               "CONCURRENTLY ");
  }

  lemma NameSpelled(s: Settings)
    ensures HeadName(s) == Spelled(NameWords(s))
  {
    var a, b := s.MySql() && s.indexType == Btree, s.MySql() && s.indexType == Hash;
    var t1, w1 := HeadIndex(s) + (s.name + " "), IndexWords(s) + [s.name];
    IndexSpelled(s);
    SpelledMore(IndexWords(s), s.name);
    Assoc(HeadIndex(s), s.name, " ");
    SpelledUsing(t1, w1, a, "BTREE", "USING BTREE ");
    SpelledUsing(t1 + When(a, "USING BTREE "), w1 + Using(a, "BTREE"), b, "HASH", "USING HASH ");
  }

  lemma OnTable(text: string, words: seq<string>, table: string)
    requires text == Spelled(words)
    ensures text + ("ON " + table + " ") == Spelled(words + ["ON"] + [table])
  {
    SpelledMore(words, "ON");
    SpelledMore(words + ["ON"], table);
    assert text + ("ON " + table + " ") == text + "ON" + " " + table + " ";
  }

  lemma HeadSpelled(s: Settings)
    ensures Head(s) == Spelled(HeadWords(s))
  {
    var a, b := s.Postgres() && s.indexType == Btree, s.Postgres() && s.indexType == Hash;
    var c, d := s.Postgres() && s.indexType == Gist, s.Postgres() && s.indexType == Gin;
    var t0, w0 := HeadName(s) + ("ON " + s.table + " "), NameWords(s) + ["ON"] + [s.table];
    var t1, w1 := t0 + When(a, "USING BTREE "), w0 + Using(a, "BTREE");
    var t2, w2 := t1 + When(b, "USING HASH "), w1 + Using(b, "HASH");
    var t3, w3 := t2 + When(c, "USING GIST "), w2 + Using(c, "GIST");
    NameSpelled(s);
    OnTable(HeadName(s), NameWords(s), s.table);
    SpelledUsing(t0, w0, a, "BTREE", "USING BTREE ");
    SpelledUsing(t1, w1, b, "HASH", "USING HASH ");
    SpelledUsing(t2, w2, c, "GIST", "USING GIST ");
    SpelledUsing(t3, w3, d, "GIN", "USING GIN ");
  }

  lemma FreeMore(xs: seq<string>, ys: seq<string>, c: char)
    requires FreeOf(xs, c) && FreeOf(ys, c)
    ensures FreeOf(xs + ys, c)
  {
  }

  lemma KindPlain(s: Settings, c: char)
    requires c == ' ' || c == '"'
    ensures FreeOf(KindWords(s), c)
  {
    var w1 := ["CREATE"] + Opt(s.kind == Unique, "UNIQUE");
    var w2 := w1 + Opt(s.Server() && s.clustering == Unclustered, "UNCLUSTERED");
    var w3 := w2 + Opt(s.Server() && s.clustering == Clustered, "CLUSTERED");
    var w4 := w3 + Opt(s.MySql() && s.kind == FullText, "FULLTEXT");
    FreeMore(["CREATE"], Opt(s.kind == Unique, "UNIQUE"), c);
    FreeMore(w1, Opt(s.Server() && s.clustering == Unclustered, "UNCLUSTERED"), c);
    FreeMore(w2, Opt(s.Server() && s.clustering == Clustered, "CLUSTERED"), c);
    FreeMore(w3, Opt(s.MySql() && s.kind == FullText, "FULLTEXT"), c);
    FreeMore(w4, Opt(s.MySql() && s.kind == Spatial, "SPATIAL"), c);
  }

  lemma NamePlain(s: Settings, c: char)
    requires (c == ' ' || c == '"') && c !in s.name
    ensures FreeOf(NameWords(s), c)
  {
    var a, b := s.MySql() && s.indexType == Btree, s.MySql() && s.indexType == Hash;
    KindPlain(s, c);
    FreeMore(KindWords(s), ["INDEX"], c);
    FreeMore(KindWords(s) + ["INDEX"], Opt(s.Postgres() && s.concurrently, "CONCURRENTLY"), c);
    FreeMore(IndexWords(s), [s.name], c);
    FreeMore(IndexWords(s) + [s.name], Using(a, "BTREE"), c);
    FreeMore(IndexWords(s) + [s.name] + Using(a, "BTREE"), Using(b, "HASH"), c);
  }

  lemma HeadPlain(s: Settings, c: char)
    requires (c == ' ' || c == '"') && c !in s.name && c !in s.table
    ensures FreeOf(HeadWords(s), c)
  {
    var w0 := NameWords(s) + ["ON"] + [s.table];
    var w1 := w0 + Using(s.Postgres() && s.indexType == Btree, "BTREE");
    var w2 := w1 + Using(s.Postgres() && s.indexType == Hash, "HASH");
    var w3 := w2 + Using(s.Postgres() && s.indexType == Gist, "GIST");
    NamePlain(s, c);
    FreeMore(NameWords(s), ["ON"], c);
    FreeMore(NameWords(s) + ["ON"], [s.table], c);
    FreeMore(w0, Using(s.Postgres() && s.indexType == Btree, "BTREE"), c);
    FreeMore(w1, Using(s.Postgres() && s.indexType == Hash, "HASH"), c);
    FreeMore(w2, Using(s.Postgres() && s.indexType == Gist, "GIST"), c);
    FreeMore(w3, Using(s.Postgres() && s.indexType == Gin, "GIN"), c);
  }

  /** What stands in the command behind its columns. */
  function Tail(s: Settings): string {
    if s.MySql() then AlgorithmClause(s.radios) + LockClause(s.radios)
    else if s.Server() then Suffix(Written(s.options))
    else if s.Postgres() then
      When(FillfactorEnabled(s.indexType), " WITH FILLFACTOR=" + Decimal(s.options.fillfactor))
      + When(s.tablespace != "", " TABLESPACE " + s.tablespace)
    else ""
  }

  /** What the command goes on with behind its head, but for a GIN index. */
  function Rest(s: Settings): string
    requires !(s.Postgres() && s.indexType == Gin)
  {
    ColumnList(s.fields) + Tail(s) + ";"
  }

  lemma JoinParts(head: string, list: string, a: string, b: string)
    ensures head + list + a + b == head + (list + a + b)
    ensures head + list + a + b + ";" == head + (list + (a + b) + ";")
  {
    Assoc(head, list, a);
    Assoc(head, list + a, b);
    Assoc(list, a, b);
    Assoc(head, list + (a + b), ";");
  }

  lemma CommandParts(s: Settings)
    requires !(s.Postgres() && s.indexType == Gin)
    ensures Command(s) == Head(s) + Rest(s)
  {
    OneDatabase(s.dbType, s.dbSubType);
    var head, list := Head(s), ColumnList(s.fields);
    if s.MySql() {
      JoinParts(head, list, AlgorithmClause(s.radios), LockClause(s.radios));
    } else if s.Server() {
      JoinParts(head, list, Suffix(Written(s.options)), ";");
    } else if s.Postgres() {
      JoinParts(head, list, When(FillfactorEnabled(s.indexType), " WITH FILLFACTOR=" + Decimal(s.options.fillfactor)),
                When(s.tablespace != "", " TABLESPACE " + s.tablespace));
    } else {
      JoinParts(head, list, "", ";");
      assert head + list + "" == head + list;
    }
  }

  /** The words at the front of the command; for a GIN index of PostgreSQL they are lost. */
  lemma CommandWords(s: Settings)
    requires ' ' !in s.name && ' ' !in s.table && !(s.Postgres() && s.indexType == Gin)
    ensures Pieces(Command(s), " ") == HeadWords(s) + Pieces(Rest(s), " ")
  {
    CommandParts(s);
    HeadSpelled(s);
    HeadPlain(s, ' ');
    SpelledWords(HeadWords(s), Rest(s));
  }

  // ---- which words there are ----

  const KEYWORDS := ["CREATE", "UNIQUE", "UNCLUSTERED", "CLUSTERED", "FULLTEXT", "SPATIAL", "INDEX", "CONCURRENTLY",
                     "USING", "BTREE", "HASH", "GIST", "GIN", "ON"]

  /** The keywords are told apart by length and first letter. */
  lemma KeywordsDiffer(i: nat, j: nat)
    requires i < |KEYWORDS| && j < |KEYWORDS| && KEYWORDS[i] == KEYWORDS[j]
    ensures i == j
  {
    forall k | 0 <= k < |KEYWORDS| ensures |KEYWORDS[k]| == [6, 6, 11, 9, 8, 7, 5, 12, 5, 5, 4, 4, 3, 2][k] {
    }
    forall k | 0 <= k < |KEYWORDS| ensures KEYWORDS[k][0] == "CUUCFSICUBHGGO"[k] {
    }
  }

  lemma AllDiffer()
    ensures forall i: nat, j: nat :: i < j < |KEYWORDS| ==> KEYWORDS[i] != KEYWORDS[j]
  {
    forall i: nat, j: nat | i < j < |KEYWORDS| ensures KEYWORDS[i] != KEYWORDS[j] {
      if KEYWORDS[i] == KEYWORDS[j] {
        KeywordsDiffer(i, j);
      }
    }
  }

  /** The settings that write each keyword in the head. */
  predicate Says(s: Settings, i: nat) {
    match i
    case 1 => s.kind == Unique
    case 2 => s.Server() && s.clustering == Unclustered
    case 3 => s.Server() && s.clustering == Clustered
    case 4 => s.MySql() && s.kind == FullText
    case 5 => s.MySql() && s.kind == Spatial
    case 7 => s.Postgres() && s.concurrently
    case 8 => (s.MySql() && (s.indexType == Btree || s.indexType == Hash)) || (s.Postgres() && s.indexType != AnyType)
    case 9 => (s.MySql() || s.Postgres()) && s.indexType == Btree
    case 10 => (s.MySql() || s.Postgres()) && s.indexType == Hash
    case 11 => s.Postgres() && s.indexType == Gist
    case 12 => s.Postgres() && s.indexType == Gin
    case _ => true
  }

  predicate AnySays(s: Settings, x: string, i: nat, j: nat) {
    exists k: nat :: i <= k < j && k < |KEYWORDS| && Says(s, k) && x == KEYWORDS[k]
  }

  lemma KindMembers(s: Settings, x: string)
    ensures x in KindWords(s) <==> AnySays(s, x, 0, 6)
  {
    var k := KEYWORDS;
    assert KindWords(s) == [k[0]] + Opt(Says(s, 1), k[1]) + Opt(Says(s, 2), k[2]) + Opt(Says(s, 3), k[3])
                           + Opt(Says(s, 4), k[4]) + Opt(Says(s, 5), k[5]);
    assert AnySays(s, x, 0, 6) <==>
      || x == k[0] || (Says(s, 1) && x == k[1]) || (Says(s, 2) && x == k[2]) || (Says(s, 3) && x == k[3])
      || (Says(s, 4) && x == k[4]) || (Says(s, 5) && x == k[5]);
  }

  lemma UsingMember(on: bool, kind: string, x: string)
    ensures x in Using(on, kind) <==> on && (x == KEYWORDS[8] || x == kind)
  {
    assert KEYWORDS[8] == "USING";
  }

  lemma NameMembers(s: Settings, x: string)
    ensures x in NameWords(s) <==>
            || x in KindWords(s) || x == KEYWORDS[6] || (Says(s, 7) && x == KEYWORDS[7]) || x == s.name
            || (s.MySql() && s.indexType == Btree && (x == KEYWORDS[8] || x == KEYWORDS[9]))
            || (s.MySql() && s.indexType == Hash && (x == KEYWORDS[8] || x == KEYWORDS[10]))
  {
    var k := KEYWORDS;
    UsingMember(s.MySql() && s.indexType == Btree, k[9], x);
    UsingMember(s.MySql() && s.indexType == Hash, k[10], x);
    assert IndexWords(s) == KindWords(s) + [k[6]] + Opt(Says(s, 7), k[7]);
    assert NameWords(s) == IndexWords(s) + [s.name] + Using(s.MySql() && s.indexType == Btree, k[9])
                           + Using(s.MySql() && s.indexType == Hash, k[10]);
  }

  lemma TableMembers(s: Settings, x: string)
    ensures x in HeadWords(s) <==>
            || x in NameWords(s) || x == KEYWORDS[13] || x == s.table
            || (s.Postgres() && s.indexType == Btree && (x == KEYWORDS[8] || x == KEYWORDS[9]))
            || (s.Postgres() && s.indexType == Hash && (x == KEYWORDS[8] || x == KEYWORDS[10]))
            || (s.Postgres() && s.indexType == Gist && (x == KEYWORDS[8] || x == KEYWORDS[11]))
            || (s.Postgres() && s.indexType == Gin && (x == KEYWORDS[8] || x == KEYWORDS[12]))
  {
    var k := KEYWORDS;
    UsingMember(s.Postgres() && s.indexType == Btree, k[9], x);
    UsingMember(s.Postgres() && s.indexType == Hash, k[10], x);
    UsingMember(s.Postgres() && s.indexType == Gist, k[11], x);
    UsingMember(s.Postgres() && s.indexType == Gin, k[12], x);
    assert HeadWords(s) == NameWords(s) + [k[13]] + [s.table] + Using(s.Postgres() && s.indexType == Btree, k[9])
                           + Using(s.Postgres() && s.indexType == Hash, k[10])
                           + Using(s.Postgres() && s.indexType == Gist, k[11])
                           + Using(s.Postgres() && s.indexType == Gin, k[12]);
  }

  /** A keyword is in the head exactly when a setting writes it. */
  lemma KeywordSaid(s: Settings, i: nat)
    requires s.name !in KEYWORDS && s.table !in KEYWORDS && i < |KEYWORDS|
    ensures KEYWORDS[i] in HeadWords(s) <==> Says(s, i)
  {
    AllDiffer();
    KindMembers(s, KEYWORDS[i]);
    NameMembers(s, KEYWORDS[i]);
    TableMembers(s, KEYWORDS[i]);
  }

  lemma WhichKind(s: Settings)
    requires s.name !in KEYWORDS && s.table !in KEYWORDS
    ensures "UNIQUE" in HeadWords(s) <==> s.kind == Unique
    ensures "UNCLUSTERED" in HeadWords(s) <==> s.Server() && s.clustering == Unclustered
    ensures "CLUSTERED" in HeadWords(s) <==> s.Server() && s.clustering == Clustered
    ensures "FULLTEXT" in HeadWords(s) <==> s.MySql() && s.kind == FullText
    ensures "SPATIAL" in HeadWords(s) <==> s.MySql() && s.kind == Spatial
  {
    KeywordSaid(s, 1);
    KeywordSaid(s, 2);
    KeywordSaid(s, 3);
    KeywordSaid(s, 4);
    KeywordSaid(s, 5);
    assert KEYWORDS[1] == "UNIQUE" && KEYWORDS[2] == "UNCLUSTERED" && KEYWORDS[3] == "CLUSTERED";
    assert KEYWORDS[4] == "FULLTEXT" && KEYWORDS[5] == "SPATIAL";
  }

  lemma WhichType(s: Settings)
    requires s.name !in KEYWORDS && s.table !in KEYWORDS
    ensures "CONCURRENTLY" in HeadWords(s) <==> s.Postgres() && s.concurrently
    ensures "BTREE" in HeadWords(s) <==> (s.MySql() || s.Postgres()) && s.indexType == Btree
    ensures "HASH" in HeadWords(s) <==> (s.MySql() || s.Postgres()) && s.indexType == Hash
    ensures "GIST" in HeadWords(s) <==> s.Postgres() && s.indexType == Gist
  {
    KeywordSaid(s, 7);
    KeywordSaid(s, 9);
    KeywordSaid(s, 10);
    KeywordSaid(s, 11);
    assert KEYWORDS[7] == "CONCURRENTLY" && KEYWORDS[9] == "BTREE" && KEYWORDS[10] == "HASH" && KEYWORDS[11] == "GIST";
  }

  /** The words name the index and the table. */
  ghost predicate NamesThem(words: seq<string>, s: Settings) {
    && (exists k :: 0 < k < |words| - 2 && words[k] == "INDEX"
                    && words[if s.Postgres() && s.concurrently then k + 2 else k + 1] == s.name)
    && (exists k :: 0 < k < |words| - 1 && words[k] == "ON" && words[k + 1] == s.table)
  }

  lemma NameIn(kinds: seq<string>, conc: bool, name: string, more: seq<string>)
    ensures
      var w, k := kinds + ["INDEX"] + Opt(conc, "CONCURRENTLY") + [name] + more, |kinds|;
      |w| >= k + 2 + (if conc then 1 else 0) + |more| && w[k] == "INDEX" && w[if conc then k + 2 else k + 1] == name
  {
  }

  lemma TableIn(before: seq<string>, table: string, more: seq<string>)
    ensures
      var w := before + ["ON"] + [table] + more;
      |w| == |before| + 2 + |more| && w[|before|] == "ON" && w[|before| + 1] == table
  {
  }

  lemma NameMore(s: Settings) returns (more: seq<string>)
    ensures NameWords(s) == IndexWords(s) + [s.name] + more
  {
    var a, b := Using(s.MySql() && s.indexType == Btree, "BTREE"), Using(s.MySql() && s.indexType == Hash, "HASH");
    more := a + b;
    Assoc(IndexWords(s) + [s.name], a, b);
  }

  lemma TableMore(s: Settings) returns (more: seq<string>)
    ensures HeadWords(s) == NameWords(s) + ["ON"] + [s.table] + more
  {
    var a := Using(s.Postgres() && s.indexType == Btree, "BTREE");
    var b := Using(s.Postgres() && s.indexType == Hash, "HASH");
    var c, d := Using(s.Postgres() && s.indexType == Gist, "GIST"), Using(s.Postgres() && s.indexType == Gin, "GIN");
    var w := NameWords(s) + ["ON"] + [s.table];
    more := a + b + c + d;
    Assoc(w, a, b);
    Assoc(w, a + b, c);
    Assoc(w, a + b + c, d);
  }

  lemma HeadNamesThem(s: Settings)
    ensures NamesThem(HeadWords(s), s) && HeadWords(s) != [] && HeadWords(s)[0] == "CREATE"
  {
    var more := NameMore(s);
    var most := TableMore(s);
    NameIn(KindWords(s), s.Postgres() && s.concurrently, s.name, more);
    TableIn(NameWords(s), s.table, most);
    var w, k := HeadWords(s), |KindWords(s)|;
    assert NameWords(s) == w[..|NameWords(s)|];
    assert w[k] == "INDEX" && w[if s.Postgres() && s.concurrently then k + 2 else k + 1] == s.name;
    assert w[|NameWords(s)|] == "ON" && w[|NameWords(s)| + 1] == s.table;
    assert KindWords(s)[0] == "CREATE" && NameWords(s)[..k] == KindWords(s);
  }

  lemma RestBegins(s: Settings)
    requires !(s.Postgres() && s.indexType == Gin)
    ensures Rest(s) != "" && Rest(s)[0] == '('
    ensures Pieces(Rest(s), " ")[0] != "" && Pieces(Rest(s), " ")[0][0] == '('
  {
    assert ColumnList(s.fields)[0] == '(';
    var i := Find(Rest(s), " ");
    if i != -1 {
      assert Rest(s)[i..i + 1][0] == Rest(s)[i];
    }
  }

  lemma HeadFirst(s: Settings)
    requires ' ' !in s.name && ' ' !in s.table && !(s.Postgres() && s.indexType == Gin)
    ensures HeadWords(s) < Pieces(Command(s), " ") && "(" <= Pieces(Command(s), " ")[|HeadWords(s)|]
  {
    CommandWords(s);
    RestBegins(s);
  }

  /**
    The command in front of its columns, read word by word: CREATE, then what the settings ask for, INDEX, the name,
    ON and the table.  Each keyword is there exactly for its setting.
   */
  lemma CommandSays(s: Settings) returns (words: seq<string>)
    requires ' ' !in s.name && ' ' !in s.table && s.name !in KEYWORDS && s.table !in KEYWORDS
    requires !(s.Postgres() && s.indexType == Gin)
    ensures words < Pieces(Command(s), " ") && "(" <= Pieces(Command(s), " ")[|words|]
    ensures words != [] && words[0] == "CREATE" && NamesThem(words, s)
    ensures "UNIQUE" in words <==> s.kind == Unique
    ensures "UNCLUSTERED" in words <==> s.Server() && s.clustering == Unclustered
    ensures "CLUSTERED" in words <==> s.Server() && s.clustering == Clustered
    ensures "FULLTEXT" in words <==> s.MySql() && s.kind == FullText
    ensures "SPATIAL" in words <==> s.MySql() && s.kind == Spatial
    ensures "CONCURRENTLY" in words <==> s.Postgres() && s.concurrently
    ensures "BTREE" in words <==> (s.MySql() || s.Postgres()) && s.indexType == Btree
    ensures "HASH" in words <==> (s.MySql() || s.Postgres()) && s.indexType == Hash
    ensures "GIST" in words <==> s.Postgres() && s.indexType == Gist
  {
    words := HeadWords(s);
    HeadFirst(s);
    HeadNamesThem(s);
    WhichKind(s);
    WhichType(s);
  }

  // ---- the columns ----

  /** What stands between the quotes, up to a quote that no comma follows. */
  function ColumnsIn(pieces: seq<string>): seq<string> {
    if |pieces| < 3 then []
    else [pieces[1]] + (if pieces[2] == "," then ColumnsIn(pieces[2..]) else [])
  }

  lemma QuotedOne(before: string, column: string, rest: string)
    requires '"' !in before && '"' !in column
    ensures Pieces(before + ("\"" + column + "\"" + rest), "\"") == [before, column] + Pieces(rest, "\"")
  {
    var behind := column + "\"" + rest;
    assert before + ("\"" + column + "\"" + rest) == before + "\"" + behind;
    FirstPiece(before, "\"", behind, '"');
    FirstPiece(column, "\"", rest, '"');
    assert [before] + ([column] + Pieces(rest, "\"")) == [before, column] + Pieces(rest, "\"");
  }

  lemma QuotedHead(columns: seq<string>)
    requires columns != []
    ensures Quoted(columns)[0] == "\"" + columns[0] + "\"" && Quoted(columns)[1..] == Quoted(columns[1..])
  {
  }

  lemma NextColumn(column: string, list: string, rest: string)
    ensures "\"" + column + "\"" + "," + list + ")" + rest == "\"" + column + "\"" + ("," + (list + ")" + rest))
  {
  }

  lemma LastColumn(column: string, rest: string)
    ensures "\"" + column + "\"" + ")" + rest == "\"" + column + "\"" + (")" + rest)
  {
  }

  lemma ColumnsStep(before: string, column: string, behind: seq<string>)
    requires behind != []
    ensures ColumnsIn([before, column] + behind) == [column] + (if behind[0] == "," then ColumnsIn(behind) else [])
  {
    assert ([before, column] + behind)[2..] == behind;
  }

  lemma EndPiece(rest: string)
    ensures Pieces(")" + rest, "\"")[0] != ","
  {
    SkipLeft(")", rest, "\"");
  }

  lemma EndsThere(column: string, before: string, rest: string)
    requires '"' !in before && '"' !in column
    ensures ColumnsIn(Pieces(before + ("\"" + column + "\"" + (")" + rest)), "\"")) == [column]
  {
    QuotedOne(before, column, ")" + rest);
    EndPiece(rest);
    ColumnsStep(before, column, Pieces(")" + rest, "\""));
  }

  lemma CommaPiece(more: string)
    requires more != "" && more[0] == '"'
    ensures Pieces("," + more, "\"")[0] == ","
  {
    assert "," + more == "," + "\"" + more[1..];
    FirstPiece(",", "\"", more[1..], '"');
  }

  lemma GoesOn(column: string, before: string, more: string)
    requires '"' !in before && '"' !in column && more != "" && more[0] == '"'
    ensures ColumnsIn(Pieces(before + ("\"" + column + "\"" + ("," + more)), "\""))
         == [column] + ColumnsIn(Pieces("," + more, "\""))
  {
    QuotedOne(before, column, "," + more);
    CommaPiece(more);
    ColumnsStep(before, column, Pieces("," + more, "\""));
  }

  /** The column names are read back from between the parentheses, whatever stands behind them. */
  lemma {:induction false} ColumnsRead(before: string, columns: seq<string>, rest: string)
    requires columns != [] && FreeOf(columns, '"') && '"' !in before
    ensures ColumnsIn(Pieces(before + (Join(Quoted(columns), ",") + ")" + rest), "\"")) == columns
    decreases |columns|
  {
    QuotedHead(columns);
    if |columns| == 1 {
      LastColumn(columns[0], rest);
      EndsThere(columns[0], before, rest);
    } else {
      var list := Join(Quoted(columns[1..]), ",");
      ColumnsRead(",", columns[1..], rest);
      QuotedHead(columns[1..]);
      NextColumn(columns[0], list, rest);
      GoesOn(columns[0], before, list + ")" + rest);
      Assoc(list, ")", rest);
    }
  }

  lemma {:induction false} SpelledFree(words: seq<string>, c: char)
    requires FreeOf(words, c) && c != ' '
    ensures c !in Spelled(words)
  {
    if words == [] {
    } else {
      SpelledFree(words[..|words| - 1], c);
    }
  }

  lemma ColumnsForm(head: string, list: string, tail: string)
    ensures head + ("(" + (list + ")") + tail + ";") == head + "(" + (list + ")" + (tail + ";"))
  {
    Assoc("(", list + ")", tail);
    Assoc("(", list + ")" + tail, ";");
    Assoc(list + ")", tail, ";");
    Assoc(head, "(", list + ")" + (tail + ";"));
  }

  /** The columns of the command, read from what stands between its quotes, are those of the dialog. */
  lemma CommandColumns(s: Settings)
    requires !(s.Postgres() && s.indexType == Gin) && s.fields != []
    requires '"' !in s.name && '"' !in s.table && FreeOf(s.fields, '"')
    ensures ColumnsIn(Pieces(Command(s), "\"")) == s.fields
  {
    var list := Join(Quoted(s.fields), ",");
    CommandParts(s);
    HeadSpelled(s);
    HeadPlain(s, '"');
    SpelledFree(HeadWords(s), '"');
    ColumnsForm(Head(s), list, Tail(s));
    ColumnsRead(Head(s) + "(", s.fields, Tail(s) + ";");
  }

  // ---- the clauses for MySQL ----

  /** The text of the clauses for each choice. */
  lemma ClauseText(r: Radios)
    requires OneChoice(r)
    ensures
      var text := AlgorithmClause(r) + LockClause(r);
      && (r.algorithm == InPlace ==> text == " ALGORITHM=INPLACE")
      && (r.algorithm == Copy ==> text == " ALGORITHM=COPY")
      && (r.lockMode == LockNone ==> text == " LOCK=NONE") && (r.lockMode == LockShared ==> text == " LOCK=SHARED")
      && (r.lockMode == LockExclusive ==> text == " LOCK=EXCLUSIVE")
      && (r.algorithm == AnyAlgorithm && r.lockMode == AnyLock ==> text == "")
  {
  }

  lemma WordAtEnd(text: string, word: string)
    requires |word| <= |text| && text[|text| - |word|..] == word
    ensures Contains(text, word)
  {
    assert OccursAt(text, word, |text| - |word|);
  }

  lemma NoneAt(text: string, j: int)
    requires OccursAt(text, "NONE", j)
    ensures text[j] == 'N' && text[j + 2] == 'N'
  {
    assert text[j..j + 4][0] == text[j] && text[j..j + 4][2] == text[j + 2];
  }

  lemma OneN(text: string, j: int)
    requires text == " ALGORITHM=INPLACE" && 0 <= j < |text| && text[j] == 'N'
    ensures j == 12
  {
  }

  lemma NoneSaid(text: string)
    requires text in ["", " ALGORITHM=INPLACE", " ALGORITHM=COPY", " LOCK=NONE", " LOCK=SHARED", " LOCK=EXCLUSIVE"]
    ensures Contains(text, "NONE") <==> text == " LOCK=NONE"
  {
    if text == " LOCK=NONE" {
      WordAtEnd(text, "NONE");
    } else if text == " ALGORITHM=INPLACE" {
      forall j | OccursAt(text, "NONE", j) ensures false {
        NoneAt(text, j);
        OneN(text, j);
        OneN(text, j + 2);
      }
    } else {
      NotWithout(text, "NONE", 'N');
    }
  }

  lemma CopySaid(text: string)
    requires text in ["", " ALGORITHM=INPLACE", " ALGORITHM=COPY", " LOCK=NONE", " LOCK=SHARED", " LOCK=EXCLUSIVE"]
    ensures Contains(text, "COPY") <==> text == " ALGORITHM=COPY"
  {
    if text == " ALGORITHM=COPY" {
      WordAtEnd(text, "COPY");
    } else {
      NotWithout(text, "COPY", 'Y');
    }
  }

  lemma SharedSaid(text: string)
    requires text in ["", " ALGORITHM=INPLACE", " ALGORITHM=COPY", " LOCK=NONE", " LOCK=SHARED", " LOCK=EXCLUSIVE"]
    ensures Contains(text, "SHARED") <==> text == " LOCK=SHARED"
  {
    if text == " LOCK=SHARED" {
      WordAtEnd(text, "SHARED");
    } else {
      NotWithout(text, "SHARED", 'D');
    }
  }

  lemma ExclusiveSaid(text: string)
    requires text in ["", " ALGORITHM=INPLACE", " ALGORITHM=COPY", " LOCK=NONE", " LOCK=SHARED", " LOCK=EXCLUSIVE"]
    ensures Contains(text, "EXCLUSIVE") <==> text == " LOCK=EXCLUSIVE"
  {
    if text == " LOCK=EXCLUSIVE" {
      WordAtEnd(text, "EXCLUSIVE");
    } else {
      NotWithout(text, "EXCLUSIVE", 'X');
    }
  }

  lemma InPlaceSaid(text: string)
    requires text in ["", " ALGORITHM=INPLACE", " ALGORITHM=COPY", " LOCK=NONE", " LOCK=SHARED", " LOCK=EXCLUSIVE"]
    ensures Contains(text, "INPLACE") <==> text == " ALGORITHM=INPLACE"
  {
    if text == " ALGORITHM=INPLACE" {
      WordAtEnd(text, "INPLACE");
    } else if text == " ALGORITHM=COPY" {
      NotWithout(text, "INPLACE", 'N');
    } else {
      NotWithout(text, "INPLACE", 'P');
    }
  }

  /** After any clicks the text behind the columns holds each word exactly for its choice. */
  lemma ClauseSays(s: Settings, clicks: seq<Click>)
    requires s.MySql() && s.radios == ClickedAll(FIRST_RADIOS, clicks)
    ensures Command(s) == Create(s) + Tail(s) + ";"
    ensures Contains(Tail(s), "INPLACE") <==> s.radios.algorithm == InPlace
    ensures Contains(Tail(s), "COPY") <==> s.radios.algorithm == Copy
    ensures Contains(Tail(s), "NONE") <==> s.radios.lockMode == LockNone
    ensures Contains(Tail(s), "SHARED") <==> s.radios.lockMode == LockShared
    ensures Contains(Tail(s), "EXCLUSIVE") <==> s.radios.lockMode == LockExclusive
  {
    ClicksKeepOneChoice(FIRST_RADIOS, clicks);
    ClauseText(s.radios);
    InPlaceSaid(Tail(s));
    CopySaid(Tail(s));
    NoneSaid(Tail(s));
    SharedSaid(Tail(s));
    ExclusiveSaid(Tail(s));
    Assoc(Create(s), AlgorithmClause(s.radios), LockClause(s.radios));
  }

  lemma {:induction false} ClickedMore(r: Radios, clicks: seq<Click>, c: Click)
    ensures ClickedAll(r, clicks + [c]) == Clicked(ClickedAll(r, clicks), c)
    decreases |clicks|
  {
    if clicks == [] {
      assert [] + [c] == [c] && [c][1..] == [];
    } else {
      assert (clicks + [c])[1..] == clicks[1..] + [c];
      ClickedMore(Clicked(r, clicks[0]), clicks[1..], c);
    }
  }

  /** The last click on an enabled button is the choice of its group, and the other group keeps its own. */
  lemma LastClick(clicks: seq<Click>, c: Click)
    ensures
      var r, t := ClickedAll(FIRST_RADIOS, clicks), ClickedAll(FIRST_RADIOS, clicks + [c]);
      match c
      case ClickAlgorithm(a) => t.lockMode == r.lockMode && t.algorithm == if r.algorithmEnabled then a else r.algorithm
      case ClickLock(l) => t.algorithm == r.algorithm && t.lockMode == if r.lockEnabled then l else r.lockMode
  {
    ClickedMore(FIRST_RADIOS, clicks, c);
  }

  // ---- the options of SQL Server ----

  /** The number that decimal digits stand for. */
  function Value(digits: string): int {
    if digits == "" then 0
    else 10 * Value(digits[..|digits| - 1]) + (digits[|digits| - 1] as int - '0' as int)
  }

  lemma DigitValue(d: nat)
    requires d < 10
    ensures Digit(d) as int - '0' as int == d
  {
    assert d == 0 || d == 1 || d == 2 || d == 3 || d == 4 || d == 5 || d == 6 || d == 7 || d == 8 || d == 9;
  }

  /** Numbers are written in decimal. */
  lemma {:induction false} DecimalValue(n: nat)
    ensures Value(Decimal(n)) == n
  {
    DigitValue(n % 10);
    if n < 10 {
      assert Value([Digit(n)]) == 10 * Value([Digit(n)][..0]) + (Digit(n) as int - '0' as int);
    } else {
      DecimalValue(n / 10);
      assert Decimal(n)[..|Decimal(n)| - 1] == Decimal(n / 10);
    }
  }

  /** A text of kind `k` is written exactly when entry `k` of the table holds it. */
  lemma {:induction false} WrittenAt(table: seq<seq<string>>, n: nat, k: nat, t: string)
    requires Sorted(table) && k < n <= |table| && Kind(t) == k
    ensures t in Items(table, n) <==> t in table[k]
  {
    ItemsKinds(table, n - 1);
    if k < n - 1 {
      WrittenAt(table, n - 1, k, t);
      assert Entry(table[n - 1], n - 1);
    }
  }

  lemma OptionSaid(o: Options, k: nat, on: bool, t: string)
    requires k < 13 && Kind(t) == k && Table(o)[k] == Opt(on, t)
    ensures t in Written(o) <==> on
  {
    TableSorted(o);
    WrittenAt(Table(o), 13, k, t);
  }

  lemma PadSaid(o: Options)
    ensures "PAD_INDEX = ON" in Written(o) <==> o.padIndex
    ensures "FILLFACTOR = " + Decimal(o.fillfactor) in Written(o) <==> o.padIndex
  {
    OptionSaid(o, 0, o.padIndex, "PAD_INDEX = ON");
    OptionSaid(o, 1, o.padIndex, "FILLFACTOR = " + Decimal(o.fillfactor));
  }

  lemma TempSaid(o: Options)
    ensures "SORT_IN_TEMPDB = ON" in Written(o) <==> o.sortTempDB
    ensures "IGNORE_DUP_KEY = ON" in Written(o) <==> o.ignoreDupKeys
  {
    OptionSaid(o, 2, o.sortTempDB, "SORT_IN_TEMPDB = ON");
    OptionSaid(o, 3, o.ignoreDupKeys, "IGNORE_DUP_KEY = ON");
  }

  lemma StatisticsSaid(o: Options)
    ensures "STATISTICS_NORECOMPUTE = ON" in Written(o) <==> o.statisticsNoRecompute
    ensures "STATISTICS_INCREMENTAL = ON" in Written(o) <==> o.statisticsIncremental
  {
    OptionSaid(o, 4, o.statisticsNoRecompute, "STATISTICS_NORECOMPUTE = ON");
    OptionSaid(o, 5, o.statisticsIncremental, "STATISTICS_INCREMENTAL = ON");
  }

  lemma DropSaid(o: Options)
    ensures "DROP_EXISTING = ON" in Written(o) <==> o.dropExisting
    ensures "ONLINE = ON" in Written(o) <==> o.online
  {
    OptionSaid(o, 6, o.dropExisting, "DROP_EXISTING = ON");
    OptionSaid(o, 7, o.online, "ONLINE = ON");
  }

  lemma LocksSaid(o: Options)
    ensures "ALLOW_ROW_LOCKS = ON" in Written(o) <==> o.allowRowLocks
    ensures "ALLOW_PAGE_LOCKS = ON" in Written(o) <==> o.allowPageLocks
  {
    OptionSaid(o, 8, o.allowRowLocks, "ALLOW_ROW_LOCKS = ON");
    OptionSaid(o, 9, o.allowPageLocks, "ALLOW_PAGE_LOCKS = ON");
  }

  lemma MaxSaid(o: Options)
    ensures "MAXDOP = " + Decimal(o.maxDop) in Written(o) <==> o.maxDop > 0
  {
    OptionSaid(o, 10, o.maxDop > 0, "MAXDOP = " + Decimal(o.maxDop));
  }

  lemma CompressionSaid(o: Options)
    ensures "DATA_COMPRESSION = ROW" in Written(o) <==> o.compression == RowCompression
    ensures "DATA_COMPRESSION = PAGE" in Written(o) <==> o.compression == PageCompression
  {
    OptionSaid(o, 11, o.compression == RowCompression, "DATA_COMPRESSION = ROW");
    OptionSaid(o, 12, o.compression == PageCompression, "DATA_COMPRESSION = PAGE");
  }

  /** The options of a text: behind WITH, separated by bars. */
  function ReadOptions(tail: string): seq<string> {
    if |tail| > 6 && tail[..6] == " WITH " then Pieces(tail[6..], " | ") else []
  }

  lemma SuffixReads(items: seq<string>)
    requires FreeOf(items, '|') && "" !in items
    ensures ReadOptions(Suffix(items)) == items
  {
    if items != [] {
      var joined := Join(items, " | ");
      assert items[0] in items && |joined| > 0;
      assert (" WITH " + joined)[..6] == " WITH " && (" WITH " + joined)[6..] == joined;
      PiecesJoin(items, " | ", '|');
    }
  }

  lemma NoneEmpty(o: Options)
    ensures "" !in Written(o)
  {
    TableSorted(o);
    ItemsKinds(Table(o), 13);
    assert Kind("") == 13;
  }

  /** The options read from the text behind the columns: each is there exactly when it is set. */
  lemma OptionsSay(s: Settings) returns (items: seq<string>)
    requires s.Server()
    ensures Command(s) == Create(s) + Tail(s) + ";" && items == ReadOptions(Tail(s))
    ensures var o := s.options;
      && ("PAD_INDEX = ON" in items <==> o.padIndex)
      && ("FILLFACTOR = " + Decimal(o.fillfactor) in items <==> o.padIndex)
      && ("SORT_IN_TEMPDB = ON" in items <==> o.sortTempDB) && ("IGNORE_DUP_KEY = ON" in items <==> o.ignoreDupKeys)
      && ("STATISTICS_NORECOMPUTE = ON" in items <==> o.statisticsNoRecompute)
      && ("STATISTICS_INCREMENTAL = ON" in items <==> o.statisticsIncremental)
      && ("DROP_EXISTING = ON" in items <==> o.dropExisting) && ("ONLINE = ON" in items <==> o.online)
      && ("ALLOW_ROW_LOCKS = ON" in items <==> o.allowRowLocks)
      && ("ALLOW_PAGE_LOCKS = ON" in items <==> o.allowPageLocks)
      && ("MAXDOP = " + Decimal(o.maxDop) in items <==> o.maxDop > 0)
      && ("DATA_COMPRESSION = ROW" in items <==> o.compression == RowCompression)
      && ("DATA_COMPRESSION = PAGE" in items <==> o.compression == PageCompression)
  {
    OneDatabase(s.dbType, s.dbSubType);
    WrittenPlain(s.options);
    NoneEmpty(s.options);
    SuffixReads(Written(s.options));
    PadSaid(s.options);
    TempSaid(s.options);
    StatisticsSaid(s.options);
    DropSaid(s.options);
    LocksSaid(s.options);
    MaxSaid(s.options);
    CompressionSaid(s.options);
    items := Written(s.options);
  }

  // ---- the texts for PostgreSQL ----

  lemma GinSays(s: Settings, place: string)
    requires s.Postgres() && s.indexType == Gin
    requires place == if s.tablespace == "" then "" else " TABLESPACE " + s.tablespace
    ensures Command(s) == " WITH FASTUPDATE=" + (if s.fastUpdate then "ON" else "OFF") + place + ";"
  {
    OneDatabase(s.dbType, s.dbSubType);
  }

  lemma FillSays(s: Settings, create: string, place: string)
    requires s.Postgres() && s.indexType != Gin && create == Create(s)
    requires place == if s.tablespace == "" then "" else " TABLESPACE " + s.tablespace
    ensures
      var fill := if s.indexType == AnyType then "" else " WITH FILLFACTOR=" + Decimal(s.options.fillfactor);
      Command(s) == create + fill + place + ";"
  {
    OneDatabase(s.dbType, s.dbSubType);
  }

  /** A GIN index has nothing but its fast update and tablespace; the others a fill factor, when they have a type. */
  lemma PostgresSays(s: Settings)
    requires s.Postgres()
    ensures
      var place := if s.tablespace == "" then "" else " TABLESPACE " + s.tablespace;
      if s.indexType == Gin then
        Command(s) == " WITH FASTUPDATE=" + (if s.fastUpdate then "ON" else "OFF") + place + ";"
      else if s.indexType == AnyType then Command(s) == Create(s) + place + ";"
      else Command(s) == Create(s) + (" WITH FILLFACTOR=" + Decimal(s.options.fillfactor)) + place + ";"
  {
    var place := if s.tablespace == "" then "" else " TABLESPACE " + s.tablespace;
    if s.indexType == Gin {
      GinSays(s, place);
    } else {
      FillSays(s, Create(s), place);
      assert Create(s) + "" == Create(s);
    }
  }
}
