/**
  The `CreateIndex` dialog: which buttons are enabled, which settings go together, and the
  command written from them.
 */
module IndexDialog {
  import opened Seqs
  import opened Text
  import opened FieldStrip

  // ---- the algorithm and lock buttons ----

  datatype Algorithm = AnyAlgorithm | InPlace | Copy

  datatype LockMode = AnyLock | LockNone | LockShared | LockExclusive

  /** The two radio groups; the buttons of a group are enabled and disabled together. */
  datatype Radios = Radios(algorithm: Algorithm, lockMode: LockMode, algorithmEnabled: bool, lockEnabled: bool)

  const FIRST_RADIOS := Radios(AnyAlgorithm, AnyLock, true, true)

  datatype Click = ClickAlgorithm(algorithm: Algorithm) | ClickLock(lockMode: LockMode)

  predicate CanClick(r: Radios, c: Click) {
    if c.ClickAlgorithm? then r.algorithmEnabled else r.lockEnabled
  }

  /** The buttons after a click and its handler; nothing happens on a disabled button. */
  function Clicked(r: Radios, c: Click): Radios {
    if !CanClick(r, c) then r
    else
      match c
      case ClickAlgorithm(a) => Radios(a, r.lockMode, true, a == AnyAlgorithm)
      case ClickLock(l) => Radios(r.algorithm, l, l == AnyLock, true)
  }

  function ClickedAll(r: Radios, clicks: seq<Click>): Radios
    decreases |clicks|
  {
    if clicks == [] then r else ClickedAll(Clicked(r, clicks[0]), clicks[1..])
  }

  /** A choice in one group disables the other, whose choice is then the default one. */
  predicate OneChoice(r: Radios) {
    && (r.algorithmEnabled <==> r.lockMode == AnyLock)
    && (r.lockEnabled <==> r.algorithm == AnyAlgorithm)
    && (r.algorithm == AnyAlgorithm || r.lockMode == AnyLock)
  }

  function AlgorithmClause(r: Radios): string {
    if !r.algorithmEnabled then ""
    else
      match r.algorithm
      case InPlace => " ALGORITHM=INPLACE"
      case Copy => " ALGORITHM=COPY"
      case AnyAlgorithm => ""
  }

  function LockClause(r: Radios): string {
    if !r.lockEnabled then ""
    else
      match r.lockMode
      case LockNone => " LOCK=NONE"
      case LockShared => " LOCK=SHARED"
      case LockExclusive => " LOCK=EXCLUSIVE"
      case AnyLock => ""
  }

  lemma {:induction false} ClicksKeepOneChoice(r: Radios, clicks: seq<Click>)
    requires OneChoice(r)
    ensures OneChoice(ClickedAll(r, clicks))
    decreases |clicks|
  {
    if clicks == [] {
    } else {
      ClicksKeepOneChoice(Clicked(r, clicks[0]), clicks[1..]);
    }
  }

  /** After any clicks at most one of the clauses is written, and a choice made is always written. */
  lemma OneClause(clicks: seq<Click>)
    ensures
      var r := ClickedAll(FIRST_RADIOS, clicks);
      && (AlgorithmClause(r) == "" || LockClause(r) == "")
      && (AlgorithmClause(r) != "" <==> r.algorithm != AnyAlgorithm)
      && (LockClause(r) != "" <==> r.lockMode != AnyLock)
  {
    ClicksKeepOneChoice(FIRST_RADIOS, clicks);
  }

  // ---- the options of SQL Server ----

  datatype Compression = NoCompression | RowCompression | PageCompression

  datatype Options = Options(
    padIndex: bool, fillfactor: nat, sortTempDB: bool, ignoreDupKeys: bool, statisticsNoRecompute: bool,
    statisticsIncremental: bool, dropExisting: bool, online: bool, allowRowLocks: bool, allowPageLocks: bool,
    maxDop: nat, compression: Compression)

  /** Padding is on exactly when there is a fill factor. */
  predicate PadInStep(o: Options) {
    o.padIndex <==> o.fillfactor != 0
  }

  function Digit(d: nat): char
    requires d < 10
  {
    "0123456789"[d]
  }

  function Decimal(n: nat): (s: string)
    ensures s != ""
  {
    if n < 10 then [Digit(n)] else Decimal(n / 10) + [Digit(n % 10)]
  }

  lemma {:induction false} DecimalInjective(m: nat, n: nat)
    requires Decimal(m) == Decimal(n)
    ensures m == n
    decreases m
  {
    assert Decimal(m)[|Decimal(m)| - 1] == Digit(m % 10) && Decimal(n)[|Decimal(n)| - 1] == Digit(n % 10);
    if m >= 10 && n >= 10 {
      assert Decimal(m)[..|Decimal(m)| - 1] == Decimal(m / 10) && Decimal(n)[..|Decimal(n)| - 1] == Decimal(n / 10);
      DecimalInjective(m / 10, n / 10);
    }
  }

  lemma {:induction false} DecimalPlain(n: nat)
    ensures '|' !in Decimal(n)
  {
    if n < 10 {
    } else {
      DecimalPlain(n / 10);
    }
  }

  function Opt(c: bool, text: string): seq<string> {
    if c then [text] else []
  }

  /** The options in the order of the command: each nothing or its text. */
  function Table(o: Options): (table: seq<seq<string>>)
    ensures |table| == 13
  {
    [ Opt(o.padIndex, "PAD_INDEX = ON"),
      Opt(o.padIndex, "FILLFACTOR = " + Decimal(o.fillfactor)),
      Opt(o.sortTempDB, "SORT_IN_TEMPDB = ON"),
      Opt(o.ignoreDupKeys, "IGNORE_DUP_KEY = ON"),
      Opt(o.statisticsNoRecompute, "STATISTICS_NORECOMPUTE = ON"),
      Opt(o.statisticsIncremental, "STATISTICS_INCREMENTAL = ON"),
      Opt(o.dropExisting, "DROP_EXISTING = ON"),
      Opt(o.online, "ONLINE = ON"),
      Opt(o.allowRowLocks, "ALLOW_ROW_LOCKS = ON"),
      Opt(o.allowPageLocks, "ALLOW_PAGE_LOCKS = ON"),
      Opt(o.maxDop > 0, "MAXDOP = " + Decimal(o.maxDop)),
      Opt(o.compression == RowCompression, "DATA_COMPRESSION = ROW"),
      Opt(o.compression == PageCompression, "DATA_COMPRESSION = PAGE") ]
  }

  /** The texts written for the first `k` options of a table. */
  function Items(table: seq<seq<string>>, k: nat): seq<string>
    requires k <= |table|
  {
    if k == 0 then [] else Items(table, k - 1) + table[k - 1]
  }

  function Written(o: Options): seq<string> {
    Items(Table(o), 13)
  }

  function Suffix(items: seq<string>): string {
    if items == [] then "" else " WITH " + Join(items, " | ")
  }

  // ---- reading the options back ----

  /** Which option a text is. */
  function Kind(t: string): nat {
    if t == "" then 13
    else
      match t[0]
      case 'P' => 0
      case 'F' => 1
      case 'S' => if |t| > 1 && t[1] == 'O' then 2 else if |t| > 11 && t[11] == 'N' then 4 else 5
      case 'I' => 3
      case 'D' => if |t| > 1 && t[1] == 'R' then 6 else if |t| > 19 && t[19] == 'R' then 11 else 12
      case 'O' => 7
      case 'A' => if |t| > 6 && t[6] == 'R' then 8 else 9
      case 'M' => 10
      case _ => 13
  }

  /** Entry `k` is nothing or one text of kind `k`, without a bar. */
  predicate Entry(e: seq<string>, k: nat) {
    e == [] || (|e| == 1 && Kind(e[0]) == k && '|' !in e[0])
  }

  predicate Sorted(table: seq<seq<string>>) {
    forall k :: 0 <= k < |table| ==> Entry(table[k], k)
  }

  lemma NumberEntry(c: bool, head: string, n: nat, k: nat)
    requires (head == "FILLFACTOR = " && k == 1) || (head == "MAXDOP = " && k == 10)
    ensures Entry(Opt(c, head + Decimal(n)), k)
  {
    DecimalPlain(n);
  }

  lemma Entries0To2(o: Options, k: nat)
    requires k < 3
    ensures Entry(Table(o)[k], k)
  {
    NumberEntry(o.padIndex, "FILLFACTOR = ", o.fillfactor, 1);
  }

  lemma Entries3To5(o: Options, k: nat)
    requires 3 <= k < 6
    ensures Entry(Table(o)[k], k)
  {
  }

  lemma Entries6To9(o: Options, k: nat)
    requires 6 <= k < 10
    ensures Entry(Table(o)[k], k)
  {
  }

  lemma Entries10To12(o: Options, k: nat)
    requires 10 <= k < 13
    ensures Entry(Table(o)[k], k)
  {
    NumberEntry(o.maxDop > 0, "MAXDOP = ", o.maxDop, 10);
  }

  lemma TableSorted(o: Options)
    ensures Sorted(Table(o))
  {
    var table := Table(o);
    forall k | 0 <= k < |table| ensures Entry(table[k], k) {
      if k < 3 {
        Entries0To2(o, k);
      } else if k < 6 {
        Entries3To5(o, k);
      } else if k < 10 {
        Entries6To9(o, k);
      } else {
        Entries10To12(o, k);
      }
    }
  }

  lemma {:induction false} ItemsKinds(table: seq<seq<string>>, k: nat)
    requires Sorted(table) && k <= |table|
    ensures forall t :: t in Items(table, k) ==> Kind(t) < k && '|' !in t
  {
    if k == 0 {
    } else {
      ItemsKinds(table, k - 1);
      assert Entry(table[k - 1], k - 1);
    }
  }

  lemma LastKind(r: seq<string>, a: seq<string>, k: nat)
    requires Entry(a, k) && forall t :: t in r ==> Kind(t) < k
    ensures a != [] <==> r + a != [] && Kind((r + a)[|r + a| - 1]) == k
  {
    if a == [] && r != [] {
      assert r[|r| - 1] in r;
      assert r + a == r;
    }
  }

  /** Lists of earlier kinds that end with at most one text of a kind. */
  lemma SameLast(ra: seq<string>, a: seq<string>, rb: seq<string>, b: seq<string>, k: nat)
    requires Entry(a, k) && Entry(b, k) && ra + a == rb + b
    requires forall t :: t in ra || t in rb ==> Kind(t) < k
    ensures a == b && ra == rb
  {
    var s := ra + a;
    assert s == rb + b;
    LastKind(ra, a, k);
    LastKind(rb, b, k);
    assert s[..|s| - |a|] == ra && s[..|s| - |b|] == rb && s[|s| - |a|..] == a && s[|s| - |b|..] == b;
  }

  /** A table whose entries stand in order is read back from its texts. */
  lemma {:induction false} SameItems(a: seq<seq<string>>, b: seq<seq<string>>, k: nat)
    requires Sorted(a) && Sorted(b) && k <= |a| && k <= |b| && Items(a, k) == Items(b, k)
    ensures a[..k] == b[..k]
  {
    if k == 0 {
    } else {
      ItemsKinds(a, k - 1);
      ItemsKinds(b, k - 1);
      SameLast(Items(a, k - 1), a[k - 1], Items(b, k - 1), b[k - 1], k - 1);
      SameItems(a, b, k - 1);
      assert a[..k] == a[..k - 1] + [a[k - 1]] && b[..k] == b[..k - 1] + [b[k - 1]];
    }
  }

  lemma SuffixInjective(xs: seq<string>, ys: seq<string>)
    requires FreeOf(xs, '|') && FreeOf(ys, '|') && Suffix(xs) == Suffix(ys)
    ensures xs == ys
  {
    if xs != [] && ys != [] {
      assert Suffix(xs)[6..] == Join(xs, " | ") && Suffix(ys)[6..] == Join(ys, " | ");
      JoinInjective(xs, ys, " | ", '|');
    }
  }

  lemma WrittenPlain(o: Options)
    ensures FreeOf(Written(o), '|')
  {
    TableSorted(o);
    ItemsKinds(Table(o), 13);
    var items := Written(o);
    assert forall i :: 0 <= i < |items| ==> items[i] in items;
  }

  lemma OptSame(c: bool, t: string, d: bool, u: string)
    requires Opt(c, t) == Opt(d, u)
    ensures c == d && (c ==> t == u)
  {
    if c && d {
      assert [t][0] == [u][0];
    }
  }

  lemma SameNumber(c: bool, d: bool, head: string, m: nat, n: nat)
    requires Opt(c, head + Decimal(m)) == Opt(d, head + Decimal(n))
    ensures c == d && (c ==> m == n)
  {
    OptSame(c, head + Decimal(m), d, head + Decimal(n));
    if c {
      assert (head + Decimal(m))[|head|..] == Decimal(m) && (head + Decimal(n))[|head|..] == Decimal(n);
      DecimalInjective(m, n);
    }
  }

  lemma SameNumbers(a: Options, b: Options)
    requires Table(a) == Table(b)
    ensures a.padIndex == b.padIndex && a.maxDop == b.maxDop && (a.padIndex ==> a.fillfactor == b.fillfactor)
  {
    assert Table(a)[1] == Table(b)[1] && Table(a)[10] == Table(b)[10];
    SameNumber(a.padIndex, b.padIndex, "FILLFACTOR = ", a.fillfactor, b.fillfactor);
    SameNumber(a.maxDop > 0, b.maxDop > 0, "MAXDOP = ", a.maxDop, b.maxDop);
  }

  lemma SameFlags(a: Options, b: Options)
    requires Table(a) == Table(b)
    ensures a.(padIndex := b.padIndex, fillfactor := b.fillfactor, maxDop := b.maxDop) == b
  {
    forall k | 0 <= k < 13 ensures (Table(a)[k] == []) == (Table(b)[k] == []) {
    }
    var t, u := Table(a), Table(b);
    assert t[2] == u[2] && t[3] == u[3] && t[4] == u[4] && t[5] == u[5] && t[6] == u[6];
    assert t[7] == u[7] && t[8] == u[8] && t[9] == u[9] && t[11] == u[11] && t[12] == u[12];
  }

  lemma SameTable(a: Options, b: Options)
    requires Suffix(Written(a)) == Suffix(Written(b))
    ensures Table(a) == Table(b)
  {
    WrittenPlain(a);
    WrittenPlain(b);
    SuffixInjective(Written(a), Written(b));
    TableSorted(a);
    TableSorted(b);
    SameItems(Table(a), Table(b), 13);
    assert Table(a)[..13] == Table(a) && Table(b)[..13] == Table(b);
  }

  /** The text behind the columns tells all the options. */
  lemma OptionsReadBack(a: Options, b: Options)
    requires PadInStep(a) && PadInStep(b)
    ensures Suffix(Written(a)) == Suffix(Written(b)) <==> a == b
  {
    if Suffix(Written(a)) == Suffix(Written(b)) {
      SameTable(a, b);
      SameFlags(a, b);
      SameNumbers(a, b);
    }
  }

  // ---- the columns ----

  datatype Column = Column(name: string, ascending: bool)

  function ColumnText(c: Column): string {
    c.name + (if c.ascending then " ASC" else " DESC")
  }

  function Texts(columns: seq<Column>): (texts: seq<string>)
    ensures |texts| == |columns| && forall i :: 0 <= i < |columns| ==> texts[i] == ColumnText(columns[i])
  {
    Map(columns, ColumnText)
  }

  /** What deselecting an item leaves: the texts that do not contain it with a blank behind. */
  function Remaining(fields: seq<string>, item: string): seq<string> {
    if fields == [] then []
    else
      var k := |fields| - 1;
      Remaining(fields[..k], item) + (if Find(fields[k], item + " ") != -1 then [] else [fields[k]])
  }

  /** What it should leave: the columns of other names. */
  function OtherColumns(columns: seq<Column>, item: string): seq<Column> {
    if columns == [] then []
    else
      var k := |columns| - 1;
      OtherColumns(columns[..k], item) + (if columns[k].name == item then [] else [columns[k]])
  }

  /** No other column's text holds the item with a blank behind it. */
  predicate NoneHolds(columns: seq<Column>, item: string) {
    forall i :: 0 <= i < |columns| && columns[i].name != item ==> Find(ColumnText(columns[i]), item + " ") == -1
  }

  lemma OwnText(c: Column)
    ensures Contains(ColumnText(c), c.name + " ")
  {
    assert ColumnText(c)[..|c.name| + 1] == c.name + " ";
    assert OccursAt(ColumnText(c), c.name + " ", 0);
  }

  lemma NoneHoldsLast(columns: seq<Column>, item: string)
    requires columns != []
    ensures
      var k := |columns| - 1;
      NoneHolds(columns, item) <==>
        NoneHolds(columns[..k], item) && (columns[k].name != item ==> Find(ColumnText(columns[k]), item + " ") == -1)
  {
  }

  lemma {:induction false} RemainingSize(columns: seq<Column>, item: string)
    ensures |Remaining(Texts(columns), item)| <= |OtherColumns(columns, item)|
    ensures |Remaining(Texts(columns), item)| == |OtherColumns(columns, item)| <==> NoneHolds(columns, item)
  {
    if columns == [] {
    } else {
      var k := |columns| - 1;
      assert Texts(columns)[..k] == Texts(columns[..k]);
      RemainingSize(columns[..k], item);
      OwnText(columns[k]);
      NoneHoldsLast(columns, item);
    }
  }

  lemma TextsMore(columns: seq<Column>, c: Column)
    ensures Texts(columns + [c]) == Texts(columns) + [ColumnText(c)]
  {
  }

  lemma {:induction false} RemainingTexts(columns: seq<Column>, item: string)
    requires NoneHolds(columns, item)
    ensures Remaining(Texts(columns), item) == Texts(OtherColumns(columns, item))
  {
    if columns == [] {
    } else {
      var k := |columns| - 1;
      assert Texts(columns)[..k] == Texts(columns[..k]);
      NoneHoldsLast(columns, item);
      RemainingTexts(columns[..k], item);
      OwnText(columns[k]);
      TextsMore(OtherColumns(columns[..k], item), columns[k]);
    }
  }

  /** Deselecting takes out the columns of that name exactly when no other text holds it. */
  lemma Deselects(columns: seq<Column>, item: string)
    ensures Remaining(Texts(columns), item) == Texts(OtherColumns(columns, item)) <==> NoneHolds(columns, item)
  {
    RemainingSize(columns, item);
    if NoneHolds(columns, item) {
      RemainingTexts(columns, item);
    }
  }

  lemma HoldsId()
    ensures Contains(ColumnText(Column("id", true)), "id" + " ")
    ensures Contains(ColumnText(Column("user_id", true)), "id" + " ")
  {
    OwnText(Column("id", true));
    assert ColumnText(Column("user_id", true))[5..8] == "id ";
    assert OccursAt(ColumnText(Column("user_id", true)), "id" + " ", 5);
  }

  lemma RemainingMore(fields: seq<string>, field: string, item: string)
    ensures Remaining(fields + [field], item)
         == Remaining(fields, item) + (if Find(field, item + " ") != -1 then [] else [field])
  {
    assert (fields + [field])[..|fields|] == fields;
  }

  lemma OtherMore(columns: seq<Column>, c: Column, item: string)
    ensures OtherColumns(columns + [c], item) == OtherColumns(columns, item) + (if c.name == item then [] else [c])
  {
    assert (columns + [c])[..|columns|] == columns;
  }

  /** Deselecting `id` leaves nothing of `id` and `user_id`. */
  lemma DeselectsMore()
    ensures
      var columns := [Column("id", true), Column("user_id", true)];
      Remaining(Texts(columns), "id") == [] && OtherColumns(columns, "id") == [Column("user_id", true)]
  {
    var id, userId := Column("id", true), Column("user_id", true);
    HoldsId();
    TextsMore([id], userId);
    TextsMore([], id);
    assert [] + [id] == [id] && [id] + [userId] == [id, userId];
    RemainingMore([], ColumnText(id), "id");
    RemainingMore([ColumnText(id)], ColumnText(userId), "id");
    OtherMore([], id, "id");
    OtherMore([id], userId, "id");
  }

  function Quoted(fields: seq<string>): (quoted: seq<string>)
    ensures |quoted| == |fields| && forall i :: 0 <= i < |fields| ==> quoted[i] == "\"" + fields[i] + "\""
  {
    Map(fields, (f: string) => "\"" + f + "\"")
  }

  // ---- the dialog ----

  datatype IndexKind = DefaultIndex | Unique | FullText | Spatial | Duplicate

  datatype Clustering = NoChoice | Unclustered | Clustered

  datatype IndexType = AnyType | Btree | Hash | Gist | Gin

  predicate IsServer(dbType: string, dbSubType: string) {
    (dbType == "ODBC" && dbSubType == "Microsoft SQL Server") || dbType == "Microsoft SQL Server"
  }

  predicate IsMySql(dbType: string, dbSubType: string) {
    (dbType == "ODBC" && dbSubType == "MySQL") || dbType == "MySQL"
  }

  predicate IsPostgres(dbType: string, dbSubType: string) {
    (dbType == "ODBC" && dbSubType == "PostgreSQL") || dbType == "PostgreSQL"
  }

  lemma OneDatabase(dbType: string, dbSubType: string)
    ensures !(IsServer(dbType, dbSubType) && IsMySql(dbType, dbSubType))
    ensures !(IsServer(dbType, dbSubType) && IsPostgres(dbType, dbSubType))
    ensures !(IsMySql(dbType, dbSubType) && IsPostgres(dbType, dbSubType))
    ensures IsServer("Microsoft SQL Server", dbSubType) && IsServer("ODBC", "Microsoft SQL Server")
    ensures IsMySql("MySQL", dbSubType) && IsMySql("ODBC", "MySQL")
    ensures IsPostgres("PostgreSQL", dbSubType) && IsPostgres("ODBC", "PostgreSQL")
  {
    assert "ODBC"[0] == 'O' && "MySQL"[1] == 'y' && "Microsoft SQL Server"[1] == 'i' && "PostgreSQL"[1] == 'o';
    assert |"MySQL"| == 5 && |"PostgreSQL"| == 10;
  }

  /** What the dialog has been set to, with the database it is for. */
  datatype Settings = Settings(
    dbType: string, dbSubType: string, table: string, name: string, kind: IndexKind, clustering: Clustering,
    concurrently: bool, indexType: IndexType, fields: seq<string>, radios: Radios, options: Options,
    fastUpdate: bool, tablespace: string)
  {
    predicate Server() {
      IsServer(dbType, dbSubType)
    }

    predicate MySql() {
      IsMySql(dbType, dbSubType)
    }

    predicate Postgres() {
      IsPostgres(dbType, dbSubType)
    }
  }

  function When(on: bool, text: string): string {
    if on then text else ""
  }

  function HeadKind(s: Settings): string {
    "CREATE " + When(s.kind == Unique, "UNIQUE ")
    + When(s.Server() && s.clustering == Unclustered, "UNCLUSTERED ")
    + When(s.Server() && s.clustering == Clustered, "CLUSTERED ")
    + When(s.MySql() && s.kind == FullText, "FULLTEXT ") + When(s.MySql() && s.kind == Spatial, "SPATIAL ")
  }

  function HeadIndex(s: Settings): string {
    HeadKind(s) + "INDEX " + When(s.Postgres() && s.concurrently, "CONCURRENTLY ")
  }

  function HeadName(s: Settings): string {
    HeadIndex(s) + (s.name + " ")
    + When(s.MySql() && s.indexType == Btree, "USING BTREE ") + When(s.MySql() && s.indexType == Hash, "USING HASH ")
  }

  /** The command up to the columns. */
  function Head(s: Settings): string {
    HeadName(s) + ("ON " + s.table + " ")
    + When(s.Postgres() && s.indexType == Btree, "USING BTREE ")
    + When(s.Postgres() && s.indexType == Hash, "USING HASH ")
    + When(s.Postgres() && s.indexType == Gist, "USING GIST ") + When(s.Postgres() && s.indexType == Gin, "USING GIN ")
  }

  /** Without columns the parenthesis stays open. */
  function ColumnList(fields: seq<string>): string {
    "(" + (if fields == [] then "" else Join(Quoted(fields), ",") + ")")
  }

  function Create(s: Settings): string {
    Head(s) + ColumnList(s.fields)
  }

  function FastUpdate(on: bool): string {
    " WITH FASTUPDATE=" + (if on then "ON" else "OFF")
  }

  /** The update handlers enable the fill factor for these index types, fast update for GIN. */
  predicate FillfactorEnabled(t: IndexType) {
    t == Btree || t == Hash || t == Gist
  }

  function PostgresText(s: Settings): string {
    if s.indexType == Gin then FastUpdate(s.fastUpdate)
    else Create(s) + When(FillfactorEnabled(s.indexType), " WITH FILLFACTOR=" + Decimal(s.options.fillfactor))
  }

  /** The command: for a GIN index of PostgreSQL the part that creates it is overwritten. */
  function Command(s: Settings): string {
    (if s.MySql() then Create(s) + AlgorithmClause(s.radios) + LockClause(s.radios)
     else if s.Server() then Create(s) + Suffix(Written(s.options))
     else if s.Postgres() then PostgresText(s) + When(s.tablespace != "", " TABLESPACE " + s.tablespace)
     else Create(s)) + ";"
  }

  lemma HeadBegins(s: Settings)
    ensures Head(s) != "" && Head(s)[0] == 'C'
  {
    assert HeadKind(s)[0] == 'C';
    assert HeadIndex(s)[0] == 'C';
    assert HeadName(s)[0] == 'C';
  }

  lemma Between(head: string, x: string, y: string)
    ensures head + x + ";" == head + y + ";" <==> x == y
  {
    if head + x + ";" == head + y + ";" {
      var s := head + x + ";";
      assert s[|head|..|s| - 1] == x && s == head + y + ";" && s[|head|..|s| - 1] == y;
    }
  }

  /** For SQL Server commands that differ in the options only are different. */
  lemma CommandsDiffer(s: Settings, o: Options)
    requires s.Server() && PadInStep(s.options) && PadInStep(o)
    ensures Command(s) == Command(s.(options := o)) <==> s.options == o
  {
    OneDatabase(s.dbType, s.dbSubType);
    var create, x, y := Create(s), Suffix(Written(s.options)), Suffix(Written(o));
    assert Create(s.(options := o)) == create;
    Between(create, x, y);
    OptionsReadBack(s.options, o);
  }

  /** For PostgreSQL the command begins with the text that creates the index exactly when its type is not GIN. */
  lemma GinLosesCommand(s: Settings)
    requires s.Postgres()
    ensures Create(s) <= Command(s) <==> s.indexType != Gin
  {
    OneDatabase(s.dbType, s.dbSubType);
    HeadBegins(s);
    if s.indexType == Gin {
      assert Create(s)[0] == 'C' && Command(s)[0] == ' ';
    }
  }

  /** The command so far is `start` and the options `items`; `with` says whether there are any. */
  predicate Continues(command: string, with: bool, start: string, items: seq<string>) {
    command == start + Suffix(items) && with == (items != [])
  }

  lemma SuffixFirst(start: string, text: string)
    ensures start + (" WITH " + text) == start + "" + " WITH " + text
  {
    assert start + "" == start;
  }

  lemma SuffixNext(start: string, joined: string, text: string)
    ensures start + (" WITH " + (joined + " | " + text)) == start + (" WITH " + joined) + " | " + text
  {
    assert " WITH " + (joined + " | " + text) == " WITH " + joined + " | " + text;
    Assoc(start, " WITH " + joined + " | ", text);
    Assoc(start, " WITH " + joined, " | ");
  }

  lemma SuffixMore(start: string, items: seq<string>, text: string)
    ensures start + Suffix(items + [text]) == start + Suffix(items) + (if items == [] then " WITH " else " | ") + text
  {
    if items == [] {
      assert [] + [text] == [text];
      SuffixFirst(start, text);
    } else {
      JoinAppend(items, text, " | ");
      SuffixNext(start, Join(items, " | "), text);
    }
  }

  /** Writing one more option behind those written. */
  method AddOption(command: string, with: bool, on: bool, text: string, ghost start: string, ghost items: seq<string>)
    returns (c: string, w: bool, ghost more: seq<string>)
    requires Continues(command, with, start, items)
    ensures more == items + Opt(on, text) && Continues(c, w, start, more)
  {
    c, w := command, with;
    more := items + Opt(on, text);
    if on {
      if w {
        c := c + " | ";
      } else {
        w := true;
        c := c + " WITH ";
      }
      c := c + text;
      SuffixMore(start, items, text);
    } else {
      assert more == items;
    }
  }

  function PadTexts(o: Options): seq<string> {
    if o.padIndex then ["PAD_INDEX = ON", "FILLFACTOR = " + Decimal(o.fillfactor)] else []
  }

  lemma PadFirst(o: Options)
    ensures Items(Table(o), 2) == PadTexts(o)
  {
    assert Items(Table(o), 2) == Items(Table(o), 1) + Table(o)[1];
    assert Items(Table(o), 1) == Items(Table(o), 0) + Table(o)[0];
  }

  lemma LastItems(t: seq<seq<string>>)
    requires |t| == 13
    ensures Items(t, 13) == Items(t, 2) + t[2] + t[3] + t[4] + t[5] + t[6] + t[7] + t[8] + t[9] + t[10] + t[11] + t[12]
  {
    assert Items(t, 7) == Items(t, 2) + t[2] + t[3] + t[4] + t[5] + t[6] by {
      assert Items(t, 4) == Items(t, 2) + t[2] + t[3];
      assert Items(t, 6) == Items(t, 4) + t[4] + t[5];
    }
    assert Items(t, 9) == Items(t, 7) + t[7] + t[8];
    assert Items(t, 11) == Items(t, 9) + t[9] + t[10];
  }

  /** The texts of the options on how the index is built. */
  function BuildTexts(o: Options): seq<string> {
    PadTexts(o) + Opt(o.sortTempDB, "SORT_IN_TEMPDB = ON") + Opt(o.ignoreDupKeys, "IGNORE_DUP_KEY = ON")
    + Opt(o.statisticsNoRecompute, "STATISTICS_NORECOMPUTE = ON")
    + Opt(o.statisticsIncremental, "STATISTICS_INCREMENTAL = ON") + Opt(o.dropExisting, "DROP_EXISTING = ON")
  }

  /** The texts written are those of the options that are set, in order. */
  lemma WrittenTexts(o: Options)
    ensures Written(o) ==
      BuildTexts(o) + Opt(o.online, "ONLINE = ON") + Opt(o.allowRowLocks, "ALLOW_ROW_LOCKS = ON")
      + Opt(o.allowPageLocks, "ALLOW_PAGE_LOCKS = ON") + Opt(o.maxDop > 0, "MAXDOP = " + Decimal(o.maxDop))
      + Opt(o.compression == RowCompression, "DATA_COMPRESSION = ROW")
      + Opt(o.compression == PageCompression, "DATA_COMPRESSION = PAGE")
  {
    var t := Table(o);
    PadFirst(o);
    LastItems(t);
  }

  method AddBuildOptions(command: string, with: bool, o: Options, ghost start: string) returns (c: string, w: bool)
    requires Continues(command, with, start, PadTexts(o))
    ensures Continues(c, w, start, BuildTexts(o))
  {
    ghost var items;
    c, w, items := AddOption(command, with, o.sortTempDB, "SORT_IN_TEMPDB = ON", start, PadTexts(o));
    c, w, items := AddOption(c, w, o.ignoreDupKeys, "IGNORE_DUP_KEY = ON", start, items);
    c, w, items := AddOption(c, w, o.statisticsNoRecompute, "STATISTICS_NORECOMPUTE = ON", start, items);
    c, w, items := AddOption(c, w, o.statisticsIncremental, "STATISTICS_INCREMENTAL = ON", start, items);
    c, w, items := AddOption(c, w, o.dropExisting, "DROP_EXISTING = ON", start, items);
  }

  method AddOptions(command: string, with: bool, o: Options, ghost start: string) returns (c: string)
    requires Continues(command, with, start, PadTexts(o))
    ensures c == start + Suffix(Written(o))
  {
    var w: bool;
    ghost var items := BuildTexts(o);
    c, w := AddBuildOptions(command, with, o, start);
    c, w, items := AddOption(c, w, o.online, "ONLINE = ON", start, items);
    c, w, items := AddOption(c, w, o.allowRowLocks, "ALLOW_ROW_LOCKS = ON", start, items);
    c, w, items := AddOption(c, w, o.allowPageLocks, "ALLOW_PAGE_LOCKS = ON", start, items);
    c, w, items := AddOption(c, w, o.maxDop > 0, "MAXDOP = " + Decimal(o.maxDop), start, items);
    c, w, items := AddOption(c, w, o.compression == RowCompression, "DATA_COMPRESSION = ROW", start, items);
    c, w, items := AddOption(c, w, o.compression == PageCompression, "DATA_COMPRESSION = PAGE", start, items);
    WrittenTexts(o);
  }

  /** What the loop over the columns has written before column `i`. */
  function ColumnsTo(fields: seq<string>, i: nat): string
    requires i <= |fields|
  {
    if i == 0 then "(" else "(" + (Join(Quoted(fields)[..i], ",") + (if i == |fields| then ")" else ","))
  }

  lemma AllColumns(fields: seq<string>)
    ensures ColumnsTo(fields, |fields|) == ColumnList(fields)
  {
    assert Quoted(fields)[..|fields|] == Quoted(fields);
  }

  lemma JoinedForm(joined: string, q: string, end: string)
    ensures "(" + (joined + "," + q + end) == "(" + (joined + ",") + (q + end)
  {
    Assoc(joined + ",", q, end);
    Assoc("(", joined + ",", q + end);
  }

  lemma QuoteForm(head: string, list: string, field: string, end: string)
    ensures head + (list + ("\"" + field + "\"" + end)) == head + list + "\"" + field + "\"" + end
  {
    Assoc(head, list, "\"" + field + "\"" + end);
    Assoc(head + list, "\"" + field + "\"", end);
    Assoc(head + list, "\"" + field, "\"");
    Assoc(head + list, "\"", field);
  }

  lemma QuotedMore(head: string, fields: seq<string>, i: nat)
    requires i < |fields|
    ensures
      var end := if i == |fields| - 1 then ")" else ",";
      head + ColumnsTo(fields, i + 1) == head + ColumnsTo(fields, i) + "\"" + fields[i] + "\"" + end
  {
    var end := if i == |fields| - 1 then ")" else ",";
    var q := "\"" + fields[i] + "\"";
    var done := Quoted(fields)[..i];
    assert Quoted(fields)[..i + 1] == done + [q];
    if i == 0 {
      assert done + [q] == [q];
      QuoteForm(head, "(", fields[i], end);
    } else {
      JoinAppend(done, q, ",");
      JoinedForm(Join(done, ","), q, end);
      QuoteForm(head, "(" + (Join(done, ",") + ","), fields[i], end);
    }
  }

  /** The loop over the columns. */
  method WriteColumns(head: string, fields: seq<string>) returns (command: string)
    ensures command == head + ColumnList(fields)
  {
    command := head + "(";
    for i := 0 to |fields|
      invariant command == head + ColumnsTo(fields, i)
    {
      QuotedMore(head, fields, i);
      command := command + "\"";
      command := command + fields[i];
      command := command + "\"";
      if i == |fields| - 1 {
        command := command + ")";
      } else {
        command := command + ",";
      }
    }
    AllColumns(fields);
  }

  lemma NoText()
    ensures forall c: string {:trigger c + ""} :: c + "" == c
  {
  }

  lemma PadForm(n: string)
    ensures " WITH " + ("PAD_INDEX = ON" + " | " + ("FILLFACTOR = " + n)) == " WITH PAD_INDEX = ON | FILLFACTOR = " + n
  {
    var a, b := "PAD_INDEX = ON" + " | ", "FILLFACTOR = ";
    Assoc(a, b, n);
    Assoc(" WITH ", a + b, n);
    assert " WITH " + (a + b) == " WITH PAD_INDEX = ON | FILLFACTOR = ";
  }

  lemma PadText(start: string, n: string)
    ensures start + Suffix(["PAD_INDEX = ON", "FILLFACTOR = " + n])
         == start + " WITH PAD_INDEX = ON | FILLFACTOR = " + n
  {
    var f := "FILLFACTOR = " + n;
    assert ["PAD_INDEX = ON", f][1..] == [f];
    assert Join(["PAD_INDEX = ON", f], " | ") == "PAD_INDEX = ON" + " | " + f;
    PadForm(n);
    Assoc(start, " WITH PAD_INDEX = ON | FILLFACTOR = ", n);
  }

  lemma PadItems(start: string, o: Options)
    ensures start + Suffix(PadTexts(o)) ==
            if o.padIndex then start + " WITH PAD_INDEX = ON | FILLFACTOR = " + Decimal(o.fillfactor) else start
  {
    if o.padIndex {
      PadText(start, Decimal(o.fillfactor));
    } else {
      assert start + "" == start;
    }
  }

  class CreateIndex {
    const dbType: string
    const dbSubType: string
    const table: string
    const indexColumns: FieldWindow
    var name: string
    var kind: IndexKind
    var clustering: Clustering
    var concurrently: bool
    var indexType: IndexType
    var ascending: bool
    var fields: seq<string>
    var radios: Radios
    var options: Options
    var fastUpdate: bool
    var tablespace: string
    var command: string

    function Set(): Settings
      reads this
    {
      Settings(dbType, dbSubType, table, name, kind, clustering, concurrently, indexType, fields, radios, options,
               fastUpdate, tablespace)
    }

    /** Buttons and padding are in step. */
    predicate Choices()
      reads this
    {
      OneChoice(radios) && PadInStep(options)
    }

    /** The strip shows the columns. */
    ghost predicate ColumnsShown()
      reads this, indexColumns
    {
      indexColumns.Aligned() && indexColumns.Ready() && indexColumns.selectedFields == fields
    }

    constructor (dbType: string, dbSubType: string, table: string, indexColumns: FieldWindow)
      requires indexColumns.Aligned() && indexColumns.Ready() && indexColumns.selectedFields == []
      ensures Choices() && ColumnsShown() && this.indexColumns == indexColumns && fields == [] && command == ""
      ensures this.dbType == dbType && this.dbSubType == dbSubType && this.table == table
      ensures name == "" && kind == DefaultIndex && clustering == NoChoice && !concurrently && ascending && fastUpdate
      ensures radios == FIRST_RADIOS && tablespace == "" && !options.padIndex && options.fillfactor == 0
      ensures indexType == if IsPostgres(dbType, dbSubType) then Btree else AnyType
    {
      this.dbType, this.dbSubType, this.table, this.indexColumns := dbType, dbSubType, table, indexColumns;
      name, kind, clustering, concurrently := "", DefaultIndex, NoChoice, false;
      indexType := if IsPostgres(dbType, dbSubType) then Btree else AnyType;
      ascending, fields, radios := true, [], FIRST_RADIOS;
      options := Options(false, 0, false, false, false, false, false, false, false, false, 0, NoCompression);
      fastUpdate, tablespace, command := true, "", "";
    }

    method OnAlgorythmLockDefault()
      modifies this`radios
      ensures radios == if IsMySql(dbType, dbSubType) then old(radios).(algorithmEnabled := true, lockEnabled := true)
                        else old(radios)
    {
      if IsMySql(dbType, dbSubType) {
        radios := radios.(algorithmEnabled := true, lockEnabled := true);
      }
    }

    method OnAlgorythm()
      modifies this`radios
      ensures radios == if IsMySql(dbType, dbSubType) then old(radios).(algorithmEnabled := true, lockEnabled := false)
                        else old(radios)
    {
      if IsMySql(dbType, dbSubType) {
        radios := radios.(algorithmEnabled := true, lockEnabled := false);
      }
    }

    method OnLock()
      modifies this`radios
      ensures radios == if IsMySql(dbType, dbSubType) then old(radios).(algorithmEnabled := false, lockEnabled := true)
                        else old(radios)
    {
      if IsMySql(dbType, dbSubType) {
        radios := radios.(algorithmEnabled := false, lockEnabled := true);
      }
    }

    /** A click on one of the radio buttons, which only exist for MySQL, and the handler bound to it. */
    method ClickRadio(c: Click)
      requires Choices() && IsMySql(dbType, dbSubType)
      modifies this`radios
      ensures Choices() && radios == Clicked(old(radios), c)
      ensures c.ClickAlgorithm? ==>
                && radios.algorithm == (if old(radios.algorithmEnabled) then c.algorithm else old(radios.algorithm))
                && radios.lockMode == old(radios.lockMode)
      ensures c.ClickLock? ==>
                && radios.lockMode == (if old(radios.lockEnabled) then c.lockMode else old(radios.lockMode))
                && radios.algorithm == old(radios.algorithm)
    {
      if CanClick(radios, c) {
        match c
        case ClickAlgorithm(a) =>
          radios := radios.(algorithm := a);
          if a == AnyAlgorithm {
            OnAlgorythmLockDefault();
          } else {
            OnAlgorythm();
          }
        case ClickLock(l) =>
          radios := radios.(lockMode := l);
          if l == AnyLock {
            OnAlgorythmLockDefault();
          } else {
            OnLock();
          }
      }
    }

    /** The check box has been clicked. */
    method OnPadIndex(checked: bool)
      requires Choices()
      modifies this`options
      ensures Choices() && options == old(options).(padIndex := checked, fillfactor := if checked then 1 else 0)
    {
      options := options.(padIndex := checked);
      if checked {
        options := options.(fillfactor := 1);
      } else {
        options := options.(fillfactor := 0);
      }
    }

    /** The spin control has been set. */
    method OnFillFactor(value: nat)
      requires Choices()
      modifies this`options
      ensures Choices() && options == old(options).(padIndex := value != 0, fillfactor := value)
    {
      options := options.(fillfactor := value);
      if options.fillfactor == 0 {
        options := options.(padIndex := false);
      } else {
        options := options.(padIndex := true);
      }
    }

    method OnFieldSelection(item: string)
      requires ColumnsShown()
      modifies this`fields, indexColumns
      ensures ColumnsShown() && fields == old(fields) + [ColumnText(Column(item, ascending))]
      ensures fields == old(fields) + [if ascending then item + " ASC" else item + " DESC"]
    {
      var sortOrder := if ascending then " ASC" else " DESC";
      indexColumns.AddField(item + sortOrder);
      fields := fields + [item + sortOrder];
    }

    method OnFieldsDeselection(item: string)
      requires ColumnsShown()
      modifies this`fields, indexColumns
      ensures ColumnsShown() && fields == Remaining(old(fields), item)
    {
      fields := Remaining(fields, item);
      indexColumns.RemoveField(fields);
    }

    method Verify() returns (success: bool)
      ensures success <==> name != "" && fields != []
    {
      success := true;
      if name == "" {
        success := false;
      }
      if success && fields == [] {
        success := false;
      }
    }

    method WriteKind()
      modifies this`command
      ensures command == HeadKind(Set())
    {
      command := "CREATE ";
      if kind == Unique {
        command := command + "UNIQUE ";
      }
      if IsServer(dbType, dbSubType) {
        if clustering == Unclustered {
          command := command + "UNCLUSTERED ";
        }
        if clustering == Clustered {
          command := command + "CLUSTERED ";
        }
      }
      if IsMySql(dbType, dbSubType) {
        if kind == FullText {
          command := command + "FULLTEXT ";
        }
        if kind == Spatial {
          command := command + "SPATIAL ";
        }
      }
      NoText();
    }

    method WriteIndex()
      requires command == HeadKind(Set())
      modifies this`command
      ensures command == HeadIndex(Set())
    {
      command := command + "INDEX ";
      if IsPostgres(dbType, dbSubType) {
        if concurrently {
          command := command + "CONCURRENTLY ";
        }
      }
      NoText();
    }

    method WriteName()
      requires command == HeadIndex(Set())
      modifies this`command
      ensures command == HeadName(Set())
    {
      command := command + (name + " ");
      if IsMySql(dbType, dbSubType) {
        if indexType == Btree {
          command := command + "USING BTREE ";
        }
        if indexType == Hash {
          command := command + "USING HASH ";
        }
      }
      NoText();
    }

    method WriteTable()
      requires command == HeadName(Set())
      modifies this`command
      ensures command == Head(Set())
    {
      command := command + ("ON " + table + " ");
      if IsPostgres(dbType, dbSubType) {
        if indexType == Btree {
          command := command + "USING BTREE ";
        }
        if indexType == Hash {
          command := command + "USING HASH ";
        }
        if indexType == Gist {
          command := command + "USING GIST ";
        }
        if indexType == Gin {
          command := command + "USING GIN ";
        }
      }
      NoText();
    }

    method WriteCreate()
      modifies this`command
      ensures command == Create(Set())
    {
      WriteKind();
      WriteIndex();
      WriteName();
      WriteTable();
      command := WriteColumns(command, fields);
    }

    method WriteMySql()
      modifies this`command
      ensures command == old(command) + AlgorithmClause(radios) + LockClause(radios)
    {
      if radios.algorithmEnabled && radios.algorithm == InPlace {
        command := command + " ALGORITHM=INPLACE";
      }
      if radios.algorithmEnabled && radios.algorithm == Copy {
        command := command + " ALGORITHM=COPY";
      }
      if radios.lockEnabled && radios.lockMode == LockNone {
        command := command + " LOCK=NONE";
      }
      if radios.lockEnabled && radios.lockMode == LockShared {
        command := command + " LOCK=SHARED";
      }
      if radios.lockEnabled && radios.lockMode == LockExclusive {
        command := command + " LOCK=EXCLUSIVE";
      }
      NoText();
    }

    method WritePostgres()
      requires command == Create(Set())
      modifies this`command
      ensures command == PostgresText(Set()) + When(tablespace != "", " TABLESPACE " + tablespace)
    {
      if FillfactorEnabled(indexType) {
        Assoc(command, " WITH FILLFACTOR=", Decimal(options.fillfactor));
        command := command + " WITH FILLFACTOR=";
        command := command + Decimal(options.fillfactor);
      }
      if indexType == Gin {
        if fastUpdate {
          command := " WITH FASTUPDATE=ON";
        } else {
          command := " WITH FASTUPDATE=OFF";
        }
      }
      NoText();
      assert command == PostgresText(Set());
      var temp := tablespace;
      if temp != "" {
        command := command + (" TABLESPACE " + temp);
      }
    }

    method WriteServer()
      modifies this`command
      ensures command == old(command) + Suffix(Written(options))
    {
      var c, with := command, false;
      if options.padIndex {
        with := true;
        c := c + " WITH PAD_INDEX = ON | FILLFACTOR = ";
        c := c + Decimal(options.fillfactor);
      }
      PadItems(command, options);
      command := AddOptions(c, with, options, command);
    }

    method GenerateQuery()
      modifies this`command
      ensures command == Command(Set())
    {
      OneDatabase(dbType, dbSubType);
      WriteCreate();
      if IsMySql(dbType, dbSubType) {
        WriteMySql();
      }
      if IsPostgres(dbType, dbSubType) {
        WritePostgres();
      }
      if IsServer(dbType, dbSubType) {
        WriteServer();
      }
      command := command + ";";
    }

    /** OK and Log Only: the dialog ends with a command exactly when there are a name and a column. */
    method OnOkShowLog() returns (closed: bool)
      modifies this`command
      ensures closed <==> name != "" && fields != []
      ensures command == if closed then Command(Set()) else old(command)
    {
      closed := Verify();
      if closed {
        GenerateQuery();
      }
    }
  }
}
