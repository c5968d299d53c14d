/** The newer `dbmessiah` table descriptor: a table's schema and class, its
    primary, foreign and other columns, and the back-references its
    construction writes into those columns; the column lists its insert and
    update statements use and how they render; and the registry consistency
    rules a set of table descriptors and procedures must satisfy. */
module TableInfos {
  import opened Model
  import ListExt

  // ---------------------------------------------------------------- columns

  /** A column of a table (primary, foreign or other) or an argument-like
      column: the property it stores, its database and JDBC types, its opaque
      encoder and decoder, and its flags. `table` is written by the owning
      table's construction; `foreignTable` is set afterwards for a foreign
      column and stays null until then. */
  class Column {
    const kprop: Property
    const dbType: string
    const jdbcType: nat
    const encoder: nat
    const decoder: nat
    const unique: bool
    const notNull: bool
    const autoInc: bool
    const autoUUID: bool
    const cascadeUpdate: bool
    const cascadeDelete: bool
    var table: TableInfo?
    var foreignTable: TableInfo?

    constructor (kprop: Property, dbType: string, jdbcType: nat, encoder: nat, decoder: nat,
                 unique: bool, notNull: bool, autoInc: bool, autoUUID: bool,
                 cascadeUpdate: bool, cascadeDelete: bool)
      ensures this.kprop == kprop && this.dbType == dbType && this.jdbcType == jdbcType
      ensures this.encoder == encoder && this.decoder == decoder
      ensures this.unique == unique && this.notNull == notNull
      ensures this.autoInc == autoInc && this.autoUUID == autoUUID
      ensures this.cascadeUpdate == cascadeUpdate && this.cascadeDelete == cascadeDelete
      ensures table == null && foreignTable == null
    {
      this.kprop, this.dbType, this.jdbcType := kprop, dbType, jdbcType;
      this.encoder, this.decoder := encoder, decoder;
      this.unique, this.notNull := unique, notNull;
      this.autoInc, this.autoUUID := autoInc, autoUUID;
      this.cascadeUpdate, this.cascadeDelete := cascadeUpdate, cascadeDelete;
      table, foreignTable := null, null;
    }

    /** The column's (unescaped) name: its property's name. */
    function Name(): string {
      kprop.name
    }
  }

  // ------------------------------------------------------------ path, hash

  /** `listOf(schema, name).joinToString(".")`. */
  function PathOf(schema: string, name: string): (r: string)
    ensures |r| == |schema| + 1 + |name|
    ensures r[..|schema|] == schema && r[|schema|] == '.' && r[|schema| + 1..] == name
  {
    Join([schema, name], ".")
  }

  /** A schema name without dots can be read back from the path: the path
      determines both the schema and the table name. */
  lemma PathDeterminesSchemaAndName(s1: string, n1: string, s2: string, n2: string)
    requires '.' !in s1 && '.' !in s2
    requires PathOf(s1, n1) == PathOf(s2, n2)
    ensures s1 == s2 && n1 == n2
  {
    var p := PathOf(s1, n1);
    assert forall k :: 0 <= k < |s1| ==> p[k] != '.';
    assert forall k :: 0 <= k < |s2| ==> p[k] != '.';
    assert |s1| == |s2|;
  }

  const TWO_31: int := 0x8000_0000
  const TWO_32: int := 0x1_0000_0000

  /** A Java `int` result: `x` reduced into the signed 32-bit range. */
  function Wrap32(x: int): (r: int)
    ensures -TWO_31 <= r < TWO_31
    ensures (x - r) % TWO_32 == 0
  {
    (x + TWO_31) % TWO_32 - TWO_31
  }

  /** `String.hashCode`: `h = 31 * h + c` over the characters, with the
      32-bit wrap-around of Java's `int`. */
  function JavaHash(s: string): (r: int)
    ensures -TWO_31 <= r < TWO_31
  {
    if s == [] then 0 else Wrap32(31 * JavaHash(s[..|s| - 1]) + s[|s| - 1] as int)
  }

  // ------------------------------------------------------------- the table

  /** `TableInfo`: a table of a schema. Construction points the `table`
      back-reference of each of its columns at it. */
  class TableInfo {
    const schema: string
    const kclass: ClassDesc
    const primaryColumn: Column
    const foreignColumns: seq<Column>
    const otherColumns: seq<Column>
    const typeSerializers: seq<TypeSerializer>

    /** Every column, primary first, then the foreign, then the others. */
    function Columns(): seq<Column> {
      [primaryColumn] + foreignColumns + otherColumns
    }

    /** The set of the table's column objects. */
    function ColumnSet(): set<Column> {
      set c | c in Columns()
    }

    /** Construction: every column of the table, and no other object, now
        points back at the new table; foreign targets stay as they were. A
        column object shared with an earlier table is re-pointed here. */
    constructor (schema: string, kclass: ClassDesc, primaryColumn: Column, foreignColumns: seq<Column>,
                 otherColumns: seq<Column>, typeSerializers: seq<TypeSerializer>)
      modifies {primaryColumn} + (set c | c in foreignColumns) + (set c | c in otherColumns)
      ensures this.schema == schema && this.kclass == kclass && this.primaryColumn == primaryColumn
      ensures this.foreignColumns == foreignColumns && this.otherColumns == otherColumns
      ensures this.typeSerializers == typeSerializers
      ensures forall c :: c in Columns() ==> c.table == this
      ensures forall c :: c in Columns() ==> c.foreignTable == old(c.foreignTable)
    {
      this.schema, this.kclass, this.primaryColumn := schema, kclass, primaryColumn;
      this.foreignColumns, this.otherColumns := foreignColumns, otherColumns;
      this.typeSerializers := typeSerializers;
      new;
      var cols := [primaryColumn] + foreignColumns + otherColumns;
      for i := 0 to |cols|
        modifies set c | c in cols
        invariant forall j :: 0 <= j < i ==> cols[j].table == this
        invariant forall c :: c in cols ==> c.foreignTable == old(c.foreignTable)
      {
        cols[i].table := this;
      }
    }

    /** `name`: the class's simple name. */
    function Name(): string {
      kclass.name
    }

    /** `path`, which is also what `toString` returns. */
    function Path(): string {
      PathOf(schema, Name())
    }

    /** `equals`: the same object, or another table with the same path. */
    predicate Equals(other: TableInfo?) {
      if other == this then true
      else if other == null then false
      else Path() == other.Path()
    }

    /** `hashCode`: the hash of the path. */
    function HashCode(): int {
      JavaHash(Path())
    }

    /** `getColumn`: the first column, in primary, foreign, other order, that
        stores the property, or null. */
    function GetColumn(kprop: Property): (r: Column?)
      ensures r != null ==> exists i :: 0 <= i < |Columns()| && Columns()[i] == r && r.kprop == kprop
                              && forall j :: 0 <= j < i ==> Columns()[j].kprop != kprop
      ensures r == null <==> forall c :: c in Columns() ==> c.kprop != kprop
    {
      match FirstWhere(Columns(), Stores(kprop))
      case Some(c) => c
      case None => null
    }

    /** The columns of the insert row builder: the primary column leads
        unless the database generates its value. */
    function InsertColumns(): (r: seq<Column>)
      ensures primaryColumn.autoInc || primaryColumn.autoUUID ==> r == foreignColumns + otherColumns
      ensures !(primaryColumn.autoInc || primaryColumn.autoUUID) ==> r == Columns()
    {
      var columns := foreignColumns + otherColumns;
      if primaryColumn.autoInc || primaryColumn.autoUUID then columns else [primaryColumn] + columns
    }

    /** The columns of the update row builder. */
    function UpdateColumns(): (r: seq<Column>)
      ensures r == Columns()[1..]
    {
      foreignColumns + otherColumns
    }
  }

  function Stores(kprop: Property): Column -> bool {
    (c: Column) => c.kprop == kprop
  }

  /** The properties stored by a list of columns, in order. */
  function Props(cols: seq<Column>): (r: seq<Property>)
    ensures |r| == |cols| && forall i :: 0 <= i < |cols| ==> r[i] == cols[i].kprop
  {
    seq(|cols|, i requires 0 <= i < |cols| => cols[i].kprop)
  }

  /** `equals` is the path comparison, so it is symmetric and agrees with
      `hashCode`; two tables of the same schema and class are equal. */
  lemma EqualsIsPathEquality(a: TableInfo, b: TableInfo?)
    ensures a.Equals(b) <==> b != null && a.Path() == b.Path()
    ensures a.Equals(b) ==> b.Equals(a) && a.HashCode() == b.HashCode()
    ensures b != null && a.schema == b.schema && a.kclass.name == b.kclass.name ==> a.Equals(b)
  {
  }

  /** With the primary column not repeated among the foreign and other
      columns, it is in the insert list exactly when its value is not
      generated, and then only in front; it is never in the update list. */
  lemma {:induction false} PrimaryKeyPlacement(t: TableInfo)
    requires t.primaryColumn !in t.foreignColumns + t.otherColumns
    ensures t.primaryColumn in t.InsertColumns() <==> !(t.primaryColumn.autoInc || t.primaryColumn.autoUUID)
    ensures forall i :: 0 < i < |t.InsertColumns()| ==> t.InsertColumns()[i] != t.primaryColumn
    ensures t.primaryColumn !in t.UpdateColumns()
  {
    var cols := t.Columns();
    forall i | 0 < i < |cols| ensures cols[i] != t.primaryColumn {
      assert cols[i] == (t.foreignColumns + t.otherColumns)[i - 1];
    }
    forall c | c in t.UpdateColumns() ensures c != t.primaryColumn {
      var i :| 0 <= i < |t.UpdateColumns()| && t.UpdateColumns()[i] == c;
      assert cols[i + 1] == c;
    }
    if t.primaryColumn.autoInc || t.primaryColumn.autoUUID {
      assert t.InsertColumns() == t.UpdateColumns();
    } else {
      assert t.InsertColumns() == cols;
      forall i | 0 < i < |t.InsertColumns()| ensures t.InsertColumns()[i] != t.primaryColumn {
        assert t.InsertColumns()[i] == cols[i];
      }
    }
  }

  // -------------------------------------------------------------- rendering

  /** Each column name wrapped in the quote string. */
  function QuotedNames(cols: seq<Column>, quote: string): (r: seq<string>)
    ensures |r| == |cols|
    ensures forall i :: 0 <= i < |cols| ==> r[i] == quote + cols[i].Name() + quote
  {
    if cols == [] then [] else [quote + cols[0].Name() + quote] + QuotedNames(cols[1..], quote)
  }

  /** Each column rendered as an assignment to a placeholder. */
  function Assignments(cols: seq<Column>, quote: string): (r: seq<string>)
    ensures |r| == |cols|
    ensures forall i :: 0 <= i < |cols| ==> r[i] == quote + cols[i].Name() + quote + " = ?"
  {
    if cols == [] then [] else [quote + cols[0].Name() + quote + " = ?"] + Assignments(cols[1..], quote)
  }

  /** One placeholder per column. */
  function Questions(n: nat): (r: seq<string>)
    ensures |r| == n && forall i :: 0 <= i < n ==> r[i] == "?"
  {
    if n == 0 then [] else ["?"] + Questions(n - 1)
  }

  /** The column list of an insert: quoted names separated by ", ". */
  function SqlColumns(cols: seq<Column>, quote: string): string {
    Join(QuotedNames(cols, quote), ", ")
  }

  /** The values list of an insert. */
  function SqlQuestions(cols: seq<Column>): string {
    Join(Questions(|cols|), ", ")
  }

  /** The assignment list of an update: `name = ?` per column. */
  function SqlUpdateColumns(cols: seq<Column>, quote: string): string {
    Join(Assignments(cols, quote), ", ")
  }

  /** `queryValues(obj)`: one value per column, in column order. */
  function QueryValues(cols: seq<Column>, obj: Obj): (r: seq<QueryValue>)
    ensures |r| == |cols|
    ensures forall i :: 0 <= i < |cols| ==>
              r[i] == QueryValue(cols[i].Name(), FieldValue(obj, cols[i].kprop), cols[i].jdbcType, cols[i].encoder)
  {
    if cols == [] then []
    else [QueryValue(cols[0].Name(), FieldValue(obj, cols[0].kprop), cols[0].jdbcType, cols[0].encoder)]
         + QueryValues(cols[1..], obj)
  }

  lemma {:induction false} CountCharQuestions(n: nat)
    ensures CountCharAll(Questions(n), '?') == n
  {
    if n > 0 {
      assert Questions(n)[1..] == Questions(n - 1);
      CountCharQuestions(n - 1);
    }
  }

  lemma {:induction false} CountCharAssignments(cols: seq<Column>, quote: string)
    requires CountChar(quote, '?') == 0
    requires forall c :: c in cols ==> CountChar(c.Name(), '?') == 0
    ensures CountCharAll(Assignments(cols, quote), '?') == |cols|
  {
    if cols != [] {
      var item := quote + cols[0].Name() + quote + " = ?";
      CountCharAppend(quote + cols[0].Name() + quote, " = ?", '?');
      CountCharAppend(quote + cols[0].Name(), quote, '?');
      CountCharAppend(quote, cols[0].Name(), '?');
      assert CountChar(" = ?", '?') == 1;
      assert Assignments(cols, quote)[1..] == Assignments(cols[1..], quote);
      CountCharAssignments(cols[1..], quote);
    }
  }

  /** Both the values list and the update list carry exactly one `?` per
      column when neither names nor quote contain one. */
  lemma OnePlaceholderPerColumn(cols: seq<Column>, quote: string)
    requires CountChar(quote, '?') == 0
    requires forall c :: c in cols ==> CountChar(c.Name(), '?') == 0
    ensures CountChar(SqlQuestions(cols), '?') == |cols|
    ensures CountChar(SqlUpdateColumns(cols, quote), '?') == |cols|
  {
    assert CountChar(", ", '?') == 0;
    JoinCount(Questions(|cols|), ", ", '?');
    CountCharQuestions(|cols|);
    JoinCount(Assignments(cols, quote), ", ", '?');
    CountCharAssignments(cols, quote);
  }

  // ------------------------------------------------------------ procedures

  /** An argument of a stored procedure; `procedure` is its back-reference. */
  class ProcedureArg {
    const kprop: Property
    var procedure: Procedure?

    constructor (kprop: Property)
      ensures this.kprop == kprop && procedure == null
    {
      this.kprop := kprop;
      procedure := null;
    }
  }

  /** A stored procedure: its optional schema, its class and its arguments. */
  class Procedure {
    const schema: Option<string>
    const kclass: ClassDesc
    const args: seq<ProcedureArg>

    /** Construction points each argument's back-reference at the procedure. */
    constructor (schema: Option<string>, kclass: ClassDesc, args: seq<ProcedureArg>)
      modifies set a | a in args
      ensures this.schema == schema && this.kclass == kclass && this.args == args
      ensures forall a :: a in args ==> a.procedure == this
    {
      this.schema, this.kclass, this.args := schema, kclass, args;
      new;
      for i := 0 to |args|
        modifies set a | a in args
        invariant forall j :: 0 <= j < i ==> args[j].procedure == this
      {
        args[i].procedure := this;
      }
    }
  }

  // ------------------------------------------------------ consistency rules

  /** Every column object of the registered tables. */
  function AllColumns(tables: seq<TableInfo>): set<Column> {
    set t, c | t in tables && c in t.Columns() :: c
  }

  /** Every argument object of the registered procedures. */
  function AllArgs(procedures: seq<Procedure>): set<ProcedureArg> {
    set p, a | p in procedures && a in p.args :: a
  }

  /** The paths of the tables, in registry order. */
  function Paths(tables: seq<TableInfo>): seq<string> {
    seq(|tables|, i requires 0 <= i < |tables| => tables[i].Path())
  }

  /** Rule 3: no two positions of the registry hold equal tables. */
  predicate NoTableTwice(tables: seq<TableInfo>) {
    forall i, j :: 0 <= i < j < |tables| ==> !tables[i].Equals(tables[j])
  }

  /** Comparing the registry's paths is comparing its tables: the paths are
      pairwise distinct exactly when no table is registered twice. */
  lemma PathsDistinctIffNoTableTwice(tables: seq<TableInfo>)
    ensures ListExt.Distinct(Paths(tables)) <==> NoTableTwice(tables)
  {
    forall i, j | 0 <= i < j < |tables|
      ensures tables[i].Equals(tables[j]) <==> Paths(tables)[i] == Paths(tables)[j]
    {
    }
  }

  /** Rule 5: each column stores a property declared on its table's class. */
  predicate ColumnsOwned(tables: seq<TableInfo>) {
    forall t, c :: t in tables && c in t.Columns() ==> c.kprop in t.kclass.props
  }

  /** Rule 6: each foreign column has its target set, and the target is one
      of the registered tables. */
  predicate ForeignTargetsRegistered(tables: seq<TableInfo>)
    reads AllColumns(tables)
  {
    forall t, c :: t in tables && c in t.foreignColumns ==>
      assert c in t.Columns();
      c.foreignTable != null && exists u :: u in tables && u.Equals(c.foreignTable)
  }

  /** Rule 7: each column points back at the table that holds it. */
  predicate BackReferencesHold(tables: seq<TableInfo>)
    reads AllColumns(tables)
  {
    forall t, c :: t in tables && c in t.Columns() ==> c.table != null && c.table.Equals(t)
  }

  /** Rule 9: each argument points back at the procedure that holds it. */
  predicate ArgBackReferencesHold(procedures: seq<Procedure>)
    reads AllArgs(procedures)
  {
    forall p, a :: p in procedures && a in p.args ==> a.procedure == p
  }

  /** Rule 10: each argument stores a property declared on its procedure's class. */
  predicate ArgsOwned(procedures: seq<Procedure>) {
    forall p, a :: p in procedures && a in p.args ==> a.kprop in p.kclass.props
  }

  function Broken(rule: nat): Result<()> {
    Err(MapperException(Inconsistent(rule)))
  }

  /** The registry consistency check, rule by rule: a non-empty registry (1),
      no table registered twice (3), no table with two columns for the same
      property (4), then rules 5, 6, 7, 9 and 10 above. The first broken
      rule raises a MapperException naming it. */
  function TestMapper(tables: seq<TableInfo>, procedures: seq<Procedure>): (r: Result<()>)
    reads AllColumns(tables), AllArgs(procedures)
    ensures r.Ok? <==>
              && |tables| > 0
              && NoTableTwice(tables)
              && (forall t :: t in tables ==> ListExt.Distinct(Props(t.Columns())))
              && ColumnsOwned(tables) && ForeignTargetsRegistered(tables) && BackReferencesHold(tables)
              && ArgBackReferencesHold(procedures) && ArgsOwned(procedures)
    ensures r.Err? ==> r.error.MapperException? && r.error.cause.Inconsistent?
    ensures |tables| == 0 ==> r == Broken(1)
    ensures |tables| > 0 && !NoTableTwice(tables) ==> r == Broken(3)
  {
    ListExt.NotUniqueEmptyIffDistinct(Paths(tables));
    PathsDistinctIffNoTableTwice(tables);
    if |tables| == 0 then Broken(1)
    else if ListExt.NotUnique(Paths(tables)) != map[] then Broken(3)
    else if exists t :: t in tables && ListExt.NotUnique(Props(t.Columns())) != map[] then
      var t :| t in tables && ListExt.NotUnique(Props(t.Columns())) != map[];
      ListExt.NotUniqueEmptyIffDistinct(Props(t.Columns()));
      Broken(4)
    else if !ColumnsOwned(tables) then
      assert forall t :: t in tables ==> ListExt.Distinct(Props(t.Columns())) by {
        forall t | t in tables ensures ListExt.Distinct(Props(t.Columns())) {
          ListExt.NotUniqueEmptyIffDistinct(Props(t.Columns()));
        }
      }
      Broken(5)
    else
      assert forall t :: t in tables ==> ListExt.Distinct(Props(t.Columns())) by {
        forall t | t in tables ensures ListExt.Distinct(Props(t.Columns())) {
          ListExt.NotUniqueEmptyIffDistinct(Props(t.Columns()));
        }
      }
      if !ForeignTargetsRegistered(tables) then Broken(6)
      else if !BackReferencesHold(tables) then Broken(7)
      else if !ArgBackReferencesHold(procedures) then Broken(9)
      else if !ArgsOwned(procedures) then Broken(10)
      else Ok(())
  }

  /** Two registered tables with the same schema and class (equal, since
      equality is by path) make the check fail. */
  lemma DuplicateTablesRejected(tables: seq<TableInfo>, procedures: seq<Procedure>, i: nat, j: nat)
    requires i < j < |tables|
    requires tables[i].schema == tables[j].schema && tables[i].kclass.name == tables[j].kclass.name
    ensures TestMapper(tables, procedures) == Broken(3)
  {
    assert tables[i].Equals(tables[j]);
  }

  /** A column that a later table's construction re-pointed fails the check
      for the table that still holds it (unless both share a path). */
  lemma RepointedColumnRejected(tables: seq<TableInfo>, procedures: seq<Procedure>, t: TableInfo, c: Column)
    requires t in tables && c in t.Columns()
    requires c.table != null && c.table.Path() != t.Path()
    ensures TestMapper(tables, procedures).Err?
  {
    assert !c.table.Equals(t);
  }

  /** A consistent registry: every table's primary key sits as the source
      promises in the insert and update lists. */
  lemma ConsistentPrimaryKeyPlacement(tables: seq<TableInfo>, procedures: seq<Procedure>, t: TableInfo)
    requires TestMapper(tables, procedures).Ok? && t in tables
    ensures t.primaryColumn in t.InsertColumns() <==> !(t.primaryColumn.autoInc || t.primaryColumn.autoUUID)
    ensures t.primaryColumn !in t.UpdateColumns()
  {
    var rest := t.foreignColumns + t.otherColumns;
    forall k | 0 <= k < |rest| ensures rest[k] != t.primaryColumn {
      assert t.Columns()[k + 1] == rest[k];
      assert Props(t.Columns())[0] != Props(t.Columns())[k + 1];
    }
    PrimaryKeyPlacement(t);
  }
}
