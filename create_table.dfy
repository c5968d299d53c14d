/** The `createTable` override of the custom SQLite serializer demo: the
    CREATE TABLE statement assembled from a table descriptor, column
    clauses first and FOREIGN KEY clauses after them. */
module CustomSerializer {
  import opened Model
  import opened TableInfos

  /** The clause of the primary column. */
  function PrimaryClause(c: Column): string {
    c.Name() + " " + c.dbType + " PRIMARY KEY" + (if c.autoInc then " AUTOINCREMENT" else "")
  }

  /** The clause of a foreign or other column. */
  function ColumnClause(c: Column): string {
    c.Name() + " " + c.dbType + (if c.notNull then " NOT NULL" else "") + (if c.unique then " UNIQUE" else "")
  }

  /** The FOREIGN KEY clause of a foreign column whose target is `ft`. */
  function ForeignKeyClause(c: Column, ft: TableInfo): string {
    "FOREIGN KEY (" + c.Name() + ") REFERENCES " + ft.Name() + " (" + ft.primaryColumn.Name() + ")"
      + (if c.cascadeUpdate then " ON UPDATE CASCADE" else "")
      + (if c.cascadeDelete then " ON DELETE CASCADE" else "")
  }

  function ColumnClauses(cs: seq<Column>): (r: seq<string>)
    ensures |r| == |cs|
  {
    if cs == [] then [] else ColumnClauses(cs[..|cs| - 1]) + [ColumnClause(cs[|cs| - 1])]
  }

  lemma ColumnClausesSnoc(cs: seq<Column>, c: Column)
    ensures ColumnClauses(cs + [c]) == ColumnClauses(cs) + [ColumnClause(c)]
  {
    assert (cs + [c])[..|cs|] == cs;
  }

  lemma {:induction false} ColumnClausesAt(cs: seq<Column>)
    ensures forall i :: 0 <= i < |cs| ==> ColumnClauses(cs)[i] == ColumnClause(cs[i])
  {
    if cs != [] {
      ColumnClausesAt(cs[..|cs| - 1]);
    }
  }

  /** Every column of the list has its foreign table set. */
  predicate TargetsSet(cs: seq<Column>)
    reads set c | c in cs
  {
    forall c :: c in cs ==> c.foreignTable != null
  }

  function ForeignKeyClauses(cs: seq<Column>): (r: seq<string>)
    reads set c | c in cs
    requires TargetsSet(cs)
    ensures |r| == |cs|
    decreases |cs|
  {
    if cs == [] then []
    else ForeignKeyClauses(cs[..|cs| - 1]) + [ForeignKeyClause(cs[|cs| - 1], cs[|cs| - 1].foreignTable)]
  }

  lemma ForeignKeyClausesSnoc(cs: seq<Column>, c: Column)
    requires TargetsSet(cs) && c.foreignTable != null
    ensures TargetsSet(cs + [c])
    ensures ForeignKeyClauses(cs + [c]) == ForeignKeyClauses(cs) + [ForeignKeyClause(c, c.foreignTable)]
  {
    assert (cs + [c])[..|cs|] == cs;
  }

  lemma {:induction false} ForeignKeyClausesAt(cs: seq<Column>)
    requires TargetsSet(cs)
    ensures forall i :: 0 <= i < |cs| ==> ForeignKeyClauses(cs)[i] == ForeignKeyClause(cs[i], cs[i].foreignTable)
  {
    if cs != [] {
      ForeignKeyClausesAt(cs[..|cs| - 1]);
    }
  }

  /** The clauses, in statement order. */
  function Clauses(t: TableInfo): seq<string>
    reads set c | c in t.foreignColumns
    requires TargetsSet(t.foreignColumns)
  {
    [PrimaryClause(t.primaryColumn)] + ColumnClauses(t.foreignColumns) + ColumnClauses(t.otherColumns)
      + ForeignKeyClauses(t.foreignColumns)
  }

  /** The statement around the joined clauses. */
  function Statement(name: string, clauses: seq<string>): string {
    "CREATE TABLE IF NOT EXISTS " + name + " (" + Join(clauses, ", ") + ");"
  }

  /** `createTable`: the primary clause, then per foreign column its column
      clause (and its FOREIGN KEY clause aside), then the other columns,
      then the FOREIGN KEY clauses. A foreign column whose target was never
      set makes it fail. */
  method CreateTable(t: TableInfo) returns (r: Result<string>)
    ensures !TargetsSet(t.foreignColumns) ==> r == Err(Uninitialized)
    ensures TargetsSet(t.foreignColumns) ==> r == Ok(Statement(t.Name(), Clauses(t)))
  {
    var col: seq<string> := [];
    var constraints: seq<string> := [];
    var autoIncrement := if t.primaryColumn.autoInc then " AUTOINCREMENT" else "";
    col := col + [t.primaryColumn.Name() + " " + t.primaryColumn.dbType + " PRIMARY KEY" + autoIncrement];
    var fkLists := ForeignColumnClauses(t.foreignColumns);
    if fkLists.None? {
      return Err(Uninitialized);
    }
    col := col + fkLists.value.0;
    constraints := fkLists.value.1;
    col := AppendColumnClauses(col, t.otherColumns);
    assert col + constraints == Clauses(t);
    var columns := Join(col + constraints, ", ");
    r := Ok("CREATE TABLE IF NOT EXISTS " + t.Name() + " (" + columns + ");");
  }

  /** The `forEach` over the foreign columns: per column its clause and its
      FOREIGN KEY clause, each appended to its own list in order; a column
      whose target was never set stops it. */
  method ForeignColumnClauses(fks: seq<Column>) returns (r: Option<(seq<string>, seq<string>)>)
    ensures r.None? <==> !TargetsSet(fks)
    ensures r.Some? ==> r.value == (ColumnClauses(fks), ForeignKeyClauses(fks))
  {
    var col: seq<string> := [];
    var constraints: seq<string> := [];
    for i := 0 to |fks|
      invariant TargetsSet(fks[..i])
      invariant col == ColumnClauses(fks[..i])
      invariant constraints == ForeignKeyClauses(fks[..i])
    {
      var it := fks[i];
      var clause := ColumnClauseOf(it);
      col := col + [clause];
      if it.foreignTable == null {
        assert it in fks && !TargetsSet(fks);
        return None;
      }
      var fkClause := ForeignKeyClauseOf(it, it.foreignTable);
      constraints := constraints + [fkClause];
      ForeignStep(fks, i);
    }
    assert fks[..|fks|] == fks;
    r := Some((col, constraints));
  }

  /** One more foreign column with its target set extends both clause
      lists by its clauses. */
  lemma ForeignStep(fks: seq<Column>, i: nat)
    requires i < |fks| && TargetsSet(fks[..i]) && fks[i].foreignTable != null
    ensures TargetsSet(fks[..i + 1])
    ensures ColumnClauses(fks[..i + 1]) == ColumnClauses(fks[..i]) + [ColumnClause(fks[i])]
    ensures ForeignKeyClauses(fks[..i + 1])
            == ForeignKeyClauses(fks[..i]) + [ForeignKeyClause(fks[i], fks[i].foreignTable)]
  {
    assert fks[..i + 1] == fks[..i] + [fks[i]];
    ColumnClausesSnoc(fks[..i], fks[i]);
    ForeignKeyClausesSnoc(fks[..i], fks[i]);
  }

  /** The column clause as each `forEach` assembles it. */
  method ColumnClauseOf(it: Column) returns (clause: string)
    ensures clause == ColumnClause(it)
  {
    var notNull := if it.notNull then " NOT NULL" else "";
    var unique := if it.unique then " UNIQUE" else "";
    clause := it.Name() + " " + it.dbType + notNull + unique;
  }

  /** The FOREIGN KEY clause as the first `forEach` assembles it. */
  method ForeignKeyClauseOf(it: Column, ft: TableInfo) returns (fkClause: string)
    ensures fkClause == ForeignKeyClause(it, ft)
  {
    var deleteCascade := if it.cascadeDelete then " ON DELETE CASCADE" else "";
    var updateCascade := if it.cascadeUpdate then " ON UPDATE CASCADE" else "";
    fkClause := "FOREIGN KEY (" + it.Name() + ") REFERENCES " + ft.Name()
                + " (" + ft.primaryColumn.Name() + ")" + updateCascade + deleteCascade;
  }

  /** The `forEach` over the other columns: one clause each, appended in
      order. */
  method AppendColumnClauses(col: seq<string>, others: seq<Column>) returns (r: seq<string>)
    ensures r == col + ColumnClauses(others)
  {
    r := col;
    for j := 0 to |others|
      invariant r == col + ColumnClauses(others[..j])
    {
      var it := others[j];
      var clause := ColumnClauseOf(it);
      r := r + [clause];
      assert others[..j + 1] == others[..j] + [it];
      ColumnClausesSnoc(others[..j], it);
    }
    assert others[..|others|] == others;
  }

  /** The clause list has the primary clause first, then one clause per
      foreign column, then one per other column, in their orders, and then
      one FOREIGN KEY clause per foreign column, again in order: 1 + 2·|foreign|
      + |other| clauses in all. */
  lemma ClauseLayout(t: TableInfo)
    requires TargetsSet(t.foreignColumns)
    ensures var cl := Clauses(t); var f, o := |t.foreignColumns|, |t.otherColumns|;
            && |cl| == 1 + 2 * f + o
            && cl[0] == PrimaryClause(t.primaryColumn)
            && (forall i :: 0 <= i < f ==> cl[1 + i] == ColumnClause(t.foreignColumns[i]))
            && (forall j :: 0 <= j < o ==> cl[1 + f + j] == ColumnClause(t.otherColumns[j]))
            && (forall i :: 0 <= i < f ==>
                  cl[1 + f + o + i] == ForeignKeyClause(t.foreignColumns[i], t.foreignColumns[i].foreignTable))
  {
    ColumnClausesAt(t.foreignColumns);
    ColumnClausesAt(t.otherColumns);
    ForeignKeyClausesAt(t.foreignColumns);
  }

  predicate EndsWith(s: string, suffix: string) {
    |suffix| <= |s| && s[|s| - |suffix|..] == suffix
  }

  /** The primary clause is the name, the type and `PRIMARY KEY`, and ends
      with ` AUTOINCREMENT` exactly when the column auto-increments. */
  lemma PrimaryClauseAutoIncrement(c: Column)
    ensures PrimaryClause(c)[..|c.Name()| + 1 + |c.dbType|] == c.Name() + " " + c.dbType
    ensures EndsWith(PrimaryClause(c), " AUTOINCREMENT") <==> c.autoInc
  {
    var s := PrimaryClause(c);
    if !c.autoInc {
      assert s == c.Name() + " " + c.dbType + " PRIMARY KEY";
      assert s[|s| - 1] == 'Y';
    }
  }

  /** A column clause ends with ` UNIQUE` when the column is unique, and
      with ` NOT NULL` when it is not null but not unique. */
  lemma ColumnClauseModifiers(c: Column)
    ensures ColumnClause(c)[..|c.Name()| + 1 + |c.dbType|] == c.Name() + " " + c.dbType
    ensures c.unique ==> EndsWith(ColumnClause(c), " UNIQUE")
    ensures c.notNull && c.unique ==> EndsWith(ColumnClause(c), " NOT NULL UNIQUE")
    ensures c.notNull && !c.unique ==> EndsWith(ColumnClause(c), " NOT NULL")
  {
  }

  /** The cascade options follow the reference in the order update, delete:
      the clause ends with ` ON DELETE CASCADE` exactly when deletes cascade. */
  lemma ForeignKeyClauseCascades(c: Column, ft: TableInfo)
    ensures EndsWith(ForeignKeyClause(c, ft), " ON DELETE CASCADE") <==> c.cascadeDelete
    ensures c.cascadeUpdate && c.cascadeDelete ==>
              EndsWith(ForeignKeyClause(c, ft), " ON UPDATE CASCADE ON DELETE CASCADE")
    ensures c.cascadeUpdate && !c.cascadeDelete ==> EndsWith(ForeignKeyClause(c, ft), " ON UPDATE CASCADE")
  {
    var head := "FOREIGN KEY (" + c.Name() + ") REFERENCES " + ft.Name() + " (" + ft.primaryColumn.Name() + ")";
    var s := ForeignKeyClause(c, ft);
    if !c.cascadeDelete {
      if c.cascadeUpdate {
        assert s == head + " ON UPDATE CASCADE";
        assert s[|s| - 14] == 'U';
      } else {
        assert s == head;
        assert s[|s| - 1] == ')';
      }
    }
  }

  /** The statement starts with `CREATE TABLE IF NOT EXISTS`, then the
      table's name, and ends with `);`. */
  lemma StatementShape(name: string, clauses: seq<string>)
    ensures var s := Statement(name, clauses);
            && s[..27] == "CREATE TABLE IF NOT EXISTS "
            && s[27..27 + |name|] == name
            && EndsWith(s, ");")
  {
  }
}
