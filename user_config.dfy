/** The declarative schema configuration of a repository and the twelve
    checks it must pass before tables are built from it. */
module UserConfiguration {
  import opened Model
  import ListExt

  /** A column constraint. */
  datatype C = AUTO_INC | UNIQUE

  /** A configured table: its class, its primary key, its foreign keys
      (property to referenced class), the constraints on its properties and
      its table-level serializers. */
  datatype Table = Table(
    kclass: ClassName,
    primaryKey: Property,
    foreignKeys: seq<(Property, ClassName)>,
    constraints: seq<(Property, seq<C>)>,
    serializers: seq<TypeSerializer>)

  datatype Schema = Schema(name: string, tables: seq<Table>, serializers: seq<TypeSerializer>)

  /** The repository: its schemas and the global input and output classes. */
  datatype Repository = Repository(schemas: seq<Schema>, globalInputs: seq<ClassDesc>, globalOutputs: seq<ClassDesc>)

  /** The failure every check raises, by its number. */
  function Fail(check: nat): Result<()> {
    Err(SerializerException(CheckFailed(check)))
  }

  /** `"'${name}'"`: how checks 4 and 5 render a property before comparing. */
  function Quoted(name: string): string {
    "'" + name + "'"
  }

  function FkNames(t: Table): (r: seq<string>)
    ensures |r| == |t.foreignKeys| && forall i :: 0 <= i < |r| ==> r[i] == t.foreignKeys[i].0.name
  {
    seq(|t.foreignKeys|, i requires 0 <= i < |t.foreignKeys| => t.foreignKeys[i].0.name)
  }

  function ConstraintNames(t: Table): (r: seq<string>)
    ensures |r| == |t.constraints| && forall i :: 0 <= i < |r| ==> r[i] == t.constraints[i].0.name
  {
    seq(|t.constraints|, i requires 0 <= i < |t.constraints| => t.constraints[i].0.name)
  }

  function QuoteAll(names: seq<string>): (r: seq<string>)
    ensures |r| == |names| && forall i :: 0 <= i < |r| ==> r[i] == Quoted(names[i])
  {
    seq(|names|, i requires 0 <= i < |names| => Quoted(names[i]))
  }

  /** Quoting is injective, so the quoted names are distinct exactly when the
      names are. */
  lemma QuotingKeepsDistinctness(names: seq<string>)
    ensures ListExt.Distinct(QuoteAll(names)) <==> ListExt.Distinct(names)
  {
    forall i, j | 0 <= i < j < |names| && Quoted(names[i]) == Quoted(names[j])
      ensures names[i] == names[j]
    {
      var a, b := Quoted(names[i]), Quoted(names[j]);
      assert names[i] == a[1..|a| - 1];
      assert names[j] == b[1..|b| - 1];
    }
  }

  /** The constraints listed for the primary key, in order. */
  function PrimaryKeyConstraints(t: Table): seq<C> {
    PropConstraints(t.constraints, t.primaryKey)
  }

  function PropConstraints(cs: seq<(Property, seq<C>)>, p: Property): seq<C> {
    if cs == [] then []
    else (if cs[0].0 == p then cs[0].1 else []) + PropConstraints(cs[1..], p)
  }

  lemma {:induction false} PropConstraintsContain(cs: seq<(Property, seq<C>)>, p: Property, c: C)
    ensures c in PropConstraints(cs, p) <==> exists i :: 0 <= i < |cs| && cs[i].0 == p && c in cs[i].1
  {
    if cs != [] {
      PropConstraintsContain(cs[1..], p, c);
      assert forall i :: 1 <= i < |cs| ==> cs[i] == cs[1..][i - 1];
      if c in PropConstraints(cs[1..], p) {
        var i :| 0 <= i < |cs[1..]| && cs[1..][i].0 == p && c in cs[1..][i].1;
        assert cs[i + 1] == cs[1..][i];
      }
    }
  }

  // ------------------------------------------------------------- the rules

  /** Rule 1: a first schema exists and has a first table. */
  predicate Rule1(repo: Repository) {
    |repo.schemas| > 0 && |repo.schemas[0].tables| > 0
  }

  /** Rule 2: no schema is registered twice. */
  predicate Rule2(repo: Repository) {
    ListExt.Distinct(repo.schemas)
  }

  /** Rule 3: no schema registers a table twice. */
  predicate Rule3(repo: Repository) {
    forall s :: s in repo.schemas ==> ListExt.Distinct(s.tables)
  }

  /** Rule 4: no table names a property twice among its foreign keys. */
  predicate Rule4(repo: Repository) {
    forall s, t :: s in repo.schemas && t in s.tables ==> ListExt.Distinct(FkNames(t))
  }

  /** Rule 5: no table names a property twice among its constraints. */
  predicate Rule5(repo: Repository) {
    forall s, t :: s in repo.schemas && t in s.tables ==> ListExt.Distinct(ConstraintNames(t))
  }

  /** Rule 6: no schema registers a serializer twice. */
  predicate Rule6(repo: Repository) {
    forall s :: s in repo.schemas ==> ListExt.Distinct(s.serializers)
  }

  /** Rule 7: no table registers a serializer twice. */
  predicate Rule7(repo: Repository) {
    forall s, t :: s in repo.schemas && t in s.tables ==> ListExt.Distinct(t.serializers)
  }

  /** Rule 8: every foreign key finds a table of its target class (the first
      one, in schema and table order), and the key's class is that table's
      primary-key class. */
  predicate Rule8(repo: Repository) {
    forall s, t, fk :: s in repo.schemas && t in s.tables && fk in t.foreignKeys ==>
      FkPointsToTable(AllPairs(repo.schemas), fk)
  }

  /** Rule 9: UNIQUE is never put on the primary key, AUTO_INC never on a
      foreign key. */
  predicate Rule9(repo: Repository) {
    forall s, t :: s in repo.schemas && t in s.tables ==> ConstraintsLegal(t)
  }

  /** Rule 9 for one table. */
  predicate ConstraintsLegal(t: Table) {
    forall pc :: pc in t.constraints ==>
      && (pc.0 == t.primaryKey ==> UNIQUE !in pc.1)
      && ((exists fk :: fk in t.foreignKeys && fk.0 == pc.0) ==> AUTO_INC !in pc.1)
  }

  /** Rule 10: an AUTO_INC primary key has class Int. */
  predicate Rule10(repo: Repository) {
    forall s, t :: s in repo.schemas && t in s.tables && AUTO_INC in PrimaryKeyConstraints(t) ==>
      t.primaryKey.className == "Int"
  }

  /** Rule 11: no property of an input class is nullable. */
  predicate Rule11(repo: Repository) {
    forall k, p :: k in repo.globalInputs && p in k.props ==> !p.nullable
  }

  /** Rule 12: no primary-constructor parameter of an output class is optional. */
  predicate Rule12(repo: Repository) {
    forall k, p :: k in repo.globalOutputs && p in k.params ==> !p.optional
  }

  predicate RuleHolds(repo: Repository, n: nat) {
    match n
    case 1 => Rule1(repo)
    case 2 => Rule2(repo)
    case 3 => Rule3(repo)
    case 4 => Rule4(repo)
    case 5 => Rule5(repo)
    case 6 => Rule6(repo)
    case 7 => Rule7(repo)
    case 8 => Rule8(repo)
    case 9 => Rule9(repo)
    case 10 => Rule10(repo)
    case 11 => Rule11(repo)
    case 12 => Rule12(repo)
    case _ => true
  }

  // ------------------------------------------------------------ the checks

  /** Check 1: `schemas.getOrNull(0)?.tables?.getOrNull(0) ?: throw`. */
  function Check1(repo: Repository): (r: Result<()>)
    ensures r.Ok? <==> Rule1(repo)
    ensures r.Err? ==> r == Fail(1)
  {
    if |repo.schemas| == 0 then Fail(1)
    else if |repo.schemas[0].tables| == 0 then Fail(1)
    else Ok(())
  }

  /** A uniqueness check: raise when `ext_notUnique` finds a repeated item. */
  function Unique<T(==)>(xs: seq<T>, check: nat): (r: Result<()>)
    ensures r.Ok? <==> ListExt.Distinct(xs)
    ensures r.Err? ==> r == Fail(check)
  {
    ListExt.NotUniqueEmptyIffDistinct(xs);
    if ListExt.NotUnique(xs) != map[] then Fail(check) else Ok(())
  }

  /** Check 2. */
  function Check2(repo: Repository): (r: Result<()>)
    ensures r.Ok? <==> Rule2(repo)
    ensures r.Err? ==> r == Fail(2)
  {
    Unique(repo.schemas, 2)
  }

  /** Check 3: every schema, in order. */
  function Check3(repo: Repository): (r: Result<()>)
    ensures r.Ok? <==> Rule3(repo)
    ensures r.Err? ==> r == Fail(3)
  {
    ForEach(repo.schemas, (s: Schema) => Unique(s.tables, 3))
  }

  /** Check 4: every table of every schema, on the quoted key names. */
  function Check4(repo: Repository): (r: Result<()>)
    ensures r.Ok? <==> Rule4(repo)
    ensures r.Err? ==> r == Fail(4)
  {
    var r := ForEach(repo.schemas, (s: Schema) => ForEach(s.tables, (t: Table) => Unique(QuoteAll(FkNames(t)), 4)));
    forall s, t | s in repo.schemas && t in s.tables {
      QuotingKeepsDistinctness(FkNames(t));
    }
    r
  }

  /** Check 5: every table of every schema, on the quoted constraint names. */
  function Check5(repo: Repository): (r: Result<()>)
    ensures r.Ok? <==> Rule5(repo)
    ensures r.Err? ==> r == Fail(5)
  {
    var r := ForEach(repo.schemas, (s: Schema) => ForEach(s.tables, (t: Table) => Unique(QuoteAll(ConstraintNames(t)), 5)));
    forall s, t | s in repo.schemas && t in s.tables {
      QuotingKeepsDistinctness(ConstraintNames(t));
    }
    r
  }

  /** Check 6. */
  function Check6(repo: Repository): (r: Result<()>)
    ensures r.Ok? <==> Rule6(repo)
    ensures r.Err? ==> r == Fail(6)
  {
    ForEach(repo.schemas, (s: Schema) => Unique(s.serializers, 6))
  }

  /** Check 7. */
  function Check7(repo: Repository): (r: Result<()>)
    ensures r.Ok? <==> Rule7(repo)
    ensures r.Err? ==> r == Fail(7)
  {
    ForEach(repo.schemas, (s: Schema) => ForEach(s.tables, (t: Table) => Unique(t.serializers, 7)))
  }

  // check 8

  /** The (schema, table) pairs of one schema, in table order. */
  function PairsOf(s: Schema): (r: seq<(Schema, Table)>)
    ensures |r| == |s.tables| && forall i :: 0 <= i < |r| ==> r[i] == (s, s.tables[i])
  {
    seq(|s.tables|, i requires 0 <= i < |s.tables| => (s, s.tables[i]))
  }

  /** `schemas_tables` once the given schemas have been visited. */
  function AllPairs(schemas: seq<Schema>): seq<(Schema, Table)> {
    if schemas == [] then [] else AllPairs(schemas[..|schemas| - 1]) + PairsOf(schemas[|schemas| - 1])
  }

  /** The pairs are exactly the tables of the schemas, each with its schema. */
  lemma {:induction false} AllPairsMembers(schemas: seq<Schema>)
    ensures forall s, t :: (s, t) in AllPairs(schemas) <==> s in schemas && t in s.tables
  {
    if schemas != [] {
      var init, last := schemas[..|schemas| - 1], schemas[|schemas| - 1];
      AllPairsMembers(init);
      assert schemas == init + [last];
      forall s, t ensures (s, t) in PairsOf(last) <==> s == last && t in last.tables {
        if s == last && t in last.tables {
          var i :| 0 <= i < |last.tables| && last.tables[i] == t;
          assert PairsOf(last)[i] == (s, t);
        }
      }
    }
  }

  /** The first step of check 8: every (schema, table) pair, in order. */
  method SchemasTables(schemas: seq<Schema>) returns (st: seq<(Schema, Table)>)
    ensures st == AllPairs(schemas)
  {
    st := [];
    for i := 0 to |schemas|
      invariant st == AllPairs(schemas[..i])
    {
      assert schemas[..i + 1][..i] == schemas[..i];
      var schema := schemas[i];
      for j := 0 to |schema.tables|
        invariant st == AllPairs(schemas[..i]) + PairsOf(schema)[..j]
      {
        assert PairsOf(schema)[..j + 1] == PairsOf(schema)[..j] + [(schema, schema.tables[j])];
        st := st + [(schema, schema.tables[j])];
      }
      assert PairsOf(schema)[..|schema.tables|] == PairsOf(schema);
    }
    assert schemas[..|schemas|] == schemas;
  }

  function OfClass(kclass: ClassName): ((Schema, Table)) -> bool {
    (p: (Schema, Table)) => p.1.kclass == kclass
  }

  /** The foreign key finds a table of its class, and the first one found has
      the key's class as primary-key class. */
  predicate FkPointsToTable(st: seq<(Schema, Table)>, fk: (Property, ClassName)) {
    match FirstWhere(st, OfClass(fk.1))
    case None => false
    case Some(p) => p.1.primaryKey.className == fk.0.className
  }

  /** One foreign key of check 8. */
  function FkCheck(st: seq<(Schema, Table)>, fk: (Property, ClassName)): (r: Result<()>)
    ensures r.Ok? <==> FkPointsToTable(st, fk)
    ensures r.Err? ==> r == Fail(8)
  {
    match FirstWhere(st, OfClass(fk.1))
    case None => Fail(8)
    case Some(p) => if p.1.primaryKey.className != fk.0.className then Fail(8) else Ok(())
  }

  /** The foreign keys of one table, in order. */
  function TableFkCheck(st: seq<(Schema, Table)>, t: Table): (r: Result<()>)
    ensures r.Ok? <==> forall fk :: fk in t.foreignKeys ==> FkPointsToTable(st, fk)
    ensures r.Err? ==> r == Fail(8)
  {
    ForEach(t.foreignKeys, (fk: (Property, ClassName)) => FkCheck(st, fk))
  }

  /** The tables of one schema, in order. */
  function SchemaFkCheck(st: seq<(Schema, Table)>, s: Schema): (r: Result<()>)
    ensures r.Ok? <==> forall t, fk :: t in s.tables && fk in t.foreignKeys ==> FkPointsToTable(st, fk)
    ensures r.Err? ==> r == Fail(8)
  {
    ForEach(s.tables, (t: Table) => TableFkCheck(st, t))
  }

  /** Check 8: build `schemas_tables`, then check every foreign key of every
      table of every schema against it. */
  method Check8(repo: Repository) returns (r: Result<()>)
    ensures r.Ok? <==> Rule8(repo)
    ensures r.Err? ==> r == Fail(8)
  {
    var st := SchemasTables(repo.schemas);
    r := ForEach(repo.schemas, (s: Schema) => SchemaFkCheck(st, s));
  }

  /** A passing rule 8 means every foreign key targets a table registered in
      some schema whose primary key has the key's class; when only one table
      has that class, it is that table. */
  lemma Rule8Meaning(repo: Repository, s: Schema, t: Table, fk: (Property, ClassName))
    requires Rule8(repo) && s in repo.schemas && t in s.tables && fk in t.foreignKeys
    ensures exists s2, t2 :: s2 in repo.schemas && t2 in s2.tables && t2.kclass == fk.1
                             && t2.primaryKey.className == fk.0.className
    ensures forall s2, t2 :: s2 in repo.schemas && t2 in s2.tables && t2.kclass == fk.1
              && (forall s3, t3 :: s3 in repo.schemas && t3 in s3.tables && t3.kclass == fk.1 ==> t3 == t2)
              ==> t2.primaryKey.className == fk.0.className
  {
    var st := AllPairs(repo.schemas);
    AllPairsMembers(repo.schemas);
    assert FkPointsToTable(st, fk);
    var p := FirstWhere(st, OfClass(fk.1)).value;
    assert p in st;
    assert p == (p.0, p.1);
  }

  // check 9

  /** One constraint entry: UNIQUE raises on the primary key, AUTO_INC on
      a foreign key, each option in order. */
  function ConstraintCheck(t: Table, pc: (Property, seq<C>)): (r: Result<()>)
    ensures r.Ok? <==> (pc.0 == t.primaryKey ==> UNIQUE !in pc.1)
                       && ((exists fk :: fk in t.foreignKeys && fk.0 == pc.0) ==> AUTO_INC !in pc.1)
    ensures r.Err? ==> r == Fail(9)
  {
    var primary := if pc.0 == t.primaryKey
                   then ForEach(pc.1, (c: C) => if c == UNIQUE then Fail(9) else Ok(()))
                   else Ok(());
    if primary.Err? then primary
    else if (exists fk :: fk in t.foreignKeys && fk.0 == pc.0)
    then ForEach(pc.1, (c: C) => if c == AUTO_INC then Fail(9) else Ok(()))
    else Ok(())
  }

  /** The constraints of one table, in order. */
  function TableConstraintCheck(t: Table): (r: Result<()>)
    ensures r.Ok? <==> ConstraintsLegal(t)
    ensures r.Err? ==> r == Fail(9)
  {
    ForEach(t.constraints, (pc: (Property, seq<C>)) => ConstraintCheck(t, pc))
  }

  /** Check 9: every constraint of every table of every schema. */
  function Check9(repo: Repository): (r: Result<()>)
    ensures r.Ok? <==> Rule9(repo)
    ensures r.Err? ==> r == Fail(9)
  {
    ForEach(repo.schemas, (s: Schema) => ForEach(s.tables, (t: Table) => TableConstraintCheck(t)))
  }

  /** Check 10. */
  function Check10(repo: Repository): (r: Result<()>)
    ensures r.Ok? <==> Rule10(repo)
    ensures r.Err? ==> r == Fail(10)
  {
    ForEach(repo.schemas, (s: Schema) => ForEach(s.tables, (t: Table) =>
      if AUTO_INC in PrimaryKeyConstraints(t) && t.primaryKey.className != "Int" then Fail(10) else Ok(())))
  }

  /** Check 11. */
  function Check11(repo: Repository): (r: Result<()>)
    ensures r.Ok? <==> Rule11(repo)
    ensures r.Err? ==> r == Fail(11)
  {
    ForEach(repo.globalInputs, (k: ClassDesc) => ForEach(k.props, (p: Property) =>
      if p.nullable then Fail(11) else Ok(())))
  }

  /** Check 12: the optional parameters of each output's constructor must be none. */
  function Check12(repo: Repository): (r: Result<()>)
    ensures r.Ok? <==> Rule12(repo)
    ensures r.Err? ==> r == Fail(12)
  {
    ForEach(repo.globalOutputs, (k: ClassDesc) => if OptionalParams(k.params) != [] then Fail(12) else Ok(()))
  }

  /** `parameters.filter { p -> p.isOptional }`. */
  function OptionalParams(ps: seq<Param>): (r: seq<Param>)
    ensures r == [] <==> forall p :: p in ps ==> !p.optional
  {
    if ps == [] then []
    else (if ps[0].optional then [ps[0]] else []) + OptionalParams(ps[1..])
  }

  /** The check with the given number. */
  method RunCheck(repo: Repository, n: nat) returns (r: Result<()>)
    requires 1 <= n <= 12
    ensures r.Ok? <==> RuleHolds(repo, n)
    ensures r.Err? ==> r == Fail(n)
  {
    if n == 1 { r := Check1(repo); }
    else if n == 2 { r := Check2(repo); }
    else if n == 3 { r := Check3(repo); }
    else if n == 4 { r := Check4(repo); }
    else if n == 5 { r := Check5(repo); }
    else if n == 6 { r := Check6(repo); }
    else if n == 7 { r := Check7(repo); }
    else if n == 8 { r := Check8(repo); }
    else if n == 9 { r := Check9(repo); }
    else if n == 10 { r := Check10(repo); }
    else if n == 11 { r := Check11(repo); }
    else { r := Check12(repo); }
  }

  /** All twelve checks, in order: the first broken rule is reported. */
  method Validate(repo: Repository) returns (r: Result<()>)
    ensures r.Ok? <==> forall n :: 1 <= n <= 12 ==> RuleHolds(repo, n)
    ensures r.Err? ==> exists n :: 1 <= n <= 12 && r == Fail(n) && !RuleHolds(repo, n)
                                  && forall k :: 1 <= k < n ==> RuleHolds(repo, k)
  {
    for n := 1 to 13
      invariant forall k :: 1 <= k < n ==> RuleHolds(repo, k)
    {
      r := RunCheck(repo, n);
      if r.Err? {
        return;
      }
    }
    r := Ok(());
  }
}
