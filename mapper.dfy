/** The older `dbjesus` Mapper: a registry of tables and global serializers
    that resolves a serializer per property, builds column descriptors,
    splits an object's properties into primary key and the rest, and decodes
    result rows back into constructor arguments. */
module DbJesus {
  import opened Model

  /** A registered table: its class, its primary key (which may be unset),
      its foreign keys (property to referenced class) and its table-local
      serializers. */
  datatype Table = Table(
    kClass: ClassDesc,
    primaryKey: Option<Property>,
    foreignKeys: map<Property, ClassName>,
    tableSerializers: seq<TypeSerializer>)

  /** The mapper's (immutable) state. */
  datatype Mapper = Mapper(tables: seq<Table>, globalSerializers: seq<TypeSerializer>)

  /** A column descriptor built from one field of a table class. */
  datatype Column = Column(
    name: string,
    canBeNull: bool,
    jdbcType: nat,
    dbType: string,
    table: Table,
    foreignTable: Option<Table>,
    kProperty1: Property)

  /** One property of a live object, with the serializer resolved for it. */
  datatype ObjProperty = ObjProperty(name: string, value: Value, property: Property, serializer: TypeSerializer)

  /** An object's properties: the primary key apart, the others in a list. */
  datatype ObjProperties = ObjProperties(primaryKey: Option<ObjProperty>, list: seq<ObjProperty>)

  /** What the JDBC result set tells about the current row: the label and
      the type code (`metaData.getColumnType`) of each column, 1-based, and
      the decoder applications that throw on this row, with what they throw. */
  datatype ResultRow = ResultRow(labels: seq<string>, types: seq<int>, throwing: map<Decoded, Raised>)

  /** The value a serializer's (opaque) decoder reads from a 1-based column. */
  datatype Decoded = Decoded(decoder: nat, column: nat)

  /** An object built by the primary constructor from decoded arguments. */
  datatype Constructed = Constructed(kclass: ClassName, args: map<Param, Decoded>)

  // ---------------------------------------------------------------- tables

  function IsTableOf(kclass: ClassName): Table -> bool {
    (t: Table) => t.kClass.name == kclass
  }

  /** `getTable`: the first registered table of that class, or null. */
  function GetTable(m: Mapper, tableKClass: ClassName): (r: Option<Table>)
    ensures r.None? <==> forall t :: t in m.tables ==> t.kClass.name != tableKClass
    ensures r.Some? ==> exists i :: 0 <= i < |m.tables| && m.tables[i] == r.value
                          && r.value.kClass.name == tableKClass
                          && forall j :: 0 <= j < i ==> m.tables[j].kClass.name != tableKClass
  {
    FirstWhere(m.tables, IsTableOf(tableKClass))
  }

  /** `getTableNotNull`: the same search, raising instead of returning null. */
  function GetTableNotNull(m: Mapper, kclass: ClassName): (r: Result<Table>)
    ensures r.Ok? <==> GetTable(m, kclass).Some?
    ensures r.Ok? ==> Some(r.value) == GetTable(m, kclass)
    ensures r.Err? ==> r.error == SerializerException(TableNotRegistered(kclass))
  {
    match GetTable(m, kclass)
    case Some(t) => Ok(t)
    case None => Err(SerializerException(TableNotRegistered(kclass)))
  }

  // ----------------------------------------------------------- serializers

  function Handles(propKClass: ClassName): TypeSerializer -> bool {
    (s: TypeSerializer) => s.kclass == propKClass
  }

  /** The table-local serializers of a table class; an unregistered class has none. */
  function TableSerializers(m: Mapper, tableKClass: ClassName): seq<TypeSerializer> {
    match GetTable(m, tableKClass)
    case Some(t) => t.tableSerializers
    case None => []
  }

  /** `getSerializer(tableKClass, propKClass)`: the first serializer for the
      property class in the table-local list followed by the global list. */
  function GetSerializerFor(m: Mapper, tableKClass: ClassName, propKClass: ClassName): (r: Result<TypeSerializer>)
    ensures r.Ok? ==> r.value.kclass == propKClass
    ensures r.Ok? ==> r.value in TableSerializers(m, tableKClass) || r.value in m.globalSerializers
    ensures r.Ok? ==> var all := TableSerializers(m, tableKClass) + m.globalSerializers;
              exists i :: 0 <= i < |all| && all[i] == r.value && forall j :: 0 <= j < i ==> all[j].kclass != propKClass
    ensures r.Err? <==> (forall s :: s in TableSerializers(m, tableKClass) ==> s.kclass != propKClass)
                        && (forall s :: s in m.globalSerializers ==> s.kclass != propKClass)
    ensures r.Err? ==> r.error == SerializerException(SerializerNotFound(propKClass))
  {
    var all := TableSerializers(m, tableKClass) + m.globalSerializers;
    match FirstWhere(all, Handles(propKClass))
    case Some(s) => Ok(s)
    case None =>
      assert forall s :: s in TableSerializers(m, tableKClass) ==> s in all;
      assert forall s :: s in m.globalSerializers ==> s in all;
      Err(SerializerException(SerializerNotFound(propKClass)))
  }

  /** `getSerializer(propKClass)`: the first global serializer for the class. */
  function GetSerializer(m: Mapper, propKClass: ClassName): (r: Result<TypeSerializer>)
    ensures r.Ok? ==> r.value.kclass == propKClass && r.value in m.globalSerializers
    ensures r.Ok? ==> exists i :: 0 <= i < |m.globalSerializers| && m.globalSerializers[i] == r.value
                                 && forall j :: 0 <= j < i ==> m.globalSerializers[j].kclass != propKClass
    ensures r.Err? <==> forall s :: s in m.globalSerializers ==> s.kclass != propKClass
    ensures r.Err? ==> r.error == SerializerException(SerializerNotFound(propKClass))
  {
    match FirstWhere(m.globalSerializers, Handles(propKClass))
    case Some(s) => Ok(s)
    case None => Err(SerializerException(SerializerNotFound(propKClass)))
  }

  /** A table-local serializer overrides a global one: when the table's own
      list has a serializer for the class, its first one is chosen; otherwise
      the lookup is exactly the global lookup, which is also all an
      unregistered table class gets. */
  lemma LocalSerializerOverridesGlobal(m: Mapper, tableKClass: ClassName, propKClass: ClassName)
    ensures FirstWhere(TableSerializers(m, tableKClass), Handles(propKClass)).Some? ==>
              GetSerializerFor(m, tableKClass, propKClass) == Ok(FirstWhere(TableSerializers(m, tableKClass), Handles(propKClass)).value)
    ensures FirstWhere(TableSerializers(m, tableKClass), Handles(propKClass)).None? ==>
              GetSerializerFor(m, tableKClass, propKClass) == GetSerializer(m, propKClass)
    ensures GetTable(m, tableKClass).None? ==>
              GetSerializerFor(m, tableKClass, propKClass) == GetSerializer(m, propKClass)
  {
    FirstWhereAppend(TableSerializers(m, tableKClass), m.globalSerializers, Handles(propKClass));
  }

  // ------------------------------------------------------ construction test

  /** A property class resolves a serializer for the table class. */
  predicate Resolves(m: Mapper, tableKClass: ClassName, propKClass: ClassName) {
    GetSerializerFor(m, tableKClass, propKClass).Ok?
  }

  /** Every property of the table resolves a serializer. */
  predicate TableResolves(m: Mapper, t: Table) {
    forall p :: p in t.kClass.props ==> Resolves(m, t.kClass.name, p.className)
  }

  /** Every property of every registered table resolves a serializer. */
  predicate AllPropertiesResolve(m: Mapper) {
    forall t :: t in m.tables ==> TableResolves(m, t)
  }

  /** The inner loop of `test`: the properties of one table, in order. */
  function TestProps(m: Mapper, t: Table, props: seq<Property>): (r: Result<()>)
    ensures r.Ok? <==> forall p :: p in props ==> Resolves(m, t.kClass.name, p.className)
    ensures r.Err? ==> r.error.SerializerException? && r.error.reason.SerializerNotFound?
  {
    if props == [] then Ok(())
    else match GetSerializerFor(m, t.kClass.name, props[0].className)
      case Err(e) => Err(e)
      case Ok(_) => TestProps(m, t, props[1..])
  }

  /** `test`: the tables in order, each with its properties in order; the
      first property that resolves no serializer raises. */
  function TestTables(m: Mapper, ts: seq<Table>): (r: Result<()>)
    ensures r.Ok? <==> forall t :: t in ts ==> TableResolves(m, t)
    ensures r.Err? ==> r.error.SerializerException? && r.error.reason.SerializerNotFound?
  {
    if ts == [] then Ok(())
    else match TestProps(m, ts[0], ts[0].kClass.props)
      case Err(e) => assert !TableResolves(m, ts[0]); Err(e)
      case Ok(_) => TestTables(m, ts[1..])
  }

  /** The constructor: it runs `test`, so a mapper exists only when every
      property of every registered table resolves a serializer. */
  function NewMapper(tables: seq<Table>, globalSerializers: seq<TypeSerializer>): (r: Result<Mapper>)
    ensures r.Ok? <==> AllPropertiesResolve(Mapper(tables, globalSerializers))
    ensures r.Ok? ==> r.value == Mapper(tables, globalSerializers)
    ensures r.Err? ==> r.error.SerializerException? && r.error.reason.SerializerNotFound?
  {
    var m := Mapper(tables, globalSerializers);
    match TestTables(m, m.tables)
    case Err(e) => Err(e)
    case Ok(_) => Ok(m)
  }

  // --------------------------------------------------------------- columns

  /** The table a field refers to: only a field listed among the table's
      foreign keys whose target class is itself registered has one. */
  function ForeignTableOf(m: Mapper, table: Table, f: Property): Option<Table> {
    if f in table.foreignKeys then GetTable(m, table.foreignKeys[f]) else None
  }

  /** The column `getColumns` makes of field `f`: its name, property and
      nullability, the table and the foreign table, and the JDBC and
      database types of the serializer the field resolves. */
  predicate ColumnFor(m: Mapper, table: Table, f: Property, c: Column) {
    && c.name == f.name
    && c.kProperty1 == f
    && c.canBeNull == f.nullable
    && c.table == table
    && c.foreignTable == ForeignTableOf(m, table, f)
    && GetSerializerFor(m, table.kClass.name, f.className).Ok?
    && c.jdbcType == GetSerializerFor(m, table.kClass.name, f.className).value.jdbcType
    && c.dbType == GetSerializerFor(m, table.kClass.name, f.className).value.dbType
  }

  /** The `map` of `getColumns` over a list of fields. */
  function ColumnsOf(m: Mapper, table: Table, fields: seq<Property>): (r: Result<seq<Column>>)
    ensures r.Ok? <==> forall f :: f in fields ==> GetSerializerFor(m, table.kClass.name, f.className).Ok?
    ensures r.Ok? ==> |r.value| == |fields|
    ensures r.Ok? ==> forall i :: 0 <= i < |fields| ==> ColumnFor(m, table, fields[i], r.value[i])
    ensures r.Err? ==> r.error.SerializerException?
  {
    if fields == [] then Ok([])
    else
      var f := fields[0];
      match GetSerializerFor(m, table.kClass.name, f.className)
      case Err(e) => Err(e)
      case Ok(s) =>
        match ColumnsOf(m, table, fields[1..])
        case Err(e) => Err(e)
        case Ok(rest) =>
          Ok([Column(f.name, f.nullable, s.jdbcType, s.dbType, table, ForeignTableOf(m, table, f), f)] + rest)
  }

  /** `getColumns`: one column per field of the registered class, in field order. */
  function GetColumns(m: Mapper, kclass: ClassName): (r: Result<seq<Column>>)
    ensures GetTable(m, kclass).None? ==> r == Err(SerializerException(TableNotRegistered(kclass)))
    ensures GetTable(m, kclass).Some? ==> r == ColumnsOf(m, GetTable(m, kclass).value, GetTable(m, kclass).value.kClass.props)
  {
    match GetTableNotNull(m, kclass)
    case Err(e) => Err(e)
    case Ok(t) => ColumnsOf(m, t, t.kClass.props)
  }

  /** A foreign table is set exactly for fields among the foreign keys whose
      target class is registered, and it is then the registered table. */
  lemma ForeignTableOnlyForRegisteredTargets(m: Mapper, table: Table, f: Property)
    ensures ForeignTableOf(m, table, f).Some? <==> f in table.foreignKeys && GetTable(m, table.foreignKeys[f]).Some?
    ensures ForeignTableOf(m, table, f).Some? ==>
              ForeignTableOf(m, table, f).value in m.tables
              && ForeignTableOf(m, table, f).value.kClass.name == table.foreignKeys[f]
  {
  }

  /** A mapper that was constructed never fails to build the columns of a
      registered class: construction already resolved every serializer. */
  lemma {:induction false} ConstructedMapperBuildsColumns(tables: seq<Table>, globals: seq<TypeSerializer>, kclass: ClassName)
    requires NewMapper(tables, globals).Ok?
    requires GetTable(Mapper(tables, globals), kclass).Some?
    ensures GetColumns(NewMapper(tables, globals).value, kclass).Ok?
  {
    var m := Mapper(tables, globals);
    var t := GetTable(m, kclass).value;
    var i :| 0 <= i < |m.tables| && m.tables[i] == t && t.kClass.name == kclass;
    assert t in m.tables && TableResolves(m, t);
    forall f | f in t.kClass.props ensures GetSerializerFor(m, t.kClass.name, f.className).Ok? {
      assert Resolves(m, t.kClass.name, f.className);
    }
  }

  // ------------------------------------------------------ object properties

  /** The name of the primary key of the object's table, if the object's class
      is a registered table that has one. */
  function KeyName(t: Option<Table>): Option<string> {
    if t.Some? && t.value.primaryKey.Some? then Some(t.value.primaryKey.value.name) else None
  }

  /** The fields not named like the primary key, in field order. */
  function NonKeyFields(fields: seq<Property>, key: Option<string>): seq<Property> {
    if fields == [] then []
    else if key == Some(fields[|fields| - 1].name) then NonKeyFields(fields[..|fields| - 1], key)
    else NonKeyFields(fields[..|fields| - 1], key) + [fields[|fields| - 1]]
  }

  /** The property wrapper `getObjProperties` builds for one field. */
  function PropOf(obj: Obj, f: Property, s: TypeSerializer): ObjProperty {
    ObjProperty(f.name, FieldValue(obj, f), f, s)
  }

  /** What `getObjProperties` has gathered after the given leading fields. */
  function ObjPropertiesOf(m: Mapper, obj: Obj, fields: seq<Property>): Result<ObjProperties>
  {
    if fields == [] then Ok(ObjProperties(None, []))
    else
      var f := fields[|fields| - 1];
      match ObjPropertiesOf(m, obj, fields[..|fields| - 1])
      case Err(e) => Err(e)
      case Ok(acc) =>
        match GetSerializerFor(m, obj.cls.name, f.className)
        case Err(e) => Err(e)
        case Ok(s) =>
          if KeyName(GetTable(m, obj.cls.name)) == Some(f.name)
          then Ok(ObjProperties(Some(PropOf(obj, f, s)), acc.list))
          else Ok(ObjProperties(acc.primaryKey, acc.list + [PropOf(obj, f, s)]))
  }

  /** `getObjProperties`. */
  method GetObjProperties(m: Mapper, obj: Obj) returns (r: Result<ObjProperties>)
    ensures r == ObjPropertiesOf(m, obj, obj.cls.props)
  {
    var table := GetTable(m, obj.cls.name);
    var fields := obj.cls.props;
    var objProps: seq<ObjProperty> := [];
    var primaryKeyProp: Option<ObjProperty> := None;
    for i := 0 to |fields|
      invariant ObjPropertiesOf(m, obj, fields[..i]) == Ok(ObjProperties(primaryKeyProp, objProps))
    {
      assert fields[..i + 1][..i] == fields[..i];
      var serializer := GetSerializerFor(m, obj.cls.name, fields[i].className);
      if serializer.Err? {
        assert fields[..i + 1] == fields[..i] + [fields[i]];
        ObjPropertiesErrorPersists(m, obj, fields, i + 1);
        return Err(serializer.error);
      }
      var objProp := PropOf(obj, fields[i], serializer.value);
      if table.Some? && table.value.primaryKey.Some? && fields[i].name == table.value.primaryKey.value.name {
        primaryKeyProp := Some(objProp);
      } else {
        objProps := objProps + [objProp];
      }
    }
    assert fields[..|fields|] == fields;
    r := Ok(ObjProperties(primaryKeyProp, objProps));
  }

  lemma {:induction false} ObjPropertiesErrorPersists(m: Mapper, obj: Obj, fields: seq<Property>, k: nat)
    requires k <= |fields| && ObjPropertiesOf(m, obj, fields[..k]).Err?
    ensures ObjPropertiesOf(m, obj, fields) == ObjPropertiesOf(m, obj, fields[..k])
    decreases |fields| - k
  {
    if k < |fields| {
      assert fields[..k + 1][..k] == fields[..k];
      ObjPropertiesErrorPersists(m, obj, fields, k + 1);
    } else {
      assert fields[..k] == fields;
    }
  }

  /** `getObjProperties` fails exactly when some field has no serializer,
      and then with a SerializerException. */
  lemma {:induction false} ObjPropertiesFailure(m: Mapper, obj: Obj, fields: seq<Property>)
    ensures ObjPropertiesOf(m, obj, fields).Ok? <==>
              forall f :: f in fields ==> Resolves(m, obj.cls.name, f.className)
    ensures ObjPropertiesOf(m, obj, fields).Err? ==> ObjPropertiesOf(m, obj, fields).error.SerializerException?
    decreases |fields|
  {
    if fields != [] {
      var init := fields[..|fields| - 1];
      var f := fields[|fields| - 1];
      assert fields == init + [f];
      ObjPropertiesFailure(m, obj, init);
      assert forall g :: g in fields <==> g in init || g == f;
    }
  }

  /** `p` wraps field `f` of `obj`: its name, its current value and the
      serializer the mapper resolves for it. */
  predicate Wraps(m: Mapper, obj: Obj, p: ObjProperty, f: Property) {
    && p.property == f
    && p.name == f.name
    && p.value == FieldValue(obj, f)
    && Ok(p.serializer) == GetSerializerFor(m, obj.cls.name, f.className)
  }

  /** The list of `getObjProperties` wraps, in field order, exactly the
      fields not named like the table's primary key. */
  lemma {:induction false} ObjPropertiesList(m: Mapper, obj: Obj, fields: seq<Property>)
    requires ObjPropertiesOf(m, obj, fields).Ok?
    ensures var r := ObjPropertiesOf(m, obj, fields).value;
            var rest := NonKeyFields(fields, KeyName(GetTable(m, obj.cls.name)));
            |r.list| == |rest| && forall j :: 0 <= j < |rest| ==> Wraps(m, obj, r.list[j], rest[j])
    decreases |fields|
  {
    if fields != [] {
      var key := KeyName(GetTable(m, obj.cls.name));
      var init, f := fields[..|fields| - 1], fields[|fields| - 1];
      ObjPropertiesList(m, obj, init);
      var acc := ObjPropertiesOf(m, obj, init).value;
      var restInit := NonKeyFields(init, key);
      var s := GetSerializerFor(m, obj.cls.name, f.className).value;
      if key != Some(f.name) {
        var r := ObjPropertiesOf(m, obj, fields).value;
        assert r.list == acc.list + [PropOf(obj, f, s)];
        assert NonKeyFields(fields, key) == restInit + [f];
        assert Wraps(m, obj, PropOf(obj, f, s), f);
      }
    }
  }

  /** No entry of the list carries the primary key's name. */
  lemma ObjPropertiesListSkipsKey(m: Mapper, obj: Obj, fields: seq<Property>)
    requires ObjPropertiesOf(m, obj, fields).Ok?
    ensures forall p :: p in ObjPropertiesOf(m, obj, fields).value.list ==> Some(p.name) != KeyName(GetTable(m, obj.cls.name))
  {
    ObjPropertiesList(m, obj, fields);
    var key := KeyName(GetTable(m, obj.cls.name));
    NonKeyFieldsSkipsKey(fields, key);
  }

  lemma {:induction false} NonKeyFieldsSkipsKey(fields: seq<Property>, key: Option<string>)
    ensures forall j :: 0 <= j < |NonKeyFields(fields, key)| ==> Some(NonKeyFields(fields, key)[j].name) != key
    decreases |fields|
  {
    if fields != [] {
      NonKeyFieldsSkipsKey(fields[..|fields| - 1], key);
    }
  }

  /** An object whose class is not a registered table with a primary key
      gets no primary key from `getObjProperties`. */
  lemma {:induction false} ObjPropertiesNoKey(m: Mapper, obj: Obj, fields: seq<Property>)
    requires KeyName(GetTable(m, obj.cls.name)).None?
    requires ObjPropertiesOf(m, obj, fields).Ok?
    ensures ObjPropertiesOf(m, obj, fields).value.primaryKey.None?
    decreases |fields|
  {
    if fields != [] {
      ObjPropertiesNoKey(m, obj, fields[..|fields| - 1]);
    }
  }

  /** NonKeyFields drops exactly the fields named like the key and keeps
      every other field as often as it occurs. */
  lemma {:induction false} NonKeyFieldsCounts(fields: seq<Property>, key: Option<string>)
    ensures forall f :: multiset(NonKeyFields(fields, key))[f] ==
                          if key == Some(f.name) then 0 else multiset(fields)[f]
    decreases |fields|
  {
    if fields != [] {
      var init, last := fields[..|fields| - 1], fields[|fields| - 1];
      assert fields == init + [last];
      assert multiset(fields) == multiset(init) + multiset{last};
      NonKeyFieldsCounts(init, key);
    }
  }

  // ------------------------------------------------------------- decoding

  function DecodesColumn(jdbcType: int, kclass: ClassName): TypeSerializer -> bool {
    (s: TypeSerializer) => s.jdbcType as int == jdbcType && s.kclass == kclass
  }

  /** The private column `decode`: the decoder of the first global serializer
      whose JDBC type ordinal equals the column's type and whose class is the
      parameter's, run on the column; what the decoder throws propagates. */
  method DecodeColumn(m: Mapper, row: ResultRow, columnInt: nat, kparam: Param) returns (r: Result<Decoded>)
    requires 1 <= columnInt <= |row.types|
    ensures FirstWhere(m.globalSerializers, DecodesColumn(row.types[columnInt - 1], kparam.className)).None? ==>
              r == Err(SerializerException(SerializerNotFound(kparam.className)))
    ensures FirstWhere(m.globalSerializers, DecodesColumn(row.types[columnInt - 1], kparam.className)).Some? ==>
              var d := Decoded(FirstWhere(m.globalSerializers, DecodesColumn(row.types[columnInt - 1], kparam.className)).value.decoder, columnInt);
              r == if d in row.throwing then Err(Thrown(row.throwing[d])) else Ok(d)
  {
    var jdbcType := row.types[columnInt - 1];
    var sers := m.globalSerializers;
    ghost var p := DecodesColumn(jdbcType, kparam.className);
    for i := 0 to |sers|
      invariant forall j :: 0 <= j < i ==> !p(sers[j])
    {
      if sers[i].jdbcType as int == jdbcType && kparam.className == sers[i].kclass {
        assert FirstIndex(sers, p) == Some(i);
        var d := Decoded(sers[i].decoder, columnInt);
        if d in row.throwing {
          return Err(Thrown(row.throwing[d]));
        }
        return Ok(d);
      }
    }
    return Err(SerializerException(SerializerNotFound(kparam.className)));
  }

  /** An ASCII capital folded to its lower-case letter; any other character kept. */
  function FoldChar(c: char): char {
    if 'A' <= c <= 'Z' then (c as int + 32) as char else c
  }

  function Fold(s: string): string {
    seq(|s|, i requires 0 <= i < |s| => FoldChar(s[i]))
  }

  /** JDBC compares column labels without regard to case. */
  predicate SameLabel(a: string, b: string) {
    Fold(a) == Fold(b)
  }

  /** `resultSet.findColumn(columnLabel)`: the 1-based index of the first column
      whose label equals `columnLabel` up to case; an unknown label raises an
      SQLException. */
  function FindColumn(row: ResultRow, columnLabel: string): (r: Option<nat>)
    ensures r.Some? ==> 1 <= r.value <= |row.labels| && SameLabel(row.labels[r.value - 1], columnLabel)
    ensures r.Some? ==> forall j :: 0 <= j < r.value - 1 ==> !SameLabel(row.labels[j], columnLabel)
    ensures r.None? <==> forall j :: 0 <= j < |row.labels| ==> !SameLabel(row.labels[j], columnLabel)
  {
    match FirstIndex(row.labels, (l: string) => SameLabel(l, columnLabel))
    case None => None
    case Some(i) => Some(i + 1)
  }

  /** The lookup depends on the label only up to case, and a label that is
      present verbatim is always found. */
  lemma FindColumnIgnoresCase(row: ResultRow, a: string, b: string)
    ensures SameLabel(a, b) ==> FindColumn(row, a) == FindColumn(row, b)
    ensures a in row.labels ==> FindColumn(row, a).Some?
  {
    if a in row.labels {
      var j :| 0 <= j < |row.labels| && row.labels[j] == a;
      assert SameLabel(row.labels[j], a);
    }
  }

  /** An unquoted column that the database reports in capitals is still found
      by the parameter's lower-case name. */
  lemma CapitalLabelFound()
    ensures FindColumn(ResultRow(["NAME"], [12], map[]), "name") == Some(1)
  {
    assert Fold("NAME") == "name";
  }

  /** The decoded argument of one constructor parameter, or the failure the
      object decode wraps: a missing column, a missing serializer and a
      throwing decoder alike. */
  function DecodeArg(m: Mapper, row: ResultRow, kparam: Param): (r: Result<Decoded>)
    ensures r.Err? ==> r.error.MapperException?
    ensures FindColumn(row, kparam.name).None? ==> r == Err(MapperException(FromJdbc(SqlError)))
    ensures r.Ok? ==> FindColumn(row, kparam.name) == Some(r.value.column) && r.value !in row.throwing
    ensures r.Ok? ==> 1 <= r.value.column <= |row.types|
    ensures r.Ok? ==> exists s :: s in m.globalSerializers && s.decoder == r.value.decoder
                                 && s.kclass == kparam.className && s.jdbcType as int == row.types[r.value.column - 1]
  {
    match FindColumn(row, kparam.name)
    case None => Err(MapperException(FromJdbc(SqlError)))
    case Some(c) =>
      if c <= |row.types| then
        match FirstWhere(m.globalSerializers, DecodesColumn(row.types[c - 1], kparam.className))
        case Some(s) =>
          var d := Decoded(s.decoder, c);
          if d in row.throwing then Err(MapperException(FromJdbc(row.throwing[d]))) else Ok(d)
        case None => Err(MapperException(FromSerializer(SerializerNotFound(kparam.className))))
      else Err(MapperException(FromJdbc(SqlError)))
  }

  /** The arguments the object decode gathers for the leading parameters. */
  function ArgsOf(m: Mapper, row: ResultRow, params: seq<Param>): Result<map<Param, Decoded>>
  {
    if params == [] then Ok(map[])
    else
      var p := params[|params| - 1];
      match ArgsOf(m, row, params[..|params| - 1])
      case Err(e) => Err(e)
      case Ok(args) =>
        match DecodeArg(m, row, p)
        case Err(e) => Err(e)
        case Ok(d) => Ok(args[p := d])
  }

  /** Object `decode`: decode every primary-constructor parameter from the
      column of the same name, then call the constructor (`accepts` says
      whether it accepts the arguments). Every failure becomes a MapperException. */
  method Decode(m: Mapper, row: ResultRow, kclass: ClassDesc, accepts: map<Param, Decoded> -> bool)
    returns (r: Result<Constructed>)
    ensures ArgsOf(m, row, kclass.params).Err? ==> r == Err(ArgsOf(m, row, kclass.params).error)
    ensures ArgsOf(m, row, kclass.params).Ok? ==>
              r == if accepts(ArgsOf(m, row, kclass.params).value)
                   then Ok(Constructed(kclass.name, ArgsOf(m, row, kclass.params).value))
                   else Err(MapperException(FromConstructor))
    ensures r.Err? ==> r.error.MapperException?
  {
    var params := kclass.params;
    var args: map<Param, Decoded> := map[];
    for i := 0 to |params|
      invariant ArgsOf(m, row, params[..i]) == Ok(args)
    {
      var d := DecodeParam(m, row, params[i]);
      ArgsStep(m, row, params, i);
      if d.Err? {
        ArgsErrorPersists(m, row, params, i + 1);
        return Err(d.error);
      }
      args := args[params[i] := d.value];
    }
    assert params[..|params|] == params;
    if !accepts(args) {
      return Err(MapperException(FromConstructor));
    }
    return Ok(Constructed(kclass.name, args));
  }

  /** One iteration of the object decode: the column of the parameter's
      name, decoded by the private column `decode`. */
  method DecodeParam(m: Mapper, row: ResultRow, kparam: Param) returns (d: Result<Decoded>)
    ensures d == DecodeArg(m, row, kparam)
  {
    var columnInt := FindColumn(row, kparam.name);
    if columnInt.None? {
      d := Err(MapperException(FromJdbc(SqlError)));
    } else if columnInt.value > |row.types| {
      d := Err(MapperException(FromJdbc(SqlError)));
    } else {
      var c := DecodeColumn(m, row, columnInt.value, kparam);
      if c.Ok? {
        d := c;
      } else if c.error.Thrown? {
        d := Err(MapperException(FromJdbc(c.error.raised)));
      } else {
        d := Err(MapperException(FromSerializer(c.error.reason)));
      }
    }
  }

  /** Gathering one more parameter extends the arguments, or fails with its
      failure. */
  lemma ArgsStep(m: Mapper, row: ResultRow, params: seq<Param>, i: nat)
    requires i < |params| && ArgsOf(m, row, params[..i]).Ok?
    ensures DecodeArg(m, row, params[i]).Err? ==>
              ArgsOf(m, row, params[..i + 1]) == Err(DecodeArg(m, row, params[i]).error)
    ensures DecodeArg(m, row, params[i]).Ok? ==>
              ArgsOf(m, row, params[..i + 1])
              == Ok(ArgsOf(m, row, params[..i]).value[params[i] := DecodeArg(m, row, params[i]).value])
  {
    assert params[..i + 1][..i] == params[..i];
  }

  lemma {:induction false} ArgsErrorPersists(m: Mapper, row: ResultRow, params: seq<Param>, k: nat)
    requires k <= |params| && ArgsOf(m, row, params[..k]).Err?
    ensures ArgsOf(m, row, params) == ArgsOf(m, row, params[..k])
    decreases |params| - k
  {
    if k < |params| {
      assert params[..k + 1][..k] == params[..k];
      ArgsErrorPersists(m, row, params, k + 1);
    } else {
      assert params[..k] == params;
    }
  }

  /** Any failure while gathering arguments is wrapped in a MapperException,
      and gathering succeeds exactly when every parameter decodes. */
  lemma {:induction false} ArgsFailure(m: Mapper, row: ResultRow, params: seq<Param>)
    ensures ArgsOf(m, row, params).Err? ==> ArgsOf(m, row, params).error.MapperException?
    ensures ArgsOf(m, row, params).Ok? <==> forall p :: p in params ==> DecodeArg(m, row, p).Ok?
    decreases |params|
  {
    if params != [] {
      var init, p := params[..|params| - 1], params[|params| - 1];
      assert params == init + [p];
      ArgsFailure(m, row, init);
      assert forall q :: q in params <==> q in init || q == p;
    }
  }

  /** The gathered arguments cover exactly the constructor's parameters, each
      decoded from its column by the first matching global serializer. */
  lemma {:induction false} ArgsCoverParams(m: Mapper, row: ResultRow, params: seq<Param>)
    requires ArgsOf(m, row, params).Ok?
    ensures ArgsOf(m, row, params).value.Keys == set p | p in params
    ensures forall p :: p in params ==> Ok(ArgsOf(m, row, params).value[p]) == DecodeArg(m, row, p)
    decreases |params|
  {
    if params != [] {
      var init, p := params[..|params| - 1], params[|params| - 1];
      assert params == init + [p];
      ArgsCoverParams(m, row, init);
      assert forall q :: q in params <==> q in init || q == p;
    }
  }
}
