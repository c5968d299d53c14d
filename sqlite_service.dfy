/** The SQLite service's `insert`. The SQLite driver reports no generated
    keys, so the engine is given the fallback query `select
    last_insert_rowid();`, and the id it returns is written into the
    inserted object's primary-key property. */
module SqliteService {
  import opened Model
  import opened Jdbc
  import opened TableInfos
  import Engine

  /** The query that asks SQLite for the row id of the last insert. */
  const LAST_INSERT_ROWID: string := "select last_insert_rowid();"

  /** A live object whose property values can be written in place. */
  class Entity {
    const cls: ClassDesc
    var values: map<string, Value>

    constructor (cls: ClassDesc, values: map<string, Value>)
      ensures this.cls == cls && this.values == values
    {
      this.cls := cls;
      this.values := values;
    }

    /** Its current state. */
    function Current(): Obj
      reads this
    {
      Obj(cls, values)
    }

    /** `prop.setValue(obj, value)`. */
    method SetValue(name: string, v: Value)
      modifies this
      ensures values == old(values)[name := v]
    {
      values := values[name := v];
    }
  }

  /** What the engine answers for an insert whose generated keys are asked
      for by the primary key's name, with the row-id query as fallback and
      `getInt` as the id decoder. */
  function Outcome(ps: Statement, fs: Statement): Result<Option<int>>
    reads ps, fs
  {
    Engine.InsertOutcome(ps.updateReply, ps.KeysReply(), fs.queryReply, Some(LAST_INSERT_ROWID), GetInt)
  }

  /** `insert(obj)` for the insert statement `sql` with `values`, built for
      `obj`'s table `t`. True exactly when the engine returns an id, and then
      the primary key of `obj` holds it; otherwise `obj` is left as it was,
      and the engine's failure, if any, propagates. */
  method Insert(obj: Entity, t: TableInfo, ps: Statement, fs: Statement, sql: string, values: seq<QueryValue>)
    returns (r: Result<bool>)
    requires ps != fs
    modifies obj, ps, fs
    ensures ps.sql == sql && ps.keyRequest == KeyColumns([t.primaryColumn.kprop.name]) && ps.params == Bind(values)
    ensures r == Ok(true) <==> Outcome(ps, fs).Ok? && Outcome(ps, fs).value.Some?
    ensures r == Ok(true) ==>
              obj.values == old(obj.values)[t.primaryColumn.kprop.name := IntV(Outcome(ps, fs).value.value)]
    ensures r != Ok(true) ==> obj.values == old(obj.values)
    ensures Outcome(ps, fs) == Ok(None) ==> r == Ok(false)
    ensures Outcome(ps, fs).Err? ==> r == Err(Outcome(ps, fs).error)
  {
    var pk := t.primaryColumn.kprop.name;
    Engine.PrepareQuery(ps, sql, values, Some(pk));
    var id := Engine.ExecuteInsert(ps, fs, Some(LAST_INSERT_ROWID), GetInt);
    match id {
      case Err(e) =>
        return Err(e);
      case Ok(found) =>
        if found.Some? {
          obj.SetValue(pk, IntV(found.value));
          return Ok(true);
        }
    }
    r := Ok(false);
  }

  /** When the generated keys give nothing, the id is the integer in the
      first column of the row-id query's first row. */
  lemma LastRowIdIsTheId(n: int, keys: Reply<seq<Row>>, id: int, first: Row, rest: seq<Row>)
    requires n != 0 && ReadId(keys, GetInt).Missed?
    requires |first| > 0 && first[0] == IntV(id)
    ensures Engine.InsertOutcome(Returns(n), keys, Returns([first] + rest), Some(LAST_INSERT_ROWID), GetInt)
            == Ok(Some(id))
  {
    assert ([first] + rest)[0] == first;
  }

  /** Without a row from either source, or when the row-id query's first
      value is no integer, the insert fails with an EngineException. */
  lemma NoRowIdFails(n: int, keys: Reply<seq<Row>>, forced: Reply<seq<Row>>)
    requires n != 0 && ReadId(keys, GetInt).Missed?
    requires forced == Returns([]) || forced == Raises(SqlError)
             || (forced.Returns? && |forced.value| > 0 && |forced.value[0]| > 0 && forced.value[0][0].StrV?)
    ensures Engine.InsertOutcome(Returns(n), keys, forced, Some(LAST_INSERT_ROWID), GetInt) == Err(EngineException(None))
  {
  }
}
