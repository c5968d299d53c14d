/** dbmessiah's `DbMessiahEngine`, the older execution layer: it prepares a
    statement and binds its values, then runs it as a query, an update, an
    insert that reads back the new id, or a statement with several results.
    Unlike the driver it catches only SQLExceptions, which it wraps in an
    EngineException; any other throwable propagates as it is. It closes
    only the result set of a query that succeeds. */
module Engine {
  import opened Model
  import opened Jdbc

  /** What the engine's `catch (e: SQLException)` makes of a throwable. */
  function Caught(e: Raised): (f: Failure)
    ensures f.EngineException? <==> e == SqlError
    ensures f.EngineException? ==> f.wrapped == Some(SqlError)
    ensures f.Thrown? <==> e == OtherError
  {
    match e
    case SqlError => EngineException(Some(SqlError))
    case OtherError => Thrown(OtherError)
  }

  /** The key request of a statement prepared for `autoGeneratedKey`: the
      named column when one is given, none otherwise. */
  function KeysFor(autoGeneratedKey: Option<string>): (k: KeyRequest)
    ensures k == NoKeys <==> autoGeneratedKey.None?
    ensures autoGeneratedKey.Some? ==> k == KeyColumns([autoGeneratedKey.value])
  {
    match autoGeneratedKey
    case None => NoKeys
    case Some(name) => KeyColumns([name])
  }

  /** `prepareQuery`: a statement for `sql` on the connection, asking for the
      generated key column by name when one is given, with the values
      bound at positions 1, 2, … in order. */
  method PrepareQuery(ps: Statement, sql: string, values: seq<QueryValue>, autoGeneratedKey: Option<string>)
    modifies ps
    ensures ps.sql == sql && ps.keyRequest == KeysFor(autoGeneratedKey) && !ps.closed
    ensures ps.params == Bind(values)
    ensures ps.pending == [] && ps.sent == [] && ps.results == [] && ps.current == 0 && ps.produced == []
  {
    ps.Prepare(sql, if autoGeneratedKey.None? then NoKeys else KeyColumns([autoGeneratedKey.value]));
    assert map[] + Bind(values[..0]) == map[];
    for i := 0 to |values|
      invariant ps.params == map[] + Bind(values[..i])
      invariant ps.sql == sql && ps.keyRequest == KeysFor(autoGeneratedKey) && !ps.closed
      invariant ps.pending == [] && ps.sent == [] && ps.results == [] && ps.current == 0 && ps.produced == []
    {
      BindSnoc(map[], values[..i], values[i]);
      assert values[..i + 1] == values[..i] + [values[i]];
      if values[i].value == NullV {
        ps.SetParam(i + 1, NullOf(values[i].jdbcType));
      } else {
        ps.SetParam(i + 1, Encoded(values[i].encoder, values[i].value));
      }
    }
    assert values[..|values|] == values;
    assert map[] + Bind(values) == Bind(values);
  }

  // ---------------------------------------------------------------- query

  /** What `executeQuery` returns for the query's reply. */
  function QueryOutcome<T>(reply: Reply<seq<Row>>, decode: Row -> Reply<T>): Result<seq<T>> {
    match reply
    case Raises(e) => Err(Caught(e))
    case Returns(rows) =>
      match DecodeRows(rows, decode)
      case Returns(objs) => Ok(objs)
      case Raises(e) => Err(Caught(e))
  }

  /** `executeQuery`: one decoded element per row, in row order. The result
      set is closed when every row decodes; the statement is left as it is. */
  method ExecuteQuery<T>(ps: Statement, decode: Row -> Reply<T>) returns (r: Result<seq<T>>)
    modifies ps
    ensures r == QueryOutcome(ps.queryReply, decode)
    ensures ps.closed == old(ps.closed) && ps.sql == old(ps.sql) && ps.params == old(ps.params)
    ensures ps.queryReply.Raises? ==> ps.produced == old(ps.produced)
    ensures ps.queryReply.Returns? ==>
              |ps.produced| == |old(ps.produced)| + 1 && (ps.produced[|old(ps.produced)|].closed <==> r.Ok?)
  {
    var objs: seq<T> := [];
    var q := ps.ExecuteQuery();
    if q.Raises? {
      return Err(Caught(q.raised));
    }
    var rs := q.value;
    ghost var before := old(ps.produced);
    while true
      invariant ps.produced == before + [rs] && !rs.closed && rs.rows == ps.queryReply.value && rs.pos <= |rs.rows|
      invariant ps.closed == old(ps.closed) && ps.sql == old(ps.sql) && ps.params == old(ps.params)
      invariant DecodeRows(rs.rows[..rs.pos], decode) == Returns(objs)
      decreases |rs.rows| - rs.pos
    {
      var more := rs.Next();
      if !more {
        break;
      }
      var d := decode(rs.Current());
      assert rs.rows[..rs.pos][..rs.pos - 1] == rs.rows[..rs.pos - 1];
      if d.Raises? {
        DecodeRowsThrowPersists(rs.rows, rs.pos, decode);
        return Err(Caught(d.raised));
      }
      objs := objs + [d.value];
    }
    assert rs.rows[..rs.pos] == rs.rows;
    rs.Close();
    r := Ok(objs);
  }

  /** A query succeeds exactly when the database answers and every row
      decodes, and then yields one element per row, in row order; an
      SQLException on the way becomes an EngineException, anything else
      propagates. */
  lemma QueryOneElementPerRow<T>(reply: Reply<seq<Row>>, decode: Row -> Reply<T>)
    ensures QueryOutcome(reply, decode).Ok? <==>
              reply.Returns? && forall i :: 0 <= i < |reply.value| ==> decode(reply.value[i]).Returns?
    ensures QueryOutcome(reply, decode).Ok? ==>
              |QueryOutcome(reply, decode).value| == |reply.value|
              && forall i :: 0 <= i < |reply.value| ==>
                   QueryOutcome(reply, decode).value[i] == decode(reply.value[i]).value
    ensures QueryOutcome(reply, decode).Err? ==>
              var f := QueryOutcome(reply, decode).error;
              f == EngineException(Some(SqlError)) || f == Thrown(OtherError)
  {
    if reply.Returns? {
      DecodeRowsMeaning(reply.value, decode);
    }
  }

  // --------------------------------------------------------------- update

  /** `executeUpdate`: the count the database answers, unchanged; an
      SQLException becomes an EngineException. */
  method ExecuteUpdate(ps: Statement) returns (r: Result<int>)
    ensures ps.updateReply.Returns? ==> r == Ok(ps.updateReply.value)
    ensures ps.updateReply == Raises(SqlError) ==> r == Err(EngineException(Some(SqlError)))
    ensures ps.updateReply == Raises(OtherError) ==> r == Err(Thrown(OtherError))
  {
    var n := ps.ExecuteUpdate();
    match n
    case Raises(e) =>
      r := Err(Caught(e));
    case Returns(count) =>
      r := Ok(count);
  }

  // --------------------------------------------------------------- insert

  /** What `executeInsert` returns: nothing when no row was inserted, else
      the id from the first row of the generated keys, else (only when a
      fallback query is given) from the first row of the fallback query,
      else an EngineException. An SQLException while reading either source
      only moves on; another throwable propagates. */
  function InsertOutcome<T>(update: Reply<int>, keys: Reply<seq<Row>>, forced: Reply<seq<Row>>,
                            fallback: Option<string>, decode: (Row, nat) -> Reply<T>): Result<Option<T>>
  {
    match update
    case Raises(e) => Err(Caught(e))
    case Returns(n) =>
      if n == 0 then Ok(None)
      else match ReadId(keys, decode)
        case Found(id) => Ok(Some(id))
        case Fatal(e) => Err(Thrown(e))
        case Missed =>
          if fallback.None? then Err(EngineException(None))
          else match ReadId(forced, decode)
            case Found(id) => Ok(Some(id))
            case Fatal(e) => Err(Thrown(e))
            case Missed => Err(EngineException(None))
  }

  /** The keys are asked first and win whenever they yield an id; the
      fallback query is asked only when they do not, and never when there
      is none; an id always comes from the first row of one of the two. */
  lemma InsertPrefersGeneratedKeys<T>(update: Reply<int>, keys: Reply<seq<Row>>, forced: Reply<seq<Row>>,
                                      forced2: Reply<seq<Row>>, fallback: Option<string>, fallback2: Option<string>,
                                      decode: (Row, nat) -> Reply<T>)
    ensures update == Returns(0) ==> InsertOutcome(update, keys, forced, fallback, decode) == Ok(None)
    ensures update.Returns? && update.value != 0 && ReadId(keys, decode).Found? ==>
              InsertOutcome(update, keys, forced, fallback, decode)
              == InsertOutcome(update, keys, forced2, fallback2, decode)
              == Ok(Some(decode(keys.value[0], 1).value))
    ensures fallback.None? ==>
              InsertOutcome(update, keys, forced, fallback, decode) == InsertOutcome(update, keys, forced2, fallback, decode)
    ensures InsertOutcome(update, keys, forced, fallback, decode).Ok? &&
            InsertOutcome(update, keys, forced, fallback, decode).value.Some? ==>
              var id := InsertOutcome(update, keys, forced, fallback, decode).value.value;
              update.Returns? && update.value != 0 &&
              ((keys.Returns? && |keys.value| > 0 && decode(keys.value[0], 1) == Returns(id)) ||
               (fallback.Some? && forced.Returns? && |forced.value| > 0 && decode(forced.value[0], 1) == Returns(id)))
  {
  }

  /** Neither source giving an id, with rows inserted, is an
      EngineException that wraps nothing. */
  lemma InsertWithoutIdFails<T>(n: int, keys: Reply<seq<Row>>, forced: Reply<seq<Row>>,
                                fallback: Option<string>, decode: (Row, nat) -> Reply<T>)
    requires n != 0 && ReadId(keys, decode).Missed? && (fallback.Some? ==> ReadId(forced, decode).Missed?)
    ensures InsertOutcome(Returns(n), keys, forced, fallback, decode) == Err(EngineException(None))
  {
  }

  /** `rs.next()` and the decoder on the first row of a key result set, as
      `executeInsert` reads it; the result set is left open. */
  method ReadFirst<T>(reply: Reply<ResultSet>, decode: (Row, nat) -> Reply<T>) returns (found: Lookup<T>)
    requires reply.Returns? ==> reply.value.pos == 0
    modifies if reply.Returns? then {reply.value} else {}
    ensures reply.Raises? ==> found == ReadId(Raises(reply.raised), decode)
    ensures reply.Returns? ==> found == ReadId(Returns(reply.value.rows), decode)
  {
    match reply {
      case Raises(e) =>
        found := if e == SqlError then Missed else Fatal(OtherError);
      case Returns(rs) =>
        var more := rs.Next();
        if more {
          var data := decode(rs.Current(), 1);
          match data {
            case Returns(id) => found := Found(id);
            case Raises(e) => found := if e == SqlError then Missed else Fatal(OtherError);
          }
        } else {
          found := Missed;
        }
    }
  }

  /** `executeInsert` on a prepared statement: the update, then the
      generated keys, then the fallback query prepared on the same
      connection (`fs`), which is left open. The statement itself is
      neither closed nor otherwise changed. */
  method ExecuteInsert<T>(ps: Statement, fs: Statement, fallback: Option<string>, decode: (Row, nat) -> Reply<T>)
    returns (r: Result<Option<T>>)
    requires ps != fs
    modifies ps, fs
    ensures r == InsertOutcome(ps.updateReply, ps.KeysReply(), fs.queryReply, fallback, decode)
    ensures ps.closed == old(ps.closed) && ps.sql == old(ps.sql) && ps.keyRequest == old(ps.keyRequest)
    ensures ps.params == old(ps.params)
    ensures (ps.updateReply.Returns? && ps.updateReply.value != 0 && ReadId(ps.KeysReply(), decode).Missed?
             && fallback.Some?) ==> fs.sql == fallback.value && !fs.closed
  {
    var numUpdates := ps.ExecuteUpdate();
    match numUpdates {
      case Raises(e) =>
        return Err(Caught(e));
      case Returns(n) =>
        if n == 0 {
          return Ok(None);
        }
    }
    var keys := ps.GetGeneratedKeys();
    var found := ReadFirst(keys, decode);
    match found {
      case Found(id) =>
        return Ok(Some(id));
      case Fatal(e) =>
        return Err(Thrown(e));
      case Missed =>
    }
    if fallback.Some? {
      fs.Prepare(fallback.value, NoKeys);
      var q := fs.ExecuteQuery();
      var forced := ReadFirst(q, decode);
      match forced {
        case Found(id) =>
          return Ok(Some(id));
        case Fatal(e) =>
          return Err(Thrown(e));
        case Missed =>
      }
    }
    r := Err(EngineException(None));
  }

  // -------------------------------------------------------------- queries

  /** What `executeQueries` returns: nothing, once every result set has
      been handed to the decoder with its position, or the first failure. */
  function QueriesOutcome(reply: Reply<seq<Item>>, decode: (nat, seq<Row>) -> Reply<()>): Result<()> {
    match reply
    case Raises(e) => Err(Caught(e))
    case Returns(items) =>
      match AllSetsFrom(items, 0, decode)
      case Returns(_) => Ok(())
      case Raises(e) => Err(Caught(e))
  }

  /** `executeQueries`: hands each result set to the decoder with its
      ordinal, which counts every result before it, sets and update counts
      alike, and stops at the end of the results. The ordinals passed are
      returned in `ordinals`; nothing is closed. */
  method ExecuteQueries(ps: Statement, decode: (nat, seq<Row>) -> Reply<()>) returns (r: Result<()>, ordinals: seq<nat>)
    modifies ps
    ensures r == QueriesOutcome(ps.executeReply, decode)
    ensures ps.executeReply.Returns? ==> AtSets(ps.executeReply.value, ordinals)
    ensures r.Ok? ==> ordinals == SetIndicesFrom(ps.executeReply.value, 0)
    ensures ps.closed == old(ps.closed) && ps.sql == old(ps.sql) && ps.params == old(ps.params)
  {
    ordinals := [];
    var e := ps.Execute();
    if e.Raises? {
      return Err(Caught(e.raised)), ordinals;
    }
    var isResultSet := e.value;
    var count := 0;
    ghost var items := ps.results;
    ghost var done: seq<()> := [];
    PrependNothing(done, AllSetsFrom(items, 0, decode));
    assert ordinals + SetIndicesFrom(items, 0) == SetIndicesFrom(items, 0);
    while true
      invariant ps.results == items && items == ps.executeReply.value && ps.current == count <= |items|
      invariant isResultSet == ps.AtResultSet()
      invariant ps.closed == old(ps.closed) && ps.sql == old(ps.sql) && ps.params == old(ps.params)
      invariant Prepend(done, AllSetsFrom(items, count, decode)) == AllSetsFrom(items, 0, decode)
      invariant ordinals + SetIndicesFrom(items, count) == SetIndicesFrom(items, 0)
      invariant AtSets(items, ordinals)
      decreases |items| - count
    {
      if isResultSet {
        var rs := ps.GetResultSet();
        var d := decode(count, rs.rows);
        if d.Raises? {
          return Err(Caught(d.raised)), ordinals;
        }
        PrependAssoc(done, [d.value], AllSetsFrom(items, count + 1, decode));
        assert (ordinals + [count]) + SetIndicesFrom(items, count + 1) == ordinals + SetIndicesFrom(items, count);
        done := done + [d.value];
        ordinals := ordinals + [count];
      } else {
        var updateCount := ps.GetUpdateCount();
        if updateCount == -1 {
          assert SetIndicesFrom(items, count) == [] && ordinals + [] == ordinals;
          break;
        }
      }
      count := count + 1;
      isResultSet := ps.GetMoreResults();
    }
    r := Ok(());
  }

  /** The statement succeeds exactly when every result set decodes; the
      ordinals then name every result set once, in increasing order. */
  lemma QueriesVisitEverySet(items: seq<Item>, decode: (nat, seq<Row>) -> Reply<()>)
    ensures QueriesOutcome(Returns(items), decode).Ok? <==> AllDecode(items, SetIndicesFrom(items, 0), decode)
    ensures Ascending(SetIndicesFrom(items, 0))
    ensures forall p :: 0 <= p < |items| && items[p].SetItem? ==> p in SetIndicesFrom(items, 0)
  {
    AllSetsFromMeaning(items, 0, decode);
    SetIndicesFromOrdered(items, 0);
  }
}
