/** The part of JDBC the drivers talk to, as small classes whose answers
    from the database are scripted: a statement keeps its bound parameters,
    its batch, its results and whether it is closed; a result set keeps its
    rows, its cursor and whether it is closed. */
module Jdbc {
  import opened Model

  /** A row of a result set, by column position (column i is `row[i - 1]`). */
  type Row = seq<Value>

  /** What a call into the database does: it returns a value or throws. */
  datatype Reply<+T> = Returns(value: T) | Raises(raised: Raised)

  /** One result of an executed statement: a result set or an update count. */
  datatype Item = SetItem(rows: seq<Row>) | CountItem(count: nat)

  /** What a parameter position holds: `setNull` with the SQL type, or the
      value written by an encoder. */
  datatype Binding = NullOf(sqlType: nat) | Encoded(encoder: nat, value: Value)

  type Params = map<nat, Binding>

  /** The generated keys a statement was prepared to return. */
  datatype KeyRequest = NoKeys | GeneratedKeys | KeyColumns(names: seq<string>)

  /** The binding of one query value: a null goes through `setNull` with its
      JDBC type's ordinal, anything else through the value's encoder. */
  function BindingOf(q: QueryValue): Binding {
    if q.value == NullV then NullOf(q.jdbcType) else Encoded(q.encoder, q.value)
  }

  /** The binding for position `k`, which holds the `k`-th value. */
  function BindingAt(values: seq<QueryValue>, k: nat): Binding
    requires 1 <= k <= |values|
  {
    BindingOf(values[k - 1])
  }

  /** Binding the values at positions 1, 2, …, in order. */
  function Bind(values: seq<QueryValue>): (r: Params)
    ensures forall k :: k in r <==> 1 <= k <= |values|
    ensures forall k :: 1 <= k <= |values| ==> r[k] == BindingOf(values[k - 1])
  {
    map k | 1 <= k <= |values| :: BindingAt(values, k)
  }

  /** Binding one more value extends the bindings of the earlier ones at the
      next position. */
  lemma BindSnoc(m: Params, values: seq<QueryValue>, v: QueryValue)
    ensures (m + Bind(values))[|values| + 1 := BindingOf(v)] == m + Bind(values + [v])
  {
    var a, b := (m + Bind(values))[|values| + 1 := BindingOf(v)], m + Bind(values + [v]);
    forall k | k in a ensures k in b && a[k] == b[k] {
      if 1 <= k <= |values| {
        assert (values + [v])[k - 1] == values[k - 1];
      }
    }
    assert a.Keys == b.Keys;
  }

  /** Decoding every row in order, stopping at the first decoder that throws. */
  function DecodeRows<T>(rows: seq<Row>, decode: Row -> Reply<T>): Reply<seq<T>> {
    if rows == [] then Returns([])
    else match DecodeRows(rows[..|rows| - 1], decode)
      case Raises(e) => Raises(e)
      case Returns(xs) =>
        match decode(rows[|rows| - 1])
        case Raises(e) => Raises(e)
        case Returns(x) => Returns(xs + [x])
  }

  /** Decoding succeeds exactly when every row decodes; it then yields one
      element per row, in row order, and otherwise the throwable of the first
      row whose decoding throws. */
  lemma {:induction false} DecodeRowsMeaning<T>(rows: seq<Row>, decode: Row -> Reply<T>)
    ensures DecodeRows(rows, decode).Returns? <==> forall i :: 0 <= i < |rows| ==> decode(rows[i]).Returns?
    ensures DecodeRows(rows, decode).Returns? ==>
              var xs := DecodeRows(rows, decode).value;
              |xs| == |rows| && forall i :: 0 <= i < |rows| ==> xs[i] == decode(rows[i]).value
    ensures DecodeRows(rows, decode).Raises? ==>
              exists i :: 0 <= i < |rows| && decode(rows[i]) == Raises(DecodeRows(rows, decode).raised)
                          && forall j :: 0 <= j < i ==> decode(rows[j]).Returns?
  {
    if rows != [] {
      var init := rows[..|rows| - 1];
      DecodeRowsMeaning(init, decode);
      assert forall i :: 0 <= i < |init| ==> init[i] == rows[i];
    }
  }

  /** Once decoding a prefix of the rows throws, decoding them all throws
      the same. */
  lemma {:induction false} DecodeRowsThrowPersists<T>(rows: seq<Row>, p: nat, decode: Row -> Reply<T>)
    requires p <= |rows| && DecodeRows(rows[..p], decode).Raises?
    ensures DecodeRows(rows, decode) == DecodeRows(rows[..p], decode)
  {
    if p < |rows| {
      var init := rows[..|rows| - 1];
      assert init[..p] == rows[..p];
      DecodeRowsThrowPersists(init, p, decode);
    } else {
      assert rows[..p] == rows;
    }
  }

  /** `java.sql.ResultSet`: the rows and a cursor; the current row is
      `rows[pos - 1]` once `next` has moved onto it. */
  class ResultSet {
    const rows: seq<Row>
    var pos: nat
    var closed: bool

    constructor (rows: seq<Row>)
      ensures this.rows == rows && pos == 0 && !closed
    {
      this.rows := rows;
      pos := 0;
      closed := false;
    }

    /** `next()`: moves onto the following row, if there is one. */
    method Next() returns (more: bool)
      modifies this
      ensures more <==> old(pos) < |rows|
      ensures pos == if more then old(pos) + 1 else old(pos)
      ensures closed == old(closed)
    {
      more := pos < |rows|;
      if more {
        pos := pos + 1;
      }
    }

    /** The row the cursor is on. */
    function Current(): Row
      reads this
      requires 1 <= pos <= |rows|
    {
      rows[pos - 1]
    }

    method Close()
      modifies this
      ensures closed && pos == old(pos)
    {
      closed := true;
    }
  }

  /** `java.sql.PreparedStatement` (and `CallableStatement`). The constants
      are the database's answers; the variables are the statement's state:
      its SQL and key request, the bound parameters, the batch being built,
      the batches already executed, the results of `execute` with the index of
      the current one, the result sets it handed out, and whether it is
      closed. */
  class Statement {
    const updateReply: Reply<int>
    const batchReply: nat -> Reply<seq<int>>
    const queryReply: Reply<seq<Row>>
    const keysReply: Reply<seq<Row>>
    const executeReply: Reply<seq<Item>>

    var sql: string
    var keyRequest: KeyRequest
    var closed: bool
    var params: Params
    var pending: seq<Params>
    var sent: seq<seq<Params>>
    var results: seq<Item>
    var current: nat
    var produced: seq<ResultSet>

    constructor (updateReply: Reply<int>, batchReply: nat -> Reply<seq<int>>, queryReply: Reply<seq<Row>>,
                 keysReply: Reply<seq<Row>>, executeReply: Reply<seq<Item>>)
      ensures this.updateReply == updateReply && this.batchReply == batchReply && this.queryReply == queryReply
      ensures this.keysReply == keysReply && this.executeReply == executeReply
      ensures closed && params == map[] && pending == [] && sent == [] && results == [] && produced == []
    {
      this.updateReply := updateReply;
      this.batchReply := batchReply;
      this.queryReply := queryReply;
      this.keysReply := keysReply;
      this.executeReply := executeReply;
      sql := "";
      keyRequest := NoKeys;
      closed := true;
      params := map[];
      pending := [];
      sent := [];
      results := [];
      current := 0;
      produced := [];
    }

    /** `conn.prepareStatement(sql[, keys])` (or `prepareCall`) handing out
        this statement: open, for `sql`, with nothing bound, batched or
        executed yet. */
    method Prepare(sql: string, keys: KeyRequest)
      modifies this
      ensures this.sql == sql && keyRequest == keys && !closed
      ensures params == map[] && pending == [] && sent == [] && results == [] && current == 0 && produced == []
    {
      this.sql := sql;
      keyRequest := keys;
      closed := false;
      params := map[];
      pending := [];
      sent := [];
      results := [];
      current := 0;
      produced := [];
    }

    /** `setNull` or an encoder's setter at position `k`. */
    method SetParam(k: nat, b: Binding)
      modifies this
      ensures params == old(params)[k := b]
      ensures sql == old(sql) && keyRequest == old(keyRequest) && closed == old(closed)
      ensures pending == old(pending) && sent == old(sent) && results == old(results)
      ensures current == old(current) && produced == old(produced)
    {
      params := params[k := b];
    }

    /** `addBatch()`: the current parameters join the batch. */
    method AddBatch()
      modifies this
      ensures pending == old(pending) + [old(params)]
      ensures sql == old(sql) && keyRequest == old(keyRequest) && closed == old(closed)
      ensures params == old(params) && sent == old(sent) && results == old(results)
      ensures current == old(current) && produced == old(produced)
    {
      pending := pending + [params];
    }

    /** `executeBatch()`: the batch goes to the database, which answers with
        its reply for this statement's next batch; the batch is emptied. */
    method ExecuteBatch() returns (r: Reply<seq<int>>)
      modifies this
      ensures r == batchReply(|old(sent)|)
      ensures sent == old(sent) + [old(pending)] && pending == []
      ensures sql == old(sql) && keyRequest == old(keyRequest) && closed == old(closed)
      ensures params == old(params) && results == old(results)
      ensures current == old(current) && produced == old(produced)
    {
      r := batchReply(|sent|);
      sent := sent + [pending];
      pending := [];
    }

    /** `clearParameters()`. */
    method ClearParameters()
      modifies this
      ensures params == map[]
      ensures sql == old(sql) && keyRequest == old(keyRequest) && closed == old(closed)
      ensures pending == old(pending) && sent == old(sent) && results == old(results)
      ensures current == old(current) && produced == old(produced)
    {
      params := map[];
    }

    /** `executeUpdate()`. */
    method ExecuteUpdate() returns (r: Reply<int>)
      ensures r == updateReply
    {
      r := updateReply;
    }

    /** A fresh result set over `rows`, recorded as handed out. */
    method Produce(rows: seq<Row>) returns (rs: ResultSet)
      modifies this
      ensures fresh(rs) && rs.rows == rows && rs.pos == 0 && !rs.closed
      ensures produced == old(produced) + [rs]
      ensures sql == old(sql) && keyRequest == old(keyRequest) && closed == old(closed)
      ensures params == old(params) && pending == old(pending) && sent == old(sent)
      ensures results == old(results) && current == old(current)
    {
      rs := new ResultSet(rows);
      produced := produced + [rs];
    }

    /** `executeQuery()`: the rows of the query, as a fresh result set. */
    method ExecuteQuery() returns (r: Reply<ResultSet>)
      modifies this
      ensures queryReply.Raises? ==> r == Raises(queryReply.raised) && produced == old(produced)
      ensures queryReply.Returns? ==>
                r.Returns? && fresh(r.value) && r.value.rows == queryReply.value && r.value.pos == 0
                && !r.value.closed && produced == old(produced) + [r.value]
      ensures sql == old(sql) && keyRequest == old(keyRequest) && closed == old(closed)
      ensures params == old(params) && pending == old(pending) && sent == old(sent)
      ensures results == old(results) && current == old(current)
    {
      match queryReply
      case Raises(e) =>
        r := Raises(e);
      case Returns(rows) =>
        var rs := Produce(rows);
        r := Returns(rs);
    }

    /** What asking for the generated keys answers: a statement prepared
        without a key request has none to report. */
    function KeysReply(): Reply<seq<Row>>
      reads this
    {
      if keyRequest == NoKeys then Returns([]) else keysReply
    }

    /** `getGeneratedKeys()`. */
    method GetGeneratedKeys() returns (r: Reply<ResultSet>)
      modifies this
      ensures var reply := KeysReply();
              && (reply.Raises? ==> r == Raises(reply.raised) && produced == old(produced))
              && (reply.Returns? ==>
                    r.Returns? && fresh(r.value) && r.value.rows == reply.value && r.value.pos == 0
                    && !r.value.closed && produced == old(produced) + [r.value])
      ensures sql == old(sql) && keyRequest == old(keyRequest) && closed == old(closed)
      ensures params == old(params) && pending == old(pending) && sent == old(sent)
      ensures results == old(results) && current == old(current)
    {
      var reply := KeysReply();
      match reply
      case Raises(e) =>
        r := Raises(e);
      case Returns(rows) =>
        var rs := Produce(rows);
        r := Returns(rs);
    }

    /** Whether the current result of `execute` is a result set. */
    predicate AtResultSet()
      reads this
    {
      current < |results| && results[current].SetItem?
    }

    /** `execute()`: true when the first result is a result set. */
    method Execute() returns (r: Reply<bool>)
      modifies this
      ensures executeReply.Raises? ==> r == Raises(executeReply.raised) && results == old(results)
                                       && current == old(current)
      ensures executeReply.Returns? ==> results == executeReply.value && current == 0 && r == Returns(AtResultSet())
      ensures sql == old(sql) && keyRequest == old(keyRequest) && closed == old(closed)
      ensures params == old(params) && pending == old(pending) && sent == old(sent) && produced == old(produced)
    {
      match executeReply
      case Raises(e) =>
        r := Raises(e);
      case Returns(items) =>
        results := items;
        current := 0;
        r := Returns(AtResultSet());
    }

    /** `getResultSet()` while the current result is a result set. */
    method GetResultSet() returns (rs: ResultSet)
      requires AtResultSet()
      modifies this
      ensures results == old(results) && current == old(current)
      ensures fresh(rs) && rs.rows == results[current].rows && rs.pos == 0 && !rs.closed
      ensures produced == old(produced) + [rs]
      ensures sql == old(sql) && keyRequest == old(keyRequest) && closed == old(closed)
      ensures params == old(params) && pending == old(pending) && sent == old(sent)
    {
      rs := Produce(results[current].rows);
    }

    /** `getUpdateCount()`: the count of the current result, or -1 when it
        is a result set or there are no more results. */
    method GetUpdateCount() returns (n: int)
      ensures current < |results| && results[current].CountItem? ==> n == results[current].count
      ensures !(current < |results| && results[current].CountItem?) ==> n == -1
    {
      n := if current < |results| && results[current].CountItem? then results[current].count else -1;
    }

    /** `getMoreResults()`: moves to the next result; true when it is a
        result set. */
    method GetMoreResults() returns (b: bool)
      modifies this
      ensures current == old(current) + 1 && b == AtResultSet()
      ensures sql == old(sql) && keyRequest == old(keyRequest) && closed == old(closed)
      ensures params == old(params) && pending == old(pending) && sent == old(sent)
      ensures results == old(results) && produced == old(produced)
    {
      current := current + 1;
      b := AtResultSet();
    }

    method Close()
      modifies this
      ensures closed
      ensures sql == old(sql) && keyRequest == old(keyRequest)
      ensures params == old(params) && pending == old(pending) && sent == old(sent)
      ensures results == old(results) && current == old(current) && produced == old(produced)
    {
      closed := true;
    }
  }

  /** The positions of the result sets among the results, from `j` on, in
      order. */
  function SetIndicesFrom(items: seq<Item>, j: nat): (r: seq<nat>)
    ensures forall k :: 0 <= k < |r| ==> j <= r[k] < |items| && items[r[k]].SetItem?
    decreases |items| - j
  {
    if j >= |items| then []
    else if items[j].SetItem? then [j] + SetIndicesFrom(items, j + 1)
    else SetIndicesFrom(items, j + 1)
  }

  predicate Ascending(r: seq<nat>) {
    forall k, l :: 0 <= k < l < |r| ==> r[k] < r[l]
  }

  /** The positions are strictly increasing and include every result set
      from `j` on. */
  lemma {:induction false} SetIndicesFromOrdered(items: seq<Item>, j: nat)
    ensures Ascending(SetIndicesFrom(items, j))
    ensures forall p :: j <= p < |items| && items[p].SetItem? ==> p in SetIndicesFrom(items, j)
    decreases |items| - j
  {
    if j < |items| {
      SetIndicesFromOrdered(items, j + 1);
      if items[j].SetItem? {
        var rest := SetIndicesFrom(items, j + 1);
        var r := SetIndicesFrom(items, j);
        assert r == [j] + rest;
        forall k, l | 0 <= k < l < |r| ensures r[k] < r[l] {
          assert r[l] == rest[l - 1];
          assert j + 1 <= rest[l - 1];
          if k > 0 {
            assert r[k] == rest[k - 1];
            assert rest[k - 1] < rest[l - 1];
          }
        }
      } else {
        assert SetIndicesFrom(items, j) == SetIndicesFrom(items, j + 1);
      }
    }
  }

  /** `Returns(xs + ys)` for `Returns(ys)`; a throw stays as it is. */
  function Prepend<D>(xs: seq<D>, r: Reply<seq<D>>): Reply<seq<D>> {
    match r
    case Returns(ys) => Returns(xs + ys)
    case Raises(e) => Raises(e)
  }

  lemma PrependAssoc<D>(xs: seq<D>, ys: seq<D>, r: Reply<seq<D>>)
    ensures Prepend(xs, Prepend(ys, r)) == Prepend(xs + ys, r)
  {
    if r.Returns? {
      assert xs + (ys + r.value) == (xs + ys) + r.value;
    }
  }

  lemma PrependNothing<D>(xs: seq<D>, r: Reply<seq<D>>)
    ensures Prepend([], r) == r
    ensures Prepend(xs, Returns([])) == Returns(xs)
  {
    if r.Returns? {
      assert [] + r.value == r.value;
    }
    assert xs + [] == xs;
  }

  /** Every result set from position `j` on decoded with its position, update
      counts skipped, stopping at the first decoder that throws. */
  function AllSetsFrom<D>(items: seq<Item>, j: nat, decode: (nat, seq<Row>) -> Reply<D>): Reply<seq<D>>
    decreases |items| - j
  {
    if j >= |items| then Returns([])
    else if items[j].SetItem? then
      match decode(j, items[j].rows)
      case Raises(e) => Raises(e)
      case Returns(d) => Prepend([d], AllSetsFrom(items, j + 1, decode))
    else AllSetsFrom(items, j + 1, decode)
  }

  /** Each listed position holds a result set. */
  predicate AtSets(items: seq<Item>, ix: seq<nat>) {
    forall k :: 0 <= k < |ix| ==> ix[k] < |items| && items[ix[k]].SetItem?
  }

  /** The result set at every listed position decodes. */
  predicate AllDecode<D>(items: seq<Item>, ix: seq<nat>, decode: (nat, seq<Row>) -> Reply<D>)
    requires AtSets(items, ix)
  {
    forall k :: 0 <= k < |ix| ==> decode(ix[k], items[ix[k]].rows).Returns?
  }

  /** `ds` holds, in order, the decoding of the result set at each listed
      position. */
  ghost predicate DecodedAt<D>(items: seq<Item>, ix: seq<nat>, ds: seq<D>, decode: (nat, seq<Row>) -> Reply<D>)
    requires AtSets(items, ix)
  {
    |ds| == |ix| && forall k :: 0 <= k < |ix| ==> decode(ix[k], items[ix[k]].rows) == Returns(ds[k])
  }

  /** The decoded result sets are, in order, the decoding of each result set
      with its position among all results; decoding succeeds exactly when
      every result set decodes. */
  lemma {:induction false} AllSetsFromMeaning<D>(items: seq<Item>, j: nat, decode: (nat, seq<Row>) -> Reply<D>)
    ensures AtSets(items, SetIndicesFrom(items, j))
    ensures AllSetsFrom(items, j, decode).Returns? <==> AllDecode(items, SetIndicesFrom(items, j), decode)
    ensures AllSetsFrom(items, j, decode).Returns? ==>
              DecodedAt(items, SetIndicesFrom(items, j), AllSetsFrom(items, j, decode).value, decode)
    decreases |items| - j
  {
    if j < |items| {
      AllSetsFromMeaning(items, j + 1, decode);
      if items[j].SetItem? {
        AllSetsFromSet(items, j, decode);
      } else {
        assert SetIndicesFrom(items, j) == SetIndicesFrom(items, j + 1);
        assert AllSetsFrom(items, j, decode) == AllSetsFrom(items, j + 1, decode);
      }
    }
  }

  /** The step of `AllSetsFromMeaning` at a result set. */
  lemma AllSetsFromSet<D>(items: seq<Item>, j: nat, decode: (nat, seq<Row>) -> Reply<D>)
    requires j < |items| && items[j].SetItem?
    requires AtSets(items, SetIndicesFrom(items, j + 1))
    requires AllSetsFrom(items, j + 1, decode).Returns? <==> AllDecode(items, SetIndicesFrom(items, j + 1), decode)
    requires AllSetsFrom(items, j + 1, decode).Returns? ==>
               DecodedAt(items, SetIndicesFrom(items, j + 1), AllSetsFrom(items, j + 1, decode).value, decode)
    ensures AtSets(items, SetIndicesFrom(items, j))
    ensures AllSetsFrom(items, j, decode).Returns? <==> AllDecode(items, SetIndicesFrom(items, j), decode)
    ensures AllSetsFrom(items, j, decode).Returns? ==>
              DecodedAt(items, SetIndicesFrom(items, j), AllSetsFrom(items, j, decode).value, decode)
  {
    var rest := SetIndicesFrom(items, j + 1);
    var ix := SetIndicesFrom(items, j);
    assert ix == [j] + rest;
    assert AtSets(items, ix);
    match decode(j, items[j].rows)
    case Raises(e) =>
      assert AllSetsFrom(items, j, decode) == Raises(e);
      assert !decode(ix[0], items[ix[0]].rows).Returns?;
    case Returns(d) =>
      var tail := AllSetsFrom(items, j + 1, decode);
      assert AllSetsFrom(items, j, decode) == Prepend([d], tail);
      assert AllDecode(items, ix, decode) <==> AllDecode(items, rest, decode) by {
        forall k | 0 <= k < |rest| ensures ix[k + 1] == rest[k] {
        }
      }
      if tail.Returns? {
        var r := [d] + tail.value;
        forall k | 0 <= k < |ix| ensures decode(ix[k], items[ix[k]].rows) == Returns(r[k]) {
          if k > 0 {
            assert r[k] == tail.value[k - 1] && ix[k] == rest[k - 1];
          }
        }
      }
  }

  /** What reading the first column of the first row of a key result set
      gives: the id, nothing to read (no row, or an SQLException on the way,
      which both callers catch), or another throwable. */
  datatype Lookup<+T> = Found(id: T) | Missed | Fatal(raised: Raised)

  function ReadId<T>(reply: Reply<seq<Row>>, decode: (Row, nat) -> Reply<T>): (r: Lookup<T>)
    ensures r.Found? <==> reply.Returns? && |reply.value| > 0 && decode(reply.value[0], 1).Returns?
    ensures r.Found? ==> r.id == decode(reply.value[0], 1).value
    ensures r.Fatal? ==> r.raised == OtherError
  {
    match reply
    case Raises(SqlError) => Missed
    case Raises(OtherError) => Fatal(OtherError)
    case Returns(rows) =>
      if rows == [] then Missed
      else match decode(rows[0], 1)
        case Returns(id) => Found(id)
        case Raises(e) =>
          match e
          case SqlError => Missed
          case OtherError => Fatal(OtherError)
  }

  /** `rs.getInt(i)` on the current row: SQL NULL reads as 0; a missing
      column or a value that is not an integer throws an SQLException. */
  function GetInt(row: Row, i: nat): (r: Reply<int>)
    ensures r.Returns? <==> 1 <= i <= |row| && (row[i - 1].IntV? || row[i - 1].NullV?)
    ensures r.Returns? && row[i - 1].IntV? ==> r.value == row[i - 1].i
    ensures r.Returns? && row[i - 1].NullV? ==> r.value == 0
    ensures r.Raises? ==> r.raised == SqlError
  {
    if 1 <= i <= |row| then
      match row[i - 1]
      case IntV(n) => Returns(n)
      case NullV => Returns(0)
      case _ => Raises(SqlError)
    else Raises(SqlError)
  }
}
