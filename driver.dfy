/** dbmessiah's `Driver`: binding query values to a statement, batches in
    groups of 1000, updates, queries, inserts that fetch the generated id,
    and executions with several results. Each operation prepares its
    statement on the connection (modelled by `Statement.Prepare` on a
    statement the caller hands in) and wraps every throwable in a
    DriverException. */
module Driver {
  import opened Model
  import opened Jdbc

  /** `prepareQuery`: the values are bound at positions 1, 2, … in order;
      nothing else about the statement changes. */
  method PrepareQuery(ps: Statement, values: seq<QueryValue>)
    modifies ps
    ensures ps.params == old(ps.params) + Bind(values)
    ensures ps.sql == old(ps.sql) && ps.keyRequest == old(ps.keyRequest) && ps.closed == old(ps.closed)
    ensures ps.pending == old(ps.pending) && ps.sent == old(ps.sent) && ps.results == old(ps.results)
    ensures ps.current == old(ps.current) && ps.produced == old(ps.produced)
  {
    for i := 0 to |values|
      invariant ps.params == old(ps.params) + Bind(values[..i])
      invariant ps.sql == old(ps.sql) && ps.keyRequest == old(ps.keyRequest) && ps.closed == old(ps.closed)
      invariant ps.pending == old(ps.pending) && ps.sent == old(ps.sent) && ps.results == old(ps.results)
      invariant ps.current == old(ps.current) && ps.produced == old(ps.produced)
    {
      BindSnoc(old(ps.params), values[..i], values[i]);
      assert values[..i + 1] == values[..i] + [values[i]];
      if values[i].value == NullV {
        ps.SetParam(i + 1, NullOf(values[i].jdbcType));
      } else {
        ps.SetParam(i + 1, Encoded(values[i].encoder, values[i].value));
      }
    }
    assert values[..|values|] == values;
  }

  /** `closeAll`: closes the statement and, when there is one, the result
      set. */
  method CloseAll(ps: Statement, rs: ResultSet?)
    modifies ps, rs
    ensures ps.closed && (rs != null ==> rs.closed && rs.pos == old(rs.pos))
    ensures ps.sql == old(ps.sql) && ps.keyRequest == old(ps.keyRequest) && ps.params == old(ps.params)
    ensures ps.pending == old(ps.pending) && ps.sent == old(ps.sent) && ps.results == old(ps.results)
    ensures ps.current == old(ps.current) && ps.produced == old(ps.produced)
  {
    ps.Close();
    if rs != null {
      rs.Close();
    }
  }

  // ---------------------------------------------------------------- batch

  /** The size of the groups a batch is executed in. */
  const GROUP := 1000

  /** The number of groups for `n` rows: n / 1000 rounded up. */
  function NumGroups(n: nat): nat {
    (n + GROUP - 1) / GROUP
  }

  function Min(a: nat, b: nat): nat {
    if a <= b then a else b
  }

  /** The `c`-th group of rows. */
  function GroupAt<X>(rows: seq<X>, c: nat): seq<X>
    requires c < NumGroups(|rows|)
  {
    rows[GROUP * c..Min(GROUP * c + GROUP, |rows|)]
  }

  /** The parameters bound after binding each of the rows in turn on a
      statement with nothing bound: a later row overrides the positions it
      binds, and a shorter row leaves the others as they were. */
  function Overlay(rows: seq<seq<QueryValue>>): Params {
    if rows == [] then map[] else Overlay(rows[..|rows| - 1]) + Bind(rows[|rows| - 1])
  }

  /** The parameter sets `addBatch` records for a group of rows. */
  function Snapshots(rows: seq<seq<QueryValue>>): (r: seq<Params>)
    ensures |r| == |rows|
  {
    if rows == [] then [] else Snapshots(rows[..|rows| - 1]) + [Overlay(rows)]
  }

  /** What the first `m` calls of `executeBatch` send, group by group. */
  function BatchesUpTo(rows: seq<seq<QueryValue>>, m: nat): (r: seq<seq<Params>>)
    requires m <= NumGroups(|rows|)
    ensures |r| == m
  {
    if m == 0 then [] else BatchesUpTo(rows, m - 1) + [Snapshots(GroupAt(rows, m - 1))]
  }

  /** What every `executeBatch` sends. */
  function Batches(rows: seq<seq<QueryValue>>): (r: seq<seq<Params>>)
    ensures |r| == NumGroups(|rows|)
  {
    BatchesUpTo(rows, NumGroups(|rows|))
  }

  /** Batch `c` sends the parameter sets of group `c`. */
  lemma {:induction false} BatchesAt(rows: seq<seq<QueryValue>>, m: nat)
    requires m <= NumGroups(|rows|)
    ensures forall c :: 0 <= c < m ==> BatchesUpTo(rows, m)[c] == Snapshots(GroupAt(rows, c))
  {
    if m > 0 {
      BatchesAt(rows, m - 1);
    }
  }

  /** The first of the first `m` batches whose execution throws. */
  function FirstThrow(reply: nat -> Reply<seq<int>>, m: nat): (r: Option<nat>)
    ensures r.Some? ==> r.value < m && reply(r.value).Raises? && forall c :: 0 <= c < r.value ==> reply(c).Returns?
    ensures r.None? <==> forall c :: 0 <= c < m ==> reply(c).Returns?
  {
    if m == 0 then None
    else if FirstThrow(reply, m - 1).Some? then FirstThrow(reply, m - 1)
    else if reply(m - 1).Raises? then Some(m - 1)
    else None
  }

  function Sum(xs: seq<int>): int {
    if xs == [] then 0 else Sum(xs[..|xs| - 1]) + xs[|xs| - 1]
  }

  /** The update counts of the first `m` batches, added up. */
  function Total(reply: nat -> Reply<seq<int>>, m: nat): int {
    if m == 0 then 0
    else Total(reply, m - 1) + (if reply(m - 1).Returns? then Sum(reply(m - 1).value) else 0)
  }

  lemma OverlaySnoc(rows: seq<seq<QueryValue>>, row: seq<QueryValue>)
    ensures Overlay(rows + [row]) == Overlay(rows) + Bind(row)
    ensures Snapshots(rows + [row]) == Snapshots(rows) + [Overlay(rows + [row])]
  {
    assert (rows + [row])[..|rows|] == rows;
  }

  /** A throw in batch `c`, with none before it, is the first throw among
      any number of batches past `c`. */
  lemma {:induction false} FirstThrowStays(reply: nat -> Reply<seq<int>>, c: nat, m: nat)
    requires FirstThrow(reply, c) == None && reply(c).Raises? && c < m
    ensures FirstThrow(reply, m) == Some(c)
  {
    if m > c + 1 {
      FirstThrowStays(reply, c, m - 1);
    }
  }

  /** `n` rows, `i` of them in the open group after `c` full groups. */
  lemma GroupCount(n: nat, c: nat, i: nat)
    requires n == GROUP * c + i && i < GROUP
    ensures NumGroups(n) == if i == 0 then c else c + 1
  {
  }

  /** The group that ends the prefix `rows[..e]` is the `c`-th, and what it
      sends follows the batches of the groups before it. */
  lemma GroupDone(rows: seq<seq<QueryValue>>, c: nat, e: nat)
    requires GROUP * c < e <= |rows| && (e == GROUP * c + GROUP || e == |rows|) && e <= GROUP * c + GROUP
    ensures c < NumGroups(|rows|)
    ensures BatchesUpTo(rows, c + 1) == BatchesUpTo(rows, c) + [Snapshots(rows[GROUP * c..e])]
  {
    assert c < NumGroups(|rows|);
    assert GroupAt(rows, c) == rows[GROUP * c..e];
  }

  /** What `batch` ends with: the total update count and every group sent
      when the database accepts every batch, and otherwise a DriverException
      for the first batch it refuses, after which nothing more is sent. */
  ghost predicate BatchOutcome(reply: nat -> Reply<seq<int>>, rows: seq<seq<QueryValue>>, r: Result<int>, sent: seq<seq<Params>>) {
    var f := FirstThrow(reply, NumGroups(|rows|));
    && (f.None? ==> r == Ok(Total(reply, NumGroups(|rows|))) && sent == Batches(rows))
    && (f.Some? ==> r == Err(DriverException(reply(f.value).raised)) && sent == BatchesUpTo(rows, f.value + 1))
  }

  /** Where the loop of `batch` stands after `k` rows: `c` groups executed
      and accepted, adding up to `numUpdates`, and `i` rows (`group`) added to
      the open batch, whose parameter sets are `pending`, with `params`
      bound. */
  ghost predicate Progress(rows: seq<seq<QueryValue>>, reply: nat -> Reply<seq<int>>, k: nat, c: nat, i: nat,
                           group: seq<seq<QueryValue>>, sent: seq<seq<Params>>, pending: seq<Params>,
                           params: Params, numUpdates: int)
  {
    && k == GROUP * c + i && i < GROUP && k <= |rows| && c <= NumGroups(|rows|)
    && sent == BatchesUpTo(rows, c) && group == rows[k - i..k]
    && pending == Snapshots(group) && params == Overlay(group)
    && FirstThrow(reply, c) == None && numUpdates == Total(reply, c)
  }

  lemma ProgressStart(rows: seq<seq<QueryValue>>, reply: nat -> Reply<seq<int>>)
    ensures Progress(rows, reply, 0, 0, 0, [], [], [], map[], 0)
  {
  }

  /** Row `k` has joined a group that is still open. */
  lemma StepOpen(rows: seq<seq<QueryValue>>, reply: nat -> Reply<seq<int>>, k: nat, c: nat, i: nat,
                 group: seq<seq<QueryValue>>, sent: seq<seq<Params>>, pending: seq<Params>,
                 params: Params, numUpdates: int)
    requires Progress(rows, reply, k, c, i, group, sent, pending, params, numUpdates)
    requires k < |rows| && i + 1 < GROUP
    ensures Progress(rows, reply, k + 1, c, i + 1, group + [rows[k]], sent,
                     pending + [params + Bind(rows[k])], params + Bind(rows[k]), numUpdates)
  {
    OverlaySnoc(group, rows[k]);
    assert group + [rows[k]] == rows[k - i..k + 1];
  }

  /** Row `k` fills its group, which the database accepts. */
  lemma StepFlush(rows: seq<seq<QueryValue>>, reply: nat -> Reply<seq<int>>, k: nat, c: nat, i: nat,
                  group: seq<seq<QueryValue>>, sent: seq<seq<Params>>, pending: seq<Params>,
                  params: Params, numUpdates: int)
    requires Progress(rows, reply, k, c, i, group, sent, pending, params, numUpdates)
    requires k < |rows| && i + 1 == GROUP && reply(c).Returns?
    ensures Progress(rows, reply, k + 1, c + 1, 0, [], sent + [pending + [params + Bind(rows[k])]],
                     [], map[], numUpdates + Sum(reply(c).value))
  {
    OverlaySnoc(group, rows[k]);
    assert group + [rows[k]] == rows[k - i..k + 1];
    GroupDone(rows, c, k + 1);
  }

  /** Row `k` fills its group, which the database refuses. */
  lemma StepRefused(rows: seq<seq<QueryValue>>, reply: nat -> Reply<seq<int>>, k: nat, c: nat, i: nat,
                    group: seq<seq<QueryValue>>, sent: seq<seq<Params>>, pending: seq<Params>,
                    params: Params, numUpdates: int)
    requires Progress(rows, reply, k, c, i, group, sent, pending, params, numUpdates)
    requires k < |rows| && i + 1 == GROUP && reply(c).Raises?
    ensures BatchOutcome(reply, rows, Err(DriverException(reply(c).raised)), sent + [pending + [params + Bind(rows[k])]])
  {
    OverlaySnoc(group, rows[k]);
    assert group + [rows[k]] == rows[k - i..k + 1];
    GroupDone(rows, c, k + 1);
    FirstThrowStays(reply, c, NumGroups(|rows|));
  }

  /** All rows added and no open group left. */
  lemma FinishEven(rows: seq<seq<QueryValue>>, reply: nat -> Reply<seq<int>>, c: nat,
                   group: seq<seq<QueryValue>>, sent: seq<seq<Params>>, pending: seq<Params>,
                   params: Params, numUpdates: int)
    requires Progress(rows, reply, |rows|, c, 0, group, sent, pending, params, numUpdates)
    ensures pending == [] && BatchOutcome(reply, rows, Ok(numUpdates), sent)
  {
    GroupCount(|rows|, c, 0);
  }

  /** All rows added; the last, open group is executed. */
  lemma FinishLast(rows: seq<seq<QueryValue>>, reply: nat -> Reply<seq<int>>, c: nat, i: nat,
                   group: seq<seq<QueryValue>>, sent: seq<seq<Params>>, pending: seq<Params>,
                   params: Params, numUpdates: int)
    requires Progress(rows, reply, |rows|, c, i, group, sent, pending, params, numUpdates) && i > 0
    ensures reply(c).Returns? ==> BatchOutcome(reply, rows, Ok(numUpdates + Sum(reply(c).value)), sent + [pending])
    ensures reply(c).Raises? ==> BatchOutcome(reply, rows, Err(DriverException(reply(c).raised)), sent + [pending])
  {
    GroupCount(|rows|, c, i);
    GroupDone(rows, c, |rows|);
    if reply(c).Raises? {
      FirstThrowStays(reply, c, NumGroups(|rows|));
    }
  }

  /** One row of a batch: its values are bound, then `addBatch` records the
      parameters. */
  method AddRow(ps: Statement, values: seq<QueryValue>)
    modifies ps
    ensures ps.params == old(ps.params) + Bind(values) && ps.pending == old(ps.pending) + [ps.params]
    ensures ps.sql == old(ps.sql) && ps.closed == old(ps.closed) && ps.sent == old(ps.sent)
  {
    PrepareQuery(ps, values);
    ps.AddBatch();
  }

  /** `batch`: the rows are bound and added to the batch one by one, and
      every 1000 rows the batch is executed, its counts added up and the
      parameters cleared; a last, shorter group is executed at the end. The
      statement is closed on every path, and the first batch the database
      refuses ends it with a DriverException. */
  method Batch(ps: Statement, sql: string, valueMatrix: seq<seq<QueryValue>>) returns (r: Result<int>)
    modifies ps
    ensures ps.closed && ps.sql == sql
    ensures BatchOutcome(ps.batchReply, valueMatrix, r, ps.sent)
  {
    ps.Prepare(sql, NoKeys);
    var numUpdates := 0;
    var i := 0;
    ghost var c := 0;
    ghost var group: seq<seq<QueryValue>> := [];
    ProgressStart(valueMatrix, ps.batchReply);
    for k := 0 to |valueMatrix|
      invariant !ps.closed && ps.sql == sql
      invariant Progress(valueMatrix, ps.batchReply, k, c, i, group, ps.sent, ps.pending, ps.params, numUpdates)
    {
      ghost var (sent0, pending0, params0) := (ps.sent, ps.pending, ps.params);
      AddRow(ps, valueMatrix[k]);
      if (i + 1) % GROUP == 0 {
        var exeCount := ps.ExecuteBatch();
        if exeCount.Raises? {
          StepRefused(valueMatrix, ps.batchReply, k, c, i, group, sent0, pending0, params0, numUpdates);
          CloseAll(ps, null);
          return Err(DriverException(exeCount.raised));
        }
        StepFlush(valueMatrix, ps.batchReply, k, c, i, group, sent0, pending0, params0, numUpdates);
        numUpdates := numUpdates + Sum(exeCount.value);
        ps.ClearParameters();
        i := 0;
        c := c + 1;
        group := [];
      } else {
        StepOpen(valueMatrix, ps.batchReply, k, c, i, group, sent0, pending0, params0, numUpdates);
        i := i + 1;
        group := group + [valueMatrix[k]];
      }
    }
    if i > 0 {
      FinishLast(valueMatrix, ps.batchReply, c, i, group, ps.sent, ps.pending, ps.params, numUpdates);
      var exeCount := ps.ExecuteBatch();
      if exeCount.Raises? {
        CloseAll(ps, null);
        return Err(DriverException(exeCount.raised));
      }
      numUpdates := numUpdates + Sum(exeCount.value);
    } else {
      FinishEven(valueMatrix, ps.batchReply, c, group, ps.sent, ps.pending, ps.params, numUpdates);
    }
    CloseAll(ps, null);
    r := Ok(numUpdates);
  }

  /** The groups split the rows: there are n / 1000 of them rounded up, each
      holds between 1 and 1000 rows, all but the last exactly 1000, and row
      `p` is row `p % 1000` of group `p / 1000`. No rows, no batch. */
  lemma GroupsSplitRows<X>(rows: seq<X>)
    ensures |rows| == 0 <==> NumGroups(|rows|) == 0
    ensures |rows| > 0 ==> GROUP * (NumGroups(|rows|) - 1) < |rows| <= GROUP * NumGroups(|rows|)
    ensures forall c :: 0 <= c < NumGroups(|rows|) ==> 1 <= |GroupAt(rows, c)| <= GROUP
    ensures forall c :: 0 <= c < NumGroups(|rows|) - 1 ==> |GroupAt(rows, c)| == GROUP
    ensures forall p :: 0 <= p < |rows| ==> p / GROUP < NumGroups(|rows|) && GroupAt(rows, p / GROUP)[p % GROUP] == rows[p]
  {
  }

  /** The parameter set recorded for row `j` is what binding the rows up
      to and including `j` leaves. */
  lemma {:induction false} SnapshotsAt(rows: seq<seq<QueryValue>>)
    ensures forall j :: 0 <= j < |rows| ==> Snapshots(rows)[j] == Overlay(rows[..j + 1])
  {
    if rows != [] {
      var init := rows[..|rows| - 1];
      SnapshotsAt(init);
      assert rows[..|rows|] == rows;
      forall j | 0 <= j < |init| ensures Snapshots(rows)[j] == Overlay(rows[..j + 1]) {
        assert rows[..j + 1] == init[..j + 1];
      }
    }
  }

  /** Every parameter set a batch records binds the row it was added for at
      that row's positions; positions past a shorter row keep what an
      earlier row of the group bound. */
  lemma SnapshotsBindRows(rows: seq<seq<QueryValue>>)
    ensures forall j, k :: 0 <= j < |rows| && 1 <= k <= |rows[j]| ==>
              k in Snapshots(rows)[j] && Snapshots(rows)[j][k] == BindingOf(rows[j][k - 1])
  {
    SnapshotsAt(rows);
    forall j | 0 <= j < |rows| ensures Snapshots(rows)[j] == Overlay(rows[..j]) + Bind(rows[j]) {
      assert rows[..j + 1] == rows[..j] + [rows[j]];
      OverlaySnoc(rows[..j], rows[j]);
    }
  }

  /** Binding rows of `n` values each binds positions 1 to `n` only. */
  lemma {:induction false} OverlayKeys(rows: seq<seq<QueryValue>>, n: nat)
    requires forall j :: 0 <= j < |rows| ==> |rows[j]| == n
    ensures forall k :: k in Overlay(rows) ==> 1 <= k <= n
  {
    if rows != [] {
      OverlayKeys(rows[..|rows| - 1], n);
    }
  }

  /** When the rows of a group all have the same length, the parameter set
      recorded for each row is exactly that row's binding. */
  lemma SnapshotsOfUniformRows(rows: seq<seq<QueryValue>>, n: nat)
    requires forall j :: 0 <= j < |rows| ==> |rows[j]| == n
    ensures forall j :: 0 <= j < |rows| ==> Snapshots(rows)[j] == Bind(rows[j])
  {
    SnapshotsAt(rows);
    forall j | 0 <= j < |rows| ensures Snapshots(rows)[j] == Bind(rows[j]) {
      assert rows[..j + 1] == rows[..j] + [rows[j]];
      OverlaySnoc(rows[..j], rows[j]);
      OverlayKeys(rows[..j], n);
      UnionCovered(Overlay(rows[..j]), Bind(rows[j]));
    }
  }

  /** A map whose keys the right operand all has adds nothing to it. */
  lemma UnionCovered(a: Params, b: Params)
    requires forall k :: k in a ==> k in b
    ensures a + b == b
  {
    assert (a + b).Keys == b.Keys;
  }

  // --------------------------------------------------------------- update

  /** `update`: the count the database answers, or a DriverException; the
      statement is closed either way. */
  method Update(ps: Statement, sql: string, values: seq<QueryValue>) returns (r: Result<int>)
    modifies ps
    ensures ps.closed && ps.sql == sql && ps.params == Bind(values)
    ensures ps.updateReply.Returns? ==> r == Ok(ps.updateReply.value)
    ensures ps.updateReply.Raises? ==> r == Err(DriverException(ps.updateReply.raised))
  {
    ps.Prepare(sql, NoKeys);
    PrepareQuery(ps, values);
    var count := ps.ExecuteUpdate();
    CloseAll(ps, null);
    match count
    case Raises(e) =>
      r := Err(DriverException(e));
    case Returns(n) =>
      r := Ok(n);
  }

  // ---------------------------------------------------------------- query

  /** A decoding that throws, lifted into a DriverException. */
  function Wrapped<T>(r: Reply<seq<T>>): Result<seq<T>> {
    match r
    case Returns(xs) => Ok(xs)
    case Raises(e) => Err(DriverException(e))
  }

  /** What `query` returns for the query's reply. */
  function QueryOutcome<T>(reply: Reply<seq<Row>>, decode: Row -> Reply<T>): Result<seq<T>> {
    match reply
    case Raises(e) => Err(DriverException(e))
    case Returns(rows) => Wrapped(DecodeRows(rows, decode))
  }

  /** `query`: one decoded element per row, in row order; the statement
      and its result set are closed on every path. */
  method Query<T>(ps: Statement, sql: string, values: seq<QueryValue>, decode: Row -> Reply<T>) returns (r: Result<seq<T>>)
    modifies ps
    ensures r == QueryOutcome(ps.queryReply, decode)
    ensures ps.closed && ps.sql == sql && ps.params == Bind(values)
    ensures forall s :: s in ps.produced ==> s.closed
  {
    ps.Prepare(sql, NoKeys);
    PrepareQuery(ps, values);
    var objs: seq<T> := [];
    var q := ps.ExecuteQuery();
    if q.Raises? {
      CloseAll(ps, null);
      return Err(DriverException(q.raised));
    }
    var rs := q.value;
    while true
      invariant ps.produced == [rs] && !rs.closed && rs.rows == ps.queryReply.value && rs.pos <= |rs.rows|
      invariant !ps.closed && ps.sql == sql && ps.params == Bind(values)
      invariant DecodeRows(rs.rows[..rs.pos], decode) == Returns(objs)
      decreases |rs.rows| - rs.pos
    {
      var more := rs.Next();
      if !more {
        break;
      }
      var d := decode(rs.Current());
      assert rs.rows[..rs.pos][..rs.pos - 1] == rs.rows[..rs.pos - 1];
      if d.Raises? {
        DecodeRowsThrowPersists(rs.rows, rs.pos, decode);
        CloseAll(ps, rs);
        return Err(DriverException(d.raised));
      }
      objs := objs + [d.value];
    }
    assert rs.rows[..rs.pos] == rs.rows;
    CloseAll(ps, rs);
    r := Ok(objs);
  }

  /** A query succeeds exactly when the database answers and every row
      decodes, and then yields one element per row, in row order. */
  lemma QueryOneElementPerRow<T>(reply: Reply<seq<Row>>, decode: Row -> Reply<T>)
    ensures QueryOutcome(reply, decode).Ok? <==>
              reply.Returns? && forall i :: 0 <= i < |reply.value| ==> decode(reply.value[i]).Returns?
    ensures QueryOutcome(reply, decode).Ok? ==>
              var xs := QueryOutcome(reply, decode).value;
              |xs| == |reply.value| && forall i :: 0 <= i < |xs| ==> Returns(xs[i]) == decode(reply.value[i])
    ensures QueryOutcome(reply, decode).Err? ==> QueryOutcome(reply, decode).error.DriverException?
  {
    if reply.Returns? {
      DecodeRowsMeaning(reply.value, decode);
    }
  }

  // --------------------------------------------------------------- insert

  /** The id from the fallback query, which any throwable turns into a
      DriverException and an empty answer into an IssueException. */
  function Forced<T>(forced: Reply<seq<Row>>, decode: (Row, nat) -> Reply<T>): Result<Option<T>> {
    match forced
    case Raises(e) => Err(DriverException(e))
    case Returns(rows) =>
      if rows == [] then Err(IssueException)
      else match decode(rows[0], 1)
        case Returns(id) => Ok(Some(id))
        case Raises(e) => Err(DriverException(e))
  }

  /** What `insert` returns as written: the generated keys are only looked
      at when a fallback query is given. */
  function InsertOutcomeAsWritten<T>(update: Reply<int>, keys: Reply<seq<Row>>, forced: Reply<seq<Row>>,
                              fallback: Option<string>, decode: (Row, nat) -> Reply<T>): Result<Option<T>>
  {
    match update
    case Raises(e) => Err(DriverException(e))
    case Returns(n) =>
      if n == 0 then Ok(None)
      else if fallback.None? then Err(IssueException)
      else match ReadId(keys, decode)
        case Found(id) => Ok(Some(id))
        case Fatal(e) => Err(DriverException(e))
        case Missed => Forced(forced, decode)
  }

  /** What `insert` is documented to do: the generated keys first, and the
      fallback query, when there is one, only if they yield no id. */
  function InsertOutcome<T>(update: Reply<int>, keys: Reply<seq<Row>>, forced: Reply<seq<Row>>,
                             fallback: Option<string>, decode: (Row, nat) -> Reply<T>): Result<Option<T>>
  {
    match update
    case Raises(e) => Err(DriverException(e))
    case Returns(n) =>
      if n == 0 then Ok(None)
      else match ReadId(keys, decode)
        case Found(id) => Ok(Some(id))
        case Fatal(e) => Err(DriverException(e))
        case Missed => if fallback.None? then Err(IssueException) else Forced(forced, decode)
  }

  /** `insert` as written. The statement is left open exactly when rows were
      inserted and no fallback query was given. */
  method InsertAsWritten<T>(ps: Statement, fs: Statement, sql: string, values: seq<QueryValue>,
                               fallback: Option<string>, decode: (Row, nat) -> Reply<T>) returns (r: Result<Option<T>>)
    requires ps != fs
    modifies ps, fs
    ensures r == InsertOutcomeAsWritten(ps.updateReply, ps.keysReply, fs.queryReply, fallback, decode)
    ensures ps.closed <==> !(ps.updateReply.Returns? && ps.updateReply.value != 0 && fallback.None?)
    ensures ps.sql == sql && ps.keyRequest == GeneratedKeys && ps.params == Bind(values)
  {
    ps.Prepare(sql, GeneratedKeys);
    PrepareQuery(ps, values);
    var numUpdates := ps.ExecuteUpdate();
    if numUpdates.Raises? {
      CloseAll(ps, null);
      return Err(DriverException(numUpdates.raised));
    }
    if numUpdates.value == 0 {
      CloseAll(ps, null);
      return Ok(None);
    }
    if fallback.Some? {
      r := FetchId(ps, fs, fallback.value, decode);
      return;
    }
    r := Err(IssueException);
  }

  /** The two attempts at the inserted id when a fallback query is given:
      the generated keys, then the fallback query on the same connection.
      Every path closes the statement. */
  method FetchId<T>(ps: Statement, fs: Statement, fallback: string, decode: (Row, nat) -> Reply<T>)
    returns (r: Result<Option<T>>)
    requires ps != fs && ps.keyRequest != NoKeys
    modifies ps, fs
    ensures var found := ReadId(ps.keysReply, decode);
            && (found.Found? ==> r == Ok(Some(found.id)))
            && (found.Fatal? ==> r == Err(DriverException(found.raised)))
            && (found.Missed? ==> r == Forced(fs.queryReply, decode) && fs.sql == fallback)
    ensures ps.closed
    ensures ps.sql == old(ps.sql) && ps.keyRequest == old(ps.keyRequest) && ps.params == old(ps.params)
  {
    var keys := ps.GetGeneratedKeys();
    match keys {
      case Raises(e) =>
        if e == OtherError {
          CloseAll(ps, null);
          return Err(DriverException(e));
        }
      case Returns(rs) =>
        var more := rs.Next();
        if more {
          var data := decode(rs.Current(), 1);
          match data {
            case Returns(id) =>
              CloseAll(ps, rs);
              return Ok(Some(id));
            case Raises(e) =>
              if e == SqlError {
                rs.Close();
              } else {
                CloseAll(ps, rs);
                return Err(DriverException(e));
              }
          }
        }
    }
    r := ForceId(ps, fs, fallback, decode);
  }

  /** The fallback query for the id; the statement is closed once by the
      handler or the normal path and once more by `finally`. */
  method ForceId<T>(ps: Statement, fs: Statement, fallback: string, decode: (Row, nat) -> Reply<T>)
    returns (r: Result<Option<T>>)
    requires ps != fs
    modifies ps, fs
    ensures r == Forced(fs.queryReply, decode) && fs.sql == fallback
    ensures ps.closed
    ensures ps.sql == old(ps.sql) && ps.keyRequest == old(ps.keyRequest) && ps.params == old(ps.params)
  {
    fs.Prepare(fallback, NoKeys);
    var q := fs.ExecuteQuery();
    match q {
      case Raises(e) =>
        CloseAll(ps, null);
        CloseAll(ps, null);
        return Err(DriverException(e));
      case Returns(rs2) =>
        var more2 := rs2.Next();
        if more2 {
          var data := decode(rs2.Current(), 1);
          match data {
            case Returns(id) =>
              CloseAll(ps, rs2);
              CloseAll(ps, rs2);
              return Ok(Some(id));
            case Raises(e) =>
              CloseAll(ps, rs2);
              CloseAll(ps, rs2);
              return Err(DriverException(e));
          }
        }
        CloseAll(ps, rs2);
    }
    r := Err(IssueException);
  }

  /** The corrected `insert`: the generated keys are tried whether or not a
      fallback query is given, and the statement is closed on every path. */
  method Insert<T>(ps: Statement, fs: Statement, sql: string, values: seq<QueryValue>,
                   fallback: Option<string>, decode: (Row, nat) -> Reply<T>) returns (r: Result<Option<T>>)
    requires ps != fs
    modifies ps, fs
    ensures r == InsertOutcome(ps.updateReply, ps.keysReply, fs.queryReply, fallback, decode)
    ensures ps.closed
    ensures ps.sql == sql && ps.keyRequest == GeneratedKeys && ps.params == Bind(values)
  {
    ps.Prepare(sql, GeneratedKeys);
    PrepareQuery(ps, values);
    var numUpdates := ps.ExecuteUpdate();
    if numUpdates.Raises? {
      CloseAll(ps, null);
      return Err(DriverException(numUpdates.raised));
    }
    if numUpdates.value == 0 {
      CloseAll(ps, null);
      return Ok(None);
    }
    if fallback.Some? {
      r := FetchId(ps, fs, fallback.value, decode);
      return;
    }
    var found := TryGeneratedKeys(ps, decode);
    CloseAll(ps, null);
    match found
    case Found(id) => r := Ok(Some(id));
    case Fatal(e) => r := Err(DriverException(e));
    case Missed => r := Err(IssueException);
  }

  /** The generated-keys attempt alone: what reading them gives. */
  method TryGeneratedKeys<T>(ps: Statement, decode: (Row, nat) -> Reply<T>) returns (found: Lookup<T>)
    requires ps.keyRequest != NoKeys
    modifies ps
    ensures found == ReadId(ps.keysReply, decode)
    ensures ps.sql == old(ps.sql) && ps.keyRequest == old(ps.keyRequest) && ps.params == old(ps.params)
    ensures ps.closed == old(ps.closed)
    ensures forall s :: s in ps.produced && s !in old(ps.produced) ==> s.closed
  {
    var keys := ps.GetGeneratedKeys();
    match keys
    case Raises(e) =>
      found := if e == SqlError then Missed else Fatal(OtherError);
    case Returns(rs) =>
      var more := rs.Next();
      if more {
        var data := decode(rs.Current(), 1);
        match data
        case Returns(id) => found := Found(id);
        case Raises(e) => found := if e == SqlError then Missed else Fatal(OtherError);
      } else {
        found := Missed;
      }
      rs.Close();
  }

  /** The two agree whenever a fallback query is given; without one, as
      written, a key the database does return is never read. */
  lemma InsertFallbackOnlyDiffers<T>(update: Reply<int>, keys: Reply<seq<Row>>, forced: Reply<seq<Row>>,
                                     fallback: Option<string>, decode: (Row, nat) -> Reply<T>)
    ensures fallback.Some? ==> InsertOutcomeAsWritten(update, keys, forced, fallback, decode)
                               == InsertOutcome(update, keys, forced, fallback, decode)
    ensures fallback.None? && update.Returns? && update.value != 0 ==>
              InsertOutcomeAsWritten(update, keys, forced, fallback, decode) == Err(IssueException)
  {
  }

  /** An insert of one row whose generated key is 7, without a fallback
      query: as written it throws an IssueException, corrected it returns 7. */
  lemma InsertWithoutFallbackIgnoresKeys()
    ensures var decode := (row: Row, i: nat) => GetInt(row, i);
            && InsertOutcomeAsWritten(Returns(1), Returns([[IntV(7)]]), Returns([]), None, decode) == Err(IssueException)
            && InsertOutcome(Returns(1), Returns([[IntV(7)]]), Returns([]), None, decode) == Ok(Some(7))
  {
    var decode := (row: Row, i: nat) => GetInt(row, i);
    assert decode([IntV(7)], 1) == Returns(7);
  }

  // -------------------------------------------------------------- execute

  /** Where the do-while of `execute` starts decoding: a first result that
      is an update count is stepped over. */
  function Start(items: seq<Item>): nat {
    if |items| > 0 && items[0].CountItem? then 1 else 0
  }

  /** The run of consecutive result sets from position `j` on, each decoded
      with its position; the run ends at the first update count. */
  function RunFrom<D>(items: seq<Item>, j: nat, decode: (nat, seq<Row>) -> Reply<D>): Reply<seq<D>>
    decreases |items| - j
  {
    if j < |items| && items[j].SetItem? then
      match decode(j, items[j].rows)
      case Raises(e) => Raises(e)
      case Returns(d) => Prepend([d], RunFrom(items, j + 1, decode))
    else Returns([])
  }

  /** What `execute` returns as written. */
  function ExecuteOutcomeAsWritten<D>(reply: Reply<seq<Item>>, decode: (nat, seq<Row>) -> Reply<D>): Result<seq<D>> {
    match reply
    case Raises(e) => Err(DriverException(e))
    case Returns(items) => Wrapped(RunFrom(items, Start(items), decode))
  }

  /** What `execute` is meant to return (the loop of the engine's
      `executeQueries`): every result set, with its position. */
  function ExecuteOutcome<D>(reply: Reply<seq<Item>>, decode: (nat, seq<Row>) -> Reply<D>): Result<seq<D>> {
    match reply
    case Raises(e) => Err(DriverException(e))
    case Returns(items) => Wrapped(AllSetsFrom(items, 0, decode))
  }

  /** `execute` as written (and `call`, whose body is the same on a callable
      statement). The statement stays open when it succeeds; every result
      set it read is closed. */
  method ExecuteAsWritten<D>(ps: Statement, sql: string, values: seq<QueryValue>,
                                decode: (nat, seq<Row>) -> Reply<D>) returns (r: Result<seq<D>>)
    modifies ps
    ensures r == ExecuteOutcomeAsWritten(ps.executeReply, decode)
    ensures ps.closed <==> r.Err?
    ensures ps.sql == sql && ps.params == Bind(values)
    ensures forall s :: s in ps.produced ==> s.closed
  {
    ps.Prepare(sql, NoKeys);
    PrepareQuery(ps, values);
    var returned: seq<D> := [];
    var e := ps.Execute();
    if e.Raises? {
      CloseAll(ps, null);
      return Err(DriverException(e.raised));
    }
    var isResultSet := e.value;
    var count := 0;
    ghost var items := ps.results;
    ghost var goal := RunFrom(items, Start(items), decode);
    while true
      invariant ps.results == items && items == ps.executeReply.value && ps.current == count <= |items|
      invariant isResultSet == ps.AtResultSet()
      invariant !ps.closed && ps.sql == sql && ps.params == Bind(values)
      invariant forall s :: s in ps.produced ==> s.closed
      invariant count == 0 ==> returned == []
      invariant count > 0 ==> isResultSet && Prepend(returned, RunFrom(items, count, decode)) == goal
      decreases |items| - count
    {
      if isResultSet {
        var rs := ps.GetResultSet();
        var d := decode(count, rs.rows);
        if d.Raises? {
          CloseAll(ps, rs);
          return Err(DriverException(d.raised));
        }
        PrependAssoc(returned, [d.value], RunFrom(items, count + 1, decode));
        PrependNothing(returned, RunFrom(items, count, decode));
        assert Prepend(returned + [d.value], RunFrom(items, count + 1, decode)) == goal;
        returned := returned + [d.value];
        rs.Close();
      } else {
        var updateCount := ps.GetUpdateCount();
        if updateCount == -1 {
          assert count == 0 && items == [] && RunFrom(items, Start(items), decode) == Returns([]);
          break;
        }
        PrependNothing(returned, RunFrom(items, 1, decode));
        assert count == 0 && Start(items) == 1;
      }
      count := count + 1;
      isResultSet := ps.GetMoreResults();
      if !isResultSet {
        assert RunFrom(items, count, decode) == Returns([]);
        PrependNothing(returned, goal);
        break;
      }
    }
    r := Ok(returned);
  }

  /** The corrected `execute` (and `call`): it reads on past update counts
      until there are no more results, as the engine's `executeQueries`
      does, and closes the statement when it is done. */
  method Execute<D>(ps: Statement, sql: string, values: seq<QueryValue>,
                    decode: (nat, seq<Row>) -> Reply<D>) returns (r: Result<seq<D>>)
    modifies ps
    ensures r == ExecuteOutcome(ps.executeReply, decode)
    ensures ps.closed && ps.sql == sql && ps.params == Bind(values)
    ensures forall s :: s in ps.produced ==> s.closed
  {
    ps.Prepare(sql, NoKeys);
    PrepareQuery(ps, values);
    var returned: seq<D> := [];
    var e := ps.Execute();
    if e.Raises? {
      CloseAll(ps, null);
      return Err(DriverException(e.raised));
    }
    var isResultSet := e.value;
    var count := 0;
    ghost var items := ps.results;
    ghost var goal := AllSetsFrom(items, 0, decode);
    PrependNothing(returned, goal);
    while true
      invariant ps.results == items && items == ps.executeReply.value && ps.current == count <= |items|
      invariant isResultSet == ps.AtResultSet()
      invariant !ps.closed && ps.sql == sql && ps.params == Bind(values)
      invariant forall s :: s in ps.produced ==> s.closed
      invariant Prepend(returned, AllSetsFrom(items, count, decode)) == goal
      decreases |items| - count
    {
      if isResultSet {
        var rs := ps.GetResultSet();
        var d := decode(count, rs.rows);
        if d.Raises? {
          CloseAll(ps, rs);
          return Err(DriverException(d.raised));
        }
        PrependAssoc(returned, [d.value], AllSetsFrom(items, count + 1, decode));
        returned := returned + [d.value];
        rs.Close();
      } else {
        var updateCount := ps.GetUpdateCount();
        if updateCount == -1 {
          assert AllSetsFrom(items, count, decode) == Returns([]);
          PrependNothing(returned, goal);
          break;
        }
      }
      count := count + 1;
      isResultSet := ps.GetMoreResults();
    }
    CloseAll(ps, null);
    r := Ok(returned);
  }

  /** When every result is a result set, the loop as written reads them all. */
  lemma {:induction false} RunFromAllSets<D>(items: seq<Item>, j: nat, decode: (nat, seq<Row>) -> Reply<D>)
    requires forall p :: j <= p < |items| ==> items[p].SetItem?
    ensures RunFrom(items, j, decode) == AllSetsFrom(items, j, decode)
    decreases |items| - j
  {
    if j < |items| {
      RunFromAllSets(items, j + 1, decode);
    }
  }

  /** A decoder that keeps each result set with its position. */
  function Tagged(i: nat, rows: seq<Row>): Reply<(nat, seq<Row>)> {
    Returns((i, rows))
  }

  /** A result set, an update count of 1 and another result set: as
      written only the first is returned; corrected, both are, the second
      with position 2. */
  lemma ExecuteStopsAtUpdateCount()
    ensures var decode := Tagged;
            var items := [SetItem([[IntV(1)]]), CountItem(1), SetItem([[IntV(2)]])];
            && ExecuteOutcomeAsWritten(Returns(items), decode) == Ok([(0, [[IntV(1)]])])
            && ExecuteOutcome(Returns(items), decode) == Ok([(0, [[IntV(1)]]), (2, [[IntV(2)]])])
  {
    var decode := Tagged;
    var items := [SetItem([[IntV(1)]]), CountItem(1), SetItem([[IntV(2)]])];
    var first, second := (0, [[IntV(1)]]), (2, [[IntV(2)]]);
    assert decode(0, items[0].rows) == Returns(first);
    assert decode(2, items[2].rows) == Returns(second);
    assert RunFrom(items, 1, decode) == Returns([]);
    PrependNothing([first], Returns([]));
    assert RunFrom(items, 0, decode) == Returns([first]);
    assert AllSetsFrom(items, 3, decode) == Returns([]);
    PrependNothing([second], Returns([]));
    assert AllSetsFrom(items, 2, decode) == Returns([second]);
    assert AllSetsFrom(items, 1, decode) == Returns([second]);
    assert AllSetsFrom(items, 0, decode) == Prepend([first], Returns([second]));
    assert [first] + [second] == [first, second];
    assert Start(items) == 0;
    assert ExecuteOutcomeAsWritten(Returns(items), decode) == Ok([first]);
    assert ExecuteOutcome(Returns(items), decode) == Ok([first, second]);
  }

  /** The corrected `execute` returns one list per result set, in order,
      each decoded with its position among all results. */
  lemma ExecuteOnePerResultSet<D>(items: seq<Item>, decode: (nat, seq<Row>) -> Reply<D>)
    ensures ExecuteOutcome(Returns(items), decode).Ok? ==>
              var ix := SetIndicesFrom(items, 0);
              AtSets(items, ix) && DecodedAt(items, ix, ExecuteOutcome(Returns(items), decode).value, decode)
    ensures ExecuteOutcome(Returns(items), decode).Ok? <==> AllDecode(items, SetIndicesFrom(items, 0), decode)
  {
    AllSetsFromMeaning(items, 0, decode);
  }
}
