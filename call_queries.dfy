/** `CallQueries.call`: a stored procedure is run through the driver's
    `execute`, each result set decoded with its ordinal, and the number of
    result lists is checked against the number of output classes asked
    for. */
module CallQueries {
  import opened Model
  import opened Jdbc
  import opened Driver

  /** What `call` returns: the driver's result lists when there are as many
      as there are output classes, a SerializerException when the numbers
      differ, and the driver's failure otherwise. */
  function CallOutcome<D>(reply: Reply<seq<Item>>, decode: (nat, seq<Row>) -> Reply<D>, outputs: seq<ClassName>)
    : Result<seq<D>>
  {
    CountChecked(ExecuteOutcome(reply, decode), outputs)
  }

  /** What `call` returns on the driver's `execute` as written, which stops
      reading at the first update count. */
  function CallOutcomeAsWritten<D>(reply: Reply<seq<Item>>, decode: (nat, seq<Row>) -> Reply<D>, outputs: seq<ClassName>)
    : Result<seq<D>>
  {
    CountChecked(ExecuteOutcomeAsWritten(reply, decode), outputs)
  }

  /** The check of the number of result lists against the output classes. */
  function CountChecked<D>(executed: Result<seq<D>>, outputs: seq<ClassName>): Result<seq<D>> {
    match executed
    case Err(e) => Err(e)
    case Ok(results) =>
      if |results| != |outputs| then Err(SerializerException(ResultCountMismatch(|results|, |outputs|)))
      else Ok(results)
  }

  /** `call(procedure, outputs)` for the call statement `sql` with `values`
      that the serializer builds from the procedure object. */
  method Call<D>(ps: Statement, sql: string, values: seq<QueryValue>, decode: (nat, seq<Row>) -> Reply<D>,
                 outputs: seq<ClassName>) returns (r: Result<seq<D>>)
    modifies ps
    ensures r == CallOutcome(ps.executeReply, decode, outputs)
    ensures ps.closed && ps.sql == sql && ps.params == Bind(values)
    ensures forall s :: s in ps.produced ==> s.closed
  {
    var results := Execute(ps, sql, values, decode);
    match results {
      case Err(e) =>
        return Err(e);
      case Ok(lists) =>
        if |lists| != |outputs| {
          return Err(SerializerException(ResultCountMismatch(|lists|, |outputs|)));
        }
        r := Ok(lists);
    }
  }

  /** A call succeeds exactly when every result set decodes and there are
      as many result sets as output classes; it then returns the driver's
      lists unchanged, one per output class. When the sets all decode but
      their number is wrong, the exception names both numbers. */
  lemma CallChecksResultCount<D>(items: seq<Item>, decode: (nat, seq<Row>) -> Reply<D>, outputs: seq<ClassName>)
    ensures CallOutcome(Returns(items), decode, outputs).Ok? <==>
              AllDecode(items, SetIndicesFrom(items, 0), decode) && |SetIndicesFrom(items, 0)| == |outputs|
    ensures CallOutcome(Returns(items), decode, outputs).Ok? ==>
              CallOutcome(Returns(items), decode, outputs) == ExecuteOutcome(Returns(items), decode)
              && |CallOutcome(Returns(items), decode, outputs).value| == |outputs|
    ensures AllDecode(items, SetIndicesFrom(items, 0), decode) && |SetIndicesFrom(items, 0)| != |outputs| ==>
              CallOutcome(Returns(items), decode, outputs)
              == Err(SerializerException(ResultCountMismatch(|SetIndicesFrom(items, 0)|, |outputs|)))
  {
    ExecuteOnePerResultSet(items, decode);
  }

  /** A procedure that yields a result set, an update count and another
      result set, called for two output classes: on `execute` as written the
      call sees one result list and fails with a count mismatch; on the
      corrected `execute` it returns both lists. */
  lemma CallMissesSetsAfterUpdateCount()
    ensures var items := [SetItem([[IntV(1)]]), CountItem(1), SetItem([[IntV(2)]])];
            var outputs := ["First", "Second"];
            && CallOutcomeAsWritten(Returns(items), Tagged, outputs)
               == Err(SerializerException(ResultCountMismatch(1, 2)))
            && CallOutcome(Returns(items), Tagged, outputs) == Ok([(0, [[IntV(1)]]), (2, [[IntV(2)]])])
  {
    ExecuteStopsAtUpdateCount();
  }
}
