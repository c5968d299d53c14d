/** The abstract data model shared by every part of the mapper: classes by name,
    properties, constructor parameters, type serializers with opaque encoder and
    decoder ids, runtime values, the exceptions the library raises, and the
    string joining that SQL assembly is built from. */
module Model {

  datatype Option<+T> = None | Some(value: T)

  /** A Kotlin class, identified by its name. */
  type ClassName = string

  /** A reflected property: the class declaring it, its name, the class of its
      value (its classifier) and whether its type is marked nullable. */
  datatype Property = Property(owner: ClassName, name: string, className: ClassName, nullable: bool)

  /** A parameter of a primary constructor. */
  datatype Param = Param(name: string, className: ClassName, optional: bool)

  /** What reflection tells about a class: its member properties and the
      parameters of its primary constructor, in declaration order. */
  datatype ClassDesc = ClassDesc(name: ClassName, props: seq<Property>, params: seq<Param>)

  /** A type serializer: the value class it handles, the JDBC type (by its enum
      ordinal), the database type string, and its encoder and decoder, which
      stay opaque and are known only by id. */
  datatype TypeSerializer = TypeSerializer(kclass: ClassName, jdbcType: nat, dbType: string, encoder: nat, decoder: nat)

  /** A runtime property value. */
  datatype Value = NullV | IntV(i: int) | StrV(s: string) | OtherV(id: nat)

  /** The kind of throwable raised by the JDBC side (or by user code such as a
      decoder or a constructor): an SQLException or any other throwable. */
  datatype Raised = SqlError | OtherError

  /** Why a SerializerException was raised. */
  datatype Reason =
    | SerializerNotFound(kclass: ClassName)
    | TableNotRegistered(kclass: ClassName)
    | CheckFailed(check: nat)
    | ResultCountMismatch(results: nat, outputs: nat)

  /** The exceptions of the library, each with what it wraps; `Uninitialized`
      is Kotlin's error for reading a `lateinit` property never set, and
      `Thrown` a throwable that propagates without being wrapped. */
  datatype Failure =
    | SerializerException(reason: Reason)
    | MapperException(cause: Cause)
    | DriverException(raised: Raised)
    | IssueException
    | EngineException(wrapped: Option<Raised>)
    | Uninitialized
    | Thrown(raised: Raised)

  /** What a MapperException wraps; `Inconsistent` is a broken consistency
      rule of the table registry, by its number. */
  datatype Cause = FromSerializer(reason: Reason) | FromJdbc(raised: Raised) | FromConstructor | Inconsistent(rule: nat)

  datatype Result<+T> = Ok(value: T) | Err(error: Failure)

  /** A value bound into a statement: its name, the value itself, its JDBC
      type (by enum ordinal) and its opaque encoder. */
  datatype QueryValue = QueryValue(name: string, value: Value, jdbcType: nat, encoder: nat)

  /** A live object: its class and the current value of each property, by name. */
  datatype Obj = Obj(cls: ClassDesc, values: map<string, Value>)

  /** `prop.get(obj)`; a property without a stored value reads as null. */
  function FieldValue(o: Obj, p: Property): Value {
    if p.name in o.values then o.values[p.name] else NullV
  }

  /** Index of the first element satisfying `p` (`indexOfFirst`, the search
      behind every `firstOrNull { … }`), or None when no element does. */
  function FirstIndex<T>(xs: seq<T>, p: T -> bool): (r: Option<nat>)
    ensures r.Some? ==> r.value < |xs| && p(xs[r.value])
    ensures r.Some? ==> forall j :: 0 <= j < r.value ==> !p(xs[j])
    ensures r.None? <==> forall j :: 0 <= j < |xs| ==> !p(xs[j])
  {
    if xs == [] then None
    else if p(xs[0]) then Some(0)
    else match FirstIndex(xs[1..], p)
      case None => None
      case Some(i) => Some(i + 1)
  }

  /** `firstOrNull { p(it) }`: the first element satisfying `p`, or None. */
  function FirstWhere<T>(xs: seq<T>, p: T -> bool): (r: Option<T>)
    ensures r.None? <==> forall j :: 0 <= j < |xs| ==> !p(xs[j])
    ensures r.Some? ==> exists i :: 0 <= i < |xs| && xs[i] == r.value && p(xs[i]) && forall j :: 0 <= j < i ==> !p(xs[j])
  {
    match FirstIndex(xs, p)
    case None => None
    case Some(i) => Some(xs[i])
  }

  /** Searching a concatenation finds the first match of the left part when it
      has one, and otherwise the first match of the right part. */
  lemma FirstWhereAppend<T>(a: seq<T>, b: seq<T>, p: T -> bool)
    ensures FirstWhere(a + b, p) == if FirstWhere(a, p).Some? then FirstWhere(a, p) else FirstWhere(b, p)
  {
    var ia, iab := FirstIndex(a, p), FirstIndex(a + b, p);
    if ia.Some? {
      assert (a + b)[ia.value] == a[ia.value];
      forall j | 0 <= j < ia.value ensures !p((a + b)[j]) {
        assert (a + b)[j] == a[j];
      }
    } else {
      var ib := FirstIndex(b, p);
      forall j | 0 <= j < |a| ensures !p((a + b)[j]) {
        assert (a + b)[j] == a[j];
      }
      if ib.Some? {
        assert (a + b)[|a| + ib.value] == b[ib.value];
        assert iab.Some? && iab.value >= |a|;
        assert (a + b)[iab.value] == b[iab.value - |a|];
      } else {
        forall j | |a| <= j < |a + b| ensures !p((a + b)[j]) {
          assert (a + b)[j] == b[j - |a|];
        }
      }
    }
  }

  /** `forEach { … }` whose body may throw: the items in order, stopping at
      the first failure. */
  function ForEach<T>(xs: seq<T>, f: T -> Result<()>): (r: Result<()>)
    ensures r.Ok? <==> forall i :: 0 <= i < |xs| ==> f(xs[i]).Ok?
    ensures r.Err? ==> exists i :: 0 <= i < |xs| && r == f(xs[i]) && forall j :: 0 <= j < i ==> f(xs[j]).Ok?
  {
    if xs == [] then Ok(())
    else match f(xs[0])
      case Err(e) => Err(e)
      case Ok(_) =>
        var rest := ForEach(xs[1..], f);
        assert forall i :: 1 <= i < |xs| ==> xs[i] == xs[1..][i - 1];
        rest
  }

  /** `joinToString(sep)` of a list of strings. */
  function Join(xs: seq<string>, sep: string): (r: string)
    ensures |xs| == 1 ==> r == xs[0]
    ensures xs == [] ==> r == ""
  {
    if |xs| == 0 then ""
    else if |xs| == 1 then xs[0]
    else xs[0] + sep + Join(xs[1..], sep)
  }

  /** Number of occurrences of `c` in `s`. */
  function CountChar(s: string, c: char): nat {
    if s == [] then 0 else (if s[0] == c then 1 else 0) + CountChar(s[1..], c)
  }

  lemma {:induction false} CountCharAppend(a: string, b: string, c: char)
    ensures CountChar(a + b, c) == CountChar(a, c) + CountChar(b, c)
  {
    if a == [] {
      assert a + b == b;
    } else {
      assert (a + b)[1..] == a[1..] + b;
      CountCharAppend(a[1..], b, c);
    }
  }

  /** Sum of `CountChar` over a list of strings. */
  function CountCharAll(xs: seq<string>, c: char): nat {
    if xs == [] then 0 else CountChar(xs[0], c) + CountCharAll(xs[1..], c)
  }

  /** Joining adds the separator's occurrences once between each pair of items:
      a separator without `c` leaves the count of `c` the sum over the items. */
  lemma {:induction false} JoinCount(xs: seq<string>, sep: string, c: char)
    requires CountChar(sep, c) == 0
    ensures CountChar(Join(xs, sep), c) == CountCharAll(xs, c)
  {
    if |xs| == 0 {
    } else if |xs| == 1 {
      assert xs[1..] == [];
    } else {
      JoinCount(xs[1..], sep, c);
      CountCharAppend(xs[0] + sep, Join(xs[1..], sep), c);
      CountCharAppend(xs[0], sep, c);
    }
  }
}
