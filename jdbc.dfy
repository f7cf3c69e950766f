/** The JDBC surface the repositories use: `java.sql.Types` codes, prepared statements
    whose parameters are bound one index at a time, and an abstract database that
    records every statement it is sent and answers each with an outcome it decides. */
module Jdbc {
  import opened Values
  import opened Employees

  // java.sql.Types codes
  const TYPE_NULL: int := 0
  const TYPE_INTEGER: int := 4
  const TYPE_FLOAT: int := 6
  const TYPE_DOUBLE: int := 8
  const TYPE_VARCHAR: int := 12
  const TYPE_BOOLEAN: int := 16
  const TYPE_DATE: int := 91
  const TYPE_TIME: int := 92

  /** One bound parameter, by the setter that bound it. `PDecimal` is a salary bound with
      `setBigDecimal` or `setDouble`; `PDouble` a Java `Double` bound with `setDouble`. */
  datatype Param =
    | PString(s: string)
    | PInt(i: int)
    | PDouble(text: string)
    | PDecimal(amount: int)
    | PBoolean(b: bool)
    | PNull(sqlType: int)
    | PObject(v: Value)

  /** A result row as the driver maps it: the base columns read into an Employee, and
      the object `getObject` returns for each selected column. */
  datatype Row = Row(employee: Employee, values: map<string, Value>)

  /** What the database answers for one statement: an update count, the rows of a
      query, the generated keys of an insert; or an `SQLException`. */
  datatype ExecOutcome = Executed(updateCount: int, rows: seq<Row>, keys: seq<int>) | SqlFailure

  /** A statement as sent: its text and the parameter bound at each index (from 1). */
  datatype Statement = Statement(sql: string, params: map<int, Param>)

  /** Parameters bound at indexes 1..|ps| in list order. */
  function Bindings(ps: seq<Param>): map<int, Param> {
    if |ps| == 0 then map[] else Bindings(ps[..|ps| - 1])[|ps| := ps[|ps| - 1]]
  }

  /** Indexes 1..|ps| are bound, and index i holds the i-th parameter of the list. */
  lemma {:induction false} BindingsCharacterised(ps: seq<Param>)
    ensures forall i :: i in Bindings(ps) <==> 1 <= i <= |ps|
    ensures forall i :: 1 <= i <= |ps| ==> Bindings(ps)[i] == ps[i - 1]
    decreases |ps|
  {
    if |ps| > 0 {
      BindingsCharacterised(ps[..|ps| - 1]);
    }
  }

  /** Binding one more parameter binds it at the next index. */
  lemma BindingsStep(ps: seq<Param>, p: Param)
    ensures Bindings(ps + [p]) == Bindings(ps)[|ps| + 1 := p]
  {
    assert (ps + [p])[..|ps|] == ps;
  }

  /** `executeUpdate() > 0`, with an exception read as failure. */
  predicate UpdateSucceeded(r: ExecOutcome) {
    r.Executed? && r.updateCount > 0
  }

  class PreparedStatement {
    const sql: string
    var params: map<int, Param>

    constructor (sql: string)
      ensures this.sql == sql && params == map[]
    {
      this.sql := sql;
      params := map[];
    }

    /** `setXxx(index, value)`: JDBC numbers parameters from 1. */
    method Bind(index: int, p: Param)
      requires index >= 1
      modifies this
      ensures params == old(params)[index := p]
    {
      params := params[index := p];
    }

    function Snapshot(): Statement
      reads this
    {
      Statement(sql, params)
    }
  }

  class Database {
    /** Every statement sent so far, in order. */
    var executed: seq<Statement>
    /** The database's answer to a statement. */
    const respond: Statement -> ExecOutcome

    constructor (respond: Statement -> ExecOutcome)
      ensures executed == [] && this.respond == respond
    {
      executed := [];
      this.respond := respond;
    }

    method Execute(s: Statement) returns (r: ExecOutcome)
      modifies this
      ensures executed == old(executed) + [s]
      ensures r == respond(s)
    {
      executed := executed + [s];
      r := respond(s);
    }
  }

  /** The setter chosen by a value's runtime class: `setString`, `setInt`, `setDouble`,
      `setBoolean`, `setNull(nullType)` for null, and `setString(toString())` for any
      other class. */
  function BindValue(v: Value, nullType: int): (p: Param)
    ensures v.Null? ==> p == PNull(nullType)
    ensures v.Str? || v.Other? ==> p == PString(ValueText(v))
    ensures v.Int? ==> p == PInt(v.i)
    ensures v.Dec? ==> p == PDouble(v.text)
    ensures v.Bool? ==> p == PBoolean(v.b)
  {
    match v
    case Str(s) => PString(s)
    case Int(i) => PInt(i)
    case Dec(t) => PDouble(t)
    case Bool(b) => PBoolean(b)
    case Null => PNull(nullType)
    case Other(t) => PString(t)
  }
}
