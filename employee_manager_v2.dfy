/** The repository of the SSN variant (src/main/java/com/group02/repository/EmployeeManager):
    insert with a generated key, full-record update, single-column update behind a column
    whitelist, and delete. The double salary is modelled as an exact integer. */
module EmployeeManagerV2 {
  import opened Values
  import opened Jdbc
  import opened Employees

  const InsertSql: string := "INSERT INTO employees (employeeName, division, SSN, jobTitle, salary, payInfo) VALUES (?, ?, ?, ?, ?, ?)"

  /** `addEmployee`: six parameters in INSERT-column order. */
  function InsertStatement(e: Employee): Statement {
    Statement(InsertSql, map[1 := PString(e.employeeName), 2 := PString(e.division), 3 := PString(e.ssn),
                             4 := PString(e.jobTitle), 5 := PDecimal(e.salary), 6 := PString(e.payInfo)])
  }

  /** The insert changed a row and produced a generated key. */
  predicate InsertSucceeded(r: ExecOutcome) {
    r.Executed? && r.updateCount != 0 && |r.keys| > 0
  }

  /** The id `addEmployee` returns for the database's answer to its insert: -1 when the
      statement fails, changes no row, or yields no generated key; the first key otherwise. */
  function InsertedId(r: ExecOutcome): (id: int)
    ensures !r.Executed? ==> id == -1
    ensures r.Executed? && r.updateCount == 0 ==> id == -1
    ensures r.Executed? && r.updateCount != 0 && |r.keys| == 0 ==> id == -1
    ensures InsertSucceeded(r) ==> id == r.keys[0]
  {
    match r
    case SqlFailure => -1
    case Executed(count, _, keys) =>
      if count == 0 then -1
      else if |keys| == 0 then -1
      else keys[0]
  }

  /** `addEmployee`: the id, and the record as the call leaves it (its id set on success). */
  method AddEmployee(db: Database, e: Employee) returns (id: int, stored: Employee)
    modifies db
    ensures db.executed == old(db.executed) + [InsertStatement(e)]
    ensures id == InsertedId(db.respond(InsertStatement(e)))
    ensures stored == if InsertSucceeded(db.respond(InsertStatement(e))) then e.(empID := id) else e
  {
    var stmt := new PreparedStatement(InsertSql);
    stmt.Bind(1, PString(e.employeeName));
    stmt.Bind(2, PString(e.division));
    stmt.Bind(3, PString(e.ssn));
    stmt.Bind(4, PString(e.jobTitle));
    stmt.Bind(5, PDecimal(e.salary));
    stmt.Bind(6, PString(e.payInfo));
    var outcome := db.Execute(stmt.Snapshot());
    stored := e;
    if !outcome.Executed? || outcome.updateCount == 0 {
      id := -1;
    } else if |outcome.keys| > 0 {
      id := outcome.keys[0];
      stored := e.(empID := id);
    } else {
      id := -1;
    }
  }

  const UpdateEmployeeSql: string := "UPDATE employees SET employeeName=?, division=?, SSN=?, jobTitle=?, salary=?, payInfo=? WHERE empID=?"

  /** `updateEmployee`: seven parameters in column order, the id last. */
  function UpdateEmployeeStatement(e: Employee): Statement {
    Statement(UpdateEmployeeSql, map[1 := PString(e.employeeName), 2 := PString(e.division), 3 := PString(e.ssn),
                                     4 := PString(e.jobTitle), 5 := PDecimal(e.salary), 6 := PString(e.payInfo),
                                     7 := PInt(e.empID)])
  }

  /** `updateEmployee`: true iff the statement changes at least one row. */
  method UpdateEmployee(db: Database, e: Employee) returns (ok: bool)
    modifies db
    ensures db.executed == old(db.executed) + [UpdateEmployeeStatement(e)]
    ensures ok == UpdateSucceeded(db.respond(UpdateEmployeeStatement(e)))
  {
    var stmt := new PreparedStatement(UpdateEmployeeSql);
    stmt.Bind(1, PString(e.employeeName));
    stmt.Bind(2, PString(e.division));
    stmt.Bind(3, PString(e.ssn));
    stmt.Bind(4, PString(e.jobTitle));
    stmt.Bind(5, PDecimal(e.salary));
    stmt.Bind(6, PString(e.payInfo));
    stmt.Bind(7, PInt(e.empID));
    var outcome := db.Execute(stmt.Snapshot());
    ok := UpdateSucceeded(outcome);
  }

  /** The columns `updateField` accepts. */
  const ValidFields: seq<string> := ["employeeName", "division", "SSN", "jobTitle", "salary", "payInfo"]

  /** The outcome of `updateField`: an `IllegalArgumentException`, or the update's result. */
  datatype FieldUpdate = Rejected | Done(ok: bool)

  function FieldUpdateSql(fieldName: string): string {
    "UPDATE employees SET " + fieldName + " = ? WHERE empID = ?"
  }

  /** `updateField`: the value bound by its runtime class at 1 (SQL NULL of type
      `Types.NULL` for null), the id at 2. */
  function FieldUpdateStatement(empID: int, fieldName: string, value: Value): Statement {
    Statement(FieldUpdateSql(fieldName), map[1 := BindValue(value, TYPE_NULL), 2 := PInt(empID)])
  }

  /** `updateField`: a name outside the whitelist is rejected before any statement is
      built; otherwise true iff the single-column update changes a row. */
  method UpdateField(db: Database, empID: int, fieldName: string, value: Value) returns (r: FieldUpdate)
    modifies db
    ensures fieldName !in ValidFields ==> r == Rejected && db.executed == old(db.executed)
    ensures fieldName in ValidFields ==>
      && db.executed == old(db.executed) + [FieldUpdateStatement(empID, fieldName, value)]
      && r == Done(UpdateSucceeded(db.respond(FieldUpdateStatement(empID, fieldName, value))))
  {
    if fieldName !in ValidFields {
      return Rejected;
    }
    var stmt := new PreparedStatement("UPDATE employees SET " + fieldName + " = ? WHERE empID = ?");
    if value.Str? {
      stmt.Bind(1, PString(value.s));
    } else if value.Int? {
      stmt.Bind(1, PInt(value.i));
    } else if value.Dec? {
      stmt.Bind(1, PDouble(value.text));
    } else if value.Bool? {
      stmt.Bind(1, PBoolean(value.b));
    } else if value.Null? {
      stmt.Bind(1, PNull(TYPE_NULL));
    } else {
      stmt.Bind(1, PString(ValueText(value)));
    }
    stmt.Bind(2, PInt(empID));
    var outcome := db.Execute(stmt.Snapshot());
    r := Done(UpdateSucceeded(outcome));
  }

  /** The id column is not updatable through `updateField`, and nor is any dynamic column. */
  lemma IdFieldRejected()
    ensures "empID" !in ValidFields
    ensures forall n :: n in ValidFields ==> n == "SSN" || n in StandardFields
  {
  }

  /** An accepted name is updated by id: the value at 1, the id at 2, and no other
      parameter. */
  lemma FieldUpdateShape(empID: int, fieldName: string, value: Value)
    requires fieldName in ValidFields
    ensures FieldUpdateStatement(empID, fieldName, value).params.Keys == {1, 2}
    ensures FieldUpdateStatement(empID, fieldName, value).params[1] == BindValue(value, TYPE_NULL)
    ensures FieldUpdateStatement(empID, fieldName, value).params[2] == PInt(empID)
  {
  }

  const DeleteSql: string := "DELETE FROM employees WHERE empID = ?"

  function DeleteStatement(empID: int): Statement {
    Statement(DeleteSql, map[1 := PInt(empID)])
  }

  /** `deleteEmployee`: true iff at least one row is deleted. */
  method DeleteEmployee(db: Database, empID: int) returns (ok: bool)
    modifies db
    ensures db.executed == old(db.executed) + [DeleteStatement(empID)]
    ensures ok == UpdateSucceeded(db.respond(DeleteStatement(empID)))
  {
    var stmt := new PreparedStatement(DeleteSql);
    stmt.Bind(1, PInt(empID));
    var outcome := db.Execute(stmt.Snapshot());
    ok := UpdateSucceeded(outcome);
  }
}
