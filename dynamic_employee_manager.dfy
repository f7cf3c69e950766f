/** The repository for dynamic columns (src/com/group02/model/DynamicEmployeeManager, package
    `com.group02.repository`): adding a column, reading an employee with every column of the
    table, and writing back an employee's dynamic attributes after its base fields. */
module DynamicEmployeeManager {
  import opened Values
  import opened Jdbc
  import opened Employees
  import opened DynamicEmployees
  import EmployeeManagerV1

  /** `addColumn`: the DDL statement, with the name and type interpolated as given. */
  function AddColumnSql(columnName: string, dataType: string): string {
    "ALTER TABLE employees ADD COLUMN " + columnName + " " + dataType
  }

  /** `addColumn`: true iff the statement executes without an `SQLException`. */
  method AddColumn(db: Database, columnName: string, dataType: string) returns (ok: bool)
    modifies db
    ensures db.executed == old(db.executed) + [Statement(AddColumnSql(columnName, dataType), map[])]
    ensures ok <==> db.respond(Statement(AddColumnSql(columnName, dataType), map[])).Executed?
  {
    var outcome := db.Execute(Statement(AddColumnSql(columnName, dataType), map[]));
    ok := outcome.Executed?;
  }

  /** The name-to-type map built from the (name, type) pairs the table metadata reports,
      in report order: a later report of a name replaces an earlier one. */
  function ColumnsFrom(reported: seq<(string, string)>): map<string, string> {
    if |reported| == 0 then map[]
    else ColumnsFrom(reported[..|reported| - 1])[reported[|reported| - 1].0 := reported[|reported| - 1].1]
  }

  /** Every reported name is a column, with the type of its last report; nothing else is. */
  lemma ColumnsFromReports(reported: seq<(string, string)>)
    ensures forall n :: n in ColumnsFrom(reported) <==> exists i :: 0 <= i < |reported| && reported[i].0 == n
    ensures forall i :: 0 <= i < |reported| && (forall j :: i < j < |reported| ==> reported[j].0 != reported[i].0) ==>
      ColumnsFrom(reported)[reported[i].0] == reported[i].1
  {
    ColumnsFromNames(reported);
    ColumnsFromLastReport(reported);
  }

  lemma {:induction false} ColumnsFromNames(reported: seq<(string, string)>)
    ensures forall n :: n in ColumnsFrom(reported) <==> exists i :: 0 <= i < |reported| && reported[i].0 == n
  {
    if |reported| > 0 {
      var init := reported[..|reported| - 1];
      ColumnsFromNames(init);
      forall n | n in ColumnsFrom(reported)
        ensures exists i :: 0 <= i < |reported| && reported[i].0 == n
      {
        if n != reported[|reported| - 1].0 {
          assert n in ColumnsFrom(init);
          var i :| 0 <= i < |init| && init[i].0 == n;
          assert reported[i].0 == n;
        }
      }
      forall n | exists i :: 0 <= i < |reported| && reported[i].0 == n
        ensures n in ColumnsFrom(reported)
      {
        var i :| 0 <= i < |reported| && reported[i].0 == n;
        if i < |init| {
          assert init[i].0 == n;
        }
      }
    }
  }

  lemma {:induction false} ColumnsFromLastReport(reported: seq<(string, string)>)
    ensures forall i :: 0 <= i < |reported| && (forall j :: i < j < |reported| ==> reported[j].0 != reported[i].0) ==>
      reported[i].0 in ColumnsFrom(reported) && ColumnsFrom(reported)[reported[i].0] == reported[i].1
  {
    if |reported| > 0 {
      var init := reported[..|reported| - 1];
      ColumnsFromLastReport(init);
      forall i | 0 <= i < |reported| && (forall j :: i < j < |reported| ==> reported[j].0 != reported[i].0)
        ensures reported[i].0 in ColumnsFrom(reported) && ColumnsFrom(reported)[reported[i].0] == reported[i].1
      {
        if i < |init| {
          assert init[i] == reported[i];
          assert forall j :: i < j < |init| ==> init[j] == reported[j];
        }
      }
    }
  }

  /** `getTableColumns`: one `put` per reported column. Metadata that cannot be read
      stops the report short; `reported` is what was read. */
  method GetTableColumns(reported: seq<(string, string)>) returns (columns: map<string, string>)
    ensures columns == ColumnsFrom(reported)
  {
    columns := map[];
    var i := 0;
    while i < |reported|
      invariant 0 <= i <= |reported|
      invariant columns == ColumnsFrom(reported[..i])
    {
      assert reported[..i + 1][..i] == reported[..i];
      columns := columns[reported[i].0 := reported[i].1];
      i := i + 1;
    }
    assert reported[..i] == reported;
  }

  /** The SELECT list: the column names separated by ", ", built with a `first` flag. */
  method BuildColumnList(columns: seq<string>) returns (list: string)
    ensures list == Join(columns, ", ")
  {
    list := "";
    var first := true;
    var i := 0;
    while i < |columns|
      invariant 0 <= i <= |columns|
      invariant first <==> i == 0
      invariant list == Join(columns[..i], ", ")
    {
      assert columns[..i + 1][..i] == columns[..i];
      if !first {
        list := list + ", ";
      }
      list := list + columns[i];
      first := false;
      i := i + 1;
    }
    assert columns[..i] == columns;
  }

  /** Reads a column list back: the pieces between commas, each but the first without
      the one space the separator puts before it. */
  function ParseColumnList(list: string): (names: seq<string>)
    ensures |names| == |SplitOn(list, ',')|
  {
    var pieces := SplitOn(list, ',');
    [pieces[0]] + seq(|pieces| - 1, i requires 0 <= i < |pieces| - 1 => Unpad(pieces[i + 1]))
  }

  function Unpad(p: string): string {
    if |p| > 0 && p[0] == ' ' then p[1..] else p
  }

  lemma {:induction false} SplitJoinedList(parts: seq<string>)
    requires |parts| > 0
    requires forall i :: 0 <= i < |parts| ==> ',' !in parts[i]
    ensures SplitOn(Join(parts, ", "), ',') == [parts[0]] + seq(|parts| - 1, i requires 0 <= i < |parts| - 1 => " " + parts[i + 1])
  {
    var n := |parts| - 1;
    if n == 0 {
      SplitWithout(parts[0], ',');
    } else {
      var init := parts[..n];
      assert forall i :: 0 <= i < |init| ==> init[i] == parts[i];
      SplitJoinedList(init);
      var before := Join(init, ", ");
      SeparatorBefore(before, parts[n]);
      SplitAfter(before, " " + parts[n], ',');
      PaddedStep(parts);
    }
  }

  /** ", " before a part is the comma followed by the part with one space before it. */
  lemma SeparatorBefore(before: string, part: string)
    requires ',' !in part
    ensures before + ", " + part == before + [','] + (" " + part)
    ensures ',' !in " " + part
  {
    assert forall k :: 1 <= k < |" " + part| ==> (" " + part)[k] == part[k - 1];
  }

  /** The padded pieces of a list are those of its first n - 1 parts, then the last. */
  lemma PaddedStep(parts: seq<string>)
    requires |parts| > 1
    ensures [parts[0]] + seq(|parts| - 1, i requires 0 <= i < |parts| - 1 => " " + parts[i + 1])
      == [parts[0]] + seq(|parts| - 2, i requires 0 <= i < |parts| - 2 => " " + parts[..|parts| - 1][i + 1])
         + [" " + parts[|parts| - 1]]
  {
    var n := |parts| - 1;
    var shorter := seq(n - 1, i requires 0 <= i < n - 1 => " " + parts[..n][i + 1]);
    var longer := seq(n, i requires 0 <= i < n => " " + parts[i + 1]);
    assert longer == shorter + [" " + parts[n]];
  }

  /** The column list round-trips: when no column name holds a comma, reading the list
      back gives the columns, each once and in order, so the list has no leading or
      trailing separator. */
  lemma ColumnListRoundTrip(columns: seq<string>)
    requires |columns| > 0
    requires forall i :: 0 <= i < |columns| ==> ',' !in columns[i]
    ensures ParseColumnList(Join(columns, ", ")) == columns
  {
    SplitJoinedList(columns);
    UnpadPieces(columns, SplitOn(Join(columns, ", "), ','));
  }

  lemma UnpadPieces(columns: seq<string>, pieces: seq<string>)
    requires |columns| > 0
    requires pieces == [columns[0]] + seq(|columns| - 1, i requires 0 <= i < |columns| - 1 => " " + columns[i + 1])
    ensures [pieces[0]] + seq(|pieces| - 1, i requires 0 <= i < |pieces| - 1 => Unpad(pieces[i + 1])) == columns
  {
    var names := [pieces[0]] + seq(|pieces| - 1, i requires 0 <= i < |pieces| - 1 => Unpad(pieces[i + 1]));
    forall i | 0 <= i < |columns| ensures names[i] == columns[i] {
      if i > 0 {
        assert pieces[i] == " " + columns[i];
        assert (" " + columns[i])[1..] == columns[i];
      }
    }
  }

  /** The object `getObject` returns for a selected column of a row. */
  function RowValue(row: Row, column: string): Value {
    if column in row.values then row.values[column] else Null
  }

  function SelectSql(columnOrder: seq<string>): string {
    "SELECT " + Join(columnOrder, ", ") + " FROM employees WHERE empID = ?"
  }

  function SelectStatement(columnOrder: seq<string>, empID: int): Statement {
    Statement(SelectSql(columnOrder), map[1 := PInt(empID)])
  }

  /** The attributes read from a row: every selected column that is not a base column. */
  function DynamicAttributesOf(row: Row, columns: set<string>): map<string, Value> {
    map c | c in columns && c !in StandardFields :: RowValue(row, c)
  }

  function Elements(s: seq<string>): set<string> {
    set x | x in s
  }

  /** Visiting one more column adds its attribute unless it is a base column. */
  lemma AttributeStep(row: Row, order: seq<string>, i: int)
    requires 0 <= i < |order|
    ensures order[i] in StandardFields ==>
      DynamicAttributesOf(row, Elements(order[..i + 1])) == DynamicAttributesOf(row, Elements(order[..i]))
    ensures order[i] !in StandardFields ==>
      DynamicAttributesOf(row, Elements(order[..i + 1])) == DynamicAttributesOf(row, Elements(order[..i]))[order[i] := RowValue(row, order[i])]
  {
    assert order[..i + 1] == order[..i] + [order[i]];
    assert Elements(order[..i + 1]) == Elements(order[..i]) + {order[i]};
  }

  /** The base record the full constructor builds from a row (this variant has no SSN). */
  function BaseOf(row: Row): Employee {
    var e := row.employee;
    Employee(e.empID, e.employeeName, "", e.jobTitle, e.division, e.salary, e.payInfo)
  }

  /** The attribute loop of `getDynamicEmployeeById`: every visited column but the six base
      columns becomes an attribute holding the row's object for it. */
  method AddDynamicColumns(employee: DynamicEmployee, row: Row, order: seq<string>)
    requires employee.attributes == map[]
    modifies employee
    ensures employee.base == old(employee.base)
    ensures employee.attributes == DynamicAttributesOf(row, Elements(order))
  {
    var i := 0;
    while i < |order|
      invariant 0 <= i <= |order|
      invariant employee.base == old(employee.base)
      invariant employee.attributes == DynamicAttributesOf(row, Elements(order[..i]))
      modifies employee
    {
      var column := order[i];
      AttributeStep(row, order, i);
      if column !in StandardFields {
        employee.AddAttribute(column, RowValue(row, column));
      }
      i := i + 1;
    }
    assert order[..i] == order;
  }

  /** The columns of a listing of a set are that set. */
  lemma ElementsEnumerated(order: seq<string>, keys: set<string>)
    requires Enumerates(order, keys)
    ensures Elements(order) == keys
  {
  }

  /** The body of the row branch: the base record from the base columns, then the
      attributes from the other columns visited in `order`. */
  method EmployeeFromRow(row: Row, order: seq<string>) returns (employee: DynamicEmployee)
    ensures fresh(employee)
    ensures employee.base == BaseOf(row)
    ensures employee.attributes == DynamicAttributesOf(row, Elements(order))
  {
    var e := row.employee;
    employee := new DynamicEmployee.WithFields(e.empID, e.employeeName, e.jobTitle, e.division, e.salary, e.payInfo);
    AddDynamicColumns(employee, row, order);
  }

  /** `getDynamicEmployeeById`: selects every column of the table, visited in `order`, for
      the id. The first row becomes the employee, every non-base column an attribute.
      Null comes back when the query fails, finds no row, or (the base getters then throw)
      the table lacks a base column. */
  method GetDynamicEmployeeById(db: Database, reported: seq<(string, string)>, order: seq<string>, empID: int)
    returns (r: Option<DynamicEmployee>)
    requires Enumerates(order, ColumnsFrom(reported).Keys)
    modifies db
    ensures db.executed == old(db.executed) + [SelectStatement(order, empID)]
    ensures var out := db.respond(SelectStatement(order, empID));
      r.None? <==> !(out.Executed? && |out.rows| > 0 && StandardFields <= ColumnsFrom(reported).Keys)
    ensures var out := db.respond(SelectStatement(order, empID));
      r.Some? ==> (fresh(r.value) && r.value.base == BaseOf(out.rows[0])
                   && r.value.attributes == DynamicAttributesOf(out.rows[0], ColumnsFrom(reported).Keys))
  {
    var columns := GetTableColumns(reported);
    var list := BuildColumnList(order);
    var sql := "SELECT " + list + " FROM employees WHERE empID = ?";
    var stmt := new PreparedStatement(sql);
    stmt.Bind(1, PInt(empID));
    var outcome := db.Execute(stmt.Snapshot());
    if outcome.Executed? && |outcome.rows| > 0 && StandardFields <= columns.Keys {
      var employee := EmployeeFromRow(outcome.rows[0], order);
      ElementsEnumerated(order, columns.Keys);
      r := Some(employee);
    } else {
      r := None;
    }
  }

  /** `i = SET a1 = ?, ..., an = ?`: one assignment per attribute name. */
  function Assignments(names: seq<string>): (r: seq<string>)
    ensures |r| == |names|
  {
    seq(|names|, k requires 0 <= k < |names| => names[k] + " = ?")
  }

  function DynamicUpdateSql(names: seq<string>): string {
    "UPDATE employees SET " + Join(Assignments(names), ", ") + " WHERE empID = ?"
  }

  /** The attribute values in the order of their names. */
  function ValuesInOrder(attrs: map<string, Value>, order: seq<string>): (vs: seq<Value>)
    requires forall k :: 0 <= k < |order| ==> order[k] in attrs
    ensures |vs| == |order|
  {
    seq(|order|, k requires 0 <= k < |order| => attrs[order[k]])
  }

  /** The dynamic UPDATE: attribute values at 1..n in name order, the id at n + 1. */
  function DynamicUpdateStatement(attrs: map<string, Value>, order: seq<string>, empID: int): Statement
    requires forall k :: 0 <= k < |order| ==> order[k] in attrs
  {
    Statement(DynamicUpdateSql(order),
              Bindings(EmployeeManagerV1.ObjectParams(ValuesInOrder(attrs, order)) + [PInt(empID)]))
  }

  /** The SET clause built with a counter `i`. */
  method BuildDynamicUpdateSql(names: seq<string>) returns (sql: string)
    ensures sql == DynamicUpdateSql(names)
  {
    sql := "UPDATE employees SET ";
    var i := 0;
    while i < |names|
      invariant 0 <= i <= |names|
      invariant sql == "UPDATE employees SET " + Join(Assignments(names[..i]), ", ")
    {
      assert Assignments(names[..i + 1])[..i] == Assignments(names[..i]);
      if i > 0 {
        sql := sql + ", ";
      }
      sql := sql + names[i] + " = ?";
      i := i + 1;
    }
    assert names[..i] == names;
    sql := sql + " WHERE empID = ?";
  }

  lemma {:induction false} AssignmentsPlaceholders(names: seq<string>)
    requires forall k :: 0 <= k < |names| ==> '?' !in names[k]
    ensures CountChar(Join(Assignments(names), ", "), '?') == |names|
  {
    var n := |names|;
    if n > 0 {
      var a := Assignments(names);
      var init := names[..n - 1];
      assert a[..n - 1] == Assignments(init);
      CountCharAppend(names[n - 1], " = ?", '?');
      CountCharAbsent(names[n - 1], '?');
      CountCharAbsent(" = ", '?');
      CountCharAppend(" = ", "?", '?');
      assert " = ?" == " = " + "?";
      if n == 1 {
        assert Join(a, ", ") == a[0];
      } else {
        AssignmentsPlaceholders(init);
        CountCharAppend(Join(Assignments(init), ", ") + ", ", a[n - 1], '?');
        CountCharAppend(Join(Assignments(init), ", "), ", ", '?');
        CountCharAbsent(", ", '?');
      }
    }
  }

  /** The dynamic UPDATE holds n + 1 placeholders for n attribute names. */
  lemma DynamicUpdatePlaceholders(names: seq<string>)
    requires forall k :: 0 <= k < |names| ==> '?' !in names[k]
    ensures CountChar(DynamicUpdateSql(names), '?') == |names| + 1
  {
    AssignmentsPlaceholders(names);
    assert " WHERE empID = ?" == " WHERE empID = " + "?";
    PlaceholdersBetween("UPDATE employees SET ", Join(Assignments(names), ", "), " WHERE empID = ");
  }

  /** Text without placeholders around `b`, and one placeholder at the end, add one
      placeholder to those of `b`. */
  lemma PlaceholdersBetween(a: string, b: string, h: string)
    requires '?' !in a && '?' !in h
    ensures CountChar(a + b + (h + "?"), '?') == CountChar(b, '?') + 1
  {
    CountCharAbsent(a, '?');
    CountCharAbsent(h, '?');
    CountCharAppend(h, "?", '?');
    CountCharAppend(a + b, h + "?", '?');
    CountCharAppend(a, b, '?');
  }

  /** The dynamic UPDATE binds n + 1 parameters: value k at k, in name order, and the
      id last. */
  lemma DynamicUpdateBindOrder(attrs: map<string, Value>, order: seq<string>, empID: int)
    requires forall k :: 0 <= k < |order| ==> order[k] in attrs
    ensures forall k :: k in DynamicUpdateStatement(attrs, order, empID).params <==> 1 <= k <= |order| + 1
    ensures forall k :: 1 <= k <= |order| ==> DynamicUpdateStatement(attrs, order, empID).params[k] == PObject(attrs[order[k - 1]])
    ensures DynamicUpdateStatement(attrs, order, empID).params[|order| + 1] == PInt(empID)
  {
    var ps := EmployeeManagerV1.ObjectParams(ValuesInOrder(attrs, order)) + [PInt(empID)];
    assert |ps| == |order| + 1;
    BindingsCharacterised(ps);
  }

  /** The bind loop of `updateDynamicEmployee`: the values at 1..n with `setObject`, in the
      order the attribute map's values are visited (its key order), then the id. */
  method BindDynamicUpdate(sql: string, attrs: map<string, Value>, order: seq<string>, empID: int)
    returns (stmt: PreparedStatement)
    requires forall k :: 0 <= k < |order| ==> order[k] in attrs
    ensures fresh(stmt)
    ensures stmt.Snapshot() == Statement(sql, DynamicUpdateStatement(attrs, order, empID).params)
  {
    stmt := new PreparedStatement(sql);
    ghost var objects := EmployeeManagerV1.ObjectParams(ValuesInOrder(attrs, order));
    var i := 1;
    while i <= |order|
      invariant 1 <= i <= |order| + 1
      invariant stmt.sql == sql
      invariant stmt.params == Bindings(objects[..i - 1])
      modifies stmt
    {
      assert objects[..i][..i - 1] == objects[..i - 1];
      stmt.Bind(i, PObject(attrs[order[i - 1]]));
      i := i + 1;
    }
    assert objects[..|order|] == objects;
    stmt.Bind(i, PInt(empID));
    assert stmt.params == Bindings(objects + [PInt(empID)]) by {
      assert (objects + [PInt(empID)])[..|objects|] == objects;
    }
  }

  /** `updateDynamicEmployee`: the base update first; false without dynamic SQL when it
      fails; true without a statement when there are no attributes; otherwise the
      dynamic UPDATE, true iff it changes a row. */
  method UpdateDynamicEmployee(db: Database, employee: DynamicEmployee, order: seq<string>) returns (ok: bool)
    requires Enumerates(order, employee.attributes.Keys)
    modifies db
    ensures var baseOk := UpdateSucceeded(db.respond(EmployeeManagerV1.UpdateStatement(employee.base)));
      var dynamic := DynamicUpdateStatement(employee.attributes, order, employee.base.empID);
      && (!baseOk ==> !ok && db.executed == old(db.executed) + [EmployeeManagerV1.UpdateStatement(employee.base)])
      && (baseOk && |employee.attributes| == 0 ==> ok && db.executed == old(db.executed) + [EmployeeManagerV1.UpdateStatement(employee.base)])
      && (baseOk && |employee.attributes| > 0 ==>
            ok == UpdateSucceeded(db.respond(dynamic))
            && db.executed == old(db.executed) + [EmployeeManagerV1.UpdateStatement(employee.base), dynamic])
  {
    var baseResult := EmployeeManagerV1.Update(db, employee.base);
    if !baseResult {
      return false;
    }
    var dynamicAttributes := employee.GetAllDynamicAttributes();
    if |dynamicAttributes| == 0 {
      return true;
    }
    var sql := BuildDynamicUpdateSql(order);
    var stmt := BindDynamicUpdate(sql, dynamicAttributes, order, employee.base.empID);
    var outcome := db.Execute(stmt.Snapshot());
    ok := UpdateSucceeded(outcome);
  }
}
