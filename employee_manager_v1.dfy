/** The repository of the BigDecimal variant (src/com/group02/repository/EmployeeManager):
    the criteria search builds its query and parameter list clause by clause, and the
    full-record update binds six parameters. */
module EmployeeManagerV1 {
  import opened Values
  import opened Jdbc
  import opened Employees

  const SearchPrefix: string := "SELECT * FROM employees WHERE 1=1"

  /** The criteria keys `search` understands, in the order it tests them. */
  const SearchKeys: seq<string> := ["empID", "employeeName", "jobTitle", "division", "payInfo"]

  /** The clause a present key appends. */
  function Clause(key: string): string {
    " AND " + key + (if key == "employeeName" then " LIKE " else " = ") + "?"
  }

  /** The parameter a present key adds: the name is wrapped for a substring match. */
  function ParamFor(key: string, v: Value): Value {
    if key == "employeeName" then Str("%" + ValueText(v) + "%") else v
  }

  /** What key `key` appends to the query: its clause when present, nothing otherwise. */
  function Piece(criteria: map<string, Value>, key: string): string {
    if key in criteria then Clause(key) else ""
  }

  function PieceParams(criteria: map<string, Value>, key: string): seq<Value> {
    if key in criteria then [ParamFor(key, criteria[key])] else []
  }

  /** The query after testing `keys` in turn. */
  function SqlFor(criteria: map<string, Value>, keys: seq<string>): string {
    if |keys| == 0 then SearchPrefix
    else SqlFor(criteria, keys[..|keys| - 1]) + Piece(criteria, keys[|keys| - 1])
  }

  /** The parameter list after testing `keys` in turn. */
  function ParamsFor(criteria: map<string, Value>, keys: seq<string>): seq<Value> {
    if |keys| == 0 then []
    else ParamsFor(criteria, keys[..|keys| - 1]) + PieceParams(criteria, keys[|keys| - 1])
  }

  /** The query text `search` builds for `criteria`. */
  function SearchSql(criteria: map<string, Value>): string {
    SqlFor(criteria, SearchKeys)
  }

  /** The parameter list `search` builds for `criteria`, in clause order. */
  function SearchParams(criteria: map<string, Value>): seq<Value> {
    ParamsFor(criteria, SearchKeys)
  }

  /** Every parameter is bound with `setObject`. */
  function ObjectParams(vs: seq<Value>): (r: seq<Param>)
    ensures |r| == |vs|
  {
    seq(|vs|, i requires 0 <= i < |vs| => PObject(vs[i]))
  }

  function RowEmployees(rows: seq<Row>): (r: seq<Employee>)
    ensures |r| == |rows|
  {
    seq(|rows|, i requires 0 <= i < |rows| => rows[i].employee)
  }

  lemma AppendNothing<T>(s: seq<T>)
    ensures s + [] == s
  {
  }

  /** The search statement with its five tests written out in order. */
  lemma SearchSpelledOut(c: map<string, Value>)
    ensures SearchSql(c) == SearchPrefix + Piece(c, "empID") + Piece(c, "employeeName")
      + Piece(c, "jobTitle") + Piece(c, "division") + Piece(c, "payInfo")
    ensures SearchParams(c) == [] + PieceParams(c, "empID") + PieceParams(c, "employeeName")
      + PieceParams(c, "jobTitle") + PieceParams(c, "division") + PieceParams(c, "payInfo")
  {
    TestStep(c, SearchKeys, 0);
    TestStep(c, SearchKeys, 1);
    TestStep(c, SearchKeys, 2);
    TestStep(c, SearchKeys, 3);
    TestStep(c, SearchKeys, 4);
    assert SearchKeys[..0] == [];
    assert SearchKeys[..5] == SearchKeys;
  }

  /** One test of `search`: a present key appends its clause and its parameter. */
  method TestKey(criteria: map<string, Value>, key: string, query: string, parameters: seq<Value>)
    returns (query': string, parameters': seq<Value>)
    ensures query' == query + Piece(criteria, key)
    ensures parameters' == parameters + PieceParams(criteria, key)
  {
    query', parameters' := query, parameters;
    if key in criteria {
      query' := query' + Clause(key);
      parameters' := parameters' + [ParamFor(key, criteria[key])];
    } else {
      AppendNothing(query);
      AppendNothing(parameters);
    }
  }

  /** The builder part of `search`: one test per search key, in a fixed order. */
  method BuildSearch(criteria: map<string, Value>) returns (query: string, parameters: seq<Value>)
    ensures query == SearchSql(criteria) && parameters == SearchParams(criteria)
  {
    query := SearchPrefix;
    parameters := [];
    query, parameters := TestKey(criteria, "empID", query, parameters);
    query, parameters := TestKey(criteria, "employeeName", query, parameters);
    query, parameters := TestKey(criteria, "jobTitle", query, parameters);
    query, parameters := TestKey(criteria, "division", query, parameters);
    query, parameters := TestKey(criteria, "payInfo", query, parameters);
    SearchSpelledOut(criteria);
  }

  /** `search`: the query for `criteria`, parameter i bound at index i + 1 with
      `setObject`; the employees of the result rows, or none when the query fails. */
  method Search(db: Database, criteria: map<string, Value>) returns (employees: seq<Employee>)
    modifies db
    ensures db.executed == old(db.executed) + [Statement(SearchSql(criteria), Bindings(ObjectParams(SearchParams(criteria))))]
    ensures var r := db.respond(Statement(SearchSql(criteria), Bindings(ObjectParams(SearchParams(criteria)))));
      employees == if r.Executed? then RowEmployees(r.rows) else []
  {
    var query, parameters := BuildSearch(criteria);
    var stmt := new PreparedStatement(query);
    var i := 0;
    while i < |parameters|
      invariant 0 <= i <= |parameters|
      invariant stmt.sql == query
      invariant stmt.params == Bindings(ObjectParams(parameters[..i]))
      modifies stmt
    {
      assert ObjectParams(parameters[..i + 1])[..i] == ObjectParams(parameters[..i]);
      stmt.Bind(i + 1, PObject(parameters[i]));
      i := i + 1;
    }
    assert parameters[..i] == parameters;
    var outcome := db.Execute(stmt.Snapshot());
    employees := if outcome.Executed? then RowEmployees(outcome.rows) else [];
  }

  /** Testing one more key extends the query by that key's piece. */
  lemma TestStep(criteria: map<string, Value>, keys: seq<string>, j: int)
    requires 0 <= j < |keys|
    ensures SqlFor(criteria, keys[..j + 1]) == SqlFor(criteria, keys[..j]) + Piece(criteria, keys[j])
    ensures ParamsFor(criteria, keys[..j + 1]) == ParamsFor(criteria, keys[..j]) + PieceParams(criteria, keys[j])
  {
    assert keys[..j + 1][..j] == keys[..j];
  }

  lemma {:induction false} NoCriteriaNoClauses(keys: seq<string>)
    ensures SqlFor(map[], keys) == SearchPrefix
    ensures ParamsFor(map[], keys) == []
  {
    if |keys| > 0 {
      NoCriteriaNoClauses(keys[..|keys| - 1]);
    }
  }

  /** No criteria: the bare query and no parameters. */
  lemma EmptyCriteriaSearchesAll()
    ensures SearchSql(map[]) == "SELECT * FROM employees WHERE 1=1"
    ensures SearchParams(map[]) == []
  {
    NoCriteriaNoClauses(SearchKeys);
  }

  lemma {:induction false} TestsAgree(c1: map<string, Value>, c2: map<string, Value>, keys: seq<string>)
    requires forall k :: k in keys ==> (k in c1 <==> k in c2) && (k in c1 ==> c1[k] == c2[k])
    ensures SqlFor(c1, keys) == SqlFor(c2, keys)
    ensures ParamsFor(c1, keys) == ParamsFor(c2, keys)
  {
    if |keys| > 0 {
      var init := keys[..|keys| - 1];
      assert forall k :: k in init ==> k in keys;
      TestsAgree(c1, c2, init);
    }
  }

  /** The statement depends only on which of the five search keys are present and on
      their values: the visiting order of the criteria map plays no part, and any other
      key (salary, say) contributes nothing. */
  lemma SearchDependsOnlyOnSearchKeys(c1: map<string, Value>, c2: map<string, Value>)
    requires forall k :: k in SearchKeys ==> (k in c1 <==> k in c2) && (k in c1 ==> c1[k] == c2[k])
    ensures SearchSql(c1) == SearchSql(c2)
    ensures SearchParams(c1) == SearchParams(c2)
  {
    TestsAgree(c1, c2, SearchKeys);
  }

  lemma SalaryCriterionIgnored(c: map<string, Value>, v: Value)
    ensures SearchSql(c["salary" := v]) == SearchSql(c - {"salary"})
    ensures SearchParams(c["salary" := v]) == SearchParams(c - {"salary"})
  {
    SearchDependsOnlyOnSearchKeys(c["salary" := v], c - {"salary"});
  }

  /** A clause holds exactly one placeholder, its last character. */
  lemma ClausePlaceholder(key: string)
    requires '?' !in key
    ensures CountChar(Clause(key), '?') == 1
  {
    var mid := if key == "employeeName" then " LIKE " else " = ";
    CountCharAbsent(" AND ", '?');
    CountCharAbsent(key, '?');
    CountCharAbsent(mid, '?');
    CountCharAppend(" AND ", key, '?');
    CountCharAppend(" AND " + key, mid, '?');
    CountCharAppend(" AND " + key + mid, "?", '?');
    assert Clause(key) == " AND " + key + mid + "?";
  }

  lemma {:induction false} TestsPlaceholders(c: map<string, Value>, keys: seq<string>)
    requires forall i :: 0 <= i < |keys| ==> '?' !in keys[i]
    ensures CountChar(SqlFor(c, keys), '?') == |ParamsFor(c, keys)|
  {
    if |keys| == 0 {
      CountCharAbsent(SearchPrefix, '?');
    } else {
      var key := keys[|keys| - 1];
      var init := keys[..|keys| - 1];
      assert forall i :: 0 <= i < |init| ==> init[i] == keys[i];
      TestsPlaceholders(c, init);
      CountCharAppend(SqlFor(c, init), Piece(c, key), '?');
      if key in c {
        ClausePlaceholder(key);
      }
    }
  }

  /** The query holds one placeholder per parameter. */
  lemma SearchPlaceholdersMatchParameters(c: map<string, Value>)
    ensures CountChar(SearchSql(c), '?') == |SearchParams(c)|
  {
    forall i | 0 <= i < |SearchKeys| ensures '?' !in SearchKeys[i] {
    }
    TestsPlaceholders(c, SearchKeys);
  }

  /** The clause of every present key occurs in the query. */
  lemma {:induction false} PresentClauseOccurs(c: map<string, Value>, keys: seq<string>, j: int)
    requires 0 <= j < |keys| && keys[j] in c
    ensures Contains(SqlFor(c, keys), Clause(keys[j]))
    decreases |keys|
  {
    var n := |keys| - 1;
    var init := keys[..n];
    var before := SqlFor(c, init);
    var clause := Clause(keys[j]);
    if j == n {
      OccursAtEnd(before, clause);
    } else {
      assert init[j] == keys[j];
      PresentClauseOccurs(c, init, j);
      var k :| 0 <= k <= |before| && OccursAt(before, clause, k);
      OccursAtAppend(before, Piece(c, keys[n]), clause, k);
    }
  }

  /** The parameter of every present key is in the parameter list. */
  lemma {:induction false} PresentParamListed(c: map<string, Value>, keys: seq<string>, j: int)
    requires 0 <= j < |keys| && keys[j] in c
    ensures ParamFor(keys[j], c[keys[j]]) in ParamsFor(c, keys)
    decreases |keys|
  {
    var n := |keys| - 1;
    var init := keys[..n];
    assert ParamsFor(c, keys) == ParamsFor(c, init) + PieceParams(c, keys[n]);
    if j < n {
      assert init[j] == keys[j];
      PresentParamListed(c, init, j);
    }
  }

  /** A name criterion is matched with LIKE against its value wrapped in '%'. */
  lemma NameCriterionIsSubstringPattern(c: map<string, Value>)
    requires "employeeName" in c
    ensures Contains(SearchSql(c), " AND employeeName LIKE ?")
    ensures Str("%" + ValueText(c["employeeName"]) + "%") in SearchParams(c)
  {
    assert SearchKeys[1] == "employeeName";
    assert Clause("employeeName") == " AND employeeName LIKE ?";
    PresentClauseOccurs(c, SearchKeys, 1);
    PresentParamListed(c, SearchKeys, 1);
  }

  const UpdateSql: string := "UPDATE employees SET employeeName = ?, jobTitle = ?, division = ?, salary = ?, payInfo = ? WHERE empID = ?"

  /** `update`: six parameters in SET-clause order, the id last. */
  function UpdateStatement(e: Employee): Statement {
    Statement(UpdateSql, map[1 := PString(e.employeeName), 2 := PString(e.jobTitle), 3 := PString(e.division),
                             4 := PDecimal(e.salary), 5 := PString(e.payInfo), 6 := PInt(e.empID)])
  }

  /** `update`: true iff the statement changed at least one row. */
  method Update(db: Database, e: Employee) returns (ok: bool)
    modifies db
    ensures db.executed == old(db.executed) + [UpdateStatement(e)]
    ensures ok == UpdateSucceeded(db.respond(UpdateStatement(e)))
  {
    var stmt := new PreparedStatement(UpdateSql);
    stmt.Bind(1, PString(e.employeeName));
    stmt.Bind(2, PString(e.jobTitle));
    stmt.Bind(3, PString(e.division));
    stmt.Bind(4, PDecimal(e.salary));
    stmt.Bind(5, PString(e.payInfo));
    stmt.Bind(6, PInt(e.empID));
    var outcome := db.Execute(stmt.Snapshot());
    ok := UpdateSucceeded(outcome);
  }
}
