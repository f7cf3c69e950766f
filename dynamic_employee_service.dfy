/** The dynamic-field service (src/com/group02/service/DynamicEmployeeServiceImpl): the
    list-cache service of the SSN variant extended with a list of known dynamic columns,
    their SQL type codes, and a per-employee cache of dynamic values kept in step with
    the dynamic-field store. */
module DynamicFieldService {
  import opened Values
  import opened Jdbc
  import opened Employees
  import opened EmployeeManagerV2
  import opened EmployeeServiceV2

  /** The employee the service hands out and accepts: a base record and its dynamic
      fields (`getBaseEmployee`, `getAllDynamicFields`). */
  datatype DynamicRecord = DynamicRecord(base: Employee, fields: map<string, Value>)

  /** What a run of lookups leaves: the records found, the cache, and the store calls
      made. */
  datatype LookupTrail = LookupTrail(records: seq<DynamicRecord>, cache: map<int, map<string, Value>>, calls: seq<DaoCall>)

  /** One call the service makes to the dynamic-field store. */
  datatype DaoCall =
    | AddFieldCall(name: string, sqlType: string, defaultValue: Value)
    | FetchCall(empID: int, names: seq<string>)
    | WriteCall(empID: int, name: string, value: Value)

  /** The dynamic-field store (`addDynamicField`, `getDynamicFields`,
      `updateDynamicField`): it records every call, and its answers are decided by the
      store, which the service does not see into. */
  class DynamicDao {
    var calls: seq<DaoCall>
    const adds: (string, string, Value) -> bool
    const fetches: (int, seq<string>) -> map<string, Value>
    const writes: (int, string, Value) -> bool

    constructor (adds: (string, string, Value) -> bool, fetches: (int, seq<string>) -> map<string, Value>,
                 writes: (int, string, Value) -> bool)
      ensures calls == [] && this.adds == adds && this.fetches == fetches && this.writes == writes
    {
      calls := [];
      this.adds := adds;
      this.fetches := fetches;
      this.writes := writes;
    }

    method AddDynamicField(name: string, sqlType: string, defaultValue: Value) returns (ok: bool)
      modifies this
      ensures calls == old(calls) + [AddFieldCall(name, sqlType, defaultValue)]
      ensures ok == adds(name, sqlType, defaultValue)
    {
      calls := calls + [AddFieldCall(name, sqlType, defaultValue)];
      ok := adds(name, sqlType, defaultValue);
    }

    method GetDynamicFields(empID: int, names: seq<string>) returns (fields: map<string, Value>)
      modifies this
      ensures calls == old(calls) + [FetchCall(empID, names)]
      ensures fields == fetches(empID, names)
    {
      calls := calls + [FetchCall(empID, names)];
      fields := fetches(empID, names);
    }

    method UpdateDynamicField(empID: int, name: string, value: Value) returns (ok: bool)
      modifies this
      ensures calls == old(calls) + [WriteCall(empID, name, value)]
      ensures ok == writes(empID, name, value)
    {
      calls := calls + [WriteCall(empID, name, value)];
      ok := writes(empID, name, value);
    }
  }

  // ----- schema discovery

  /** The dynamic columns found in a column report: every reported name that is not a
      standard column, in report order. */
  function DiscoveredFields(reported: seq<(string, int)>): (names: seq<string>)
    ensures |names| <= |reported|
  {
    if |reported| == 0 then []
    else DiscoveredFields(reported[..|reported| - 1]) + (if reported[|reported| - 1].0 in StandardFields then [] else [reported[|reported| - 1].0])
  }

  /** A name is discovered iff it is reported and is not a standard column. */
  lemma DiscoveredFieldsCharacterised(reported: seq<(string, int)>)
    ensures forall n :: n in DiscoveredFields(reported) <==> n !in StandardFields && exists i :: 0 <= i < |reported| && reported[i].0 == n
  {
    DiscoveredFieldsSound(reported);
    DiscoveredFieldsComplete(reported);
  }

  lemma {:induction false} DiscoveredFieldsSound(reported: seq<(string, int)>)
    ensures forall n :: n in DiscoveredFields(reported) ==> n !in StandardFields && exists i :: 0 <= i < |reported| && reported[i].0 == n
    decreases |reported|
  {
    if |reported| > 0 {
      var init := reported[..|reported| - 1];
      DiscoveredFieldsSound(init);
      forall n | n in DiscoveredFields(reported)
        ensures n !in StandardFields && exists i :: 0 <= i < |reported| && reported[i].0 == n
      {
        if n in DiscoveredFields(init) {
          var i :| 0 <= i < |init| && init[i].0 == n;
          assert reported[i].0 == n;
        }
      }
    }
  }

  lemma {:induction false} DiscoveredFieldsComplete(reported: seq<(string, int)>)
    ensures forall i :: 0 <= i < |reported| && reported[i].0 !in StandardFields ==> reported[i].0 in DiscoveredFields(reported)
    decreases |reported|
  {
    if |reported| > 0 {
      var init := reported[..|reported| - 1];
      DiscoveredFieldsComplete(init);
      assert forall i :: 0 <= i < |init| ==> init[i] == reported[i];
    }
  }

  /** The type map after recording each non-standard reported column with its type. */
  function RecordTypes(types: map<string, int>, reported: seq<(string, int)>): map<string, int> {
    if |reported| == 0 then types
    else
      var m := RecordTypes(types, reported[..|reported| - 1]);
      var (name, dataType) := reported[|reported| - 1];
      if name in StandardFields then m else m[name := dataType]
  }

  /** Recording adds exactly the non-standard reported names, each with the type of its
      last report; a standard name is never added. */
  lemma RecordTypesFacts(types: map<string, int>, reported: seq<(string, int)>)
    ensures forall n :: n in RecordTypes(types, reported) <==>
      n in types || (n !in StandardFields && exists i :: 0 <= i < |reported| && reported[i].0 == n)
    ensures forall i :: (0 <= i < |reported| && reported[i].0 !in StandardFields &&
                         forall j :: i < j < |reported| ==> reported[j].0 != reported[i].0) ==>
      RecordTypes(types, reported)[reported[i].0] == reported[i].1
    ensures forall n :: n in StandardFields && n !in types ==> n !in RecordTypes(types, reported)
  {
    RecordTypesNames(types, reported);
    RecordTypesLastReport(types, reported);
  }

  lemma {:induction false} RecordTypesNames(types: map<string, int>, reported: seq<(string, int)>)
    ensures forall n :: n in RecordTypes(types, reported) <==>
      n in types || (n !in StandardFields && exists i :: 0 <= i < |reported| && reported[i].0 == n)
    decreases |reported|
  {
    if |reported| > 0 {
      var init := reported[..|reported| - 1];
      RecordTypesNames(types, init);
      assert forall i :: 0 <= i < |init| ==> init[i] == reported[i];
    }
  }

  lemma {:induction false} RecordTypesLastReport(types: map<string, int>, reported: seq<(string, int)>)
    ensures forall i :: (0 <= i < |reported| && reported[i].0 !in StandardFields &&
                         forall j :: i < j < |reported| ==> reported[j].0 != reported[i].0) ==>
      reported[i].0 in RecordTypes(types, reported) && RecordTypes(types, reported)[reported[i].0] == reported[i].1
    decreases |reported|
  {
    if |reported| > 0 {
      var init := reported[..|reported| - 1];
      RecordTypesLastReport(types, init);
      assert forall i :: 0 <= i < |init| ==> init[i] == reported[i];
    }
  }

  // ----- the type classifier

  /** `addDynamicField`'s classifier: the upper-cased type name is tested for substrings
      in a fixed order and the first test that holds decides. The CHAR/TEXT/VARCHAR test
      sets the default again, so it is folded into the last case. */
  function SqlTypeOf(fieldType: string): (t: int)
    ensures t in {TYPE_INTEGER, TYPE_FLOAT, TYPE_DOUBLE, TYPE_DATE, TYPE_TIME, TYPE_BOOLEAN, TYPE_VARCHAR}
  {
    var u := Upper(fieldType);
    if Contains(u, "INT") then TYPE_INTEGER
    else if Contains(u, "FLOAT") || Contains(u, "REAL") then TYPE_FLOAT
    else if Contains(u, "DOUBLE") || Contains(u, "DECIMAL") then TYPE_DOUBLE
    else if Contains(u, "DATE") then TYPE_DATE
    else if Contains(u, "TIME") then TYPE_TIME
    else if Contains(u, "BOOLEAN") then TYPE_BOOLEAN
    else TYPE_VARCHAR
  }

  lemma MissingCharNoMatch(s: string, t: string, c: char)
    requires c in t && c !in s
    ensures !Contains(s, t)
  {
  }

  lemma UpperKeeps(s: string)
    requires forall k :: 0 <= k < |s| ==> !('a' <= s[k] <= 'z')
    ensures Upper(s) == s
  {
  }

  /** A name spelled with the letters of DATE and TIME alone fails every test before the
      DATE test, so holding DATE makes it a date. */
  lemma DateClassified(s: string)
    requires forall k :: 0 <= k < |s| ==> s[k] in {'D', 'A', 'T', 'I', 'M', 'E'}
    requires Contains(s, "DATE")
    ensures SqlTypeOf(s) == TYPE_DATE
  {
    UpperKeeps(s);
    MissingCharNoMatch(s, "INT", 'N');
    MissingCharNoMatch(s, "FLOAT", 'F');
    MissingCharNoMatch(s, "REAL", 'R');
    MissingCharNoMatch(s, "DOUBLE", 'O');
    MissingCharNoMatch(s, "DECIMAL", 'C');
  }

  /** A name spelled with the letters of TIMESTAMP alone fails every test before the
      TIME test, so holding TIME makes it a time. */
  lemma TimeClassified(s: string)
    requires forall k :: 0 <= k < |s| ==> s[k] in {'T', 'I', 'M', 'E', 'S', 'A', 'P'}
    requires Contains(s, "TIME")
    ensures SqlTypeOf(s) == TYPE_TIME
  {
    UpperKeeps(s);
    MissingCharNoMatch(s, "INT", 'N');
    MissingCharNoMatch(s, "FLOAT", 'F');
    MissingCharNoMatch(s, "REAL", 'R');
    MissingCharNoMatch(s, "DOUBLE", 'O');
    MissingCharNoMatch(s, "DECIMAL", 'C');
    MissingCharNoMatch(s, "DATE", 'D');
  }

  /** A name spelled with the letters of TEXT and CHAR alone fails every test and falls
      to the default. */
  lemma VarcharClassified(s: string)
    requires forall k :: 0 <= k < |s| ==> s[k] in {'T', 'E', 'X', 'C', 'H', 'A'}
    ensures SqlTypeOf(s) == TYPE_VARCHAR
  {
    UpperKeeps(s);
    MissingCharNoMatch(s, "INT", 'I');
    MissingCharNoMatch(s, "FLOAT", 'F');
    MissingCharNoMatch(s, "REAL", 'R');
    MissingCharNoMatch(s, "DOUBLE", 'D');
    MissingCharNoMatch(s, "DECIMAL", 'D');
    MissingCharNoMatch(s, "DATE", 'D');
    MissingCharNoMatch(s, "TIME", 'I');
    MissingCharNoMatch(s, "BOOLEAN", 'B');
  }

  /** The first test that holds decides: DATETIME holds DATE and TIME but is a date. */
  lemma DateTimeIsDate()
    ensures SqlTypeOf("DATETIME") == TYPE_DATE
  {
    assert OccursAt("DATETIME", "DATE", 0);
    DateClassified("DATETIME");
  }

  /** A name that merely contains INT, such as POINT, is classified as an integer. */
  lemma PointIsInteger()
    ensures SqlTypeOf("POINT") == TYPE_INTEGER
  {
    UpperKeeps("POINT");
    assert OccursAt("POINT", "INT", 2);
  }

  /** TIMESTAMP holds no DATE and so is a time. */
  lemma TimestampIsTime()
    ensures SqlTypeOf("TIMESTAMP") == TYPE_TIME
  {
    assert OccursAt("TIMESTAMP", "TIME", 0);
    TimeClassified("TIMESTAMP");
  }

  /** Character types fall to the default VARCHAR. */
  lemma TextIsVarchar()
    ensures SqlTypeOf("TEXT") == TYPE_VARCHAR
  {
    VarcharClassified("TEXT");
  }

  /** The classifier ignores letter case. */
  lemma ClassifierIgnoresCase(fieldType: string)
    ensures SqlTypeOf(Lower(fieldType)) == SqlTypeOf(fieldType)
  {
    assert Upper(Lower(fieldType)) == Upper(fieldType);
  }

  // ----- seeding defaults

  /** The entry `computeIfAbsent(id, k -> new HashMap<>())` yields. */
  function EntryOf(cache: map<int, map<string, Value>>, id: int): (e: map<string, Value>)
    ensures id in cache ==> e == cache[id]
    ensures id !in cache ==> e == map[]
  {
    if id in cache then cache[id] else map[]
  }

  /** The cache after putting `f := v` into the entry of each employee of `es`. */
  function Seeded(cache: map<int, map<string, Value>>, es: seq<Employee>, f: string, v: Value): map<int, map<string, Value>> {
    if |es| == 0 then cache
    else
      var c := Seeded(cache, es[..|es| - 1], f, v);
      var id := es[|es| - 1].empID;
      c[id := EntryOf(c, id)[f := v]]
  }

  /** Seeding gives every listed employee an entry, creating it when missing, with the
      default under the new name and its other values kept; other entries are left
      alone. */
  lemma SeededFacts(cache: map<int, map<string, Value>>, es: seq<Employee>, f: string, v: Value)
    ensures forall id :: id in Seeded(cache, es, f, v) <==> id in cache || exists i :: 0 <= i < |es| && es[i].empID == id
    ensures forall i :: 0 <= i < |es| ==> Seeded(cache, es, f, v)[es[i].empID] == EntryOf(cache, es[i].empID)[f := v]
    ensures forall id :: id in cache && (forall i :: 0 <= i < |es| ==> es[i].empID != id) ==> Seeded(cache, es, f, v)[id] == cache[id]
  {
    var c := Seeded(cache, es, f, v);
    SeededKeys(cache, es, f, v);
    forall i | 0 <= i < |es|
      ensures c[es[i].empID] == EntryOf(cache, es[i].empID)[f := v]
    {
      SeededEntry(cache, es, f, v, es[i].empID);
    }
    forall id | id in cache && (forall i :: 0 <= i < |es| ==> es[i].empID != id)
      ensures c[id] == cache[id]
    {
      SeededEntry(cache, es, f, v, id);
    }
  }

  lemma {:induction false} SeededKeys(cache: map<int, map<string, Value>>, es: seq<Employee>, f: string, v: Value)
    ensures forall id :: id in Seeded(cache, es, f, v) <==> id in cache || exists i :: 0 <= i < |es| && es[i].empID == id
    decreases |es|
  {
    if |es| > 0 {
      var init := es[..|es| - 1];
      SeededKeys(cache, init, f, v);
      assert forall i :: 0 <= i < |init| ==> init[i] == es[i];
    }
  }

  /** The entry of one id after seeding: the default added when some employee of `es`
      has that id, the entry as it was otherwise. */
  lemma {:induction false} SeededEntry(cache: map<int, map<string, Value>>, es: seq<Employee>, f: string, v: Value, id: int)
    ensures EntryOf(Seeded(cache, es, f, v), id) ==
      if exists i :: 0 <= i < |es| && es[i].empID == id then EntryOf(cache, id)[f := v] else EntryOf(cache, id)
    decreases |es|
  {
    if |es| > 0 {
      var init := es[..|es| - 1];
      var last := es[|es| - 1];
      SeededEntry(cache, init, f, v, id);
      var inInit := exists i :: 0 <= i < |init| && init[i].empID == id;
      var inAll := exists i :: 0 <= i < |es| && es[i].empID == id;
      assert inAll <==> inInit || last.empID == id by {
        assert forall i :: 0 <= i < |init| ==> init[i] == es[i];
        if inAll {
          var i :| 0 <= i < |es| && es[i].empID == id;
          if i < |init| {
            assert init[i].empID == id;
          }
        }
      }
      if last.empID == id && inInit {
        assert EntryOf(cache, id)[f := v][f := v] == EntryOf(cache, id)[f := v];
      }
    }
  }

  // ----- writing fields one at a time

  /** The number of leading writes of `order` the store accepts. */
  function FirstFailure(writes: (int, string, Value) -> bool, empID: int, fields: map<string, Value>, order: seq<string>): (n: nat)
    requires forall i :: 0 <= i < |order| ==> order[i] in fields
    ensures n <= |order|
    ensures n < |order| ==> !writes(empID, order[n], fields[order[n]])
  {
    if |order| == 0 then 0
    else if !writes(empID, order[0], fields[order[0]]) then 0
    else
      var n := FirstFailure(writes, empID, fields, order[1..]);
      assert n < |order| - 1 ==> order[1..][n] == order[n + 1];
      1 + n
  }

  /** Every write before the first failure is accepted, so the first failure is the
      first rejected write. */
  lemma {:induction false} FirstFailureCharacterised(writes: (int, string, Value) -> bool, empID: int, fields: map<string, Value>,
                                                     order: seq<string>)
    requires forall i :: 0 <= i < |order| ==> order[i] in fields
    ensures forall j :: 0 <= j < FirstFailure(writes, empID, fields, order) ==> writes(empID, order[j], fields[order[j]])
    decreases |order|
  {
    if |order| > 0 && writes(empID, order[0], fields[order[0]]) {
      FirstFailureCharacterised(writes, empID, fields, order[1..]);
      assert forall j :: 1 <= j < |order| ==> order[j] == order[1..][j - 1];
    }
  }

  /** The first failure is found by a scan that stops at the first rejected write. */
  lemma FirstFailureAt(writes: (int, string, Value) -> bool, empID: int, fields: map<string, Value>, order: seq<string>, n: nat)
    requires forall i :: 0 <= i < |order| ==> order[i] in fields
    requires n <= |order|
    requires forall j :: 0 <= j < n ==> writes(empID, order[j], fields[order[j]])
    requires n < |order| ==> !writes(empID, order[n], fields[order[n]])
    ensures FirstFailure(writes, empID, fields, order) == n
  {
    FirstFailureCharacterised(writes, empID, fields, order);
  }

  /** The store calls that write `names` in order. */
  function WriteCalls(empID: int, fields: map<string, Value>, names: seq<string>): (calls: seq<DaoCall>)
    requires forall i :: 0 <= i < |names| ==> names[i] in fields
    ensures |calls| == |names|
  {
    if |names| == 0 then []
    else WriteCalls(empID, fields, names[..|names| - 1]) + [WriteCall(empID, names[|names| - 1], fields[names[|names| - 1]])]
  }

  /** The i-th call writes the i-th name with its value. */
  lemma {:induction false} WriteCallsCharacterised(empID: int, fields: map<string, Value>, names: seq<string>)
    requires forall i :: 0 <= i < |names| ==> names[i] in fields
    ensures forall i :: 0 <= i < |names| ==> WriteCalls(empID, fields, names)[i] == WriteCall(empID, names[i], fields[names[i]])
    decreases |names|
  {
    if |names| > 0 {
      WriteCallsCharacterised(empID, fields, names[..|names| - 1]);
    }
  }

  /** The cache after caching each of `names` once its write has succeeded. */
  function WriteBack(cache: map<int, map<string, Value>>, empID: int, fields: map<string, Value>, names: seq<string>): map<int, map<string, Value>>
    requires forall i :: 0 <= i < |names| ==> names[i] in fields
  {
    if |names| == 0 then cache
    else
      var c := WriteBack(cache, empID, fields, names[..|names| - 1]);
      var n := names[|names| - 1];
      c[empID := EntryOf(c, empID)[n := fields[n]]]
  }

  /** One more name written: one more call, and one more value in the employee's entry. */
  lemma WriteStep(cache: map<int, map<string, Value>>, empID: int, fields: map<string, Value>, order: seq<string>, n: nat)
    requires forall i :: 0 <= i < |order| ==> order[i] in fields
    requires n < |order|
    ensures WriteCalls(empID, fields, order[..n + 1]) ==
      WriteCalls(empID, fields, order[..n]) + [WriteCall(empID, order[n], fields[order[n]])]
    ensures var c := WriteBack(cache, empID, fields, order[..n]);
      WriteBack(cache, empID, fields, order[..n + 1]) == c[empID := EntryOf(c, empID)[order[n] := fields[order[n]]]]
  {
    assert order[..n + 1][..n] == order[..n];
  }

  /** Writing back touches only the employee's own entry; once a name is written it holds
      the new value, and every name not written keeps the value it had. */
  lemma {:induction false} WriteBackFacts(cache: map<int, map<string, Value>>, empID: int, fields: map<string, Value>, names: seq<string>)
    requires forall i :: 0 <= i < |names| ==> names[i] in fields
    ensures forall id :: id != empID ==> (id in WriteBack(cache, empID, fields, names) <==> id in cache)
    ensures forall id :: id != empID && id in cache ==> WriteBack(cache, empID, fields, names)[id] == cache[id]
    ensures |names| == 0 ==> WriteBack(cache, empID, fields, names) == cache
    ensures |names| > 0 ==> empID in WriteBack(cache, empID, fields, names)
    ensures forall i :: 0 <= i < |names| ==>
      names[i] in EntryOf(WriteBack(cache, empID, fields, names), empID) &&
      EntryOf(WriteBack(cache, empID, fields, names), empID)[names[i]] == fields[names[i]]
    ensures forall n :: n in EntryOf(cache, empID) && n !in names ==>
      n in EntryOf(WriteBack(cache, empID, fields, names), empID) && EntryOf(WriteBack(cache, empID, fields, names), empID)[n] == EntryOf(cache, empID)[n]
    decreases |names|
  {
    if |names| > 0 {
      var init := names[..|names| - 1];
      assert forall i :: 0 <= i < |init| ==> init[i] == names[i];
      WriteBackFacts(cache, empID, fields, init);
    }
  }

  /** A list of distinct names holds as many names as it has elements. */
  lemma {:induction false} DistinctCount(names: seq<string>)
    requires forall i, j :: 0 <= i < j < |names| ==> names[i] != names[j]
    ensures |set x | x in names| == |names|
    decreases |names|
  {
    if |names| > 0 {
      var init := names[..|names| - 1];
      var last := names[|names| - 1];
      assert forall i, j :: 0 <= i < j < |init| ==> init[i] != init[j] by {
        assert forall i :: 0 <= i < |init| ==> init[i] == names[i];
      }
      DistinctCount(init);
      assert (set x | x in names) == (set x | x in init) + {last} by {
        assert names == init + [last];
      }
      assert last !in (set x | x in init);
    }
  }

  /** A subset is no larger than the set holding it. */
  lemma {:induction false} SubsetCount(a: set<string>, b: set<string>)
    requires a <= b
    ensures |a| <= |b|
    decreases |a|
  {
    if a != {} {
      var x :| x in a;
      SubsetCount(a - {x}, b - {x});
    }
  }

  // ----- the cache search

  /** The comparison of a cached value with the searched value: nulls match nulls; two
      strings match when the lower-cased cached string contains the lower-cased query;
      any other pair matches when equal. */
  predicate ValueMatches(cached: Value, query: Value) {
    if query.Null? then cached.Null?
    else if cached.Null? then false
    else if query.Str? && cached.Str? then Contains(Lower(cached.s), Lower(query.s))
    else cached == query
  }

  /** A string query matches a longer cached string that contains it; values of
      different kinds never match. */
  lemma ValueMatchExamples()
    ensures ValueMatches(Str("123456789"), Str("123"))
    ensures !ValueMatches(Str("12345"), Str("9"))
    ensures !ValueMatches(Int(5), Str("5"))
    ensures ValueMatches(Null, Null) && !ValueMatches(Null, Int(0)) && !ValueMatches(Int(0), Null)
  {
    LowerKeeps("123456789");
    LowerKeeps("123");
    assert OccursAt("123456789", "123", 0);
    LowerKeeps("12345");
    LowerKeeps("9");
    MissingCharNoMatch("12345", "9", '9');
  }

  lemma LowerKeeps(s: string)
    requires forall k :: 0 <= k < |s| ==> !('A' <= s[k] <= 'Z')
    ensures Lower(s) == s
  {
  }

  /** The ids of a result list. */
  function Ids(rs: seq<DynamicRecord>): (ids: seq<int>)
    ensures |ids| == |rs|
  {
    if |rs| == 0 then [] else Ids(rs[..|rs| - 1]) + [rs[|rs| - 1].base.empID]
  }

  lemma {:induction false} IdsCharacterised(rs: seq<DynamicRecord>)
    ensures forall i :: 0 <= i < |rs| ==> Ids(rs)[i] == rs[i].base.empID
    decreases |rs|
  {
    if |rs| > 0 {
      IdsCharacterised(rs[..|rs| - 1]);
    }
  }

  /** A list one record longer, with the same records before it, has one more id. */
  lemma IdsAppendOne(rs: seq<DynamicRecord>, longer: seq<DynamicRecord>)
    requires |longer| == |rs| + 1 && longer[..|rs|] == rs
    ensures Ids(longer) == Ids(rs) + [longer[|rs|].base.empID]
  {
  }

  /** The ids of a list of base records, in list order. */
  function EmpIds(es: seq<Employee>): (ids: seq<int>)
    ensures |ids| == |es|
  {
    if |es| == 0 then [] else EmpIds(es[..|es| - 1]) + [es[|es| - 1].empID]
  }

  lemma {:induction false} EmpIdsCharacterised(es: seq<Employee>)
    ensures forall k :: 0 <= k < |es| ==> EmpIds(es)[k] == es[k].empID
    decreases |es|
  {
    if |es| > 0 {
      EmpIdsCharacterised(es[..|es| - 1]);
    }
  }

  /** Every cached record's id is found. */
  lemma CachedIsFound(c: seq<Employee>, i: int)
    requires 0 <= i < |c|
    ensures FindFirst(c, ById(c[i].empID)).Some?
  {
    IndexOfCharacterised(c, ById(c[i].empID));
  }

  predicate NoDuplicates(ids: seq<int>) {
    forall i, j :: 0 <= i < j < |ids| ==> ids[i] != ids[j]
  }

  /** The ids the cache scan reports, visiting the entries in `order`: those whose entry
      holds the field with a matching value and that the base cache knows. */
  function CacheMatches(cache: map<int, map<string, Value>>, order: seq<int>, fieldName: string, query: Value,
                        baseCache: seq<Employee>): seq<int>
    requires forall i :: 0 <= i < |order| ==> order[i] in cache
  {
    if |order| == 0 then []
    else
      var id := order[|order| - 1];
      CacheMatches(cache, order[..|order| - 1], fieldName, query, baseCache)
        + (if fieldName in cache[id] && ValueMatches(cache[id][fieldName], query) && FindFirst(baseCache, ById(id)).Some?
           then [id] else [])
  }

  /** An id is reported iff it is visited, its entry holds the field with a matching
      value, and the base cache knows it. */
  lemma {:induction false} CacheMatchesCharacterised(cache: map<int, map<string, Value>>, order: seq<int>, fieldName: string,
                                                      query: Value, baseCache: seq<Employee>)
    requires forall i :: 0 <= i < |order| ==> order[i] in cache
    ensures forall id :: id in CacheMatches(cache, order, fieldName, query, baseCache) <==>
      && (exists i :: 0 <= i < |order| && order[i] == id)
      && fieldName in cache[id] && ValueMatches(cache[id][fieldName], query)
      && FindFirst(baseCache, ById(id)).Some?
    decreases |order|
  {
    if |order| > 0 {
      var init := order[..|order| - 1];
      assert forall i :: 0 <= i < |init| ==> init[i] == order[i];
      CacheMatchesCharacterised(cache, init, fieldName, query, baseCache);
    }
  }

  /** Visiting one more id reports it iff its entry holds the field with a matching
      value and the base cache knows it. */
  lemma CacheMatchesStep(cache: map<int, map<string, Value>>, order: seq<int>, i: int, fieldName: string, query: Value,
                         baseCache: seq<Employee>)
    requires forall j :: 0 <= j < |order| ==> order[j] in cache
    requires 0 <= i < |order|
    ensures var id := order[i];
      CacheMatches(cache, order[..i + 1], fieldName, query, baseCache) ==
        if fieldName in cache[id] && ValueMatches(cache[id][fieldName], query) && FindFirst(baseCache, ById(id)).Some?
        then CacheMatches(cache, order[..i], fieldName, query, baseCache) + [id]
        else CacheMatches(cache, order[..i], fieldName, query, baseCache)
  {
    assert order[..i + 1][..i] == order[..i];
    assert CacheMatches(cache, order[..i], fieldName, query, baseCache) + [] == CacheMatches(cache, order[..i], fieldName, query, baseCache);
  }

  /** Visiting distinct ids reports each at most once. */
  lemma {:induction false} CacheMatchesNoDuplicates(cache: map<int, map<string, Value>>, order: seq<int>, fieldName: string,
                                                     query: Value, baseCache: seq<Employee>)
    requires forall i :: 0 <= i < |order| ==> order[i] in cache
    requires NoDuplicates(order)
    ensures NoDuplicates(CacheMatches(cache, order, fieldName, query, baseCache))
    decreases |order|
  {
    if |order| > 0 {
      var init := order[..|order| - 1];
      var id := order[|order| - 1];
      assert forall i :: 0 <= i < |init| ==> init[i] == order[i];
      CacheMatchesNoDuplicates(cache, init, fieldName, query, baseCache);
      CacheMatchesCharacterised(cache, init, fieldName, query, baseCache);
      assert id !in CacheMatches(cache, init, fieldName, query, baseCache);
    }
  }

  /** The ids of the store sweep appended to `seen`: each id the query returns, unless
      it is already listed or the base cache does not know it. */
  function Sweep(seen: seq<int>, rowIds: seq<int>, baseCache: seq<Employee>): (swept: seq<int>)
    ensures |seen| <= |swept| && swept[..|seen|] == seen
  {
    if |rowIds| == 0 then seen
    else
      var s := Sweep(seen, rowIds[..|rowIds| - 1], baseCache);
      var id := rowIds[|rowIds| - 1];
      if id in s || FindFirst(baseCache, ById(id)).None? then s else s + [id]
  }

  /** The sweep keeps what was found, adds only ids the query returned and the base cache
      knows, and never lists an id twice. */
  lemma {:induction false} SweepFacts(seen: seq<int>, rowIds: seq<int>, baseCache: seq<Employee>)
    requires NoDuplicates(seen)
    ensures NoDuplicates(Sweep(seen, rowIds, baseCache))
    ensures |seen| <= |Sweep(seen, rowIds, baseCache)| && Sweep(seen, rowIds, baseCache)[..|seen|] == seen
    ensures forall id :: id in Sweep(seen, rowIds, baseCache) ==>
      id in seen || (id in rowIds && FindFirst(baseCache, ById(id)).Some?)
    decreases |rowIds|
  {
    if |rowIds| > 0 {
      var init := rowIds[..|rowIds| - 1];
      SweepFacts(seen, init, baseCache);
      var s := Sweep(seen, init, baseCache);
      assert forall id :: id in init ==> id in rowIds;
      assert (s + [rowIds[|rowIds| - 1]])[..|seen|] == s[..|seen|];
    }
  }

  /** One more returned row: its id is appended to the sweep, after everything already
      listed, exactly when it is new and the base cache knows it. */
  lemma SweepStep(seen: seq<int>, rowIds: seq<int>, i: int, baseCache: seq<Employee>)
    requires 0 <= i < |rowIds|
    ensures var swept := Sweep(seen, rowIds[..i], baseCache);
      && Sweep(seen, rowIds[..i + 1], baseCache) ==
           (if rowIds[i] in swept || FindFirst(baseCache, ById(rowIds[i])).None? then swept else swept + [rowIds[i]])
      && (swept + [rowIds[i]])[|seen|..] == swept[|seen|..] + [rowIds[i]]
  {
    assert rowIds[..i + 1][..i] == rowIds[..i];
  }

  /** The ids a query's rows carry (`rs.getInt("empID")`). */
  function RowIds(rows: seq<Row>): seq<int> {
    seq(|rows|, i requires 0 <= i < |rows| => rows[i].employee.empID)
  }

  const SweepPrefix: string := "SELECT empID FROM employees WHERE "

  /** The store query for one field, the value bound by its class; a null is bound as
      SQL NULL of the field's recorded type, VARCHAR when none is recorded. */
  function SweepStatement(fieldName: string, query: Value, fieldTypes: map<string, int>): Statement {
    Statement(SweepPrefix + fieldName + " = ?",
              map[1 := BindValue(query, if fieldName in fieldTypes then fieldTypes[fieldName] else TYPE_VARCHAR)])
  }

  /** The write loop of `addDynamicEmployee`: the fields written in order up to the
      first failed write. */
  method WriteAll(dao: DynamicDao, empID: int, fields: map<string, Value>, order: seq<string>) returns (n: nat)
    requires forall i :: 0 <= i < |order| ==> order[i] in fields
    modifies dao
    ensures n == FirstFailure(dao.writes, empID, fields, order)
    ensures dao.calls == old(dao.calls) + WriteCalls(empID, fields, order[..if n < |order| then n + 1 else n])
  {
    n := 0;
    while n < |order|
      invariant 0 <= n <= |order|
      invariant forall j :: 0 <= j < n ==> dao.writes(empID, order[j], fields[order[j]])
      invariant dao.calls == old(dao.calls) + WriteCalls(empID, fields, order[..n])
    {
      var fieldName := order[n];
      assert order[..n + 1][..n] == order[..n];
      var success := dao.UpdateDynamicField(empID, fieldName, fields[fieldName]);
      if !success {
        FirstFailureAt(dao.writes, empID, fields, order, n);
        return;
      }
      n := n + 1;
    }
    assert order[..|order|] == order;
    FirstFailureAt(dao.writes, empID, fields, order, |order|);
  }

  class DynamicEmployeeService {
    /** The list-cache service this one extends (`super`). */
    const base: EmployeeService
    const dao: DynamicDao
    var knownFields: seq<string>
    var cache: map<int, map<string, Value>>
    var fieldTypes: map<string, int>

    /** The constructor starts empty and loads the dynamic columns `getColumns` reports
        for the employees table. */
    constructor (base: EmployeeService, dao: DynamicDao, reported: seq<(string, int)>)
      ensures this.base == base && this.dao == dao
      ensures knownFields == DiscoveredFields(reported)
      ensures fieldTypes == RecordTypes(map[], reported)
      ensures cache == map[]
    {
      this.base := base;
      this.dao := dao;
      knownFields := [];
      cache := map[];
      fieldTypes := map[];
      new;
      LoadExistingDynamicFields(reported);
    }

    /** `loadExistingDynamicFields`: each reported non-standard column is appended to the
        known fields and recorded with its type. */
    method LoadExistingDynamicFields(reported: seq<(string, int)>)
      modifies this
      ensures knownFields == old(knownFields) + DiscoveredFields(reported)
      ensures fieldTypes == RecordTypes(old(fieldTypes), reported)
      ensures cache == old(cache)
    {
      for i := 0 to |reported|
        invariant knownFields == old(knownFields) + DiscoveredFields(reported[..i])
        invariant fieldTypes == RecordTypes(old(fieldTypes), reported[..i])
        invariant cache == old(cache)
      {
        assert reported[..i + 1][..i] == reported[..i];
        var (columnName, dataType) := reported[i];
        if columnName !in StandardFields {
          knownFields := knownFields + [columnName];
          fieldTypes := fieldTypes[columnName := dataType];
        }
      }
      assert reported[..|reported|] == reported;
    }

    /** `addDynamicField`: when the store adds the column, the name is appended (with no
        duplicate check), its classified type recorded, and a non-null default put
        into the entry of every employee of the base cache. */
    method AddDynamicField(fieldName: string, fieldType: string, defaultValue: Value) returns (ok: bool)
      modifies this, dao
      ensures dao.calls == old(dao.calls) + [AddFieldCall(fieldName, fieldType, defaultValue)]
      ensures ok == dao.adds(fieldName, fieldType, defaultValue)
      ensures !ok ==> knownFields == old(knownFields) && fieldTypes == old(fieldTypes) && cache == old(cache)
      ensures ok ==> knownFields == old(knownFields) + [fieldName]
      ensures ok ==> fieldTypes == old(fieldTypes)[fieldName := SqlTypeOf(fieldType)]
      ensures ok ==> cache == if defaultValue.Null? then old(cache) else Seeded(old(cache), base.cache, fieldName, defaultValue)
    {
      ok := dao.AddDynamicField(fieldName, fieldType, defaultValue);
      if ok {
        knownFields := knownFields + [fieldName];
        var sqlType := SqlTypeOf(fieldType);
        fieldTypes := fieldTypes[fieldName := sqlType];
        if !defaultValue.Null? {
          var allEmployees := base.FindAll();
          for i := 0 to |allEmployees|
            modifies this
            invariant knownFields == old(knownFields) + [fieldName]
            invariant fieldTypes == old(fieldTypes)[fieldName := SqlTypeOf(fieldType)]
            invariant cache == Seeded(old(cache), allEmployees[..i], fieldName, defaultValue)
          {
            assert allEmployees[..i + 1][..i] == allEmployees[..i];
            var empID := allEmployees[i].empID;
            var empFields := EntryOf(cache, empID);
            cache := cache[empID := empFields[fieldName := defaultValue]];
          }
          assert allEmployees[..|allEmployees|] == allEmployees;
        }
      }
    }

    /** The loop that copies an entry into a new employee with `setField`, one entry at a
        time in the map's order. */
    static method CopyFields(entry: map<string, Value>) returns (fields: map<string, Value>)
      ensures fields == entry
    {
      fields := map[];
      var remaining := entry.Keys;
      while remaining != {}
        invariant remaining <= entry.Keys
        invariant fields.Keys == entry.Keys - remaining
        invariant forall k :: k in fields ==> fields[k] == entry[k]
        decreases |remaining|
      {
        var k :| k in remaining;
        fields := fields[k := entry[k]];
        remaining := remaining - {k};
      }
    }

    /** The store is consulted when the entry is missing or holds fewer values than there
        are known fields. */
    static predicate NeedsFetch(cache: map<int, map<string, Value>>, empID: int, known: nat) {
      empID !in cache || |cache[empID]| < known
    }

    /** The cache after `getDynamicEmployee` has found the base record: a missing or
        incomplete entry is merged with what the store returns, fetched values winning. */
    static function Refreshed(cache: map<int, map<string, Value>>, empID: int, known: seq<string>,
                              fetched: map<string, Value>): map<int, map<string, Value>> {
      if NeedsFetch(cache, empID, |known|) then cache[empID := EntryOf(cache, empID) + fetched] else cache
    }

    /** A refresh gives the employee an entry and leaves every other entry alone; a fetched
        value replaces the cached one, and a cached value the store does not return is
        kept. */
    static lemma RefreshedFacts(cache: map<int, map<string, Value>>, empID: int, known: seq<string>,
                                fetched: map<string, Value>)
      ensures Refreshed(cache, empID, known, fetched).Keys == cache.Keys + {empID}
      ensures forall id :: id in cache && id != empID ==> Refreshed(cache, empID, known, fetched)[id] == cache[id]
      ensures NeedsFetch(cache, empID, |known|) ==>
        && (forall n :: n in fetched ==> n in Refreshed(cache, empID, known, fetched)[empID] &&
                                         Refreshed(cache, empID, known, fetched)[empID][n] == fetched[n])
        && (forall n :: n in EntryOf(cache, empID) && n !in fetched ==>
              n in Refreshed(cache, empID, known, fetched)[empID] &&
              Refreshed(cache, empID, known, fetched)[empID][n] == EntryOf(cache, empID)[n])
      ensures !NeedsFetch(cache, empID, |known|) ==> Refreshed(cache, empID, known, fetched) == cache
    {
    }

    /** Once a fetch returns a value for every one of a list of distinct known fields,
        the entry counts as complete: the next lookup trusts it and asks the store
        nothing, until a field is added. */
    static lemma RefreshCompletes(cache: map<int, map<string, Value>>, empID: int, known: seq<string>,
                                  fetched: map<string, Value>)
      requires forall i, j :: 0 <= i < j < |known| ==> known[i] != known[j]
      requires forall i :: 0 <= i < |known| ==> known[i] in fetched
      ensures !NeedsFetch(Refreshed(cache, empID, known, fetched), empID, |known|)
      ensures Refreshed(Refreshed(cache, empID, known, fetched), empID, known, fetched) == Refreshed(cache, empID, known, fetched)
    {
      var c := Refreshed(cache, empID, known, fetched);
      if NeedsFetch(cache, empID, |known|) {
        var entry := c[empID];
        var names := set x | x in known;
        assert names <= entry.Keys;
        DistinctCount(known);
        SubsetCount(names, entry.Keys);
      }
    }

    /** Looking up each id of `ids` in turn with `getDynamicEmployee`: the records found,
        in order, the cache afterwards, and the store fetches made on the way. An id the
        base cache does not know adds nothing and changes nothing. */
    static function LookUpAll(cache: map<int, map<string, Value>>, ids: seq<int>, known: seq<string>,
                              fetches: (int, seq<string>) -> map<string, Value>, baseCache: seq<Employee>): LookupTrail
    {
      if |ids| == 0 then LookupTrail([], cache, [])
      else
        var t := LookUpAll(cache, ids[..|ids| - 1], known, fetches, baseCache);
        var id := ids[|ids| - 1];
        match FindFirst(baseCache, ById(id))
        case None => t
        case Some(e) =>
          var c := Refreshed(t.cache, id, known, fetches(id, known));
          LookupTrail(t.records + [DynamicRecord(e, c[id])], c,
                      t.calls + if NeedsFetch(t.cache, id, |known|) then [FetchCall(id, known)] else [])
    }

    /** A run of lookups over ids the base cache knows gives every looked-up id an entry,
        and no other id. */
    static lemma {:induction false} LookUpAllKeys(cache: map<int, map<string, Value>>, ids: seq<int>, known: seq<string>,
                                                   fetches: (int, seq<string>) -> map<string, Value>, baseCache: seq<Employee>)
      requires forall k :: 0 <= k < |ids| ==> FindFirst(baseCache, ById(ids[k])).Some?
      ensures forall id :: id in LookUpAll(cache, ids, known, fetches, baseCache).cache <==> id in cache || id in ids
      decreases |ids|
    {
      if |ids| > 0 {
        var init := ids[..|ids| - 1];
        var id := ids[|ids| - 1];
        assert ids == init + [id];
        assert forall k :: 0 <= k < |init| ==> init[k] == ids[k];
        LookUpAllKeys(cache, init, known, fetches, baseCache);
        var t := LookUpAll(cache, init, known, fetches, baseCache);
        LookUpAllStep(cache, init, id, known, fetches, baseCache);
        RefreshedFacts(t.cache, id, known, fetches(id, known));
        assert FindFirst(baseCache, ById(ids[|ids| - 1])).Some?;
        assert LookUpAll(cache, ids, known, fetches, baseCache).cache == Refreshed(t.cache, id, known, fetches(id, known));
        forall x
          ensures x in ids <==> x in init || x == id
        {
        }
      }
    }

    /** A run of lookups leaves the entry of every id it does not look up alone, and
        asks the store only for the known fields of looked-up ids. */
    static lemma {:induction false} LookUpAllFrame(cache: map<int, map<string, Value>>, ids: seq<int>, known: seq<string>,
                                                    fetches: (int, seq<string>) -> map<string, Value>, baseCache: seq<Employee>)
      ensures var t := LookUpAll(cache, ids, known, fetches, baseCache);
        && (forall id :: id in cache && id !in ids ==> id in t.cache && t.cache[id] == cache[id])
        && (forall call :: call in t.calls ==> call.FetchCall? && call.names == known && call.empID in ids)
      decreases |ids|
    {
      if |ids| > 0 {
        var init := ids[..|ids| - 1];
        var id := ids[|ids| - 1];
        LookUpAllFrame(cache, init, known, fetches, baseCache);
        var t := LookUpAll(cache, init, known, fetches, baseCache);
        RefreshedFacts(t.cache, id, known, fetches(id, known));
        assert ids == init + [id];
      }
    }

    /** For distinct ids the base cache knows, each lookup gives one record, in order:
        the base record its id finds, with that id's entry as the cache holds it after
        all the lookups (a later lookup only touches its own id). */
    static lemma {:induction false} LookUpAllRecords(cache: map<int, map<string, Value>>, ids: seq<int>, known: seq<string>,
                                                      fetches: (int, seq<string>) -> map<string, Value>, baseCache: seq<Employee>)
      requires NoDuplicates(ids)
      requires forall k :: 0 <= k < |ids| ==> FindFirst(baseCache, ById(ids[k])).Some?
      ensures var t := LookUpAll(cache, ids, known, fetches, baseCache);
        && |t.records| == |ids|
        && forall k :: 0 <= k < |ids| ==>
             ids[k] in t.cache && t.records[k] == DynamicRecord(FindFirst(baseCache, ById(ids[k])).value, t.cache[ids[k]])
      decreases |ids|
    {
      if |ids| > 0 {
        var init := ids[..|ids| - 1];
        var id := ids[|ids| - 1];
        assert forall k :: 0 <= k < |init| ==> init[k] == ids[k];
        assert ids == init + [id];
        LookUpAllRecords(cache, init, known, fetches, baseCache);
        LookUpAllKeys(cache, init, known, fetches, baseCache);
        LookUpAllStep(cache, init, id, known, fetches, baseCache);
        var t := LookUpAll(cache, init, known, fetches, baseCache);
        RefreshedFacts(t.cache, id, known, fetches(id, known));
        var c := Refreshed(t.cache, id, known, fetches(id, known));
        var rs := t.records + [DynamicRecord(FindFirst(baseCache, ById(id)).value, c[id])];
        assert FindFirst(baseCache, ById(ids[|ids| - 1])).Some?;
        assert LookUpAll(cache, ids, known, fetches, baseCache).records == rs;
        assert LookUpAll(cache, ids, known, fetches, baseCache).cache == c;
        forall k | 0 <= k < |init|
          ensures ids[k] in c && rs[k] == DynamicRecord(FindFirst(baseCache, ById(ids[k])).value, c[ids[k]])
        {
          assert ids[k] != id;
          assert ids[k] in t.cache;
        }
      }
    }

    /** A run of lookups over ids the base cache knows gives one record per id, in order,
        each the base record its id finds. */
    static lemma {:induction false} LookUpAllBases(cache: map<int, map<string, Value>>, ids: seq<int>, known: seq<string>,
                                                    fetches: (int, seq<string>) -> map<string, Value>, baseCache: seq<Employee>)
      requires forall k :: 0 <= k < |ids| ==> FindFirst(baseCache, ById(ids[k])).Some?
      ensures var t := LookUpAll(cache, ids, known, fetches, baseCache);
        && |t.records| == |ids|
        && forall k :: 0 <= k < |ids| ==> t.records[k].base == FindFirst(baseCache, ById(ids[k])).value
      decreases |ids|
    {
      if |ids| > 0 {
        var init := ids[..|ids| - 1];
        var id := ids[|ids| - 1];
        assert ids == init + [id];
        assert forall k :: 0 <= k < |init| ==> init[k] == ids[k];
        LookUpAllBases(cache, init, known, fetches, baseCache);
        LookUpAllStep(cache, init, id, known, fetches, baseCache);
        var t := LookUpAll(cache, init, known, fetches, baseCache);
        var r := LookUpAll(cache, ids, known, fetches, baseCache).records;
        assert r[..|init|] == t.records;
        assert r[|init|].base == FindFirst(baseCache, ById(id)).value;
      }
    }

    /** Looking up every employee of the base cache, in order, gives one record per
        employee with that employee's id, each the record its id finds, and leaves every
        one of them an entry. */
    static lemma LookUpEveryEmployee(cache: map<int, map<string, Value>>, es: seq<Employee>, known: seq<string>,
                                     fetches: (int, seq<string>) -> map<string, Value>)
      ensures var t := LookUpAll(cache, EmpIds(es), known, fetches, es);
        && |t.records| == |es|
        && (forall i :: 0 <= i < |es| ==>
              t.records[i].base.empID == es[i].empID && Some(t.records[i].base) == FindFirst(es, ById(es[i].empID)))
        && (forall i :: 0 <= i < |es| ==> es[i].empID in t.cache)
    {
      var ids := EmpIds(es);
      EmpIdsCharacterised(es);
      forall k | 0 <= k < |ids|
        ensures FindFirst(es, ById(ids[k])).Some?
      {
        CachedIsFound(es, k);
      }
      LookUpAllBases(cache, ids, known, fetches, es);
      LookUpAllKeys(cache, ids, known, fetches, es);
      var t := LookUpAll(cache, ids, known, fetches, es);
      forall i | 0 <= i < |es|
        ensures t.records[i].base.empID == es[i].empID && es[i].empID in t.cache
      {
        FindFirstCharacterised(es, ById(ids[i]));
        assert ids[i] in ids;
      }
    }

    /** A run of lookups over ids the base cache knows reports exactly those ids. */
    static lemma LookUpAllIds(cache: map<int, map<string, Value>>, ids: seq<int>, known: seq<string>,
                              fetches: (int, seq<string>) -> map<string, Value>, baseCache: seq<Employee>)
      requires forall k :: 0 <= k < |ids| ==> FindFirst(baseCache, ById(ids[k])).Some?
      ensures Ids(LookUpAll(cache, ids, known, fetches, baseCache).records) == ids
    {
      var t := LookUpAll(cache, ids, known, fetches, baseCache);
      LookUpAllBases(cache, ids, known, fetches, baseCache);
      IdsCharacterised(t.records);
      forall k | 0 <= k < |ids|
        ensures Ids(t.records)[k] == ids[k]
      {
        FindFirstCharacterised(baseCache, ById(ids[k]));
      }
    }

    /** The cache scan's lookups report exactly the matching ids. */
    static lemma ScanReportsMatches(cache: map<int, map<string, Value>>, order: seq<int>, fieldName: string, query: Value,
                                    known: seq<string>, fetches: (int, seq<string>) -> map<string, Value>, baseCache: seq<Employee>)
      requires forall i :: 0 <= i < |order| ==> order[i] in cache
      ensures var matched := CacheMatches(cache, order, fieldName, query, baseCache);
        Ids(LookUpAll(cache, matched, known, fetches, baseCache).records) == matched
    {
      var matched := CacheMatches(cache, order, fieldName, query, baseCache);
      CacheMatchesCharacterised(cache, order, fieldName, query, baseCache);
      assert forall k :: 0 <= k < |matched| ==> matched[k] in matched;
      LookUpAllIds(cache, matched, known, fetches, baseCache);
    }

    /** A run of lookups over distinct ids the base cache knows hands out, for each id,
        the base record it finds with the id's entry as the run leaves it. */
    static lemma ReportedLookupsFacts(cache: map<int, map<string, Value>>, ids: seq<int>, known: seq<string>,
                                      fetches: (int, seq<string>) -> map<string, Value>, baseCache: seq<Employee>)
      requires NoDuplicates(ids)
      requires forall id :: id in ids ==> FindFirst(baseCache, ById(id)).Some?
      ensures var t := LookUpAll(cache, ids, known, fetches, baseCache);
        forall k :: 0 <= k < |t.records| ==>
          && FindFirst(baseCache, ById(t.records[k].base.empID)) == Some(t.records[k].base)
          && t.records[k].base.empID in t.cache && t.records[k].fields == t.cache[t.records[k].base.empID]
    {
      assert forall k :: 0 <= k < |ids| ==> ids[k] in ids;
      LookUpAllRecords(cache, ids, known, fetches, baseCache);
      var t := LookUpAll(cache, ids, known, fetches, baseCache);
      forall k | 0 <= k < |t.records|
        ensures FindFirst(baseCache, ById(t.records[k].base.empID)) == Some(t.records[k].base)
        ensures t.records[k].base.empID in t.cache && t.records[k].fields == t.cache[t.records[k].base.empID]
      {
        FindFirstCharacterised(baseCache, ById(ids[k]));
        assert t.records[k].base.empID == ids[k];
      }
    }

    /** The ids a search reports, the cache matches alone or swept with the store's
        rows, are distinct and known to the base cache. */
    static lemma SearchReportsDistinctKnownIds(cache: map<int, map<string, Value>>, order: seq<int>, fieldName: string,
                                               query: Value, baseCache: seq<Employee>, rowIds: seq<int>, swept: bool)
      requires Enumerates(order, cache.Keys)
      ensures var matched := CacheMatches(cache, order, fieldName, query, baseCache);
        var reported := if swept then Sweep(matched, rowIds, baseCache) else matched;
        && NoDuplicates(reported)
        && forall id :: id in reported ==> FindFirst(baseCache, ById(id)).Some?
    {
      var matched := CacheMatches(cache, order, fieldName, query, baseCache);
      CacheMatchesNoDuplicates(cache, order, fieldName, query, baseCache);
      CacheMatchesCharacterised(cache, order, fieldName, query, baseCache);
      SweepFacts(matched, rowIds, baseCache);
    }

    /** The search's two phases together: the cache scan's lookups followed by the
        sweep's lookups of the ids it adds are the lookups of every id the sweep
        reports, from the cache the search started with. */
    static lemma SweptLookups(start: map<int, map<string, Value>>, matched: seq<int>, rowIds: seq<int>, known: seq<string>,
                              fetches: (int, seq<string>) -> map<string, Value>, baseCache: seq<Employee>,
                              found: seq<DynamicRecord>, results: seq<DynamicRecord>,
                              scanned: map<int, map<string, Value>>, swept: map<int, map<string, Value>>,
                              calls: seq<DaoCall>, scanCalls: seq<DaoCall>, sweepCalls: seq<DaoCall>)
      requires Ids(found) == matched
      requires var ta := LookUpAll(start, matched, known, fetches, baseCache);
        found == ta.records && scanned == ta.cache && scanCalls == calls + ta.calls
      requires var tb := LookUpAll(scanned, Sweep(Ids(found), rowIds, baseCache)[|found|..], known, fetches, baseCache);
        results == found + tb.records && swept == tb.cache && sweepCalls == scanCalls + tb.calls
      ensures var t := LookUpAll(start, Sweep(matched, rowIds, baseCache), known, fetches, baseCache);
        results == t.records && swept == t.cache && sweepCalls == calls + t.calls
    {
      var all := Sweep(matched, rowIds, baseCache);
      var rest := all[|matched|..];
      assert all == matched + rest;
      ChainedLookups(start, matched, rest, known, fetches, baseCache, found, results, scanned, swept, calls, scanCalls, sweepCalls);
    }

    /** Two runs of lookups, the second starting from the cache the first leaves, are
        one run over both id lists. */
    static lemma ChainedLookups(start: map<int, map<string, Value>>, a: seq<int>, b: seq<int>, known: seq<string>,
                                fetches: (int, seq<string>) -> map<string, Value>, baseCache: seq<Employee>,
                                found: seq<DynamicRecord>, results: seq<DynamicRecord>,
                                scanned: map<int, map<string, Value>>, swept: map<int, map<string, Value>>,
                                calls: seq<DaoCall>, scanCalls: seq<DaoCall>, sweepCalls: seq<DaoCall>)
      requires var ta := LookUpAll(start, a, known, fetches, baseCache);
        found == ta.records && scanned == ta.cache && scanCalls == calls + ta.calls
      requires var tb := LookUpAll(scanned, b, known, fetches, baseCache);
        results == found + tb.records && swept == tb.cache && sweepCalls == scanCalls + tb.calls
      ensures var t := LookUpAll(start, a + b, known, fetches, baseCache);
        results == t.records && swept == t.cache && sweepCalls == calls + t.calls
    {
      LookUpAllAppend(start, a, b, known, fetches, baseCache);
      var ta := LookUpAll(start, a, known, fetches, baseCache);
      var tb := LookUpAll(scanned, b, known, fetches, baseCache);
      assert calls + ta.calls + tb.calls == calls + (ta.calls + tb.calls);
    }

    /** One more lookup at the end of a run: a found id refreshes its entry and adds its
        record; an id the base cache does not know changes nothing. */
    static lemma LookUpAllStep(cache: map<int, map<string, Value>>, ids: seq<int>, id: int, known: seq<string>,
                               fetches: (int, seq<string>) -> map<string, Value>, baseCache: seq<Employee>)
      ensures var t := LookUpAll(cache, ids, known, fetches, baseCache);
        var c := Refreshed(t.cache, id, known, fetches(id, known));
        LookUpAll(cache, ids + [id], known, fetches, baseCache) ==
          if FindFirst(baseCache, ById(id)).None? then t
          else LookupTrail(t.records + [DynamicRecord(FindFirst(baseCache, ById(id)).value, c[id])], c,
                           t.calls + if NeedsFetch(t.cache, id, |known|) then [FetchCall(id, known)] else [])
    {
      assert (ids + [id])[..|ids|] == ids;
    }

    /** Looking up `a` and then `b` is looking up `a + b`: the records and fetches of the
        two runs one after the other, and the cache the second run leaves. */
    static lemma {:induction false} LookUpAllAppend(cache: map<int, map<string, Value>>, a: seq<int>, b: seq<int>, known: seq<string>,
                                                     fetches: (int, seq<string>) -> map<string, Value>, baseCache: seq<Employee>)
      ensures var ta := LookUpAll(cache, a, known, fetches, baseCache);
        var tb := LookUpAll(ta.cache, b, known, fetches, baseCache);
        LookUpAll(cache, a + b, known, fetches, baseCache) == LookupTrail(ta.records + tb.records, tb.cache, ta.calls + tb.calls)
      decreases |b|
    {
      var ta := LookUpAll(cache, a, known, fetches, baseCache);
      if |b| == 0 {
        assert a + b == a;
        assert ta.records + [] == ta.records && ta.calls + [] == ta.calls;
      } else {
        var init := b[..|b| - 1];
        LookUpAllAppend(cache, a, init, known, fetches, baseCache);
        assert (a + b)[..|a + b| - 1] == a + init;
        assert (a + b)[|a + b| - 1] == b[|b| - 1];
        var ti := LookUpAll(ta.cache, init, known, fetches, baseCache);
        var id := b[|b| - 1];
        if FindFirst(baseCache, ById(id)).Some? {
          var c := Refreshed(ti.cache, id, known, fetches(id, known));
          var rec := [DynamicRecord(FindFirst(baseCache, ById(id)).value, c[id])];
          var call := if NeedsFetch(ti.cache, id, |known|) then [FetchCall(id, known)] else [];
          assert ta.records + ti.records + rec == ta.records + (ti.records + rec);
          assert ta.calls + ti.calls + call == ta.calls + (ti.calls + call);
        }
      }
    }

    /** `getDynamicEmployee`: an id the base cache does not know gives nothing and changes
        nothing. Otherwise a missing or incomplete entry is completed from the store, and
        the result is the base record with exactly the entry's values. */
    method GetDynamicEmployee(empID: int) returns (r: Option<DynamicRecord>)
      modifies this, dao
      ensures knownFields == old(knownFields) && fieldTypes == old(fieldTypes)
      ensures r.Some? <==> FindFirst(base.cache, ById(empID)).Some?
      ensures r.None? ==> cache == old(cache) && dao.calls == old(dao.calls)
      ensures r.Some? ==>
        && cache == Refreshed(old(cache), empID, knownFields, dao.fetches(empID, knownFields))
        && dao.calls == old(dao.calls) + (if NeedsFetch(old(cache), empID, |knownFields|) then [FetchCall(empID, knownFields)] else [])
        && empID in cache
        && r.value == DynamicRecord(FindFirst(base.cache, ById(empID)).value, cache[empID])
      ensures r.Some? ==> r.value.base.empID == empID
      ensures forall id :: id in old(cache) ==> id in cache
      ensures empID in old(cache) ==> cache.Keys == old(cache).Keys
      ensures forall id :: id in old(cache) && id != empID ==> cache[id] == old(cache)[id]
    {
      var empOpt := base.SearchByID(empID);
      if empOpt.None? {
        return None;
      }
      RefreshedFacts(cache, empID, knownFields, dao.fetches(empID, knownFields));
      if NeedsFetch(cache, empID, |knownFields|) {
        var dbFields := dao.GetDynamicFields(empID, knownFields);
        var cachedFields := EntryOf(cache, empID);
        cache := cache[empID := cachedFields + dbFields];
      }
      var fields := CopyFields(cache[empID]);
      r := Some(DynamicRecord(empOpt.value, fields));
    }

    /** `getDynamicEmployee` for one id, its record appended to the results when the id
        is found: one more step of a run of lookups that started from `start`. */
    method LookUpAndAppend(results: seq<DynamicRecord>, empID: int, ghost found: seq<DynamicRecord>,
                           ghost start: map<int, map<string, Value>>, ghost ids: seq<int>, ghost calls: seq<DaoCall>)
      returns (extended: seq<DynamicRecord>)
      requires var t := LookUpAll(start, ids, knownFields, dao.fetches, base.cache);
        results == found + t.records && cache == t.cache && dao.calls == calls + t.calls
      modifies this, dao
      ensures knownFields == old(knownFields) && fieldTypes == old(fieldTypes)
      ensures var t := LookUpAll(start, if FindFirst(base.cache, ById(empID)).Some? then ids + [empID] else ids,
                                 knownFields, dao.fetches, base.cache);
        extended == found + t.records && cache == t.cache && dao.calls == calls + t.calls
      ensures FindFirst(base.cache, ById(empID)).None? ==> extended == results
      ensures FindFirst(base.cache, ById(empID)).Some? ==>
        |extended| == |results| + 1 && extended[..|results|] == results && extended[|results|].base.empID == empID
      ensures forall id :: id in old(cache) && id != empID ==> id in cache && cache[id] == old(cache)[id]
      ensures empID in old(cache) ==> cache.Keys == old(cache).Keys
    {
      LookUpAllStep(start, ids, empID, knownFields, dao.fetches, base.cache);
      var r := GetDynamicEmployee(empID);
      extended := results;
      if r.Some? {
        extended := results + [r.value];
        assert extended[..|results|] == results;
      }
    }

    /** `findAllDynamicEmployees`: the employees of the base cache looked up one after
        another; one result for each, carrying the base record its id finds, and every
        one of them now has an entry. */
    method FindAllDynamicEmployees() returns (results: seq<DynamicRecord>)
      modifies this, dao
      ensures knownFields == old(knownFields) && fieldTypes == old(fieldTypes)
      ensures var t := LookUpAll(old(cache), EmpIds(base.cache), knownFields, dao.fetches, base.cache);
        results == t.records && cache == t.cache && dao.calls == old(dao.calls) + t.calls
      ensures |results| == |base.cache|
      ensures forall i :: 0 <= i < |results| ==>
        results[i].base.empID == base.cache[i].empID && Some(results[i].base) == FindFirst(base.cache, ById(base.cache[i].empID))
      ensures forall i :: 0 <= i < |base.cache| ==> base.cache[i].empID in cache
    {
      var baseEmployees := base.FindAll();
      results := [];
      for i := 0 to |baseEmployees|
        invariant knownFields == old(knownFields) && fieldTypes == old(fieldTypes)
        invariant var t := LookUpAll(old(cache), EmpIds(baseEmployees[..i]), knownFields, dao.fetches, baseEmployees);
          results == t.records && cache == t.cache && dao.calls == old(dao.calls) + t.calls
      {
        CachedIsFound(baseEmployees, i);
        assert baseEmployees[..i + 1][..i] == baseEmployees[..i];
        assert EmpIds(baseEmployees[..i + 1]) == EmpIds(baseEmployees[..i]) + [baseEmployees[i].empID];
        results := LookUpAndAppend(results, baseEmployees[i].empID, [], old(cache), EmpIds(baseEmployees[..i]), old(dao.calls));
      }
      assert baseEmployees[..|baseEmployees|] == baseEmployees;
      LookUpEveryEmployee(old(cache), baseEmployees, knownFields, dao.fetches);
    }

    /** `updateDynamicEmployee`: the base record is updated first; when that fails nothing
        else happens. Then each field is written in map order, and cached as soon as its
        own write succeeds; the first failed write ends the call with false, and the
        fields written before it stay cached. */
    method UpdateDynamicEmployee(rec: DynamicRecord, order: seq<string>) returns (ok: bool)
      requires Enumerates(order, rec.fields.Keys)
      modifies this, dao, base, base.db
      ensures knownFields == old(knownFields) && fieldTypes == old(fieldTypes)
      ensures base.db.executed == old(base.db.executed) + [UpdateEmployeeStatement(rec.base)]
      ensures var baseOk := UpdateSucceeded(base.db.respond(UpdateEmployeeStatement(rec.base)));
        && base.cache == (if baseOk then ReplaceFirst(old(base.cache), rec.base) else old(base.cache))
        && (!baseOk ==> !ok && cache == old(cache) && dao.calls == old(dao.calls))
        && (baseOk ==>
              var n := FirstFailure(dao.writes, rec.base.empID, rec.fields, order);
              && ok == (n == |order|)
              && cache == WriteBack(old(cache), rec.base.empID, rec.fields, order[..n])
              && dao.calls == old(dao.calls) + WriteCalls(rec.base.empID, rec.fields, order[..if n < |order| then n + 1 else n]))
    {
      var empID := rec.base.empID;
      ok := base.Update(rec.base);
      if !ok {
        return;
      }
      var n := WriteAndCache(empID, rec.fields, order);
      ok := n == |order|;
    }

    /** The write loop of `updateDynamicEmployee`: the fields written in order, each one
        cached as soon as its own write succeeds, up to the first failed write. */
    method WriteAndCache(empID: int, fields: map<string, Value>, order: seq<string>) returns (n: nat)
      requires forall i :: 0 <= i < |order| ==> order[i] in fields
      modifies this, dao
      ensures knownFields == old(knownFields) && fieldTypes == old(fieldTypes)
      ensures n == FirstFailure(dao.writes, empID, fields, order)
      ensures cache == WriteBack(old(cache), empID, fields, order[..n])
      ensures dao.calls == old(dao.calls) + WriteCalls(empID, fields, order[..if n < |order| then n + 1 else n])
    {
      n := 0;
      while n < |order|
        invariant 0 <= n <= |order|
        invariant knownFields == old(knownFields) && fieldTypes == old(fieldTypes)
        invariant forall j :: 0 <= j < n ==> dao.writes(empID, order[j], fields[order[j]])
        invariant dao.calls == old(dao.calls) + WriteCalls(empID, fields, order[..n])
        invariant cache == WriteBack(old(cache), empID, fields, order[..n])
      {
        var success := WriteField(empID, fields, order, n, old(cache), old(dao.calls));
        if !success {
          FirstFailureAt(dao.writes, empID, fields, order, n);
          return;
        }
        n := n + 1;
      }
      assert order[..|order|] == order;
      FirstFailureAt(dao.writes, empID, fields, order, |order|);
    }

    /** One round of the write loop: the n-th field written to the store, and cached
        when that write succeeds. */
    method WriteField(empID: int, fields: map<string, Value>, order: seq<string>, n: nat,
                      ghost start: map<int, map<string, Value>>, ghost calls: seq<DaoCall>) returns (success: bool)
      requires forall i :: 0 <= i < |order| ==> order[i] in fields
      requires n < |order|
      requires cache == WriteBack(start, empID, fields, order[..n])
      requires dao.calls == calls + WriteCalls(empID, fields, order[..n])
      modifies this, dao
      ensures knownFields == old(knownFields) && fieldTypes == old(fieldTypes)
      ensures success == dao.writes(empID, order[n], fields[order[n]])
      ensures dao.calls == calls + WriteCalls(empID, fields, order[..n + 1])
      ensures cache == WriteBack(start, empID, fields, order[..if success then n + 1 else n])
    {
      var fieldName := order[n];
      var value := fields[fieldName];
      WriteStep(start, empID, fields, order, n);
      success := dao.UpdateDynamicField(empID, fieldName, value);
      if success {
        var cachedFields := EntryOf(cache, empID);
        cache := cache[empID := cachedFields[fieldName := value]];
      }
    }

    /** `updateDynamicField`: the store write, cached when it succeeds. */
    method UpdateDynamicField(empID: int, fieldName: string, value: Value) returns (ok: bool)
      modifies this, dao
      ensures knownFields == old(knownFields) && fieldTypes == old(fieldTypes)
      ensures dao.calls == old(dao.calls) + [WriteCall(empID, fieldName, value)]
      ensures ok == dao.writes(empID, fieldName, value)
      ensures cache == if ok then old(cache)[empID := EntryOf(old(cache), empID)[fieldName := value]] else old(cache)
    {
      ok := dao.UpdateDynamicField(empID, fieldName, value);
      if ok {
        var cachedFields := EntryOf(cache, empID);
        cache := cache[empID := cachedFields[fieldName := value]];
      }
    }

    /** `addDynamicEmployee`: the base record is added first; an id that is not positive
        gives -1. Then every field is written in map order; a failed write gives -1 and
        no entry. When all succeed, the new id's entry is exactly the record's fields. */
    method AddDynamicEmployee(rec: DynamicRecord, order: seq<string>) returns (id: int)
      requires Enumerates(order, rec.fields.Keys)
      modifies this, dao, base, base.db
      ensures knownFields == old(knownFields) && fieldTypes == old(fieldTypes)
      ensures base.db.executed == old(base.db.executed) + [InsertStatement(rec.base)]
      ensures var baseId := InsertedId(base.db.respond(InsertStatement(rec.base)));
        && base.cache == (if baseId > 0 then old(base.cache) + [rec.base.(empID := baseId)] else old(base.cache))
        && (baseId <= 0 ==> id == -1 && cache == old(cache) && dao.calls == old(dao.calls))
        && (baseId > 0 ==>
              var n := FirstFailure(dao.writes, baseId, rec.fields, order);
              && id == (if n == |order| then baseId else -1)
              && cache == (if n == |order| then old(cache)[baseId := rec.fields] else old(cache))
              && dao.calls == old(dao.calls) + WriteCalls(baseId, rec.fields, order[..if n < |order| then n + 1 else n]))
    {
      var empID := base.Add(rec.base);
      if empID <= 0 {
        return -1;
      }
      var fields := rec.fields;
      var n := WriteAll(dao, empID, fields, order);
      if n < |order| {
        return -1;
      }
      var cachedFields := CopyFields(fields);
      cache := cache[empID := cachedFields];
      id := empID;
    }

    /** `delete`: the entry is dropped iff the base delete succeeds. */
    method Delete(empID: int) returns (ok: bool)
      modifies this, base, base.db
      ensures knownFields == old(knownFields) && fieldTypes == old(fieldTypes)
      ensures base.db.executed == old(base.db.executed) + [DeleteStatement(empID)]
      ensures ok == UpdateSucceeded(base.db.respond(DeleteStatement(empID)))
      ensures base.cache == if ok then WithoutId(old(base.cache), empID) else old(base.cache)
      ensures cache == if ok then old(cache) - {empID} else old(cache)
    {
      ok := base.Delete(empID);
      if ok {
        cache := cache - {empID};
      }
    }

    /** `addColumnToTable`: another name for `addDynamicField`. */
    method AddColumnToTable(columnName: string, columnType: string, defaultValue: Value) returns (ok: bool)
      modifies this, dao
      ensures dao.calls == old(dao.calls) + [AddFieldCall(columnName, columnType, defaultValue)]
      ensures ok == dao.adds(columnName, columnType, defaultValue)
      ensures !ok ==> knownFields == old(knownFields) && fieldTypes == old(fieldTypes) && cache == old(cache)
      ensures ok ==> knownFields == old(knownFields) + [columnName]
      ensures ok ==> fieldTypes == old(fieldTypes)[columnName := SqlTypeOf(columnType)]
      ensures ok ==> cache == if defaultValue.Null? then old(cache) else Seeded(old(cache), base.cache, columnName, defaultValue)
    {
      ok := AddDynamicField(columnName, columnType, defaultValue);
    }

    /** `getKnownDynamicFields`: a copy of the known-field list. */
    method GetKnownDynamicFields() returns (list: seq<string>)
      ensures list == knownFields
    {
      list := knownFields;
    }

    /** The first phase of `searchByDynamicField`: the cache entries are visited in map
        order and each matching entry's employee is looked up (which may complete that
        entry from the store). */
    method ScanCache(fieldName: string, fieldValue: Value, order: seq<int>) returns (results: seq<DynamicRecord>)
      requires Enumerates(order, cache.Keys)
      modifies this, dao
      ensures knownFields == old(knownFields) && fieldTypes == old(fieldTypes)
      ensures cache.Keys == old(cache).Keys
      ensures Ids(results) == CacheMatches(old(cache), order, fieldName, fieldValue, base.cache)
      ensures var t := LookUpAll(old(cache), CacheMatches(old(cache), order, fieldName, fieldValue, base.cache),
                                 knownFields, dao.fetches, base.cache);
        results == t.records && cache == t.cache && dao.calls == old(dao.calls) + t.calls
    {
      results := [];
      for i := 0 to |order|
        invariant knownFields == old(knownFields) && fieldTypes == old(fieldTypes)
        invariant cache.Keys == old(cache).Keys
        invariant forall j :: i <= j < |order| ==> cache[order[j]] == old(cache)[order[j]]
        invariant var t := LookUpAll(old(cache), CacheMatches(old(cache), order[..i], fieldName, fieldValue, base.cache),
                                     knownFields, dao.fetches, base.cache);
          results == t.records && cache == t.cache && dao.calls == old(dao.calls) + t.calls
      {
        results := ScanEntry(fieldName, fieldValue, order, i, results, old(cache), old(dao.calls));
      }
      assert order[..|order|] == order;
      ScanReportsMatches(old(cache), order, fieldName, fieldValue, knownFields, dao.fetches, base.cache);
    }

    /** One visit of the cache scan: the entry of `order[i]` is read and, when it holds
        the field with a matching value, that employee is looked up. */
    method ScanEntry(fieldName: string, fieldValue: Value, order: seq<int>, i: int, results: seq<DynamicRecord>,
                     ghost start: map<int, map<string, Value>>, ghost calls: seq<DaoCall>)
      returns (extended: seq<DynamicRecord>)
      requires Enumerates(order, start.Keys) && 0 <= i < |order|
      requires cache.Keys == start.Keys
      requires forall j :: i <= j < |order| ==> cache[order[j]] == start[order[j]]
      requires var t := LookUpAll(start, CacheMatches(start, order[..i], fieldName, fieldValue, base.cache),
                                  knownFields, dao.fetches, base.cache);
        results == t.records && cache == t.cache && dao.calls == calls + t.calls
      modifies this, dao
      ensures knownFields == old(knownFields) && fieldTypes == old(fieldTypes)
      ensures cache.Keys == start.Keys
      ensures forall j :: i < j < |order| ==> cache[order[j]] == start[order[j]]
      ensures var t := LookUpAll(start, CacheMatches(start, order[..i + 1], fieldName, fieldValue, base.cache),
                                 knownFields, dao.fetches, base.cache);
        extended == t.records && cache == t.cache && dao.calls == calls + t.calls
    {
      var empID := order[i];
      var fields := cache[empID];
      ghost var matched := CacheMatches(start, order[..i], fieldName, fieldValue, base.cache);
      CacheMatchesStep(start, order, i, fieldName, fieldValue, base.cache);
      assert forall j :: i < j < |order| ==> order[j] != empID;
      extended := results;
      if fieldName in fields && ValueMatches(fields[fieldName], fieldValue) {
        assert [] + results == results;
        extended := LookUpAndAppend(results, empID, [], start, matched, calls);
        assert [] + extended == extended;
      }
    }

    /** The second phase: the store query, and for each returned id not already listed,
        its employee looked up and appended. A failed query adds nothing. */
    method SweepStore(fieldName: string, fieldValue: Value, found: seq<DynamicRecord>) returns (results: seq<DynamicRecord>)
      modifies this, dao, base.db
      ensures knownFields == old(knownFields) && fieldTypes == old(fieldTypes)
      ensures base.db.executed == old(base.db.executed) + [SweepStatement(fieldName, fieldValue, fieldTypes)]
      ensures var out := base.db.respond(SweepStatement(fieldName, fieldValue, fieldTypes));
        Ids(results) == if out.Executed? then Sweep(Ids(found), RowIds(out.rows), base.cache) else Ids(found)
      ensures var out := base.db.respond(SweepStatement(fieldName, fieldValue, fieldTypes));
        !out.Executed? ==> results == found && cache == old(cache) && dao.calls == old(dao.calls)
      ensures var out := base.db.respond(SweepStatement(fieldName, fieldValue, fieldTypes));
        out.Executed? ==>
          var t := LookUpAll(old(cache), Sweep(Ids(found), RowIds(out.rows), base.cache)[|found|..],
                             knownFields, dao.fetches, base.cache);
          results == found + t.records && cache == t.cache && dao.calls == old(dao.calls) + t.calls
    {
      var stmt := new PreparedStatement(SweepPrefix + fieldName + " = ?");
      if fieldValue.Str? {
        stmt.Bind(1, PString(fieldValue.s));
      } else if fieldValue.Int? {
        stmt.Bind(1, PInt(fieldValue.i));
      } else if fieldValue.Dec? {
        stmt.Bind(1, PDouble(fieldValue.text));
      } else if fieldValue.Bool? {
        stmt.Bind(1, PBoolean(fieldValue.b));
      } else if fieldValue.Null? {
        var sqlType := if fieldName in fieldTypes then fieldTypes[fieldName] else TYPE_VARCHAR;
        stmt.Bind(1, PNull(sqlType));
      } else {
        stmt.Bind(1, PString(ValueText(fieldValue)));
      }
      var out := base.db.Execute(stmt.Snapshot());
      results := found;
      if out.Executed? {
        var rowIds := RowIds(out.rows);
        assert found + [] == found;
        for i := 0 to |rowIds|
          modifies this, dao
          invariant knownFields == old(knownFields) && fieldTypes == old(fieldTypes)
          invariant Ids(results) == Sweep(Ids(found), rowIds[..i], base.cache)
          invariant var t := LookUpAll(old(cache), Sweep(Ids(found), rowIds[..i], base.cache)[|found|..],
                                       knownFields, dao.fetches, base.cache);
            results == found + t.records && cache == t.cache && dao.calls == old(dao.calls) + t.calls
        {
          results := SweepEntry(rowIds, i, results, found, old(cache), old(dao.calls));
        }
        assert rowIds[..|rowIds|] == rowIds;
      }
    }

    /** One returned id of the store sweep: looked up and appended unless it is already
        listed. */
    method SweepEntry(rowIds: seq<int>, i: int, results: seq<DynamicRecord>, ghost found: seq<DynamicRecord>,
                      ghost start: map<int, map<string, Value>>, ghost calls: seq<DaoCall>)
      returns (extended: seq<DynamicRecord>)
      requires 0 <= i < |rowIds|
      requires Ids(results) == Sweep(Ids(found), rowIds[..i], base.cache)
      requires var t := LookUpAll(start, Sweep(Ids(found), rowIds[..i], base.cache)[|found|..],
                                  knownFields, dao.fetches, base.cache);
        results == found + t.records && cache == t.cache && dao.calls == calls + t.calls
      modifies this, dao
      ensures knownFields == old(knownFields) && fieldTypes == old(fieldTypes)
      ensures Ids(extended) == Sweep(Ids(found), rowIds[..i + 1], base.cache)
      ensures var t := LookUpAll(start, Sweep(Ids(found), rowIds[..i + 1], base.cache)[|found|..],
                                 knownFields, dao.fetches, base.cache);
        extended == found + t.records && cache == t.cache && dao.calls == calls + t.calls
    {
      var empID := rowIds[i];
      ghost var swept := Sweep(Ids(found), rowIds[..i], base.cache);
      SweepStep(Ids(found), rowIds, i, base.cache);
      ghost var ids := swept[|found|..];
      var alreadyFound := empID in Ids(results);
      if alreadyFound || FindFirst(base.cache, ById(empID)).None? {
        assert Sweep(Ids(found), rowIds[..i + 1], base.cache) == swept;
        extended := results;
        if !alreadyFound {
          extended := LookUpAndAppend(results, empID, found, start, ids, calls);
        }
      } else {
        assert Sweep(Ids(found), rowIds[..i + 1], base.cache)[|found|..] == ids + [empID];
        extended := LookUpAndAppend(results, empID, found, start, ids, calls);
        IdsAppendOne(results, extended);
      }
    }

    /** `searchByDynamicField`: an unknown field gives no results and changes nothing.
        Otherwise the cache scan's matches come first, and the store is swept only when
        the cache holds fewer entries than the base cache has employees. */
    method SearchByDynamicField(fieldName: string, fieldValue: Value, order: seq<int>) returns (results: seq<DynamicRecord>)
      requires Enumerates(order, cache.Keys)
      modifies this, dao, base.db
      ensures knownFields == old(knownFields) && fieldTypes == old(fieldTypes)
      ensures fieldName !in knownFields ==>
        results == [] && cache == old(cache) && dao.calls == old(dao.calls) && base.db.executed == old(base.db.executed)
      ensures fieldName in knownFields ==>
        var matched := CacheMatches(old(cache), order, fieldName, fieldValue, base.cache);
        var stmt := SweepStatement(fieldName, fieldValue, fieldTypes);
        if |old(cache)| < |base.cache| then
          && base.db.executed == old(base.db.executed) + [stmt]
          && Ids(results) == (if base.db.respond(stmt).Executed? then Sweep(matched, RowIds(base.db.respond(stmt).rows), base.cache) else matched)
        else
          base.db.executed == old(base.db.executed) && Ids(results) == matched
      ensures fieldName in knownFields ==>
        var t := LookUpAll(old(cache), Ids(results), knownFields, dao.fetches, base.cache);
        results == t.records && cache == t.cache && dao.calls == old(dao.calls) + t.calls
      ensures NoDuplicates(Ids(results))
      ensures forall k :: 0 <= k < |results| ==>
        && FindFirst(base.cache, ById(results[k].base.empID)) == Some(results[k].base)
        && results[k].base.empID in cache && results[k].fields == cache[results[k].base.empID]
    {
      if fieldName !in knownFields {
        return [];
      }
      ghost var matched := CacheMatches(cache, order, fieldName, fieldValue, base.cache);
      ghost var rowIds: seq<int> := [];
      ghost var swept := false;
      results := ScanCache(fieldName, fieldValue, order);
      var baseEmployees := base.FindAll();
      if |cache| < |baseEmployees| {
        var found := results;
        ghost var scanned, scanCalls := cache, dao.calls;
        results := SweepStore(fieldName, fieldValue, found);
        var out := base.db.respond(SweepStatement(fieldName, fieldValue, fieldTypes));
        if out.Executed? {
          rowIds, swept := RowIds(out.rows), true;
          SweptLookups(old(cache), matched, rowIds, knownFields, dao.fetches, base.cache,
                       found, results, scanned, cache, old(dao.calls), scanCalls, dao.calls);
        }
      }
      SearchReportsDistinctKnownIds(old(cache), order, fieldName, fieldValue, base.cache, rowIds, swept);
      ReportedLookupsFacts(old(cache), Ids(results), knownFields, dao.fetches, base.cache);
    }
  }
}
