# Employee management system: dynamic fields and caches, modelled in Dafny

The system keeps employee records in one relational table, `employees`. Its core is the
dynamic-field layer. At runtime an administrator can add columns beyond the six base
columns. A service keeps three pieces of in-memory state in step with the table:

- the list of known dynamic column names;
- each column's `java.sql.Types` code;
- a per-employee cache of dynamic values.

Around that layer the model also covers the following:

- the attribute-map employee (`DynamicEmployee`);
- the SQL text and bind order built by the dynamic repository and by both `EmployeeManager` variants;
- the list-backed service cache;
- the per-title and per-division salary totals;
- the JDBC URL logic of the configuration.

The repository has two source trees:

- V1 is `src/com/group02`. Its records have a `BigDecimal` salary.
- V2 is `src/main/java/com/group02`. Its records have an SSN and a `double` salary.

The dynamic service extends the V2 list-cache service, which is the only one with
`searchByID`, `findAll` and `add`. The model holds that service as a `base` object. One
`Employee` datatype carries the union of the fields of the two record classes the modelled
code uses. The `Employee.java` at the repository root is a third, separate class, with
`empid`, `name`, `ssn`, a `double` salary and `payStatementHistory`. No modelled code uses it,
and it is not part of this model. Salaries are integers: `BigDecimal` addition is exact.

Modules, one per source file:

- `Values`: Java objects as a closed datatype (`Str`, `Int`, `Dec`, `Bool`, `Null`, `Other`), plus the string functions the code uses (`contains`, `indexOf`, `lastIndexOf`, upper and lower case, joining).
- `Jdbc`: the `java.sql.Types` codes, and prepared statements as classes whose parameters are bound one index at a time. The `Database` class records every statement it is sent and answers it through a `respond` function. Which rows exist and which statements fail are therefore the store's choice, and the model sees none of them.
- `Employees`: the record and the six base column names.
- `DynamicEmployees`: the attribute-map class.
- `DynamicEmployeeManager`: the dynamic repository.
- `EmployeeManagerV1` and `EmployeeManagerV2`: the two repositories.
- `EmployeeServiceV1` and `EmployeeServiceV2`: the two services.
- `DynamicFieldService`: the dynamic-field service. Its store (`addDynamicField`, `getDynamicFields`, `updateDynamicField`) is the `DynamicDao` class. That class logs every call, and store-decided functions give its answers.
- `DatabaseConfiguration`: the V2 configuration.

A Java `HashMap` is iterated in an order the model does not know. Every loop over such a
map therefore takes an `order` parameter, and `Enumerates(order, keys)` requires it to list
each key exactly once. Every result holds for every such order.

Points where the code's behaviour is worth knowing:

- A non-null default given to `addDynamicField` goes into the cache entry of every employee in the base list. Missing entries are created, so the default is not limited to entries already cached.
- `addDynamicField` does not check for a duplicate name. It appends the name again whenever the store accepts the column.
- An entry counts as complete by comparing the number of its keys with the length of the known-field list. No completeness flag is kept. The store leaves NULL columns out of a fetch, so an entry with a NULL column is fetched again on every lookup.
- The search has one mode. Two strings match when the lower-cased cached string contains the lower-cased query. Any other pair of values must be equal. The store query always uses `=`.

## Model

| member | source | states |
|---|---|---|
| `DynamicFieldService.DynamicEmployeeService.LoadExistingDynamicFields` | employee-management-system/src/com/group02/service/DynamicEmployeeServiceImpl.java:50-72 | the known list grows by the reported non-standard names in report order; the type map records each one's code; the cache is unchanged |
| `DynamicFieldService.DiscoveredFieldsCharacterised` | employee-management-system/src/com/group02/service/DynamicEmployeeServiceImpl.java:56-67 | a name is discovered iff it was reported and is none of empID, employeeName, division, jobTitle, salary, payInfo |
| `DynamicFieldService.RecordTypesFacts` | employee-management-system/src/com/group02/service/DynamicEmployeeServiceImpl.java:63-65 | the type map gains exactly the non-standard reported names, each with the code of its last report; it never gains a standard name |
| `DynamicFieldService.DynamicEmployeeService.constructor` | employee-management-system/src/com/group02/service/DynamicEmployeeServiceImpl.java:39-45 | starts with an empty cache, then holds the discovered fields and their types |
| `DynamicFieldService.SqlTypeOf` | employee-management-system/src/com/group02/service/DynamicEmployeeServiceImpl.java:88-105 | the code is one of INTEGER, FLOAT, DOUBLE, DATE, TIME, BOOLEAN or VARCHAR |
| `DynamicFieldService.DateTimeIsDate` | employee-management-system/src/com/group02/service/DynamicEmployeeServiceImpl.java:91-98 | the first test that holds wins: "DATETIME" contains both DATE and TIME and is classified DATE |
| `DynamicFieldService.PointIsInteger` | employee-management-system/src/com/group02/service/DynamicEmployeeServiceImpl.java:91-92 | any name containing INT is an integer, so "POINT" is INTEGER |
| `DynamicFieldService.TimestampIsTime` | employee-management-system/src/com/group02/service/DynamicEmployeeServiceImpl.java:97-100 | "TIMESTAMP" holds no DATE and is classified TIME |
| `DynamicFieldService.TextIsVarchar` | employee-management-system/src/com/group02/service/DynamicEmployeeServiceImpl.java:88-105 | a character type falls to the default VARCHAR |
| `DynamicFieldService.ClassifierIgnoresCase` | employee-management-system/src/com/group02/service/DynamicEmployeeServiceImpl.java:89 | the type name is upper-cased before testing, so the classification does not depend on letter case |
| `DynamicFieldService.DateClassified` | employee-management-system/src/com/group02/service/DynamicEmployeeServiceImpl.java:91-98 | any name spelled only with the letters of DATE and TIME that contains DATE is a date |
| `DynamicFieldService.TimeClassified` | employee-management-system/src/com/group02/service/DynamicEmployeeServiceImpl.java:91-100 | any name spelled only with the letters of TIMESTAMP that contains TIME is a time |
| `DynamicFieldService.VarcharClassified` | employee-management-system/src/com/group02/service/DynamicEmployeeServiceImpl.java:88-105 | any name spelled only with the letters of TEXT and CHAR fails every test and is VARCHAR |
| `DynamicFieldService.DynamicEmployeeService.AddDynamicField` | employee-management-system/src/com/group02/service/DynamicEmployeeServiceImpl.java:82-120 | on store failure returns false with list, types and cache unchanged; on success appends the name once, with no duplicate check, records its classified type, and seeds a non-null default (a null default leaves the cache alone) |
| `DynamicFieldService.DynamicEmployeeService.AddColumnToTable` | employee-management-system/src/com/group02/service/DynamicEmployeeServiceImpl.java:288-291 | behaves exactly as `addDynamicField` |
| `DynamicFieldService.SeededFacts` | employee-management-system/src/com/group02/service/DynamicEmployeeServiceImpl.java:110-117 | every listed employee gets an entry, which is created if missing; it holds the default under the new name, overwriting the old value, and keeps its other values; unlisted entries are untouched |
| `DynamicFieldService.SeededEntry` | employee-management-system/src/com/group02/service/DynamicEmployeeServiceImpl.java:112-116 | the entry of one id after seeding has the default added iff some listed employee has that id |
| `DynamicFieldService.DynamicEmployeeService.GetDynamicEmployee` | employee-management-system/src/com/group02/service/DynamicEmployeeServiceImpl.java:128-160 | an id unknown to the base cache gives nothing, with no store call and no cache change; otherwise the store is asked iff the entry is absent or has fewer keys than the known list, the entry is merged with the fetch, and the result carries the base record and exactly the entry |
| `DynamicFieldService.DynamicEmployeeService.RefreshedFacts` | employee-management-system/src/com/group02/service/DynamicEmployeeServiceImpl.java:140-152 | fetched values overwrite cached ones; cached keys missing from the fetch keep their values; other entries are unchanged; a complete entry is left as it is |
| `DynamicFieldService.DynamicEmployeeService.RefreshCompletes` | employee-management-system/src/com/group02/service/DynamicEmployeeServiceImpl.java:140-151 | once a fetch returns every one of distinct known fields, the entry is complete, and a second lookup neither asks the store nor changes anything |
| `DynamicFieldService.DynamicEmployeeService.LookUpAndAppend` | employee-management-system/src/com/group02/service/DynamicEmployeeServiceImpl.java:343 | one `getDynamicEmployee` call whose result is added when present: it extends the run of lookups by the id exactly when the base cache knows it; no other entry changes |
| `DynamicFieldService.DynamicEmployeeService.LookUpAllRecords` | employee-management-system/src/com/group02/service/DynamicEmployeeServiceImpl.java:128-159 | for distinct known ids, the i-th record is the base record the i-th id finds, with that id's entry as the cache holds it after the whole run |
| `DynamicFieldService.DynamicEmployeeService.LookUpAllBases` | employee-management-system/src/com/group02/service/DynamicEmployeeServiceImpl.java:129-134 | every id the base cache knows gives one record, in order, carrying the base record `searchByID` finds |
| `DynamicFieldService.DynamicEmployeeService.LookUpAllIds` | employee-management-system/src/com/group02/service/DynamicEmployeeServiceImpl.java:129-134 | a run over ids the base cache knows reports exactly those ids, in order |
| `DynamicFieldService.DynamicEmployeeService.LookUpAllKeys` | employee-management-system/src/com/group02/service/DynamicEmployeeServiceImpl.java:140-148 | after the run an id has an entry iff it had one before or was looked up |
| `DynamicFieldService.DynamicEmployeeService.LookUpAllFrame` | employee-management-system/src/com/group02/service/DynamicEmployeeServiceImpl.java:137-151 | the entries of ids not looked up are unchanged; every store fetch asks for the known fields of a looked-up id |
| `DynamicFieldService.DynamicEmployeeService.LookUpAllStep` | employee-management-system/src/com/group02/service/DynamicEmployeeServiceImpl.java:128-159 | one more lookup adds the found record with its refreshed entry and at most one fetch; an unknown id changes nothing |
| `DynamicFieldService.DynamicEmployeeService.LookUpAllAppend` | employee-management-system/src/com/group02/service/DynamicEmployeeServiceImpl.java:128-159 | looking up one list and then another is looking up their concatenation |
| `DynamicFieldService.DynamicEmployeeService.ChainedLookups` | employee-management-system/src/com/group02/service/DynamicEmployeeServiceImpl.java:318-388 | a second run of lookups starting from the cache the first left continues it as one run |
| `DynamicFieldService.DynamicEmployeeService.ReportedLookupsFacts` | employee-management-system/src/com/group02/service/DynamicEmployeeServiceImpl.java:343-382 | for distinct known ids, every result is the base record its id finds, with that id's final entry |
| `DynamicFieldService.DynamicEmployeeService.FindAllDynamicEmployees` | employee-management-system/src/com/group02/service/DynamicEmployeeServiceImpl.java:167-176 | the results, the cache afterwards and the store fetches are exactly those of `LookUpAll` over the base list's ids in list order; one result per employee, each with the base record its id finds; afterwards every listed id has an entry |
| `DynamicFieldService.DynamicEmployeeService.LookUpEveryEmployee` | employee-management-system/src/com/group02/service/DynamicEmployeeServiceImpl.java:167-176 | looking up every base employee in list order gives one record per employee, with that employee's id and the base record `searchByID` finds for it, and leaves each of them an entry in the cache |
| `DynamicFieldService.DynamicEmployeeService.UpdateDynamicEmployee` | employee-management-system/src/com/group02/service/DynamicEmployeeServiceImpl.java:184-211 | if the base update fails: false, with no field write and no cache change; otherwise fields are written in map order and each is cached only after its own write succeeds; the call stops at the first failure with false, and earlier writes stay cached |
| `DynamicFieldService.DynamicEmployeeService.WriteAndCache` | employee-management-system/src/com/group02/service/DynamicEmployeeServiceImpl.java:196-208 | the write loop: it writes up to and including the first rejected write, and caches exactly the accepted prefix |
| `DynamicFieldService.DynamicEmployeeService.WriteField` | employee-management-system/src/com/group02/service/DynamicEmployeeServiceImpl.java:197-207 | one round of the write loop: the store is asked to write the n-th field; the field is cached exactly when the store accepts the write |
| `DynamicFieldService.FirstFailureCharacterised` | employee-management-system/src/com/group02/service/DynamicEmployeeServiceImpl.java:200-203 | every write before the first failure was accepted by the store |
| `DynamicFieldService.WriteBackFacts` | employee-management-system/src/com/group02/service/DynamicEmployeeServiceImpl.java:205-207 | write-back touches only the employee's entry; every written name holds its new value; unwritten names keep theirs |
| `DynamicFieldService.DynamicEmployeeService.UpdateDynamicField` | employee-management-system/src/com/group02/service/DynamicEmployeeServiceImpl.java:221-231 | one store write; the value is cached, creating the entry if needed, iff the write succeeds |
| `DynamicFieldService.DynamicEmployeeService.AddDynamicEmployee` | employee-management-system/src/com/group02/service/DynamicEmployeeServiceImpl.java:239-266 | returns -1 with no entry and no store write if the base id is not positive; returns -1 with no entry if any field write fails; on success the new id's entry is exactly the record's fields, replacing any earlier entry |
| `DynamicFieldService.WriteAll` | employee-management-system/src/com/group02/service/DynamicEmployeeServiceImpl.java:250-258 | writes fields in order up to the first failure, with no caching |
| `DynamicFieldService.DynamicEmployeeService.Delete` | employee-management-system/src/com/group02/service/DynamicEmployeeServiceImpl.java:275-282 | the entry is removed iff the base delete succeeds; the base cache drops the id on success |
| `DynamicFieldService.DynamicEmployeeService.GetKnownDynamicFields` | employee-management-system/src/com/group02/service/DynamicEmployeeServiceImpl.java:298-300 | returns a copy equal to the known list |
| `DynamicFieldService.DynamicEmployeeService.SearchByDynamicField` | employee-management-system/src/com/group02/service/DynamicEmployeeServiceImpl.java:309-392 | an unknown field gives an empty list and changes nothing; otherwise the cache matches come first; the store is swept iff the cache has fewer entries than the base list; no id appears twice; the results, the cache afterwards and the store fetches are those of `LookUpAll` over the reported ids; each result is the base record its id finds, with exactly that id's entry as the cache holds it after the search |
| `DynamicFieldService.DynamicEmployeeService.ScanCache` | employee-management-system/src/com/group02/service/DynamicEmployeeServiceImpl.java:318-346 | the ids reported are exactly the cached entries holding the field with a matching value whose employee the base cache knows; the records, the cache afterwards and the fetches are those of `LookUpAll` over those ids; the key set is unchanged |
| `DynamicFieldService.DynamicEmployeeService.ScanEntry` | employee-management-system/src/com/group02/service/DynamicEmployeeServiceImpl.java:318-345 | one visit of the scan: the next entry's match decides whether its id is looked up, extending the run over the matches so far; the entries not yet visited are unchanged |
| `DynamicFieldService.CacheMatchesStep` | employee-management-system/src/com/group02/service/DynamicEmployeeServiceImpl.java:323-344 | visiting one more id adds it to the matches iff its entry holds the field with a matching value and the base cache knows it |
| `DynamicFieldService.DynamicEmployeeService.ScanReportsMatches` | employee-management-system/src/com/group02/service/DynamicEmployeeServiceImpl.java:318-346 | the scan's lookups report exactly the matching ids |
| `DynamicFieldService.DynamicEmployeeService.SearchReportsDistinctKnownIds` | employee-management-system/src/com/group02/service/DynamicEmployeeServiceImpl.java:318-388 | the ids a search reports, with or without the sweep, are distinct and known to the base cache |
| `DynamicFieldService.DynamicEmployeeService.SweptLookups` | employee-management-system/src/com/group02/service/DynamicEmployeeServiceImpl.java:318-388 | the scan's lookups followed by the sweep's are the lookups of every id the sweep reports |
| `DynamicFieldService.DynamicEmployeeService.SweepStore` | employee-management-system/src/com/group02/service/DynamicEmployeeServiceImpl.java:351-388 | sends `SELECT empID ... WHERE f = ?` with the value bound by its class (a null as SQL NULL of the recorded type, else VARCHAR); it appends each returned id not already found; a failed query adds nothing and changes nothing; otherwise the appended records, the cache afterwards and the fetches are those of `LookUpAll` over the ids the sweep adds |
| `DynamicFieldService.DynamicEmployeeService.SweepEntry` | employee-management-system/src/com/group02/service/DynamicEmployeeServiceImpl.java:374-384 | one returned row: an id already listed is skipped; otherwise the lookup extends the run over the ids the sweep has added |
| `DynamicFieldService.CacheMatchesCharacterised` | employee-management-system/src/com/group02/service/DynamicEmployeeServiceImpl.java:323-345 | an id is a cache match iff its entry holds the field, the value matches, and the base cache knows the id |
| `DynamicFieldService.CacheMatchesNoDuplicates` | employee-management-system/src/com/group02/service/DynamicEmployeeServiceImpl.java:318-346 | the cache scan never reports an id twice |
| `DynamicFieldService.SweepFacts` | employee-management-system/src/com/group02/service/DynamicEmployeeServiceImpl.java:374-384 | the sweep keeps the cache matches as a prefix; it adds only returned ids the base cache knows; it never lists an id twice |
| `DynamicFieldService.ValueMatchExamples` | employee-management-system/src/com/group02/service/DynamicEmployeeServiceImpl.java:326-339 | "123" matches "123456789" and "9" does not match "12345"; null matches only null; values of different kinds never match |
| `DynamicEmployees.DynamicEmployee.constructor` | employee-management-system/src/com/group02/model/DynamicEmployee.java:10-13 | a default base record and an empty attribute map |
| `DynamicEmployees.DynamicEmployee.WithFields` | employee-management-system/src/com/group02/model/DynamicEmployee.java:15-19 | the given base fields and an empty attribute map |
| `DynamicEmployees.DynamicEmployee.GetAttribute` | employee-management-system/src/com/group02/model/DynamicEmployee.java:25-27 | the stored value, or null for an absent name |
| `DynamicEmployees.DynamicEmployee.AddAttribute` | employee-management-system/src/com/group02/model/DynamicEmployee.java:21-23 | afterwards the name reads back the value, overwriting any earlier one; other names and the base are unchanged |
| `DynamicEmployees.DynamicEmployee.RemoveAttribute` | employee-management-system/src/com/group02/model/DynamicEmployee.java:33-35 | afterwards the name reads null; other names are unchanged; removing an absent name changes nothing |
| `DynamicEmployees.DynamicEmployee.GetAllDynamicAttributes` | employee-management-system/src/com/group02/model/DynamicEmployee.java:29-31 | a copy equal to the current map, which as a value cannot change the employee |
| `DynamicEmployees.DynamicEmployee.ToString` | employee-management-system/src/com/group02/model/DynamicEmployee.java:37-51 | the base text, "\nDynamic Attributes: ", then "None" for an empty map, else one "\n  name: value" per entry in the map's order |
| `DynamicEmployees.DescriptionListsEveryAttribute` | employee-management-system/src/com/group02/model/DynamicEmployee.java:44-48 | the description contains the line of every attribute, whatever the visiting order |
| `DynamicEmployees.EntryLineOccurs` | employee-management-system/src/com/group02/model/DynamicEmployee.java:45-47 | the i-th visited attribute's line starts where the earlier lines end |
| `DynamicEmployees.AppendEntryLines` | employee-management-system/src/com/group02/model/DynamicEmployee.java:45-47 | the StringBuilder loop produces the entry lines in visiting order |
| `DynamicEmployeeManager.AddColumn` | employee-management-system/src/com/group02/model/DynamicEmployeeManager.java:13-28 | sends exactly "ALTER TABLE employees ADD COLUMN " + name + " " + type; true iff it executes without an SQL error |
| `DynamicEmployeeManager.GetTableColumns` | employee-management-system/src/com/group02/model/DynamicEmployeeManager.java:31-50 | the name-to-type map of the reported columns |
| `DynamicEmployeeManager.ColumnsFromReports` | employee-management-system/src/com/group02/model/DynamicEmployeeManager.java:38-42 | a name is a column iff it was reported, with the type of its last report |
| `DynamicEmployeeManager.BuildColumnList` | employee-management-system/src/com/group02/model/DynamicEmployeeManager.java:57-66 | the `first`-flag loop yields the names joined by ", " |
| `DynamicEmployeeManager.ColumnListRoundTrip` | employee-management-system/src/com/group02/model/DynamicEmployeeManager.java:57-68 | for at least one column and no ',' in any column name, splitting the column list at ", " gives back every column once and in order, so there is no leading or trailing separator |
| `DynamicEmployeeManager.AddDynamicColumns` | employee-management-system/src/com/group02/model/DynamicEmployeeManager.java:86-95 | every visited non-base column becomes an attribute with the row's object; the six base columns never do; the base record is untouched |
| `DynamicEmployeeManager.GetDynamicEmployeeById` | employee-management-system/src/com/group02/model/DynamicEmployeeManager.java:53-107 | selects every column for the id; null when the query fails, no row is found or a base column is missing; otherwise the base record from the first row and attributes for exactly the non-base columns |
| `DynamicEmployeeManager.BuildDynamicUpdateSql` | employee-management-system/src/com/group02/model/DynamicEmployeeManager.java:124-135 | "UPDATE employees SET a1 = ?, ..., an = ? WHERE empID = ?" |
| `DynamicEmployeeManager.DynamicUpdatePlaceholders` | employee-management-system/src/com/group02/model/DynamicEmployeeManager.java:124-135 | the statement holds n + 1 placeholders for n names |
| `DynamicEmployeeManager.DynamicUpdateBindOrder` | employee-management-system/src/com/group02/model/DynamicEmployeeManager.java:140-145 | parameters 1..n hold the values in name order and n + 1 holds the id; nothing else is bound |
| `DynamicEmployeeManager.BindDynamicUpdate` | employee-management-system/src/com/group02/model/DynamicEmployeeManager.java:140-145 | the bind loop with its counter produces exactly that binding |
| `DynamicEmployeeManager.UpdateDynamicEmployee` | employee-management-system/src/com/group02/model/DynamicEmployeeManager.java:110-155 | false with no dynamic SQL if the base update fails; true with no further statement if there are no attributes; otherwise sends the dynamic UPDATE and is true iff it affects a row |
| `EmployeeManagerV1.BuildSearch` | employee-management-system/src/com/group02/repository/EmployeeManager.java:17-44 | builds the query and parameter list of the criteria search |
| `EmployeeManagerV1.Search` | employee-management-system/src/com/group02/repository/EmployeeManager.java:15-72 | sends the built query with parameter i bound at i + 1 by `setObject`; returns the rows' employees, or none on failure |
| `EmployeeManagerV1.EmptyCriteriaSearchesAll` | employee-management-system/src/com/group02/repository/EmployeeManager.java:17-18 | empty criteria give exactly "SELECT * FROM employees WHERE 1=1" and no parameters |
| `EmployeeManagerV1.SearchSpelledOut` | employee-management-system/src/com/group02/repository/EmployeeManager.java:21-44 | clauses are appended in the fixed order empID, employeeName, jobTitle, division, payInfo |
| `EmployeeManagerV1.SearchDependsOnlyOnSearchKeys` | employee-management-system/src/com/group02/repository/EmployeeManager.java:21-44 | the statement depends only on the five search keys and their values, not on the map's order or on other keys |
| `EmployeeManagerV1.SalaryCriterionIgnored` | employee-management-system/src/com/group02/repository/EmployeeManager.java:21-44 | a salary criterion contributes nothing |
| `EmployeeManagerV1.NameCriterionIsSubstringPattern` | employee-management-system/src/com/group02/repository/EmployeeManager.java:26-29 | employeeName gives "LIKE ?" with its value wrapped as "%v%" |
| `EmployeeManagerV1.PresentClauseOccurs` | employee-management-system/src/com/group02/repository/EmployeeManager.java:21-44 | each present key's clause, "= ?" except for the name, occurs in the query |
| `EmployeeManagerV1.PresentParamListed` | employee-management-system/src/com/group02/repository/EmployeeManager.java:21-44 | each present key's parameter, the raw value except for the name, is in the parameter list |
| `EmployeeManagerV1.SearchPlaceholdersMatchParameters` | employee-management-system/src/com/group02/repository/EmployeeManager.java:21-52 | the number of '?' in the query equals the number of parameters |
| `EmployeeManagerV1.Update` | employee-management-system/src/com/group02/repository/EmployeeManager.java:74-97 | binds six parameters in SET-clause order with empID last; true iff a row is affected |
| `EmployeeManagerV2.AddEmployee` | employee-management-system/src/main/java/com/group02/repository/EmployeeManager.java:27-61 | binds six parameters in INSERT-column order; returns the generated key and sets it on the record, or -1 on any failure |
| `EmployeeManagerV2.InsertedId` | employee-management-system/src/main/java/com/group02/repository/EmployeeManager.java:41-59 | -1 on an SQL error, on no affected row or on no generated key; the first key otherwise |
| `EmployeeManagerV2.UpdateEmployee` | employee-management-system/src/main/java/com/group02/repository/EmployeeManager.java:158-176 | binds seven parameters in column order with empID last; true iff a row is affected |
| `EmployeeManagerV2.UpdateField` | employee-management-system/src/main/java/com/group02/repository/EmployeeManager.java:179-203 | a name outside the whitelist is rejected before any statement; otherwise sends "UPDATE employees SET <name> = ? WHERE empID = ?" with the value bound by kind (String, Integer, Double, Boolean, null as SQL NULL, else toString) |
| `EmployeeManagerV2.IdFieldRejected` | employee-management-system/src/main/java/com/group02/repository/EmployeeManager.java:181-184 | empID is not in the whitelist, which holds only SSN and base columns |
| `EmployeeManagerV2.FieldUpdateShape` | employee-management-system/src/main/java/com/group02/repository/EmployeeManager.java:185-197 | the value is bound at 1 and the id at 2, and nothing else is bound |
| `EmployeeManagerV2.DeleteEmployee` | employee-management-system/src/main/java/com/group02/repository/EmployeeManager.java:233-244 | deletes by id; true iff a row is deleted |
| `Jdbc.BindValue` | employee-management-system/src/main/java/com/group02/repository/EmployeeManager.java:190-195 | the setter chosen by the value's kind |
| `Jdbc.BindingsCharacterised` | employee-management-system/src/com/group02/repository/EmployeeManager.java:50-52 | a parameter list bound in order puts parameter i at index i + 1, with nothing else bound |
| `EmployeeServiceV2.EmployeeService.Add` | employee-management-system/src/main/java/com/group02/service/EmployeeServiceImpl.java:28-34 | the record, with its new id, is appended to the cache iff the returned id is positive; the id is returned either way |
| `EmployeeServiceV2.EmployeeService.Update` | employee-management-system/src/main/java/com/group02/service/EmployeeServiceImpl.java:38-50 | on success the first entry with the same id is replaced; with no match or on failure the cache is unchanged |
| `EmployeeServiceV2.ReplaceFirstFacts` | employee-management-system/src/main/java/com/group02/service/EmployeeServiceImpl.java:42-47 | the update keeps the length and every position except the first with the id, so later records with the same id stay; that position holds the new record, which the lookup by id finds; without a match nothing changes |
| `EmployeeServiceV2.EmployeeService.Delete` | employee-management-system/src/main/java/com/group02/service/EmployeeServiceImpl.java:54-60 | on success every entry with the id is removed, keeping order; on failure the cache is unchanged |
| `EmployeeServiceV2.WithoutIdMembers` | employee-management-system/src/main/java/com/group02/service/EmployeeServiceImpl.java:57 | the kept entries are exactly the cached entries with another id |
| `EmployeeServiceV2.WithoutIdAppend` | employee-management-system/src/main/java/com/group02/service/EmployeeServiceImpl.java:57 | removal keeps relative order: it distributes over concatenation |
| `EmployeeServiceV2.WithoutIdIdempotent` | employee-management-system/src/main/java/com/group02/service/EmployeeServiceImpl.java:57 | removing an id twice is removing it once |
| `EmployeeServiceV2.EmployeeService.FindAll` | employee-management-system/src/main/java/com/group02/service/EmployeeServiceImpl.java:64-66 | a list equal in content to the cache |
| `EmployeeServiceV2.EmployeeService.SearchByID` | employee-management-system/src/main/java/com/group02/service/EmployeeServiceImpl.java:70-74 | a cached record with the id, and empty iff none has it |
| `EmployeeServiceV2.EmployeeService.SearchBySSN` | employee-management-system/src/main/java/com/group02/service/EmployeeServiceImpl.java:87-91 | a cached record with the SSN, and empty iff none has it |
| `EmployeeServiceV2.IndexOfCharacterised` | employee-management-system/src/main/java/com/group02/service/EmployeeServiceImpl.java:71-73 | the position found matches and no earlier one does; -1 iff nothing matches |
| `EmployeeServiceV2.FindFirstIsEarliest` | employee-management-system/src/main/java/com/group02/service/EmployeeServiceImpl.java:71-73 | the lookup returns the first matching entry |
| `EmployeeServiceV2.AddedIsFound` | employee-management-system/src/test/java/com/group02/service/EmployeeServiceTest.java:44-50 | after an add with a new id, the lookup by that id finds the added record |
| `EmployeeServiceV2.AddedIsFoundBySsn` | employee-management-system/src/test/java/com/group02/service/EmployeeServiceTest.java:55-56 | after an add, the lookup by the added SSN finds a record |
| `EmployeeServiceV2.DeletedIsNotFound` | employee-management-system/src/test/java/com/group02/service/EmployeeServiceTest.java:75-79 | after a delete, no cached record has the id |
| `EmployeeServiceV1.TotalPayBy` | employee-management-system/src/com/group02/service/EmployeeServiceImpl.java:53-81 | the accumulator loop of `getTotalPayByJobTitle` and `getTotalPayByDivision` builds the per-key totals |
| `EmployeeServiceV1.TotalsCharacterised` | employee-management-system/src/com/group02/service/EmployeeServiceImpl.java:55-63 | the keys are exactly the titles (divisions) present, and each value is the sum of salaries in that group |
| `EmployeeServiceV1.NoEmployeesNoTotals` | employee-management-system/src/com/group02/service/EmployeeServiceImpl.java:56 | an empty list gives an empty map |
| `EmployeeServiceV1.TotalsSumToTotal` | employee-management-system/src/com/group02/service/EmployeeServiceImpl.java:59-63 | the sum of the values, taken in any key order, equals the sum of all salaries |
| `EmployeeServiceV1.TotalsIgnoreOrder` | employee-management-system/src/com/group02/service/EmployeeServiceImpl.java:59-63 | the report does not depend on the order of the employee list |
| `EmployeeServiceV1.SumForPermutation` | employee-management-system/src/com/group02/service/EmployeeServiceImpl.java:59-63 | a group's sum is the same for any permutation of the list |
| `DatabaseConfiguration.NamesDatabaseExactly` | employee-management-system/src/main/java/com/group02/config/DatabaseConfig.java:56 | the URL is kept iff a '/' follows the last ':' (anywhere when there is no ':'), except that a URL with no ':' that starts with '/' is never kept, whatever '/' follow, because `indexOf` then finds index 0, which is not > 0; so "/a/b" gets "/" and the name appended |
| `DatabaseConfiguration.UrlExtendsBase` | employee-management-system/src/main/java/com/group02/config/DatabaseConfig.java:52-61 | the base URL is always a prefix of the result; otherwise "/" + dbName follows it |
| `DatabaseConfiguration.UrlExamples` | employee-management-system/src/main/java/com/group02/config/DatabaseConfig.java:56-61 | a host:port URL gets the database name appended; one that names a database is kept |
| `DatabaseConfiguration.DatabaseConfig.GetUrl` | employee-management-system/src/main/java/com/group02/config/DatabaseConfig.java:50-62 | the URL rule over the loaded properties; no URL where Java throws a NullPointerException |
| `DatabaseConfiguration.RootUrl` | employee-management-system/src/main/java/com/group02/config/DatabaseConfig.java:97 | the prefix before the last '/', which is followed by '/' in the URL; none (an exception) without a '/' |
| `DatabaseConfiguration.RootOfAppendedUrl` | employee-management-system/src/main/java/com/group02/config/DatabaseConfig.java:96-97 | for an appended URL whose dbName has no '/', the root URL is exactly the base URL |
| `DatabaseConfiguration.DatabaseConfig.LoadProperties` | employee-management-system/src/main/java/com/group02/config/DatabaseConfig.java:28-48 | a default load after a successful load is a no-op; otherwise the properties are replaced, and the flag is set iff the file is found |
| `DatabaseConfiguration.DatabaseConfig.ResetConfiguration` | employee-management-system/src/main/java/com/group02/config/DatabaseConfig.java:137-144 | an open data source is closed before it is dropped (an already closed one stays closed); the data source, the properties and the flag are cleared |

## Left out

- JDBC plumbing is not modelled: connections, pools, Hikari and Flyway setup, both `DatabaseUtil` classes, the V1 `DatabaseConfig` file loader and `EmployeeRepository`. Executing SQL and mapping result sets belong to the driver. The model keeps only the statement text, the bind order, and a store that answers each statement.
- The store calls the dynamic service makes (`addDynamicField`, `getDynamicFields`, `updateDynamicField`) are not shown in the repository. They are modelled by their call sites only: the call is logged, and the store decides the answer.
- The `DynamicEmployee` the service uses (`getBaseEmployee`, `setField`, `getAllDynamicFields`, a constructor from an `Employee`) is not shown either. It is the value `DynamicRecord(base, fields)`.
- The metadata column report that `loadExistingDynamicFields` and `getTableColumns` read is a parameter. An SQL error during loading stops the report short, which the parameter covers.
- The class-path resource lookup in `loadProperties` is a parameter. Reading a properties file is I/O.
- `applySalaryRaise` and the raise statements in both repositories are left out. They use floating-point rounding, and the arithmetic runs inside the database.
- `searchByName` (an in-memory regular expression and SQL `REGEXP`) is left out, because regular-expression matching is not modelled.
- `searchByDynamicFieldPattern` is left out. It is an SQL `LIKE` query whose matching happens in the store.
- Printing and stack traces are left out.
- The V2 `double` salary is modelled as an exact integer.
- `Dec` values are identified by their text: no floating-point equality or arithmetic is modelled.
- String case conversion covers ASCII letters only.
- Java's shared object references are not modelled. The list cache holds record values, so a caller that changes a record after `add` does not change the cached copy in the model, as it would in Java.
- Concurrency is not modelled: the code is single-threaded.
- The store has no memory: `Database.respond` and the `DynamicDao` answers (`adds`, `fetches`, `writes`) depend only on each call's arguments. A successful write or `ADD COLUMN` does not change what a later read or statement returns, a repeated `ADD COLUMN` of the same name gets the same answer as the first, and nothing states that the dynamic-field cache and the store agree across calls.
- DynamicEmployees.DynamicEmployee.ToString: Java's null `String` and `BigDecimal` fields are modelled as "" and 0 (`Employees.DefaultEmployee`, `Employees.EmployeeText`). A record built by the no-argument constructor prints "Name=, ..., Salary=$0, Pay Type=" where Java prints "Name=null, ..., Salary=$null, Pay Type=null". The salary is printed without a `BigDecimal` scale: 50000.00 prints as "$50000". The record has no nullable fields because every operation on it would need a null case.
- Employees.DefaultEmployee: the no-argument constructor's null name, SSN, title, division and pay type are "" here, and its null salary is 0.
- Employees.EmployeeText: a null field prints as "" (and a null salary as "0") where Java prints "null"; a `BigDecimal` salary prints without its scale.
- EmployeeServiceV1.TotalPayBy: a null title or division is modelled as "", so rows with a null key and rows with an empty key share one total, where Java keeps two keys (null and ""). A null salary is modelled as 0; Java throws a NullPointerException in `BigDecimal.add` (lines 62 and 76).
- EmployeeServiceV2.EmployeeService.SearchBySSN: a null SSN is modelled as "". Java throws a NullPointerException when a cached record with a null SSN comes before the match, and a search for "" finds no such record; the model returns the match in the first case and finds the record in the second.
- Values of a class other than `String`, `Integer`, `Double` and `Boolean` (the `Other` kind) are identified by their `toString` text, so the search's `equals` test (DynamicEmployeeServiceImpl.java:337) is text equality. Java uses the class's own `equals`: for example, two `java.sql.Date` values for the same day print alike but are not equal in Java when their milliseconds differ, and they match in the model.
- The console and JavaFX front ends, `App.main` and the interfaces are not modelled, and the tests are not part of this model.
