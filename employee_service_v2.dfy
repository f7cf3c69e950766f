/** The service of the SSN variant (src/main/java/com/group02/service/EmployeeServiceImpl):
    an in-memory list cache loaded once, kept in step with every write the repository
    reports as successful, and read by the lookups. */
module EmployeeServiceV2 {
  import opened Values
  import opened Jdbc
  import opened Employees
  import opened EmployeeManagerV2

  /** What a lookup compares a cached record by: its id, or its SSN. */
  datatype Key = ById(id: int) | BySsn(ssn: string)

  predicate Matches(e: Employee, k: Key) {
    match k
    case ById(id) => e.empID == id
    case BySsn(ssn) => e.ssn == ssn
  }

  /** The position of the first record matching `k`, or -1 when none does. */
  function IndexOf(c: seq<Employee>, k: Key): (i: int)
    ensures -1 <= i < |c|
  {
    if |c| == 0 then -1
    else if Matches(c[0], k) then 0
    else
      var i := IndexOf(c[1..], k);
      if i < 0 then -1 else i + 1
  }

  /** The position found matches and no earlier record does; -1 means no record
      matches. */
  lemma {:induction false} IndexOfCharacterised(c: seq<Employee>, k: Key)
    ensures IndexOf(c, k) >= 0 ==> Matches(c[IndexOf(c, k)], k) && forall j :: 0 <= j < IndexOf(c, k) ==> !Matches(c[j], k)
    ensures IndexOf(c, k) < 0 <==> forall j :: 0 <= j < |c| ==> !Matches(c[j], k)
    decreases |c|
  {
    if |c| > 0 && !Matches(c[0], k) {
      IndexOfCharacterised(c[1..], k);
      assert forall j :: 1 <= j < |c| ==> c[j] == c[1..][j - 1];
    }
  }

  /** `stream().filter(...).findFirst()`: the first record matching `k`. */
  function FindFirst(c: seq<Employee>, k: Key): Option<Employee> {
    var i := IndexOf(c, k);
    if i < 0 then None else Some(c[i])
  }

  /** A record is found iff one matches, and what is found matches and is cached. */
  lemma FindFirstCharacterised(c: seq<Employee>, k: Key)
    ensures FindFirst(c, k).Some? <==> exists j :: 0 <= j < |c| && Matches(c[j], k)
    ensures FindFirst(c, k).Some? ==> Matches(FindFirst(c, k).value, k) && FindFirst(c, k).value in c
  {
    IndexOfCharacterised(c, k);
  }

  /** The `update` loop: the first record with `e`'s id replaced by `e`; the list as it
      was when no record has that id. */
  function ReplaceFirst(c: seq<Employee>, e: Employee): seq<Employee> {
    var i := IndexOf(c, ById(e.empID));
    if i < 0 then c else c[i := e]
  }

  /** `removeIf(emp -> emp.getEmpID() == id)`: every record with that id dropped, the
      others kept in their order. */
  function WithoutId(c: seq<Employee>, id: int): (r: seq<Employee>)
    ensures |r| <= |c|
  {
    if |c| == 0 then []
    else WithoutId(c[..|c| - 1], id) + (if c[|c| - 1].empID == id then [] else [c[|c| - 1]])
  }

  /** The records kept are exactly the cached records with another id. */
  lemma {:induction false} WithoutIdMembers(c: seq<Employee>, id: int)
    ensures forall x :: x in WithoutId(c, id) <==> x in c && x.empID != id
    decreases |c|
  {
    if |c| > 0 {
      var init := c[..|c| - 1];
      WithoutIdMembers(init, id);
      assert c == init + [c[|c| - 1]];
    }
  }

  class EmployeeService {
    /** The repository's database. */
    const db: Database
    var cache: seq<Employee>

    /** The constructor fills the cache with the repository's `findAll`. */
    constructor (db: Database, initial: seq<Employee>)
      ensures this.db == db && cache == initial
    {
      this.db := db;
      cache := initial;
    }

    /** `add`: the repository inserts the record and sets its generated id; the record is
        cached only when that id is positive. */
    method Add(e: Employee) returns (id: int)
      modifies db, this
      ensures db.executed == old(db.executed) + [InsertStatement(e)]
      ensures id == InsertedId(db.respond(InsertStatement(e)))
      ensures cache == if id > 0 then old(cache) + [e.(empID := id)] else old(cache)
    {
      var stored;
      id, stored := AddEmployee(db, e);
      if id > 0 {
        cache := cache + [stored];
      }
    }

    /** `update`: after a successful repository update, the first cached record with the
        same id is replaced; nothing is added when none has it. */
    method Update(e: Employee) returns (ok: bool)
      modifies db, this
      ensures db.executed == old(db.executed) + [UpdateEmployeeStatement(e)]
      ensures ok == UpdateSucceeded(db.respond(UpdateEmployeeStatement(e)))
      ensures cache == if ok then ReplaceFirst(old(cache), e) else old(cache)
    {
      ok := UpdateEmployee(db, e);
      if ok {
        IndexOfCharacterised(cache, ById(e.empID));
        var i := 0;
        while i < |cache|
          invariant 0 <= i <= |cache|
          invariant cache == old(cache)
          invariant forall j :: 0 <= j < i ==> cache[j].empID != e.empID
        {
          if cache[i].empID == e.empID {
            assert IndexOf(cache, ById(e.empID)) == i;
            cache := cache[i := e];
            break;
          }
          i := i + 1;
        }
      }
    }

    /** `delete`: after a successful repository delete, every cached record with that id
        is dropped. */
    method Delete(empID: int) returns (ok: bool)
      modifies db, this
      ensures db.executed == old(db.executed) + [DeleteStatement(empID)]
      ensures ok == UpdateSucceeded(db.respond(DeleteStatement(empID)))
      ensures cache == if ok then WithoutId(old(cache), empID) else old(cache)
    {
      ok := DeleteEmployee(db, empID);
      if ok {
        cache := WithoutId(cache, empID);
      }
    }

    /** `findAll`: a copy of the cache, in cache order. */
    method FindAll() returns (list: seq<Employee>)
      ensures list == cache
    {
      list := cache;
    }

    /** `searchByID`: the first cached record with that id. */
    function SearchByID(empID: int): (r: Option<Employee>)
      reads this
      ensures r.Some? <==> exists j :: 0 <= j < |cache| && cache[j].empID == empID
      ensures r.Some? ==> r.value.empID == empID && r.value in cache
    {
      FindFirstCharacterised(cache, ById(empID));
      FindFirst(cache, ById(empID))
    }

    /** `searchBySSN`: the first cached record with that SSN. */
    function SearchBySSN(ssn: string): (r: Option<Employee>)
      reads this
      ensures r.Some? <==> exists j :: 0 <= j < |cache| && cache[j].ssn == ssn
      ensures r.Some? ==> r.value.ssn == ssn && r.value in cache
    {
      FindFirstCharacterised(cache, BySsn(ssn));
      FindFirst(cache, BySsn(ssn))
    }
  }

  /** The lookup returns the earliest match: no record before it matches. */
  lemma FindFirstIsEarliest(c: seq<Employee>, k: Key, j: int)
    requires 0 <= j < |c| && Matches(c[j], k)
    requires forall i :: 0 <= i < j ==> !Matches(c[i], k)
    ensures FindFirst(c, k) == Some(c[j])
  {
    IndexOfCharacterised(c, k);
    var i := IndexOf(c, k);
    assert i == j;
  }

  /** After an add that yields a new id, the lookup by that id finds the added record,
      with the name and SSN it was given. */
  lemma AddedIsFound(c: seq<Employee>, e: Employee, id: int)
    requires forall j :: 0 <= j < |c| ==> c[j].empID != id
    ensures FindFirst(c + [e.(empID := id)], ById(id)) == Some(e.(empID := id))
  {
    var c' := c + [e.(empID := id)];
    FindFirstIsEarliest(c', ById(id), |c|);
  }

  /** A record added to the cache is always found by its SSN. */
  lemma AddedIsFoundBySsn(c: seq<Employee>, x: Employee)
    ensures FindFirst(c + [x], BySsn(x.ssn)).Some?
  {
    FindFirstCharacterised(c + [x], BySsn(x.ssn));
    assert (c + [x])[|c|] == x;
  }

  /** After a delete, no cached record has the deleted id. */
  lemma DeletedIsNotFound(c: seq<Employee>, id: int)
    ensures FindFirst(WithoutId(c, id), ById(id)) == None
  {
    var r := WithoutId(c, id);
    WithoutIdMembers(c, id);
    forall j | 0 <= j < |r|
      ensures r[j].empID != id
    {
      assert r[j] in r;
    }
    FindFirstCharacterised(r, ById(id));
  }

  /** Dropping an id keeps order: it distributes over concatenation. */
  lemma {:induction false} WithoutIdAppend(a: seq<Employee>, b: seq<Employee>, id: int)
    ensures WithoutId(a + b, id) == WithoutId(a, id) + WithoutId(b, id)
    decreases |b|
  {
    if |b| == 0 {
      assert a + b == a;
    } else {
      var init := b[..|b| - 1];
      var last := b[|b| - 1];
      assert (a + b)[..|a + b| - 1] == a + init;
      assert (a + b)[|a + b| - 1] == last;
      WithoutIdAppend(a, init, id);
    }
  }

  /** A list in which no record has the id is left unchanged. */
  lemma {:induction false} WithoutIdAbsent(c: seq<Employee>, id: int)
    requires forall j :: 0 <= j < |c| ==> c[j].empID != id
    ensures WithoutId(c, id) == c
    decreases |c|
  {
    if |c| > 0 {
      var init := c[..|c| - 1];
      assert forall j :: 0 <= j < |init| ==> init[j] == c[j];
      WithoutIdAbsent(init, id);
      assert init + [c[|c| - 1]] == c;
    }
  }

  /** Dropping an id twice is dropping it once. */
  lemma WithoutIdIdempotent(c: seq<Employee>, id: int)
    ensures WithoutId(WithoutId(c, id), id) == WithoutId(c, id)
  {
    var r := WithoutId(c, id);
    WithoutIdMembers(c, id);
    forall j | 0 <= j < |r|
      ensures r[j].empID != id
    {
      assert r[j] in r;
    }
    WithoutIdAbsent(r, id);
  }

  /** The update keeps the cache's length and every position but the first with the
      record's id, later records with that id included; the replaced position now
      holds the new record, found by its id. */
  lemma ReplaceFirstFacts(c: seq<Employee>, e: Employee)
    ensures |ReplaceFirst(c, e)| == |c|
    ensures forall j :: 0 <= j < |c| && j != IndexOf(c, ById(e.empID)) ==> ReplaceFirst(c, e)[j] == c[j]
    ensures IndexOf(c, ById(e.empID)) >= 0 ==> ReplaceFirst(c, e)[IndexOf(c, ById(e.empID))] == e
    ensures forall j :: 0 <= j < |c| && c[j].empID != e.empID ==> ReplaceFirst(c, e)[j] == c[j]
    ensures (exists j :: 0 <= j < |c| && c[j].empID == e.empID) ==>
              FindFirst(ReplaceFirst(c, e), ById(e.empID)) == Some(e)
    ensures (forall j :: 0 <= j < |c| ==> c[j].empID != e.empID) ==> ReplaceFirst(c, e) == c
  {
    IndexOfCharacterised(c, ById(e.empID));
    var i := IndexOf(c, ById(e.empID));
    if i >= 0 {
      var r := c[i := e];
      assert forall j :: 0 <= j < i ==> r[j] == c[j];
      FindFirstIsEarliest(r, ById(e.empID), i);
    }
  }
}
