/** The group-and-sum reports of the BigDecimal variant's service
    (src/com/group02/service/EmployeeServiceImpl): total salary per job title and per
    division. BigDecimal addition is exact, so salaries are integers. */
module EmployeeServiceV1 {
  import opened Values
  import opened Employees

  /** The field a report groups by. */
  datatype Grouping = ByJobTitle | ByDivision

  function KeyOf(e: Employee, g: Grouping): string {
    match g
    case ByJobTitle => e.jobTitle
    case ByDivision => e.division
  }

  /** Sum of the salaries of the employees in group `k`. */
  function SumFor(es: seq<Employee>, g: Grouping, k: string): int {
    if |es| == 0 then 0
    else SumFor(es[..|es| - 1], g, k) + (if KeyOf(es[|es| - 1], g) == k then es[|es| - 1].salary else 0)
  }

  /** Sum of all salaries. */
  function Total(es: seq<Employee>): int {
    if |es| == 0 then 0 else Total(es[..|es| - 1]) + es[|es| - 1].salary
  }

  /** `getOrDefault(k, BigDecimal.ZERO)`. */
  function GetOrZero(m: map<string, int>, k: string): (v: int)
    ensures k in m ==> v == m[k]
    ensures k !in m ==> v == 0
  {
    if k in m then m[k] else 0
  }

  /** The map the report loop builds: each employee adds its salary to
      `getOrDefault(key, ZERO)` under its key. */
  function Totals(es: seq<Employee>, g: Grouping): map<string, int> {
    if |es| == 0 then map[]
    else
      var m := Totals(es[..|es| - 1], g);
      var k := KeyOf(es[|es| - 1], g);
      m[k := GetOrZero(m, k) + es[|es| - 1].salary]
  }

  /** The report's keys are exactly the keys present in the list, and each value is that
      group's salary sum (a key that is absent has sum zero). */
  lemma {:induction false} TotalsCharacterised(es: seq<Employee>, g: Grouping)
    ensures forall k :: k in Totals(es, g) <==> exists i :: 0 <= i < |es| && KeyOf(es[i], g) == k
    ensures forall k :: k in Totals(es, g) ==> Totals(es, g)[k] == SumFor(es, g, k)
    ensures forall k :: k !in Totals(es, g) ==> SumFor(es, g, k) == 0
    decreases |es|
  {
    if |es| > 0 {
      var init := es[..|es| - 1];
      TotalsCharacterised(init, g);
      assert forall i :: 0 <= i < |init| ==> init[i] == es[i];
    }
  }

  /** `getTotalPayByJobTitle` (with `ByJobTitle`) and `getTotalPayByDivision` (with
      `ByDivision`) over the employee list `getAll` returns. */
  method TotalPayBy(employees: seq<Employee>, g: Grouping) returns (result: map<string, int>)
    ensures result == Totals(employees, g)
  {
    result := map[];
    for i := 0 to |employees|
      invariant result == Totals(employees[..i], g)
    {
      TotalsStep(employees, i, g);
      var key := KeyOf(employees[i], g);
      var currentTotal := GetOrZero(result, key);
      result := result[key := currentTotal + employees[i].salary];
    }
    assert employees[..|employees|] == employees;
  }

  /** One more employee adds its salary to its own key's entry. */
  lemma TotalsStep(es: seq<Employee>, i: int, g: Grouping)
    requires 0 <= i < |es|
    ensures Totals(es[..i + 1], g) == Totals(es[..i], g)[KeyOf(es[i], g) := GetOrZero(Totals(es[..i], g), KeyOf(es[i], g)) + es[i].salary]
  {
    assert es[..i + 1][..i] == es[..i];
  }

  lemma NoEmployeesNoTotals(g: Grouping)
    ensures Totals([], g) == map[]
  {
  }

  /** Sum of `m`'s values over the keys `order` lists. */
  function SumValues(m: map<string, int>, order: seq<string>): int
    requires forall i :: 0 <= i < |order| ==> order[i] in m
  {
    if |order| == 0 then 0 else SumValues(m, order[..|order| - 1]) + m[order[|order| - 1]]
  }

  /** Sum of the group sums over the keys `order` lists. */
  function SumOver(es: seq<Employee>, g: Grouping, order: seq<string>): int {
    if |order| == 0 then 0 else SumOver(es, g, order[..|order| - 1]) + SumFor(es, g, order[|order| - 1])
  }

  predicate Distinct(order: seq<string>) {
    forall i, j :: 0 <= i < j < |order| ==> order[i] != order[j]
  }

  lemma {:induction false} SumOverNone(g: Grouping, order: seq<string>)
    ensures SumOver([], g, order) == 0
    decreases |order|
  {
    if |order| > 0 {
      SumOverNone(g, order[..|order| - 1]);
    }
  }

  /** One more employee adds its salary to exactly the group it belongs to. */
  lemma {:induction false} SumOverStep(es: seq<Employee>, e: Employee, g: Grouping, order: seq<string>)
    requires Distinct(order)
    ensures SumOver(es + [e], g, order) == SumOver(es, g, order) + (if KeyOf(e, g) in order then e.salary else 0)
    decreases |order|
  {
    if |order| > 0 {
      var init := order[..|order| - 1];
      var last := order[|order| - 1];
      assert (es + [e])[..|es + [e]| - 1] == es;
      assert forall x :: x in order <==> x in init || x == last;
      assert last !in init;
      SumOverStep(es, e, g, init);
    }
  }

  /** Summing the group sums over a list of distinct groups that covers every employee's
      group gives the total salary. */
  lemma {:induction false} GroupSumsCoverTotal(es: seq<Employee>, g: Grouping, order: seq<string>)
    requires Distinct(order)
    requires forall i :: 0 <= i < |es| ==> KeyOf(es[i], g) in order
    ensures SumOver(es, g, order) == Total(es)
    decreases |es|
  {
    if |es| == 0 {
      SumOverNone(g, order);
    } else {
      var init := es[..|es| - 1];
      var e := es[|es| - 1];
      assert init + [e] == es;
      assert forall i :: 0 <= i < |init| ==> init[i] == es[i];
      GroupSumsCoverTotal(init, g, order);
      SumOverStep(init, e, g, order);
    }
  }

  lemma {:induction false} SumValuesOfTotals(es: seq<Employee>, g: Grouping, order: seq<string>)
    requires forall i :: 0 <= i < |order| ==> order[i] in Totals(es, g)
    ensures SumValues(Totals(es, g), order) == SumOver(es, g, order)
    decreases |order|
  {
    TotalsCharacterised(es, g);
    if |order| > 0 {
      SumValuesOfTotals(es, g, order[..|order| - 1]);
    }
  }

  /** The report's values, summed over its keys in any order, add up to the total
      salary. */
  lemma TotalsSumToTotal(es: seq<Employee>, g: Grouping, order: seq<string>)
    requires Enumerates(order, Totals(es, g).Keys)
    ensures SumValues(Totals(es, g), order) == Total(es)
  {
    var m := Totals(es, g);
    TotalsCharacterised(es, g);
    forall i | 0 <= i < |es|
      ensures KeyOf(es[i], g) in order
    {
      assert KeyOf(es[i], g) in m;
    }
    SumValuesOfTotals(es, g, order);
    GroupSumsCoverTotal(es, g, order);
  }

  lemma {:induction false} SumForAppend(a: seq<Employee>, b: seq<Employee>, g: Grouping, k: string)
    ensures SumFor(a + b, g, k) == SumFor(a, g, k) + SumFor(b, g, k)
    decreases |b|
  {
    if |b| == 0 {
      assert a + b == a;
    } else {
      assert (a + b)[..|a + b| - 1] == a + b[..|b| - 1];
      SumForAppend(a, b[..|b| - 1], g, k);
    }
  }

  /** Taking one employee out of a list takes its salary out of its group's sum. */
  lemma SumForWithout(b: seq<Employee>, j: int, g: Grouping, k: string)
    requires 0 <= j < |b|
    ensures SumFor(b, g, k) == SumFor(b[..j] + b[j + 1..], g, k) + (if KeyOf(b[j], g) == k then b[j].salary else 0)
  {
    var x := b[j];
    assert b == b[..j] + [x] + b[j + 1..];
    SumForAppend(b[..j] + [x], b[j + 1..], g, k);
    SumForAppend(b[..j], [x], g, k);
    SumForAppend(b[..j], b[j + 1..], g, k);
    assert [x][..0] == [];
  }

  lemma MultisetWithout(b: seq<Employee>, j: int)
    requires 0 <= j < |b|
    ensures multiset(b[..j] + b[j + 1..]) == multiset(b) - multiset{b[j]}
  {
    assert b == b[..j] + [b[j]] + b[j + 1..];
  }

  /** Group sums do not depend on the order of the list. */
  lemma {:induction false} SumForPermutation(a: seq<Employee>, b: seq<Employee>, g: Grouping, k: string)
    requires multiset(a) == multiset(b)
    ensures SumFor(a, g, k) == SumFor(b, g, k)
    decreases |a|
  {
    if |a| > 0 {
      var init := a[..|a| - 1];
      var x := a[|a| - 1];
      assert init + [x] == a;
      assert multiset(init) == multiset(a) - multiset{x};
      assert x in multiset(b);
      var j :| 0 <= j < |b| && b[j] == x;
      var rest := b[..j] + b[j + 1..];
      MultisetWithout(b, j);
      SumForPermutation(init, rest, g, k);
      SumForWithout(b, j, g, k);
    }
  }

  /** The report does not depend on the order `getAll` lists the employees in. */
  lemma TotalsIgnoreOrder(a: seq<Employee>, b: seq<Employee>, g: Grouping)
    requires multiset(a) == multiset(b)
    ensures Totals(a, g) == Totals(b, g)
  {
    var ma := Totals(a, g);
    var mb := Totals(b, g);
    TotalsCharacterised(a, g);
    TotalsCharacterised(b, g);
    forall k
      ensures k in ma <==> k in mb
    {
      if k in ma {
        var i :| 0 <= i < |a| && KeyOf(a[i], g) == k;
        assert a[i] in multiset(b);
        var j :| 0 <= j < |b| && b[j] == a[i];
      }
      if k in mb {
        var j :| 0 <= j < |b| && KeyOf(b[j], g) == k;
        assert b[j] in multiset(a);
        var i :| 0 <= i < |a| && a[i] == b[j];
      }
    }
    forall k | k in ma
      ensures ma[k] == mb[k]
    {
      SumForPermutation(a, b, g, k);
    }
  }
}
