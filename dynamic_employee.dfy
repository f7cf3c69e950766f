/** An employee with a map of named dynamic attributes beside the base record. */
module DynamicEmployees {
  import opened Values
  import opened Employees

  /** The text `toString` appends for one attribute entry. */
  function EntryLine(name: string, v: Value): string {
    "\n  " + name + ": " + ValueText(v)
  }

  /** The entry lines of `attrs`, visited in `order`. */
  function EntryLines(attrs: map<string, Value>, order: seq<string>): string
    requires forall i :: 0 <= i < |order| ==> order[i] in attrs
  {
    if |order| == 0 then ""
    else EntryLines(attrs, order[..|order| - 1]) + EntryLine(order[|order| - 1], attrs[order[|order| - 1]])
  }

  /** The `toString` of an employee with base text `baseText` and attributes `attrs`,
      visited in `order`. */
  function DescribeAttributes(baseText: string, attrs: map<string, Value>, order: seq<string>): string
    requires forall i :: 0 <= i < |order| ==> order[i] in attrs
  {
    baseText + "\nDynamic Attributes: " + (if |attrs| == 0 then "None" else EntryLines(attrs, order))
  }

  /** Every attribute's line occurs in the entry lines: the i-th visited attribute's
      line starts where the lines of the attributes visited before it end. */
  lemma {:induction false} EntryLineOccurs(attrs: map<string, Value>, order: seq<string>, i: nat)
    requires forall j :: 0 <= j < |order| ==> order[j] in attrs
    requires i < |order|
    ensures OccursAt(EntryLines(attrs, order), EntryLine(order[i], attrs[order[i]]), |EntryLines(attrs, order[..i])|)
    decreases |order|
  {
    var line := EntryLine(order[i], attrs[order[i]]);
    var init := order[..|order| - 1];
    var last := order[|order| - 1];
    assert EntryLines(attrs, order) == EntryLines(attrs, init) + EntryLine(last, attrs[last]);
    if i + 1 == |order| {
      assert init == order[..i];
      OccursAtEnd(EntryLines(attrs, order[..i]), line);
    } else {
      assert init[..i] == order[..i];
      EntryLineOccurs(attrs, init, i);
      OccursAtAppend(EntryLines(attrs, init), EntryLine(last, attrs[last]), line, |EntryLines(attrs, order[..i])|);
    }
  }

  /** The description contains the line of every attribute. */
  lemma DescriptionListsEveryAttribute(baseText: string, attrs: map<string, Value>, order: seq<string>)
    requires Enumerates(order, attrs.Keys)
    ensures forall n :: n in attrs ==> Contains(DescribeAttributes(baseText, attrs, order), EntryLine(n, attrs[n]))
  {
    var prefix := baseText + "\nDynamic Attributes: ";
    var lines := EntryLines(attrs, order);
    forall n | n in attrs
      ensures Contains(DescribeAttributes(baseText, attrs, order), EntryLine(n, attrs[n]))
    {
      var i :| 0 <= i < |order| && order[i] == n;
      EntryLineOccurs(attrs, order, i);
      OccursAtPrepend(prefix, lines, EntryLine(n, attrs[n]), |EntryLines(attrs, order[..i])|);
      assert 0 <= |prefix| + |EntryLines(attrs, order[..i])| <= |prefix + lines|;
    }
  }

  class DynamicEmployee {
    var base: Employee
    var attributes: map<string, Value>

    /** The no-argument constructor: a default base record and no attributes. */
    constructor ()
      ensures base == DefaultEmployee && attributes == map[]
    {
      base := DefaultEmployee;
      attributes := map[];
    }

    /** The full constructor: the base fields as given and no attributes. */
    constructor WithFields(empID: int, employeeName: string, jobTitle: string,
                           division: string, salary: int, payInfo: string)
      ensures base == Employee(empID, employeeName, "", jobTitle, division, salary, payInfo)
      ensures attributes == map[]
    {
      base := Employee(empID, employeeName, "", jobTitle, division, salary, payInfo);
      attributes := map[];
    }

    /** `getAttribute`: the value stored under `name`, or null when there is none. */
    function GetAttribute(name: string): (v: Value)
      reads this
      ensures name in attributes ==> v == attributes[name]
      ensures name !in attributes ==> v == Null
    {
      if name in attributes then attributes[name] else Null
    }

    /** `addAttribute`: stores `value` under `name`, replacing any earlier value. */
    method AddAttribute(name: string, value: Value)
      modifies this
      ensures attributes == old(attributes)[name := value] && base == old(base)
      ensures GetAttribute(name) == value
      ensures forall n :: n != name ==> GetAttribute(n) == old(GetAttribute(n))
    {
      attributes := attributes[name := value];
    }

    /** `getAllDynamicAttributes`: a copy of the attribute map. A Dafny map is a value, so
        a caller that changes the copy it receives cannot change this employee. */
    method GetAllDynamicAttributes() returns (m: map<string, Value>)
      ensures m == attributes
    {
      m := attributes;
    }

    /** `removeAttribute`: forgets `name`; nothing happens when it is absent. */
    method RemoveAttribute(name: string)
      modifies this
      ensures attributes == old(attributes) - {name} && base == old(base)
      ensures GetAttribute(name) == Null
      ensures forall n :: n != name ==> GetAttribute(n) == old(GetAttribute(n))
      ensures name !in old(attributes) ==> attributes == old(attributes)
    {
      attributes := attributes - {name};
    }

    /** `toString`: the base text, then "None" or one line per attribute, visited in the
        order the attribute map's entry set gives. */
    method ToString(order: seq<string>) returns (s: string)
      requires Enumerates(order, attributes.Keys)
      ensures s == DescribeAttributes(EmployeeText(base), attributes, order)
    {
      var prefix := EmployeeText(base) + "\nDynamic Attributes: ";
      if |attributes| == 0 {
        s := prefix + "None";
      } else {
        var lines := AppendEntryLines(attributes, order);
        s := prefix + lines;
      }
    }
  }

  /** The loop of `toString` that appends one line per attribute. */
  method AppendEntryLines(attrs: map<string, Value>, order: seq<string>) returns (lines: string)
    requires forall j :: 0 <= j < |order| ==> order[j] in attrs
    ensures lines == EntryLines(attrs, order)
  {
    lines := "";
    for i := 0 to |order|
      invariant lines == EntryLines(attrs, order[..i])
    {
      assert order[..i + 1][..i] == order[..i];
      lines := lines + EntryLine(order[i], attrs[order[i]]);
    }
    assert order[..|order|] == order;
  }
}
