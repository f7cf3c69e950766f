/** The employee record. The modelled code uses two variants of this class: one with a
    BigDecimal salary (used by the dynamic-attribute code and the criteria search) and one
    with an SSN and a double salary (used by the list-cache service). One record with the
    union of their fields stands for both. The Employee.java at the repository root is a
    third, separate class (`empid`, `name`, `ssn`, a double salary, `payStatementHistory`)
    that no modelled code uses; it is not part of this model. */
module Employees {
  import opened Values

  datatype Employee = Employee(
    empID: int,
    employeeName: string,
    ssn: string,
    jobTitle: string,
    division: string,
    salary: int,
    payInfo: string)

  /** What the no-argument constructor leaves: id 0, and (for Java's null strings and
      salary) empty strings and 0. */
  const DefaultEmployee: Employee := Employee(0, "", "", "", "", 0, "")

  /** The six columns of the base table that are not dynamic fields. */
  const StandardFields: set<string> := {"empID", "employeeName", "division", "jobTitle", "salary", "payInfo"}

  /** `Employee.toString` of the BigDecimal variant. */
  function EmployeeText(e: Employee): string {
    "Employee [ID=" + IntText(e.empID) + ", Name=" + e.employeeName + ", Job Title=" + e.jobTitle
      + ", Division=" + e.division + ", Salary=$" + IntText(e.salary) + ", Pay Type=" + e.payInfo + "]"
  }
}
