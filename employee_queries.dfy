/** The read-only employee endpoints: GET /employees/... */
module EmployeeQueries {
  import opened Wrappers
  import opened Models
  import opened Enumerable

  function HasEmployeeId(id: int): Employee -> bool {
    (e: Employee) => e.id == id
  }

  /** Tickets assigned to the employee `id`. */
  function AssignedTo(id: int): Ticket -> bool {
    (t: Ticket) => t.employeeId == Some(id)
  }

  /** Open tickets assigned to the employee `id`. */
  function OpenFor(id: int): Ticket -> bool {
    (t: Ticket) => t.employeeId == Some(id) && IsOpen(t)
  }

  function IsAvailable(tickets: seq<Ticket>): Employee -> bool {
    (e: Employee) => !Any(tickets, OpenFor(e.id))
  }

  /** GET /employees/available: the employees no open ticket is assigned to, in stored order. */
  function Available(employees: seq<Employee>, tickets: seq<Ticket>): (r: seq<Employee>)
    ensures forall e :: e in r <==> e in employees && forall t :: t in tickets ==> !(t.employeeId == Some(e.id) && IsOpen(t))
  {
    var r := Where(employees, IsAvailable(tickets));
    assert forall e :: IsAvailable(tickets)(e) <==> forall t :: t in tickets ==> !(t.employeeId == Some(e.id) && IsOpen(t)) by {
      forall e ensures IsAvailable(tickets)(e) <==> forall t :: t in tickets ==> !(t.employeeId == Some(e.id) && IsOpen(t)) {
        assert IsAvailable(tickets)(e) == !Any(tickets, OpenFor(e.id));
        assert forall i :: 0 <= i < |tickets| ==> OpenFor(e.id)(tickets[i]) == (tickets[i].employeeId == Some(e.id) && IsOpen(tickets[i]));
      }
    }
    r
  }

  /** An employee with their tickets attached. */
  datatype EmployeeView = EmployeeView(employee: Employee, tickets: seq<Ticket>)

  /** GET /employees/{id}: the first employee with the id and every ticket assigned to it, in stored order. */
  function GetEmployee(employees: seq<Employee>, tickets: seq<Ticket>, id: int): (r: Response<EmployeeView>)
    ensures r.NotFound? <==> forall e :: e in employees ==> e.id != id
    ensures !r.BadRequest?
    ensures r.Ok? ==> exists i :: 0 <= i < |employees| && employees[i] == r.value.employee && employees[i].id == id
                                  && forall j :: 0 <= j < i ==> employees[j].id != id
    ensures r.Ok? ==> forall t :: t in r.value.tickets <==> t in tickets && t.employeeId == Some(id)
  {
    match FirstOrDefault(employees, HasEmployeeId(id))
    case None => NotFound
    case Some(e) => Ok(EmployeeView(e, Where(tickets, AssignedTo(id))))
  }

  /** Customers with a ticket assigned to the employee `id`. */
  function ServedBy(tickets: seq<Ticket>, id: int): Customer -> bool {
    (c: Customer) => Any(tickets, (t: Ticket) => t.customerId == c.id && t.employeeId == Some(id))
  }

  /**
   * GET /employees/{id}/customers: NotFound for an unknown employee, otherwise
   * the stored customers having a ticket assigned to it, in stored order.
   */
  function EmployeeCustomers(employees: seq<Employee>, customers: seq<Customer>, tickets: seq<Ticket>, id: int)
    : (r: Response<seq<Customer>>)
    ensures r.NotFound? <==> forall e :: e in employees ==> e.id != id
    ensures !r.BadRequest?
    ensures r.Ok? ==> forall c :: c in r.value <==>
              c in customers && exists t :: t in tickets && t.customerId == c.id && t.employeeId == Some(id)
  {
    if FirstOrDefault(employees, HasEmployeeId(id)).None? then NotFound
    else
      var r := Where(customers, ServedBy(tickets, id));
      assert forall c :: ServedBy(tickets, id)(c) <==> exists t :: t in tickets && t.customerId == c.id && t.employeeId == Some(id) by {
        forall c ensures ServedBy(tickets, id)(c) <==> exists t :: t in tickets && t.customerId == c.id && t.employeeId == Some(id) {
          if ServedBy(tickets, id)(c) {
            var i :| 0 <= i < |tickets| && tickets[i].customerId == c.id && tickets[i].employeeId == Some(id);
            assert tickets[i] in tickets;
          }
        }
      }
      Ok(r)
  }

  /** Each customer appears once when the customer ids are distinct. */
  lemma EmployeeCustomersDistinct(employees: seq<Employee>, customers: seq<Customer>, tickets: seq<Ticket>, id: int)
    requires Distinct(customers, (c: Customer) => c.id)
    ensures var r := EmployeeCustomers(employees, customers, tickets, id);
            r.Ok? ==> Distinct(r.value, (c: Customer) => c.id)
  {
    WhereDistinct(customers, ServedBy(tickets, id), (c: Customer) => c.id);
  }

  /** The first and the last day a month can have. */
  function FirstDayOf(month: Date): Date {
    CalendarDay(month.year, month.month, 1)
  }

  function LastDayOf(month: Date): Date {
    CalendarDay(month.year, month.month, 31)
  }

  /**
   * DateCompleted?.Year == month.Year && DateCompleted?.Month == month.Month:
   * completed between the first and the last day of the month of `month`; an
   * open ticket compares as null and never is.
   */
  function CompletedIn(month: Date): (p: Ticket -> bool)
    ensures forall t :: p(t) ==> IsCompleted(t)
    ensures forall t :: IsCompleted(t) ==>
              (p(t) <==> !Before(t.dateCompleted.value, FirstDayOf(month)) && !Before(LastDayOf(month), t.dateCompleted.value))
  {
    (t: Ticket) => t.dateCompleted.Some? && t.dateCompleted.value.year == month.year && t.dateCompleted.value.month == month.month
  }

  /** Assigned to `id` and completed in the month of `month`, tested in one step. */
  function CompletedBy(id: int, month: Date): Ticket -> bool {
    (t: Ticket) => t.employeeId == Some(id) && t.dateCompleted.Some?
                   && t.dateCompleted.value.year == month.year && t.dateCompleted.value.month == month.month
  }

  /**
   * How many tickets assigned to the employee `id` were completed in `month`:
   * the two chained filters count the same tickets as one combined filter.
   */
  function MonthlyCount(tickets: seq<Ticket>, id: int, month: Date): (n: nat)
    ensures n == |Where(tickets, CompletedBy(id, month))|
    ensures n == 0 <==> forall t :: t in tickets ==> !CompletedBy(id, month)(t)
  {
    WhereWhere(tickets, AssignedTo(id), CompletedIn(month), CompletedBy(id, month));
    var w := Where(tickets, CompletedBy(id, month));
    assert w != [] ==> w[0] in w;
    |Where(Where(tickets, AssignedTo(id)), CompletedIn(month))|
  }

  /** OrderByDescending on the count: a stable ascending sort on its negation. */
  function MonthlyRank(tickets: seq<Ticket>, month: Date): (rank: Employee -> int)
    ensures forall a, b :: rank(a) <= rank(b) <==> MonthlyCount(tickets, b.id, month) <= MonthlyCount(tickets, a.id, month)
  {
    (e: Employee) => 0 - MonthlyCount(tickets, e.id, month) as int
  }

  /** `e` sits at index `i`, and every employee before it completed fewer tickets in `month`. */
  predicate FirstWithCount(employees: seq<Employee>, tickets: seq<Ticket>, month: Date, i: int, e: Employee) {
    && 0 <= i < |employees| && employees[i] == e
    && forall j :: 0 <= j < i ==> MonthlyCount(tickets, employees[j].id, month) < MonthlyCount(tickets, e.id, month)
  }

  /**
   * GET /employees/of-the-month: the employees sorted by descending count of
   * tickets completed last month, first one taken. First throws on an empty
   * list: None.
   */
  function EmployeeOfTheMonth(employees: seq<Employee>, tickets: seq<Ticket>, lastMonth: Date): (r: Option<Employee>)
    ensures r.None? <==> employees == []
    ensures r.Some? ==> r.value in employees
    ensures r.Some? ==> forall e :: e in employees ==> MonthlyCount(tickets, e.id, lastMonth) <= MonthlyCount(tickets, r.value.id, lastMonth)
    ensures r.Some? ==> exists i :: FirstWithCount(employees, tickets, lastMonth, i, r.value)
  {
    if employees == [] then None
    else
      var rank := MonthlyRank(tickets, lastMonth);
      SortByFirst(employees, rank);
      FirstByRankIsFirstWithCount(employees, tickets, lastMonth);
      Some(SortBy(employees, rank)[0])
  }

  lemma FirstByRankIsFirstWithCount(employees: seq<Employee>, tickets: seq<Ticket>, lastMonth: Date)
    requires employees != []
    ensures exists i :: FirstWithCount(employees, tickets, lastMonth, i, SortBy(employees, MonthlyRank(tickets, lastMonth))[0])
  {
    var i := SortByFirstIndex(employees, MonthlyRank(tickets, lastMonth));
    assert FirstWithCount(employees, tickets, lastMonth, i, employees[i]);
  }

  /** The only employee who completed anything last month is the employee of the month. */
  lemma SoleCompleterWins(employees: seq<Employee>, tickets: seq<Ticket>, lastMonth: Date, k: int)
    requires 0 <= k < |employees|
    requires MonthlyCount(tickets, employees[k].id, lastMonth) > 0
    requires forall j :: 0 <= j < |employees| && j != k ==> MonthlyCount(tickets, employees[j].id, lastMonth) == 0
    ensures EmployeeOfTheMonth(employees, tickets, lastMonth) == Some(employees[k])
  {
    var best := EmployeeOfTheMonth(employees, tickets, lastMonth).value;
    assert employees[k] in employees;
    var i :| FirstWithCount(employees, tickets, lastMonth, i, best);
    assert MonthlyCount(tickets, employees[i].id, lastMonth) > 0;
  }

  /** When nobody completed a ticket last month, the first stored employee wins. */
  lemma EmployeeOfTheMonthWithoutCompletions(employees: seq<Employee>, tickets: seq<Ticket>, lastMonth: Date)
    requires employees != []
    requires forall t :: t in tickets ==> !CompletedIn(lastMonth)(t)
    ensures EmployeeOfTheMonth(employees, tickets, lastMonth) == Some(employees[0])
  {
    forall id ensures MonthlyCount(tickets, id, lastMonth) == 0 {
      WhereKeepsNone(Where(tickets, AssignedTo(id)), CompletedIn(lastMonth));
    }
  }
}
