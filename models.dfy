/**
 * The registry's three entities and the outcome of its endpoints. The
 * navigation properties (Ticket.Customer, Ticket.Employee,
 * Customer.ServiceTickets, Employee.ServiceTickets) are not stored fields
 * here: the single-item queries return them as joined views instead.
 */
module Models {
  import opened Wrappers

  /** A date without a time of day, as DateTime.Today and the seeded dates are. */
  datatype CalendarDay = CalendarDay(year: int, month: int, day: int)

  /** The range of DateTime; month lengths are not modelled, only day <= 31. */
  type Date = d: CalendarDay | 1 <= d.year <= 9999 && 1 <= d.month <= 12 && 1 <= d.day <= 31
    witness CalendarDay(1, 1, 1)

  /** DateTime.MinValue. */
  const MinDate: Date := CalendarDay(1, 1, 1)

  /** Chronological order: by year, then month, then day. */
  predicate Before(a: Date, b: Date) {
    a.year < b.year || (a.year == b.year && (a.month < b.month || (a.month == b.month && a.day < b.day)))
  }

  /** The number of days since MinDate, counting every month as 31 days; the key dates are sorted by. */
  function Ordinal(d: Date): nat {
    ((d.year - 1) * 12 + (d.month - 1)) * 31 + (d.day - 1)
  }

  /** Ordinal is an order embedding: comparing ordinals is comparing dates. */
  lemma OrdinalOrder(a: Date, b: Date)
    ensures Before(a, b) <==> Ordinal(a) < Ordinal(b)
    ensures a == b <==> Ordinal(a) == Ordinal(b)
  {
  }

  /** MinDate is the earliest date. */
  lemma MinDateIsEarliest(d: Date)
    ensures d == MinDate || Before(MinDate, d)
  {
  }

  datatype Customer = Customer(id: int, name: string, address: string)

  datatype Employee = Employee(id: int, name: string, specialty: string)

  /** A service ticket. No employee means unassigned; no completion date means open. */
  datatype Ticket = Ticket(
    id: int,
    customerId: int,
    employeeId: Option<int>,
    description: string,
    emergency: bool,
    dateCompleted: Option<Date>)

  predicate IsOpen(t: Ticket) { t.dateCompleted.None? }

  predicate IsCompleted(t: Ticket) { t.dateCompleted.Some? }

  predicate IsEmergency(t: Ticket) { t.emergency }

  predicate IsAssigned(t: Ticket) { t.employeeId.Some? }

  predicate IsUnassigned(t: Ticket) { t.employeeId.None? }

  function TicketId(t: Ticket): int { t.id }

  /** The result of an endpoint: Results.Ok(value), Results.NotFound() or Results.BadRequest(). */
  datatype Response<T> = Ok(value: T) | NotFound | BadRequest
}
