/** The read-only customer endpoints: GET /customers/... */
module CustomerQueries {
  import opened Wrappers
  import opened Models
  import opened Enumerable

  function HasCustomerId(id: int): Customer -> bool {
    (c: Customer) => c.id == id
  }

  /** Tickets belonging to the customer `id`. */
  function OwnedBy(id: int): Ticket -> bool {
    (t: Ticket) => t.customerId == id
  }

  /** A customer with their tickets attached. */
  datatype CustomerView = CustomerView(customer: Customer, tickets: seq<Ticket>)

  /** GET /customers/{id}: the first customer with the id and all of its tickets, in stored order. */
  function GetCustomer(customers: seq<Customer>, tickets: seq<Ticket>, id: int): (r: Response<CustomerView>)
    ensures r.NotFound? <==> forall c :: c in customers ==> c.id != id
    ensures !r.BadRequest?
    ensures r.Ok? ==> exists i :: 0 <= i < |customers| && customers[i] == r.value.customer && customers[i].id == id
                                  && forall j :: 0 <= j < i ==> customers[j].id != id
    ensures r.Ok? ==> forall t :: t in r.value.tickets <==> t in tickets && t.customerId == id
  {
    match FirstOrDefault(customers, HasCustomerId(id))
    case None => NotFound
    case Some(c) => Ok(CustomerView(c, Where(tickets, OwnedBy(id))))
  }

  /** The later of two optional dates; null counts as nothing, as Max on DateTime? skips nulls. */
  function Later(a: Option<Date>, b: Option<Date>): (r: Option<Date>)
    ensures r == a || r == b
    ensures r.None? <==> a.None? && b.None?
    ensures a.Some? ==> !Before(r.value, a.value)
    ensures b.Some? ==> !Before(r.value, b.value)
  {
    match (a, b)
    case (None, _) => b
    case (_, None) => a
    case (Some(x), Some(y)) => if Before(x, y) then b else a
  }

  /** Max(t => t.DateCompleted): the latest completion date, or null when no ticket is completed. */
  function LatestCompletion(tickets: seq<Ticket>): (r: Option<Date>)
    ensures r.None? <==> forall i :: 0 <= i < |tickets| ==> IsOpen(tickets[i])
    ensures r.Some? ==> exists i :: 0 <= i < |tickets| && tickets[i].dateCompleted == r
    ensures r.Some? ==> forall i :: 0 <= i < |tickets| && tickets[i].dateCompleted.Some? ==>
                          !Before(r.value, tickets[i].dateCompleted.value)
    decreases |tickets|
  {
    if tickets == [] then None
    else
      assert forall i :: 1 <= i < |tickets| ==> tickets[i] == tickets[1..][i - 1];
      Later(tickets[0].dateCompleted, LatestCompletion(tickets[1..]))
  }

  /** Every completed ticket of the customer `id` was completed before `cutoff`. */
  ghost predicate AllCompletedBefore(tickets: seq<Ticket>, id: int, cutoff: Date) {
    forall t :: t in tickets && t.customerId == id && t.dateCompleted.Some? ==> Before(t.dateCompleted.value, cutoff)
  }

  /**
   * Today - (latest completion ?? DateTime.MinValue) > one year, taken as
   * "the latest completion, or MinDate, is before `cutoff`", where `cutoff` is
   * today minus one year: the customer has no ticket completed on or after
   * the cutoff.
   */
  function IsInactive(tickets: seq<Ticket>, cutoff: Date): (inactive: Customer -> bool)
    ensures forall c :: inactive(c) <==> cutoff != MinDate && AllCompletedBefore(tickets, c.id, cutoff)
  {
    assert forall c: Customer :: Before(LatestCompletion(Where(tickets, OwnedBy(c.id))).GetOr(MinDate), cutoff)
                                 <==> cutoff != MinDate && AllCompletedBefore(tickets, c.id, cutoff) by {
      forall c: Customer ensures Before(LatestCompletion(Where(tickets, OwnedBy(c.id))).GetOr(MinDate), cutoff)
                                 <==> cutoff != MinDate && AllCompletedBefore(tickets, c.id, cutoff) {
        InactiveCharacterized(tickets, cutoff, c);
      }
    }
    (c: Customer) => Before(LatestCompletion(Where(tickets, OwnedBy(c.id))).GetOr(MinDate), cutoff)
  }

  /**
   * GET /customers/inactive: the customers none of whose tickets was completed
   * on or after `cutoff`; a customer with no completed ticket, or no ticket at
   * all, is one of them.
   */
  function Inactive(customers: seq<Customer>, tickets: seq<Ticket>, cutoff: Date): (r: seq<Customer>)
    ensures cutoff != MinDate ==> forall c :: c in r <==> (c in customers && AllCompletedBefore(tickets, c.id, cutoff))
    ensures cutoff == MinDate ==> r == []
  {
    var r := Where(customers, IsInactive(tickets, cutoff));
    assert cutoff == MinDate ==> r == [] by {
      if cutoff == MinDate {
        WhereKeepsNone(customers, IsInactive(tickets, cutoff));
      }
    }
    r
  }

  /** The latest completion, or MinDate, is before the cutoff iff every completion of the customer is. */
  lemma InactiveCharacterized(tickets: seq<Ticket>, cutoff: Date, c: Customer)
    ensures Before(LatestCompletion(Where(tickets, OwnedBy(c.id))).GetOr(MinDate), cutoff)
            <==> cutoff != MinDate && AllCompletedBefore(tickets, c.id, cutoff)
  {
    var mine := Where(tickets, OwnedBy(c.id));
    var latest := LatestCompletion(mine);
    MinDateIsEarliest(cutoff);
    match latest
    case None =>
      forall t | t in tickets && t.customerId == c.id ensures t.dateCompleted.None? {
        assert t in mine;
      }
    case Some(d) =>
      var i :| 0 <= i < |mine| && mine[i].dateCompleted == latest;
      assert mine[i] in tickets && mine[i].customerId == c.id;
      forall t | t in tickets && t.customerId == c.id && t.dateCompleted.Some?
        ensures !Before(d, t.dateCompleted.value)
      {
        assert t in mine;
        var j :| 0 <= j < |mine| && mine[j] == t;
      }
  }
}
