/** The read-only ticket endpoints: GET /servicetickets/... */
module TicketQueries {
  import opened Wrappers
  import opened Models
  import opened Enumerable

  /** Tickets with a given id. */
  function HasId(id: int): Ticket -> bool {
    (t: Ticket) => t.id == id
  }

  /** A ticket with its Employee and Customer navigation properties resolved. */
  datatype TicketView = TicketView(ticket: Ticket, employee: Option<Employee>, customer: Option<Customer>)

  /**
   * GET /servicetickets/{id}: the first ticket with the id, joined with the
   * first employee and the first customer whose ids match its foreign keys.
   */
  function GetTicket(tickets: seq<Ticket>, employees: seq<Employee>, customers: seq<Customer>, id: int): (r: Response<TicketView>)
    ensures r.NotFound? <==> forall t :: t in tickets ==> t.id != id
    ensures !r.BadRequest?
    ensures r.Ok? ==> exists i :: 0 <= i < |tickets| && tickets[i] == r.value.ticket && tickets[i].id == id
                                  && forall j :: 0 <= j < i ==> tickets[j].id != id
    ensures r.Ok? ==> (r.value.employee.Some? <==> exists e :: e in employees && r.value.ticket.employeeId == Some(e.id))
    ensures r.Ok? && r.value.employee.Some? ==> r.value.employee.value in employees && r.value.ticket.employeeId == Some(r.value.employee.value.id)
    ensures r.Ok? ==> (r.value.customer.Some? <==> exists c :: c in customers && c.id == r.value.ticket.customerId)
    ensures r.Ok? && r.value.customer.Some? ==> r.value.customer.value in customers && r.value.customer.value.id == r.value.ticket.customerId
    ensures r.Ok? && r.value.employee.Some? ==>
              exists i :: 0 <= i < |employees| && employees[i] == r.value.employee.value
                          && forall j :: 0 <= j < i ==> r.value.ticket.employeeId != Some(employees[j].id)
    ensures r.Ok? && r.value.customer.Some? ==>
              exists i :: 0 <= i < |customers| && customers[i] == r.value.customer.value
                          && forall j :: 0 <= j < i ==> customers[j].id != r.value.ticket.customerId
  {
    match FirstOrDefault(tickets, HasId(id))
    case None => NotFound
    case Some(t) =>
      Ok(TicketView(t,
                    FirstOrDefault(employees, (e: Employee) => t.employeeId == Some(e.id)),
                    FirstOrDefault(customers, (c: Customer) => c.id == t.customerId)))
  }

  /** GET /servicetickets/openemergencies: open tickets, then emergencies among them. */
  function OpenEmergencies(tickets: seq<Ticket>): (r: seq<Ticket>)
    ensures forall t :: t in r <==> t in tickets && IsOpen(t) && t.emergency
  {
    Where(Where(tickets, IsOpen), IsEmergency)
  }

  predicate IsOpenEmergency(t: Ticket) { IsOpen(t) && t.emergency }

  /** The two filters are one order-preserving filter of the stored tickets. */
  lemma OpenEmergenciesInStoredOrder(tickets: seq<Ticket>)
    ensures OpenEmergencies(tickets) == Where(tickets, IsOpenEmergency)
    ensures IsSubsequence(OpenEmergencies(tickets), tickets)
  {
    WhereWhere(tickets, IsOpen, IsEmergency, IsOpenEmergency);
    WhereIsSubsequence(tickets, IsOpenEmergency);
  }

  /** GET /servicetickets/unassigned: the tickets with no employee, in stored order. */
  function Unassigned(tickets: seq<Ticket>): (r: seq<Ticket>)
    ensures forall t :: t in r <==> t in tickets && t.employeeId.None?
  {
    Where(tickets, IsUnassigned)
  }

  lemma UnassignedInStoredOrder(tickets: seq<Ticket>)
    ensures IsSubsequence(Unassigned(tickets), tickets)
    ensures forall t :: t in tickets && t.employeeId.None? ==> multiset(Unassigned(tickets))[t] == multiset(tickets)[t]
  {
    WhereIsSubsequence(tickets, IsUnassigned);
    WhereCounts(tickets, IsUnassigned);
  }

  /**
   * The composite key of OrderByDescending(Emergency).ThenBy(EmployeeId != null):
   * emergencies (0, 1) before the rest (2, 3), and within each, unassigned
   * (even) before assigned (odd).
   */
  function PriorityRank(t: Ticket): (k: int)
    ensures 0 <= k < 4
  {
    (if t.emergency then 0 else 2) + (if IsAssigned(t) then 1 else 0)
  }

  /** Sorting by the rank is sorting by emergency descending, then by assigned ascending. */
  lemma PriorityRankIsCompositeKey(a: Ticket, b: Ticket)
    ensures PriorityRank(a) < PriorityRank(b) <==>
              (a.emergency && !b.emergency) || (a.emergency == b.emergency && !IsAssigned(a) && IsAssigned(b))
    ensures PriorityRank(a) == PriorityRank(b) <==> a.emergency == b.emergency && IsAssigned(a) == IsAssigned(b)
  {
  }

  /** GET /servicetickets/prioritized: the open tickets, stably sorted by PriorityRank. */
  function Prioritized(tickets: seq<Ticket>): (r: seq<Ticket>)
    ensures multiset(r) == multiset(Where(tickets, IsOpen))
    ensures forall i, j :: 0 <= i < j < |r| && r[j].emergency ==> r[i].emergency
    ensures forall i, j :: 0 <= i < j < |r| && r[i].emergency == r[j].emergency && IsUnassigned(r[j]) ==> IsUnassigned(r[i])
  {
    SortBy(Where(tickets, IsOpen), PriorityRank)
  }

  /** Open tickets with the given emergency flag and assignment. */
  function Tier(emergency: bool, hasEmployee: bool): Ticket -> bool {
    (t: Ticket) => IsOpen(t) && t.emergency == emergency && IsAssigned(t) == hasEmployee
  }

  /** The prioritized list specified without sorting: four order-preserving filters, one per tier. */
  function PrioritizedTiers(tickets: seq<Ticket>): seq<Ticket> {
    Where(tickets, Tier(true, false)) + (Where(tickets, Tier(true, true))
      + (Where(tickets, Tier(false, false)) + Where(tickets, Tier(false, true))))
  }

  /** The sorted view is exactly the four tiers in order: emergencies first, unassigned first within each. */
  lemma PrioritizedMatchesTiers(tickets: seq<Ticket>)
    ensures Prioritized(tickets) == PrioritizedTiers(tickets)
  {
    var open := Where(tickets, IsOpen);
    SortByIsKeyBlocks(open, PriorityRank, 0, 4);
    RankBlocksAreTiers(tickets);
  }

  /** The four rank blocks of the open tickets are the four tiers. */
  lemma RankBlocksAreTiers(tickets: seq<Ticket>)
    ensures KeyBlocks(Where(tickets, IsOpen), PriorityRank, 0, 4) == PrioritizedTiers(tickets)
  {
    var open := Where(tickets, IsOpen);
    var w0, w1, w2, w3 := Where(open, KeyIs(PriorityRank, 0)), Where(open, KeyIs(PriorityRank, 1)),
                          Where(open, KeyIs(PriorityRank, 2)), Where(open, KeyIs(PriorityRank, 3));
    assert KeyBlocks(open, PriorityRank, 4, 4) == [];
    assert KeyBlocks(open, PriorityRank, 3, 4) == w3 by {
      assert w3 + [] == w3;
    }
    assert KeyBlocks(open, PriorityRank, 2, 4) == w2 + w3;
    assert KeyBlocks(open, PriorityRank, 1, 4) == w1 + (w2 + w3);
    assert KeyBlocks(open, PriorityRank, 0, 4) == w0 + (w1 + (w2 + w3));
    forall x: Ticket ensures Tier(true, false)(x) == (IsOpen(x) && KeyIs(PriorityRank, 0)(x)) {}
    forall x: Ticket ensures Tier(true, true)(x) == (IsOpen(x) && KeyIs(PriorityRank, 1)(x)) {}
    forall x: Ticket ensures Tier(false, false)(x) == (IsOpen(x) && KeyIs(PriorityRank, 2)(x)) {}
    forall x: Ticket ensures Tier(false, true)(x) == (IsOpen(x) && KeyIs(PriorityRank, 3)(x)) {}
    WhereWhere(tickets, IsOpen, KeyIs(PriorityRank, 0), Tier(true, false));
    WhereWhere(tickets, IsOpen, KeyIs(PriorityRank, 1), Tier(true, true));
    WhereWhere(tickets, IsOpen, KeyIs(PriorityRank, 2), Tier(false, false));
    WhereWhere(tickets, IsOpen, KeyIs(PriorityRank, 3), Tier(false, true));
  }

  /** Tickets of equal rank appear in the order they are stored in. */
  lemma PrioritizedIsStable(tickets: seq<Ticket>, k: int)
    ensures Where(Prioritized(tickets), KeyIs(PriorityRank, k)) == Where(Where(tickets, IsOpen), KeyIs(PriorityRank, k))
  {
    SortByStable(Where(tickets, IsOpen), PriorityRank, k);
  }

  /** The completion date as a sort key; a ticket with none would sort first, as null does. */
  function CompletionRank(t: Ticket): (k: int)
    ensures IsOpen(t) ==> k < 0
    ensures IsCompleted(t) ==> 0 <= k
  {
    match t.dateCompleted
    case None => -1
    case Some(d) => Ordinal(d)
  }

  /** GET /servicetickets/past: the completed tickets, stably sorted by completion date. */
  function Past(tickets: seq<Ticket>): (r: seq<Ticket>)
    ensures multiset(r) == multiset(Where(tickets, IsCompleted))
    ensures forall i :: 0 <= i < |r| ==> IsCompleted(r[i])
    ensures forall i, j :: 0 <= i < j < |r| ==> !Before(r[j].dateCompleted.value, r[i].dateCompleted.value)
  {
    var r := SortBy(Where(tickets, IsCompleted), CompletionRank);
    SortByMembers(Where(tickets, IsCompleted), CompletionRank);
    assert forall i :: 0 <= i < |r| ==> r[i] in r;
    RankOrderIsChronological(r);
    r
  }

  lemma RankOrderIsChronological(r: seq<Ticket>)
    requires forall i :: 0 <= i < |r| ==> r[i].dateCompleted.Some?
    requires SortedBy(r, CompletionRank)
    ensures forall i, j :: 0 <= i < j < |r| ==> !Before(r[j].dateCompleted.value, r[i].dateCompleted.value)
  {
    forall i, j | 0 <= i < j < |r|
      ensures !Before(r[j].dateCompleted.value, r[i].dateCompleted.value)
    {
      assert CompletionRank(r[i]) <= CompletionRank(r[j]);
      OrdinalOrder(r[j].dateCompleted.value, r[i].dateCompleted.value);
    }
  }

  /** Tickets completed on a given date. */
  function CompletedOn(d: Date): Ticket -> bool {
    (t: Ticket) => t.dateCompleted == Some(d)
  }

  /** Tickets completed on the same date appear in the order they are stored in. */
  lemma PastIsStable(tickets: seq<Ticket>, d: Date)
    ensures Where(Past(tickets), CompletedOn(d)) == Where(tickets, CompletedOn(d))
  {
    var completed := Where(tickets, IsCompleted);
    var k := Ordinal(d);
    forall t: Ticket ensures KeyIs(CompletionRank, k)(t) == CompletedOn(d)(t) {
      assert KeyIs(CompletionRank, k)(t) == (CompletionRank(t) == k);
      assert CompletedOn(d)(t) == (t.dateCompleted == Some(d));
      if t.dateCompleted.Some? {
        OrdinalOrder(t.dateCompleted.value, d);
      }
    }
    WhereSamePredicate(Past(tickets), CompletedOn(d), KeyIs(CompletionRank, k));
    SortByStable(completed, CompletionRank, k);
    WhereSamePredicate(completed, KeyIs(CompletionRank, k), CompletedOn(d));
    WhereWhere(tickets, IsCompleted, CompletedOn(d), CompletedOn(d));
  }
}
