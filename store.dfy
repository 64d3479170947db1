/**
 * The registry's state and the ticket commands that change it: POST, PATCH
 * .../complete, PUT and DELETE on /servicetickets. Customers and employees
 * are read-only.
 */
module Store {
  import opened Wrappers
  import opened Models
  import opened Enumerable
  import opened TicketQueries
  import Seed

  /** Max(st => st.Id) + 1: larger than every stored id. Max throws on an empty list, hence the requires. */
  function NextId(tickets: seq<Ticket>): (id: int)
    requires tickets != []
    ensures forall t :: t in tickets ==> t.id < id
    ensures exists t :: t in tickets && t.id == id - 1
  {
    Max(tickets, TicketId) + 1
  }

  /** A ticket after completion: the date is set only if it was not set already. */
  function Completed(t: Ticket, today: Date): (r: Ticket)
    ensures IsCompleted(r)
    ensures r.(dateCompleted := t.dateCompleted) == t
    ensures IsOpen(t) ==> r.dateCompleted == Some(today)
    ensures IsCompleted(t) ==> r == t
  {
    if IsOpen(t) then t.(dateCompleted := Some(today)) else t
  }

  /** The ticket list after completing `id`: only the first ticket with that id can change. */
  function CompleteIn(tickets: seq<Ticket>, id: int, today: Date): (r: seq<Ticket>)
    ensures |r| == |tickets|
    ensures forall i :: 0 <= i < |tickets| ==> r[i] == tickets[i] || r[i] == Completed(tickets[i], today)
    ensures forall i :: 0 <= i < |tickets| && r[i] != tickets[i] ==>
              tickets[i].id == id && forall j :: 0 <= j < i ==> tickets[j].id != id
    ensures forall i :: 0 <= i < |tickets| && tickets[i].id == id && (forall j :: 0 <= j < i ==> tickets[j].id != id) ==>
              r[i] == Completed(tickets[i], today)
  {
    match FirstIndex(tickets, HasId(id))
    case None => tickets
    case Some(i) => tickets[i := Completed(tickets[i], today)]
  }

  /** Completing twice is completing once: the second call keeps the first date. */
  lemma CompleteInIdempotent(tickets: seq<Ticket>, id: int, first: Date, second: Date)
    ensures CompleteIn(CompleteIn(tickets, id, first), id, second) == CompleteIn(tickets, id, first)
  {
    var once := CompleteIn(tickets, id, first);
    FirstIndexSamePositions(once, tickets, HasId(id));
    match FirstIndex(tickets, HasId(id))
    case None =>
    case Some(i) =>
      assert Completed(once[i], second) == once[i];
      assert once[i := once[i]] == once;
  }

  /** RemoveAll(st => st.Id == id): the other tickets, in stored order. */
  function RemoveAll(tickets: seq<Ticket>, id: int): (r: seq<Ticket>)
    ensures forall t :: t in r <==> t in tickets && t.id != id
    ensures IsSubsequence(r, tickets)
    ensures forall t: Ticket :: t.id != id ==> multiset(r)[t] == multiset(tickets)[t]
    ensures (forall t :: t in tickets ==> t.id != id) ==> r == tickets
  {
    var other := (t: Ticket) => t.id != id;
    WhereIsSubsequence(tickets, other);
    WhereCounts(tickets, other);
    if forall t :: t in tickets ==> t.id != id then
      WhereKeepsAll(tickets, other);
      Where(tickets, other)
    else
      Where(tickets, other)
  }

  /** A posted ticket can be fetched back, unchanged but for its new id. */
  lemma CreateThenGet(tickets: seq<Ticket>, employees: seq<Employee>, customers: seq<Customer>, ticket: Ticket)
    requires tickets != []
    ensures var created := ticket.(id := NextId(tickets));
            var r := GetTicket(tickets + [created], employees, customers, created.id);
            r.Ok? && r.value.ticket == created
  {
    var created := ticket.(id := NextId(tickets));
    var all := tickets + [created];
    var r := GetTicket(all, employees, customers, created.id);
    assert all[|tickets|] == created;
    assert r.Ok?;
    forall j | 0 <= j < |tickets| ensures all[j].id != created.id {
      assert all[j] == tickets[j];
    }
  }

  class Registry {
    var tickets: seq<Ticket>
    const customers: seq<Customer>
    const employees: seq<Employee>

    /** Ticket ids are unique; every command keeps them so. */
    ghost predicate Valid()
      reads this
    {
      Distinct(tickets, TicketId)
    }

    /** The registry as the process starts: the seeded lists. */
    constructor ()
      ensures Valid()
      ensures tickets == Seed.Tickets && customers == Seed.Customers && employees == Seed.Employees
    {
      tickets := Seed.Tickets;
      customers := Seed.Customers;
      employees := Seed.Employees;
    }

    /**
     * POST /servicetickets: give the ticket the next id and append it. Max
     * throws on an empty list, and the request then fails with nothing added:
     * None.
     */
    method Create(ticket: Ticket) returns (r: Option<Ticket>)
      requires Valid()
      modifies this
      ensures Valid()
      ensures old(tickets) == [] ==> r.None? && tickets == old(tickets)
      ensures old(tickets) != [] ==> r == Some(ticket.(id := NextId(old(tickets))))
                                     && tickets == old(tickets) + [r.value]
    {
      if tickets == [] {
        return None;
      }
      var created := ticket.(id := NextId(tickets));
      tickets := tickets + [created];
      r := Some(created);
    }

    /** PATCH /servicetickets/{id}/complete: set today's date on an open ticket; NotFound for an unknown id. */
    method Complete(id: int, today: Date) returns (r: Response<Ticket>)
      requires Valid()
      modifies this
      ensures Valid()
      ensures tickets == CompleteIn(old(tickets), id, today)
      ensures r.NotFound? <==> forall t :: t in old(tickets) ==> t.id != id
      ensures !r.BadRequest?
      ensures r.Ok? ==> Some(r.value) == FirstOrDefault(tickets, HasId(id)) && IsCompleted(r.value)
      ensures r.Ok? ==> FirstIndex(old(tickets), HasId(id)).Some?
                        && r.value == Completed(old(tickets)[FirstIndex(old(tickets), HasId(id)).value], today)
    {
      var found := FirstIndex(tickets, HasId(id));
      if found.None? {
        return NotFound;
      }
      var i := found.value;
      if tickets[i].dateCompleted.None? {
        tickets := tickets[i := tickets[i].(dateCompleted := Some(today))];
      }
      FirstIndexSamePositions(tickets, old(tickets), HasId(id));
      r := Ok(tickets[i]);
    }

    /**
     * PUT /servicetickets/{id}: NotFound for an unknown id (checked first),
     * BadRequest when the body's id differs, otherwise the first ticket with
     * the id is overwritten by the body.
     */
    method Replace(id: int, ticket: Ticket) returns (r: Response<()>)
      requires Valid()
      modifies this
      ensures Valid()
      ensures r.NotFound? <==> forall t :: t in old(tickets) ==> t.id != id
      ensures r.BadRequest? <==> (exists t :: t in old(tickets) && t.id == id) && ticket.id != id
      ensures !r.Ok? ==> tickets == old(tickets)
      ensures r.Ok? ==> FirstIndex(old(tickets), HasId(id)).Some?
                        && tickets == old(tickets)[FirstIndex(old(tickets), HasId(id)).value := ticket]
    {
      var found := FirstIndex(tickets, HasId(id));
      if found.None? {
        return NotFound;
      }
      if id != ticket.id {
        return BadRequest;
      }
      var i := found.value;
      tickets := tickets[i := ticket];
      r := Ok(());
    }

    /** DELETE /servicetickets/{id}: drop every ticket with the id; an unknown id is not an error. */
    method Delete(id: int)
      requires Valid()
      modifies this
      ensures Valid()
      ensures tickets == RemoveAll(old(tickets), id)
    {
      WhereDistinct(tickets, (t: Ticket) => t.id != id, TicketId);
      tickets := RemoveAll(tickets, id);
    }
  }
}
