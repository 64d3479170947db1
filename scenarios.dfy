/** The queries on the seeded data, worked out. */
module Scenarios {
  import opened Wrappers
  import opened Models
  import opened Enumerable
  import opened TicketQueries
  import opened EmployeeQueries
  import opened CustomerQueries
  import opened Seed

  function Keep<T>(t: T, p: T -> bool): seq<T> {
    if p(t) then [t] else []
  }

  /** A filter of a few elements, one element at a time. */
  lemma WhereTwo<T(!new)>(t1: T, t2: T, p: T -> bool)
    ensures Where([t1, t2], p) == Keep(t1, p) + Keep(t2, p)
  {
    WhereCons(t2, [], p);
    WhereCons(t1, [t2], p);
    assert [t1, t2] == [t1] + [t2];
  }

  lemma WhereThree<T(!new)>(t1: T, t2: T, t3: T, p: T -> bool)
    ensures Where([t1, t2, t3], p) == Keep(t1, p) + (Keep(t2, p) + Keep(t3, p))
  {
    WhereTwo(t2, t3, p);
    WhereCons(t1, [t2, t3], p);
    assert [t1, t2, t3] == [t1] + [t2, t3];
  }

  lemma WhereFour<T(!new)>(t1: T, t2: T, t3: T, t4: T, p: T -> bool)
    ensures Where([t1, t2, t3, t4], p) == Keep(t1, p) + (Keep(t2, p) + (Keep(t3, p) + Keep(t4, p)))
  {
    WhereThree(t2, t3, t4, p);
    WhereCons(t1, [t2, t3, t4], p);
    assert [t1, t2, t3, t4] == [t1] + [t2, t3, t4];
  }

  lemma WhereFive<T(!new)>(t1: T, t2: T, t3: T, t4: T, t5: T, p: T -> bool)
    ensures Where([t1, t2, t3, t4, t5], p) == Keep(t1, p) + (Keep(t2, p) + (Keep(t3, p) + (Keep(t4, p) + Keep(t5, p))))
  {
    WhereFour(t2, t3, t4, t5, p);
    WhereCons(t1, [t2, t3, t4, t5], p);
    assert [t1, t2, t3, t4, t5] == [t1] + [t2, t3, t4, t5];
  }

  lemma WhereSix<T(!new)>(t1: T, t2: T, t3: T, t4: T, t5: T, t6: T, p: T -> bool)
    ensures Where([t1, t2, t3, t4, t5, t6], p) == Keep(t1, p) + (Keep(t2, p) + (Keep(t3, p) + (Keep(t4, p) + (Keep(t5, p) + Keep(t6, p)))))
  {
    WhereFive(t2, t3, t4, t5, t6, p);
    WhereCons(t1, [t2, t3, t4, t5, t6], p);
    assert [t1, t2, t3, t4, t5, t6] == [t1] + [t2, t3, t4, t5, t6];
  }

  lemma WhereSeven<T(!new)>(t1: T, t2: T, t3: T, t4: T, t5: T, t6: T, t7: T, p: T -> bool)
    ensures Where([t1, t2, t3, t4, t5, t6, t7], p) == Keep(t1, p) + (Keep(t2, p) + (Keep(t3, p) + (Keep(t4, p) + (Keep(t5, p) + (Keep(t6, p) + Keep(t7, p))))))
  {
    WhereSix(t2, t3, t4, t5, t6, t7, p);
    WhereCons(t1, [t2, t3, t4, t5, t6, t7], p);
    assert [t1, t2, t3, t4, t5, t6, t7] == [t1] + [t2, t3, t4, t5, t6, t7];
  }

  /** `t` alone when the filter keeps it, nothing otherwise, with the verdict given as `b`. */
  function Pick<T>(t: T, b: bool): seq<T> {
    if b then [t] else []
  }

  /** A filter of seven elements whose verdicts are known in advance. */
  lemma WhereSevenPicks<T(!new)>(t1: T, t2: T, t3: T, t4: T, t5: T, t6: T, t7: T, p: T -> bool,
                                 b1: bool, b2: bool, b3: bool, b4: bool, b5: bool, b6: bool, b7: bool)
    requires p(t1) == b1 && p(t2) == b2 && p(t3) == b3 && p(t4) == b4
    requires p(t5) == b5 && p(t6) == b6 && p(t7) == b7
    ensures Where([t1, t2, t3, t4, t5, t6, t7], p)
         == Pick(t1, b1) + (Pick(t2, b2) + (Pick(t3, b3) + (Pick(t4, b4) + (Pick(t5, b5) + (Pick(t6, b6) + Pick(t7, b7))))))
  {
    WhereSeven(t1, t2, t3, t4, t5, t6, t7, p);
  }

  /** A filter of the seeded tickets, given the verdict on each. */
  lemma WhereSeedTickets(p: Ticket -> bool, b1: bool, b2: bool, b3: bool, b4: bool, b5: bool, b6: bool, b7: bool)
    requires p(Ticket1) == b1 && p(Ticket2) == b2 && p(Ticket3) == b3 && p(Ticket4) == b4
    requires p(Ticket5) == b5 && p(Ticket6) == b6 && p(Ticket7) == b7
    ensures Where(Tickets, p)
         == Pick(Ticket1, b1) + (Pick(Ticket2, b2) + (Pick(Ticket3, b3) + (Pick(Ticket4, b4)
          + (Pick(Ticket5, b5) + (Pick(Ticket6, b6) + Pick(Ticket7, b7))))))
  {
    WhereSevenPicks(Ticket1, Ticket2, Ticket3, Ticket4, Ticket5, Ticket6, Ticket7, p, b1, b2, b3, b4, b5, b6, b7);
  }

  /** The seeded tickets that are open emergencies. */
  lemma OpenEmergencyVerdicts()
    ensures !IsOpenEmergency(Ticket1) && IsOpenEmergency(Ticket2) && !IsOpenEmergency(Ticket3) && !IsOpenEmergency(Ticket4)
    ensures !IsOpenEmergency(Ticket5) && IsOpenEmergency(Ticket6) && IsOpenEmergency(Ticket7)
  {
  }

  /** Tickets 2, 6 and 7 are the open emergencies. */
  lemma SeedOpenEmergencies()
    ensures OpenEmergencies(Tickets) == [Ticket2, Ticket6, Ticket7]
  {
    OpenEmergenciesInStoredOrder(Tickets);
    OpenEmergencyVerdicts();
    WhereSeedTickets(IsOpenEmergency, false, true, false, false, false, true, true);
  }

  /** The seeded tickets without an employee. */
  lemma UnassignedVerdicts()
    ensures !IsUnassigned(Ticket1) && IsUnassigned(Ticket2) && IsUnassigned(Ticket3) && !IsUnassigned(Ticket4)
    ensures !IsUnassigned(Ticket5) && !IsUnassigned(Ticket6) && IsUnassigned(Ticket7)
  {
  }

  lemma SeedUnassignedFilter()
    ensures Where(Tickets, IsUnassigned) == [Ticket2, Ticket3, Ticket7]
  {
    UnassignedVerdicts();
    WhereSeedTickets(IsUnassigned, false, true, true, false, false, false, true);
  }

  /** Tickets 2, 3 and 7 have no employee. */
  lemma SeedUnassigned()
    ensures Unassigned(Tickets) == [Ticket2, Ticket3, Ticket7]
  {
    SeedUnassignedFilter();
  }

  /** The seeded tickets in the tier Tier(true, false). */
  lemma EmergencyUnassignedVerdicts()
    ensures !Tier(true, false)(Ticket1) && Tier(true, false)(Ticket2) && !Tier(true, false)(Ticket3) && !Tier(true, false)(Ticket4)
    ensures !Tier(true, false)(Ticket5) && !Tier(true, false)(Ticket6) && Tier(true, false)(Ticket7)
  {
  }

  lemma SeedEmergencyUnassigned()
    ensures Where(Tickets, Tier(true, false)) == [Ticket2, Ticket7]
  {
    EmergencyUnassignedVerdicts();
    WhereSeedTickets(Tier(true, false), false, true, false, false, false, false, true);
  }

  /** The seeded tickets in the tier Tier(true, true). */
  lemma EmergencyAssignedVerdicts()
    ensures !Tier(true, true)(Ticket1) && !Tier(true, true)(Ticket2) && !Tier(true, true)(Ticket3) && !Tier(true, true)(Ticket4)
    ensures !Tier(true, true)(Ticket5) && Tier(true, true)(Ticket6) && !Tier(true, true)(Ticket7)
  {
  }

  lemma SeedEmergencyAssigned()
    ensures Where(Tickets, Tier(true, true)) == [Ticket6]
  {
    EmergencyAssignedVerdicts();
    WhereSeedTickets(Tier(true, true), false, false, false, false, false, true, false);
  }

  /** The seeded tickets in the tier Tier(false, false). */
  lemma RoutineUnassignedVerdicts()
    ensures !Tier(false, false)(Ticket1) && !Tier(false, false)(Ticket2) && Tier(false, false)(Ticket3) && !Tier(false, false)(Ticket4)
    ensures !Tier(false, false)(Ticket5) && !Tier(false, false)(Ticket6) && !Tier(false, false)(Ticket7)
  {
  }

  lemma SeedRoutineUnassigned()
    ensures Where(Tickets, Tier(false, false)) == [Ticket3]
  {
    RoutineUnassignedVerdicts();
    WhereSeedTickets(Tier(false, false), false, false, true, false, false, false, false);
  }

  /** The seeded tickets in the tier Tier(false, true). */
  lemma RoutineAssignedVerdicts()
    ensures !Tier(false, true)(Ticket1) && !Tier(false, true)(Ticket2) && !Tier(false, true)(Ticket3) && Tier(false, true)(Ticket4)
    ensures Tier(false, true)(Ticket5) && !Tier(false, true)(Ticket6) && !Tier(false, true)(Ticket7)
  {
  }

  lemma SeedRoutineAssigned()
    ensures Where(Tickets, Tier(false, true)) == [Ticket4, Ticket5]
  {
    RoutineAssignedVerdicts();
    WhereSeedTickets(Tier(false, true), false, false, false, true, true, false, false);
  }

  /** The prioritized view of any tickets, given its four tiers. */
  lemma PrioritizedFromTiers(tickets: seq<Ticket>, a: seq<Ticket>, b: seq<Ticket>, c: seq<Ticket>, d: seq<Ticket>)
    requires Where(tickets, Tier(true, false)) == a && Where(tickets, Tier(true, true)) == b
    requires Where(tickets, Tier(false, false)) == c && Where(tickets, Tier(false, true)) == d
    ensures Prioritized(tickets) == a + (b + (c + d))
  {
    PrioritizedMatchesTiers(tickets);
  }

  lemma ConcatTiers<T>(t1: T, t2: T, t3: T, t4: T, t5: T, t6: T)
    ensures [t1, t2] + ([t3] + ([t4] + [t5, t6])) == [t1, t2, t3, t4, t5, t6]
  {
  }

  /** Open emergencies without an employee (2, 7), with one (6), then the rest likewise (3; 4, 5). */
  lemma SeedPrioritized()
    ensures Prioritized(Tickets) == [Ticket2, Ticket7, Ticket6, Ticket3, Ticket4, Ticket5]
  {
    SeedEmergencyUnassigned();
    SeedEmergencyAssigned();
    SeedRoutineUnassigned();
    SeedRoutineAssigned();
    PrioritizedFromTiers(Tickets, [Ticket2, Ticket7], [Ticket6], [Ticket3], [Ticket4, Ticket5]);
    ConcatTiers(Ticket2, Ticket7, Ticket6, Ticket3, Ticket4, Ticket5);
  }

  /** Only ticket 1 is completed. */
  lemma CompletedVerdicts()
    ensures IsCompleted(Ticket1) && !IsCompleted(Ticket2) && !IsCompleted(Ticket3) && !IsCompleted(Ticket4)
    ensures !IsCompleted(Ticket5) && !IsCompleted(Ticket6) && !IsCompleted(Ticket7)
  {
  }

  /** Ticket 1 is the only completed ticket. */
  lemma SeedPast()
    ensures Past(Tickets) == [Ticket1]
  {
    CompletedVerdicts();
    WhereSeedTickets(IsCompleted, true, false, false, false, false, false, false);
    assert SortBy([Ticket1], CompletionRank) == InsertBy(Ticket1, [], CompletionRank);
  }

  /** Employee 1's only ticket is completed. */
  lemma SeedFirstEmployeeAvailable()
    ensures IsAvailable(Tickets)(Employees[0])
  {
    assert forall i :: 0 <= i < |Tickets| ==> !OpenFor(1)(Tickets[i]);
  }

  /** Employee 2 holds the open ticket 4, employee 3 the open ticket 5. */
  lemma SeedOtherEmployeesBusy()
    ensures !IsAvailable(Tickets)(Employees[1])
    ensures !IsAvailable(Tickets)(Employees[2])
  {
    assert OpenFor(2)(Tickets[3]);
    assert OpenFor(3)(Tickets[4]);
  }

  /** Only employee 1 is available: employees 2 and 3 hold open tickets. */
  lemma SeedAvailable()
    ensures Available(Employees, Tickets) == [Employees[0]]
  {
    var p := IsAvailable(Tickets);
    WhereThree(Employees[0], Employees[1], Employees[2], p);
    var k1, k2, k3 := Keep(Employees[0], p), Keep(Employees[1], p), Keep(Employees[2], p);
    assert Employees == [Employees[0], Employees[1], Employees[2]];
    assert Where(Employees, p) == k1 + (k2 + k3);
    SeedFirstEmployeeAvailable();
    SeedOtherEmployeesBusy();
    assert k1 == [Employees[0]] && k2 == [] && k3 == [];
  }

  /** Only ticket 1 is assigned to employee 1. */
  lemma AssignedToFirstVerdicts()
    ensures AssignedTo(1)(Ticket1) && !AssignedTo(1)(Ticket2) && !AssignedTo(1)(Ticket3) && !AssignedTo(1)(Ticket4)
    ensures !AssignedTo(1)(Ticket5) && !AssignedTo(1)(Ticket6) && !AssignedTo(1)(Ticket7)
  {
  }

  /** Employee 1 completed ticket 1 in December 2021. */
  lemma SeedFirstEmployeeDecember()
    ensures MonthlyCount(Tickets, 1, CalendarDay(2021, 12, 1)) == 1
  {
    AssignedToFirstVerdicts();
    WhereSeedTickets(AssignedTo(1), true, false, false, false, false, false, false);
    WhereCons(Ticket1, [], CompletedIn(CalendarDay(2021, 12, 1)));
    assert [Ticket1] + [] == [Ticket1];
  }

  /** Ticket 1 is the only ticket completed in December 2021, and employee 1 holds it. */
  lemma DecemberVerdicts(id: int)
    requires id != 1
    ensures !CompletedBy(id, CalendarDay(2021, 12, 1))(Ticket1)
    ensures !CompletedBy(id, CalendarDay(2021, 12, 1))(Ticket2) && !CompletedBy(id, CalendarDay(2021, 12, 1))(Ticket3)
    ensures !CompletedBy(id, CalendarDay(2021, 12, 1))(Ticket4) && !CompletedBy(id, CalendarDay(2021, 12, 1))(Ticket5)
    ensures !CompletedBy(id, CalendarDay(2021, 12, 1))(Ticket6) && !CompletedBy(id, CalendarDay(2021, 12, 1))(Ticket7)
  {
  }

  /** Nobody but employee 1 completed a ticket in December 2021. */
  lemma SeedOtherEmployeesDecember(id: int)
    requires id != 1
    ensures MonthlyCount(Tickets, id, CalendarDay(2021, 12, 1)) == 0
  {
    var december: Date := CalendarDay(2021, 12, 1);
    DecemberVerdicts(id);
    WhereSeedTickets(CompletedBy(id, december), false, false, false, false, false, false, false);
  }

  /** Employees 2 and 3 completed nothing in December 2021. */
  lemma SeedLaterEmployeesDecember()
    ensures MonthlyCount(Tickets, Employees[1].id, CalendarDay(2021, 12, 1)) == 0
    ensures MonthlyCount(Tickets, Employees[2].id, CalendarDay(2021, 12, 1)) == 0
  {
    SeedOtherEmployeesDecember(2);
    SeedOtherEmployeesDecember(3);
  }

  /** Of three employees, the first wins when it alone completed something. */
  lemma FirstOfThreeWins(e1: Employee, e2: Employee, e3: Employee, tickets: seq<Ticket>, month: Date)
    requires MonthlyCount(tickets, e1.id, month) > 0
    requires MonthlyCount(tickets, e2.id, month) == 0 && MonthlyCount(tickets, e3.id, month) == 0
    ensures EmployeeOfTheMonth([e1, e2, e3], tickets, month) == Some(e1)
  {
    var es := [e1, e2, e3];
    forall j | 0 <= j < |es| && j != 0 ensures MonthlyCount(tickets, es[j].id, month) == 0 {
      if j == 1 {
        assert es[j] == e2;
      } else {
        assert es[j] == e3;
      }
    }
    SoleCompleterWins(es, tickets, month, 0);
  }

  /** Ticket 1, completed by employee 1 in December 2021, decides December 2021. */
  lemma SeedEmployeeOfTheMonth()
    ensures EmployeeOfTheMonth(Employees, Tickets, CalendarDay(2021, 12, 1)) == Some(Employees[0])
  {
    SeedFirstEmployeeDecember();
    SeedLaterEmployeesDecember();
    FirstOfThreeWins(Employees[0], Employees[1], Employees[2], Tickets, CalendarDay(2021, 12, 1));
  }

  /** Ticket 1, the only completed one, was completed before 18 October 2025. */
  lemma SeedAllCompletedBefore(id: int)
    ensures AllCompletedBefore(Tickets, id, CalendarDay(2025, 10, 18))
  {
    forall t | t in Tickets && t.customerId == id && t.dateCompleted.Some?
      ensures Before(t.dateCompleted.value, CalendarDay(2025, 10, 18))
    {
      CompletedVerdicts();
      assert t == Ticket1;
    }
  }

  /** A year before 18 October 2026, every seeded customer is inactive. */
  lemma SeedInactive()
    ensures Inactive(Customers, Tickets, CalendarDay(2025, 10, 18)) == Customers
  {
    var cutoff: Date := CalendarDay(2025, 10, 18);
    forall c | c in Customers ensures IsInactive(Tickets, cutoff)(c) {
      SeedAllCompletedBefore(c.id);
    }
    WhereKeepsAll(Customers, IsInactive(Tickets, cutoff));
  }
}
