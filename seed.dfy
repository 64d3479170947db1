/** The sample data every collection holds when the process starts. */
module Seed {
  import opened Wrappers
  import opened Models

  const Customers: seq<Customer> := [
    Customer(1, "Canton Thurgood", "541 Pine Grass Lane"),
    Customer(2, "Georgina Florentine", "3 Nobility Drive"),
    Customer(3, "Candelabra Muddlebuster", "10938 Hwy 40 W")
  ]

  const Employees: seq<Employee> := [
    Employee(1, "Split", "Motor Refurb"),
    Employee(2, "Hannah Marshall", "Window Repair"),
    Employee(3, "Colonel Mustard", "Pugnacious Litigation")
  ]

  const Ticket1 := Ticket(1, 3, Some(1), "Timing Belt Replacement", false, Some(CalendarDay(2021, 12, 12)))
  const Ticket2 := Ticket(2, 2, None, "Pistons Seized", true, None)
  const Ticket3 := Ticket(3, 3, None, "Torn Rotator Cuff", false, None)
  const Ticket4 := Ticket(4, 1, Some(2), "Chipped Windscreen", false, None)
  const Ticket5 := Ticket(5, 1, Some(3), "Chipped Rearscreen", false, None)
  const Ticket6 := Ticket(6, 1, Some(2), "Attempted Vehicle Theft with Full Glass Loss", true, None)
  const Ticket7 := Ticket(7, 1, None, "Minor Graffiti", true, None)

  const Tickets: seq<Ticket> := [Ticket1, Ticket2, Ticket3, Ticket4, Ticket5, Ticket6, Ticket7]
}
