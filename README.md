# HoneyRaes repair-shop registry, modelled in Dafny

HoneyRaesAPI is a small ASP.NET minimal-API service for a repair shop. It keeps
three in-memory lists (customers, employees, service tickets) seeded at start-up.
Every endpoint is a lambda over those lists in `Program.cs`. This project models
that file:

- `Models`: the three entities (`Customer`, `Employee`, `Ticket`), calendar dates
  (`Date`, ordered by `Before`, sorted by `Ordinal`) and the endpoint outcome
  `Response` (`Ok`, `NotFound`, `BadRequest`).
- `Enumerable`: the LINQ operators the endpoints use: `Where`, `Any`,
  `FirstOrDefault` (via `FirstIndex`), `Max`, and the stable `OrderBy`
  (`SortBy`, a stable insertion sort on an integer key). It also holds the
  properties the queries rely on: filters keep stored order and compose,
  and the sort is a permutation, is ordered, is stable, and groups elements
  by key.
- `Seed`: the start-up data.
- `TicketQueries`, `EmployeeQueries`, `CustomerQueries`: the GET endpoints, as
  pure functions of the lists.
- `Store`: the state and the ticket commands. `Store.Registry` is a class whose
  `tickets` field the POST, PATCH, PUT and DELETE commands reassign. Its
  invariant `Valid` says ticket ids are distinct, and every command preserves it.
- `Scenarios`: every report worked out on the seeded data.

Clock reads are parameters. `today` is `DateTime.Today` for PATCH …/complete.
`lastMonth` is `DateTime.Today.AddMonths(-1)` for the employee of the month.
`cutoff` is today minus one year for the inactive customers. With that cutoff,
"today minus the latest completion exceeds one year" is taken as "the latest
completion, or `MinDate` when there is none, is before `cutoff`". The one
day where the two can differ is listed under "## Left out".

Two behaviours of the code are worth stating outright:

- The seeded data has three open emergencies: tickets 2, 6 and 7. See
  `Scenarios.SeedOpenEmergencies`.
- PUT looks the path id up before it compares it with the body's id
  (Program.cs:122-131). An unknown id therefore answers NotFound even when
  the two ids differ. See `Store.Registry.Replace`.

## Model

| member | source | states |
|---|---|---|
| Enumerable.Where | Program.cs:69-72 | `Where(s, p)` holds exactly the elements of `s` that satisfy `p` |
| Enumerable.WhereIsSubsequence | Program.cs:69-72 | the result of `Where` is a subsequence of its input: stored order is kept |
| Enumerable.WhereCounts | Program.cs:69-72 | `Where` keeps every copy of a kept element and drops every copy of a rejected one (multiset counts) |
| Enumerable.WhereWhere | Program.cs:69-72 | two `Where` calls in a row equal one `Where` on the conjunction of the predicates |
| Enumerable.WhereConcat | Program.cs:69-72 | `Where` distributes over concatenation |
| Enumerable.WhereDistinct | Program.cs:139 | filtering keeps keys distinct |
| Enumerable.Any | Program.cs:150 | `Any(s, p)` holds iff some element of `s` satisfies `p` |
| Enumerable.FirstIndex | Program.cs:57 | `None` iff no element matches; otherwise the index of a match with no match before it |
| Enumerable.FirstOrDefault | Program.cs:57 | `None` (null) iff no element matches; otherwise the first matching element |
| Enumerable.FirstIndexSamePositions | Program.cs:108 | two sequences whose elements match the predicate at the same positions have the same first match |
| Enumerable.Max | Program.cs:101 | on a non-empty sequence, the maximum of `f` is attained and bounds every element |
| Enumerable.SortBy | Program.cs:95 | the sorted sequence is a permutation of the input (same multiset) and is ordered by the key |
| Enumerable.InsertByElements | Program.cs:95 | one insertion step adds exactly the inserted element |
| Enumerable.InsertBySorted | Program.cs:95 | one insertion step into an ordered sequence keeps it ordered |
| Enumerable.SortByStable | Program.cs:95 | elements with equal keys keep their input order (stability) |
| Enumerable.SortByIsKeyBlocks | Program.cs:79-80 | sorting by a key with values in [lo, hi) gives the elements with key lo, then lo + 1, and so on, each group in input order |
| Enumerable.InsertIntoKeyBlocks | Program.cs:79-80 | inserting an element into the key groups puts it at the head of the group for its own key |
| Enumerable.SortByFirst | Program.cs:180-184 | the first sorted element has the least key, and it is the earliest element with that key |
| Enumerable.WhereFirst | Program.cs:57 | the first element `Where` keeps is the one `FirstIndex` finds |
| Models.OrdinalOrder | Program.cs:95 | comparing `Ordinal`s is comparing dates, so sorting on `Ordinal` is sorting by date |
| Models.MinDateIsEarliest | Program.cs:207 | `MinDate` (DateTime.MinValue) is no later than any date |
| TicketQueries.GetTicket | Program.cs:55-65 | NotFound iff no ticket has the id; otherwise the first ticket with the id, joined with the first stored employee and the first stored customer whose ids match its foreign keys, or none when no stored one matches |
| TicketQueries.OpenEmergencies | Program.cs:67-73 | holds exactly the stored tickets that are open and flagged as emergencies |
| TicketQueries.OpenEmergenciesInStoredOrder | Program.cs:67-73 | the two filters equal one filter on "open emergency", so the result is a subsequence of the stored list |
| TicketQueries.Unassigned | Program.cs:84-89 | holds exactly the stored tickets without an employee |
| TicketQueries.UnassignedInStoredOrder | Program.cs:84-89 | the result is in stored order, and each unassigned ticket appears as often as it is stored |
| TicketQueries.PriorityRank | Program.cs:79-80 | the composite sort key lies in 0..3 |
| TicketQueries.PriorityRankIsCompositeKey | Program.cs:79-80 | a smaller rank means an emergency before a non-emergency, or, within one emergency flag, unassigned before assigned; equal ranks mean both flags agree |
| TicketQueries.Prioritized | Program.cs:75-82 | a permutation of the open tickets; emergencies first; within one emergency flag, unassigned tickets first |
| TicketQueries.PrioritizedMatchesTiers | Program.cs:75-82 | the sorted list equals four filters concatenated: open emergencies without an employee, with one, then open non-emergencies without and with one |
| TicketQueries.RankBlocksAreTiers | Program.cs:75-82 | the four rank groups of the open tickets are those four filters |
| TicketQueries.PrioritizedIsStable | Program.cs:75-82 | tickets of equal priority keep their stored order |
| TicketQueries.CompletionRank | Program.cs:95 | the completion-date sort key: an open ticket (null date) ranks below every completed one |
| TicketQueries.Past | Program.cs:91-97 | a permutation of the completed tickets; every result is completed; completion dates never decrease |
| TicketQueries.RankOrderIsChronological | Program.cs:95 | a list sorted by completion-date ordinal is in chronological order |
| TicketQueries.PastIsStable | Program.cs:91-97 | tickets completed on the same day keep their stored order |
| EmployeeQueries.Available | Program.cs:147-152 | holds exactly the stored employees with no open ticket assigned to them |
| EmployeeQueries.GetEmployee | Program.cs:154-163 | NotFound iff no employee has the id; otherwise the first employee with the id and exactly the tickets assigned to it |
| EmployeeQueries.EmployeeCustomers | Program.cs:165-174 | NotFound iff the employee id is unknown; otherwise exactly the stored customers with a ticket assigned to that employee |
| EmployeeQueries.EmployeeCustomersDistinct | Program.cs:171-173 | with distinct customer ids, no customer is listed twice |
| EmployeeQueries.CompletedIn | Program.cs:182 | a ticket passes iff it is completed and its date lies between the first and the last day of the given month; an open ticket never passes |
| EmployeeQueries.MonthlyCount | Program.cs:180-183 | the two chained filters count exactly the tickets both assigned to the employee and completed in the month; the count is zero iff there is no such ticket |
| EmployeeQueries.MonthlyRank | Program.cs:180 | the OrderByDescending key: one employee ranks at or before another iff its count is at least the other's |
| EmployeeQueries.EmployeeOfTheMonth | Program.cs:176-185 | None iff there are no employees; otherwise a stored employee with the most tickets completed last month, the earliest stored one among ties |
| EmployeeQueries.FirstByRankIsFirstWithCount | Program.cs:180-184 | the first employee of the descending sort by count is one with no employee before it having as many completions |
| EmployeeQueries.SoleCompleterWins | Program.cs:176-185 | an employee who is the only one with tickets completed last month is the employee of the month |
| EmployeeQueries.EmployeeOfTheMonthWithoutCompletions | Program.cs:176-185 | when nobody completed a ticket last month, the first stored employee is chosen |
| CustomerQueries.GetCustomer | Program.cs:192-201 | NotFound iff no customer has the id; otherwise the first customer with the id and exactly its tickets |
| CustomerQueries.Later | Program.cs:207 | the larger of two nullable dates: one of the two, null only when both are, and no earlier than either non-null one |
| CustomerQueries.LatestCompletion | Program.cs:207 | None iff no ticket is completed; otherwise a completion date of some ticket that no other completion date is after |
| CustomerQueries.Inactive | Program.cs:203-209 | for a cutoff after MinDate, exactly the stored customers none of whose tickets was completed on or after the cutoff (including customers without tickets); for the cutoff MinDate, nobody |
| CustomerQueries.IsInactive | Program.cs:207 | the per-customer test holds iff the cutoff is after MinDate and every completed ticket of the customer was completed before the cutoff |
| CustomerQueries.InactiveCharacterized | Program.cs:207 | "the latest completion, or MinDate, is before the cutoff" holds iff the cutoff is after MinDate and every completion of the customer is before it |
| Store.NextId | Program.cs:101 | the new id exceeds every stored id, and is one more than some stored id |
| Store.Completed | Program.cs:113-116 | the result is completed; an open ticket's date becomes today; a completed ticket is unchanged; no other field changes |
| Store.CompleteIn | Program.cs:106-118 | the list keeps its length; only the first ticket with the id may change, and it becomes that ticket completed today (or stays as it was if already completed) |
| Store.CompleteInIdempotent | Program.cs:113-116 | completing twice is completing once: the second call keeps the first date |
| Store.RemoveAll | Program.cs:139 | holds exactly the tickets whose id differs, in stored order and each as often as it is stored; unchanged when no ticket has the id |
| Store.CreateThenGet | Program.cs:99-104 | after POST, GET by the new id returns the posted ticket with its new id |
| Store.Registry.constructor | Program.cs:5-26 | the registry starts with the seeded lists, whose ticket ids are distinct |
| Store.Registry.Create | Program.cs:99-104 | on a non-empty list, appends the ticket with id max + 1 and returns it; on an empty list (Max throws), changes nothing; ids stay distinct |
| Store.Registry.Complete | Program.cs:106-118 | NotFound iff the id is unknown; otherwise the first ticket with the id gets today's date if it was open, keeps its date if not, and is returned; ids stay distinct |
| Store.Registry.Replace | Program.cs:120-135 | NotFound iff the id is unknown (checked first); BadRequest iff it is known and the body's id differs; otherwise the first ticket with the id is overwritten; ids stay distinct |
| Store.Registry.Delete | Program.cs:137-140 | every ticket with the id is removed and the rest keep their order; ids stay distinct |
| Scenarios.SeedOpenEmergencies | Program.cs:67-73 | on the seeded data the open emergencies are tickets 2, 6 and 7 |
| Scenarios.SeedUnassigned | Program.cs:84-89 | on the seeded data the unassigned tickets are 2, 3 and 7 |
| Scenarios.SeedPrioritized | Program.cs:75-82 | on the seeded data the prioritized list is 2, 7, 6, 3, 4, 5 |
| Scenarios.SeedPast | Program.cs:91-97 | on the seeded data the past tickets are exactly ticket 1 |
| Scenarios.SeedAvailable | Program.cs:147-152 | on the seeded data only employee 1 is available |
| Scenarios.SeedEmployeeOfTheMonth | Program.cs:176-185 | on the seeded data, for December 2021 the employee of the month is employee 1 |
| Scenarios.SeedInactive | Program.cs:203-209 | on the seeded data, on 18 October 2026 (cutoff 18 October 2025) every customer is inactive |

## Left out

- HTTP routing, JSON serialization, Swagger, HTTPS redirection and the cycle-ignoring reference handler (Program.cs:28-48, 211) are wiring with no logic of their own.
- GET /servicetickets, /employees and /customers (Program.cs:50-53, 142-145, 187-190) return a stored list unchanged. The model has no separate member for them.
- Clock reads (`DateTime.Today`, `DateTime.Now`) are parameters. The inactivity threshold `Now - Now.AddYears(-1)` is folded into the `cutoff` date.
- Times of day are not modelled. PATCH …/complete stores a midnight date, but POST and PUT store the body as sent, so `DateCompleted` can carry any time of day. Month lengths are not checked (day ≤ 31), and `Ordinal` counts every month as 31 days. That still orders dates correctly.
- TicketQueries.Past, TicketQueries.PastIsStable: two tickets completed on the same day keep their stored order. The service orders them by time of day. Example: stored [A done 2024-05-01 15:00, B done 2024-05-01 09:00] gives [B, A] in the service and [A, B] in the model.
- CustomerQueries.IsInactive, CustomerQueries.Inactive: the service compares against `DateTime.Now - DateTime.Now.AddYears(-1)`, which reads the clock twice (Program.cs:205). When the second read is later, the threshold is slightly under a year. A customer whose latest completion is exactly one year before today is then inactive in the service. The model takes the two reads as equal: `cutoff` is today minus one year, and that customer is active.
- Store.NextId, Store.Registry.Create: ids are C# 32-bit ints and `Max + 1` is unchecked. When the largest id is int.MaxValue, the new id wraps to int.MinValue. Two POSTs in a row then give the same id and break distinct ids. The model uses unbounded ids and does not model the wrap: "exceeds every stored id" and "ids stay distinct" hold only while the largest id is below int.MaxValue.
- GET by id on tickets, employees and customers writes the resolved navigation properties into the stored object (Program.cs:62-63, 161, 199). The model returns them as joined views (`TicketView`, `EmployeeView`, `CustomerView`) and does not model that write.
- The lists are shared by concurrent requests. Concurrency is not modelled: each command runs alone.
- Store.Registry.Create: when the ticket list is empty, `Max` throws and the request fails. The model returns `None` and changes nothing; it does not model the exception or the status code.
- EmployeeQueries.EmployeeOfTheMonth: on an empty employee list `First` throws. The model returns `None`; the employee list is never empty in the service.
- Store.Registry.Create, Store.Registry.Complete, Store.Registry.Replace, Store.Registry.Delete: each method requires the invariant `Valid` (distinct ticket ids), which the constructor establishes and every command keeps. The service itself never checks it.
