# OpenLocal API: a verified model of its booking, stock and billing core

This project models the part of the OpenLocal back end whose guarantees must hold whatever the interleaving
of clients, owners, the background worker and the payment provider, and proves those guarantees in Dafny 4.11.
`dafny verify dfyconfig.toml` checks everything.

## What is modelled

**Requests of one business** (`Records`, `Operations`, `Database`, `Machine`, `Locking`). A `Store` holds the tables of
one business: subscription, settings, services, resources, pickup windows, records with their histories,
usage events, stored replies and the job queue. `Operations.Decide` says what one create, confirm, edit, cancel or other
transition does: it repeats a stored reply, refuses with an error code, or writes rows. `Database.Database` is the same
transactions as they are executed, statement by statement on mutable tables, with rollback; each method is proved to do
exactly what `Decide` and `Apply` say. `Machine` runs such transactions one after another, mixed with expiry, owner
settings, billing updates, pickup windows, reply cleaning and worker steps. `Locking` splits every transaction into begin,
lock, compute, commit and abort for any number of clients, lets the unlocked steps happen in between, and shows that every
interleaving commits what a legal serial run commits.

**Invariants over every run** (`Accepted`, `Bookings`, `Limits`, `Timers`, `Reachable`, `Guarantees`, `Replays`).
`Reachable.RunKeepsInv` carries all invariants together from an empty business; `Guarantees` says what they mean one by one.
`Terms` tells the rules of the business in the fields of its rows and in plain numbers; the main results are stated in those
terms, not in those of the checks they are about. `Acceptance` and `Changes` give the exact conditions, both ways, under which a
booking, an order, every transition of staff and customers, and an edit go through, in any zone and with no slot list or catalogue
in them, and what is then written; `Refusals` says which error the others get.

**Time** (`Scheduling`, `SlotFacts`, `ZoneFacts`, `LazyExpiry`, `Examples`). The slot generator keeps its three nested loops.
It is proved to return exactly the offered minutes in any zone, and those are proved to be the starts whose occupied time an
opening contains on every date away from an offset jump; `ZoneFacts.CoversAcrossJump` says what it takes to cover a jump.
`LazyExpiry` relates stores that differ only in which lapsed requests have been marked expired yet; `Examples` reaches
concrete stores by legal runs.

**The worker** (`Jobs`, `QueueRuns`, `Worker`): visibility times, read counts, archive, failed queue, several workers holding
copies, polls under their 45-second deadline, and sweeps. `QueueRuns` shows that whatever the whole system does is a run of the
queue, so what `Jobs` proves of all queue runs holds in the system.

**Prices** (`Pricing`), **stock** (`Inventory`, `StockFacts`), **billing** (`Billing`, `Reconciliation`), **settings**
(`Configuration`) and **keyset pages** (`Keyset`).

Conventions: an instant is a whole number of microseconds; quantities are thousandths and amounts are cents. A transaction's
readings of the clock are one record: `began` is the database's `now()`, fixed when the transaction starts and
possibly before the lock is granted; the others are readings under the lock and only move forward. The application's and
the database's clocks are taken to agree: expiry tests the application's, visibility of jobs the database's. Were the
application's more than a second behind, a timer read on time could find its request not yet lapsed and be archived as done, and
only the sweep would be left to expire it; `Guarantees.TimerNeverLost` rests on that agreement. What the network, the
time-zone database, identifier generation and the provider answer are arbitrary parameters.

## Results that differ from what one might expect

* **Pending limits use the start of the transaction.** Expiring lapsed requests late or early is invisible to every later
  reader and request, except for one case: a creation whose transaction began before a request lapsed and got the lock after.
  It counts that request if no expiry has run yet. `LazyExpiry.LimitDecides` and `LazyExpiry.ExpiryChangesCount` give the
  exact condition, `LazyExpiry.Calm` is the check that rules it out, and `Examples.EarlyStartDisagrees` is a run that
  reaches such a store.
* **A job is in two places only if a settlement takes effect after its copy's minute is over.** The worker's failing branch
  sends to the failed queue without checking that the job is still live, so what keeps every job in one place is time: a read
  hides a message for 60 seconds and a poll's context expires after 45. Every job stays in exactly one place as long as no
  settling statement, once sent, needs more than the 15 seconds in between (`Worker.PollKeepsJobsInPlace`,
  `QueueRuns.JobsStayInOnePlace`, `Jobs.RunKeepsInPlace`), and the minute is exactly the limit at which that stops being so
  (`Jobs.OnePlaceNeedsTheMinute`, `Jobs.StaleCopyDuplicates`). For arbitrary runs `Jobs.OnePlaceExactly` says which step breaks it.
* **The hour's cap on retry delays is never reached.** A job is failed on its eighth read, so the longest retry delay is 640
  seconds: `Jobs.RetryDelays`.
* **A stock edit is stricter than a delete and a create.** A create may take a level below zero; an edit is refused then. Of five
  arrived and three sold, deleting the sale and recording one of ten leaves minus five, while correcting the sale to ten is a
  conflict: `StockFacts.EditRefusesWhatCreateAllows`. `StockFacts.EditIsDeleteThenCreate` gives the exact conditions under
  which the edit succeeds where the two requests do, and then it leaves the same tables.
* **Without the lock two confirmations book the same time twice**, already on a store that a short run reaches:
  `Examples.RaceWithoutLock`.

## Model

| member | source | states |
|---|---|---|
| Scheduling.ClockReads | internal/scheduling/schedule.go:21-27 | A text is read as a minute of the day exactly when it is that hour and minute, two digits each, or one digit for an hour below ten; every other text is refused. |
| Scheduling.Slots | internal/scheduling/schedule.go:57-127 | The loop over the minutes of a local date returns the specified scan: empty outside the horizon or on a closed date, an error for a non-positive step or duration, otherwise the accepted starts in order. |
| Scheduling.TryRules | internal/scheduling/schedule.go:81-124 | The loop over the rules finds a rule exactly when some rule accepts the start. |
| Scheduling.TryRule | internal/scheduling/schedule.go:82-119 | The probe loop succeeds exactly when the start is on the rule's grid and every probed minute is inside the opening on an unclosed date. |
| SlotFacts.ScanIsExact | internal/scheduling/schedule.go:75-125 | In any zone the scan contains a slot exactly when one of its minutes is offered and the slot is that minute's. |
| SlotFacts.ScanIncreases | internal/scheduling/schedule.go:75-125 | In any zone the slots are strictly increasing, so without duplicates. |
| SlotFacts.SlotLength | internal/scheduling/schedule.go:76-77 | In any zone every slot ends one duration after it starts and respects the lead time. |
| SlotFacts.ProbesReachClose | internal/scheduling/schedule.go:107-119 | If each of n minute-by-minute probes from a start passes, the whole interval lies between opening and closing: the probes cannot jump over a closing time. |
| SlotFacts.AcceptsMeansContained | internal/scheduling/schedule.go:82-119 | With a constant offset a rule accepts a start exactly when one of its openings, overnight included, contains the occupied interval a whole number of steps in and no closed date is touched. |
| SlotFacts.AcceptedIfContained | internal/scheduling/schedule.go:90-119 | Containment in any opening of the rule, whichever day it began, is enough for the rule to accept. |
| SlotFacts.SlotsAreExact | internal/scheduling/schedule.go:57-127 | With a constant offset the generator returns, strictly increasing, exactly the declared starts: inside the horizon, after the lead time, on an unclosed date, contained in an opening on its grid, touching no closed date. |
| ZoneFacts.SlotsInAnyZone | internal/scheduling/schedule.go:57-127 | In any zone the generator returns, strictly increasing, exactly the offered minutes between the date's two midnights. |
| ZoneFacts.SteadyDatesAreDeclared | internal/scheduling/schedule.go:75-125 | On a date without a jump until its last visit ends, whatever the zone does otherwise, the offered starts are exactly the declared ones. |
| ZoneFacts.CoversAcrossJump | internal/scheduling/schedule.go:107-119 | If the offset changes once during the occupied time, in any direction and across any dates, a rule covers it exactly when on every date touched both stretches, each read with its own offset and counted from the opening's midnight, keep to the rule's minutes and the date is unclosed. |
| ZoneFacts.CoversAcrossUsualJump | internal/scheduling/schedule.go:107-119 | Unless the jump goes back over the opening's midnight or skips a date, that is: the opening contains both stretches, and neither touches a closed date. |
| Pricing.BuildCatalog | internal/operations/configuration.go:444-466 | The loops over rules and variants build the catalogue: MXN variants with a rule, the last rule for a variant winning. |
| Pricing.PriceItem | internal/operations/create.go:205-230 | One item is priced exactly when it is orderable: listed, its quantity min plus a whole number of steps within the bounds, at the current price; its line is then the exact price rounded to the cent. The answer is that the price changed exactly when only the price is at fault. |
| Pricing.PriceOrder | internal/operations/create.go:197-234 | The pricing loop with its list of variants seen computes the specified quote, first error included. |
| Pricing.AcceptedExactly | internal/operations/create.go:184-234 | A quote succeeds exactly when variants are distinct, every quantity is min plus a whole number of steps within the bounds, prices are current, and the total fits. |
| Pricing.OrderableExactly | internal/operations/configuration.go:444-466 | An item of the catalogue can be ordered exactly when the first MXN row of its variant has that price and the variant's last rule allows the quantity. |
| Pricing.RefusedByFirst | internal/operations/create.go:198-228 | A refusal is that of the first item that repeats a variant, is off the grid, or has an old price. |
| Pricing.RoundingDrift | internal/operations/create.go:229-230 | Lines rounded to the cent, half a cent up, sum to within half a cent a line of the exact price. |
| Pricing.AcceptedTotals | internal/operations/create.go:229-243 | An accepted total is the sum of its lines, within half a cent a line of the exact price, and every line and the total fit twelve digits. |
| Accepted.AcceptedCreate | internal/operations/create.go:130-277 | An accepted creation writes a new requested record at version one with its first history entry, a timer at its expiry, its reply and no charge, was under the pending limits, and expires no later than it starts. |
| Accepted.AcceptedChange | internal/operations/mutate.go:77-272 | An accepted change had the stored version of a live, unfinished record of its module, moves along the status machine with a matching history entry, is charged exactly when it confirms, was re-checked if it confirmed or moved, and sets a timer exactly when it moved; its status is the one staff asked for, cancelled for customers, the old one for edits. |
| Acceptance.VisitFitsExactly | internal/operations/create.go:14-29 | In any zone the free-slot search succeeds exactly when the active resource serves the service, the start is offered on its local date by the resource's hours or else the business's, and no occupying visit meets the occupied time; the end is one duration later. |
| Acceptance.BusyTimeIsRefused | db/queries/appointments.sql:36-40 | No start is given whose occupied time meets that of a confirmed, completed or missed visit of the resource, either one's buffer included. |
| Acceptance.OpenForMeans | internal/scheduling/schedule.go:57-127 | Away from a jump a start is offered exactly when an opening contains the whole occupied time a whole number of steps in, no earlier than the lead time, on a bookable date and touching no closed one. |
| Acceptance.WindowFitsExactly | internal/operations/create.go:30-61 | In any zone the pickup check succeeds exactly when the window is one whole slot of the current schedule, before the cutoff, with a place left. |
| Acceptance.PickupSlotsExactly | internal/operations/configuration.go:478-491 | In any zone the pickup slots of a date are none from the cutoff on and before it exactly the offered whole slots. |
| Acceptance.PickupOfferedMeans | internal/operations/configuration.go:478-491 | Away from a jump those are, before the cutoff, the slots that an opening contains. |
| Acceptance.PickupOfferedConstant | internal/operations/configuration.go:478-491 | With a constant offset, on every date. |
| Acceptance.BookingAcceptedExactly | internal/operations/create.go:84-277 | In any zone a new appointment is accepted exactly when plan, settings, quota and pending limits allow it, the service and resource take it, its time fits the schedule and the calendar, and its identifier is new; what is stored is the request with the computed end and expiry. |
| Acceptance.OrderAcceptedExactly | internal/operations/create.go:84-277 | The same, in any zone, for a new preorder: window, cutoff, capacity, items and total; its lines price the wanted items in order. |
| Acceptance.ConfirmedExactly | internal/operations/mutate.go:77-207 | In any zone staff can confirm exactly a live request of the version they read, on a paid plan with quota left, whose original place is still free. |
| Acceptance.ConfirmationStores | internal/operations/mutate.go:145-168 | A confirmation stores the same request, its times recomputed from the original duration or the window, confirmed at that moment and charged to the current period. |
| Acceptance.EditsExactly | internal/operations/mutate.go:209-226 | Editing items succeeds exactly for distinct items of the order with valid quantities, and writes exactly those quantities. |
| Acceptance.EditStores | internal/operations/mutate.go:112-246 | An accepted edit keeps the status, stores exactly the fields it names, and renews the expiry exactly when it moves a pending request. |
| Changes.StaffStepExactly | internal/operations/mutate.go:77-207 | Staff take a record to a status exactly from the version they read, before it lapses, along the listed steps, confirming only what may be confirmed; any other step writes that status with its entry and nothing else. |
| Changes.CustomerStepExactly | internal/operations/mutate.go:100-121 | A customer's transition cancels, whatever it asks for, exactly for the version read of a record in progress and with the notice due. |
| Changes.EditAcceptedExactly | internal/operations/mutate.go:77-246 | An edit is accepted exactly for the version read of a record in progress, from a customer with the notice due, when its fields belong to the module and can be stored and the place it asks for, if any, is paid for and free. |
| Changes.EditTimes | internal/operations/mutate.go:145-246 | An accepted edit writes no entry and no charge, a timer exactly when it asks for a place, and that place's times. |
| Refusals.LimitsRefuse | internal/operations/create.go:149-159 | A creation is refused for the plan or settings, then the quota, then the pending limit, each with its error; customers are not told about the quota. |
| Refusals.BookingRefused | internal/operations/create.go:164-176 | Within the limits an appointment is refused for an unknown service, one not offered to the caller, or a place that is not free. |
| Refusals.OrderRefused | internal/operations/create.go:180-235 | Within the limits a preorder is refused for its number of items, an unknown window, one not offered, a full one, or as its items are priced. |
| Refusals.ChangeRefused | internal/operations/mutate.go:77-117 | A change is refused for an unknown record, a version, a lapse, a final status, a customer's notice, a step or the notes, in that order. |
| Refusals.ConfirmRefused | internal/operations/mutate.go:122-168 | A confirmation is refused for the plan, the quota, the service or window, or the place, in that order. |
| Refusals.VisitEditRefused | internal/operations/mutate.go:128-160 | An edit of an appointment is refused for a preorder's fields, then the plan, the service or the place it asks for. |
| Refusals.OrderEditRefused | internal/operations/mutate.go:179-233 | An edit of a preorder is refused for an appointment's fields, then the plan or the window it asks for, then its items and total. |
| Bookings.HistoryIsBounded | internal/appointments/state.go:3-12 | A history along the status machine is no longer than the depth of its last status, at most three entries for appointments and five for preorders. |
| Bookings.ExpiresAtMostOnce | internal/operations/mutate.go:275-314 | The step to expired occurs at most once in a history and only as its last entry. |
| Bookings.CreateKeepsRows | internal/operations/create.go:177-245 | A creation keeps every row well placed and stamped and every history a path to its status. |
| Bookings.ChangeKeepsRows | internal/operations/mutate.go:128-251 | So does every change. |
| Bookings.ExpiryKeepsRows | internal/operations/mutate.go:284-312 | So does expiry. |
| Bookings.ChangeKeepsCalendar | internal/operations/mutate.go:145-168 | A change of any kind leaves no two occupying visits of a resource meeting. |
| Limits.ChangeKeepsUsage | internal/entitlements/service.go:78-92 | A change keeps usage events in one-to-one correspondence with confirmed records and charges the current period to a record without an event. |
| Limits.CreateKeepsPending | internal/operations/create.go:62-83 | A creation keeps the pending bounds at every later instant. |
| Limits.ChangeKeepsPending | internal/operations/mutate.go:165-167 | An edit that pushes an expiry later keeps them too. |
| Limits.ChangeKeepsCap | internal/operations/mutate.go:192-202 | With a positive cap no change puts more orders into any window than the cap. |
| Timers.ChangeKeepsTimers | internal/operations/mutate.go:172-175 | A change leaves every stored request covered by an unconsumed timer for its expiry. |
| Timers.ExpiryKeepsTimers | internal/operations/mutate.go:276-314 | So does an expiry call, on time, early, duplicated, failing or for a missing record, together with the worker's report on it. |
| Timers.WorkKeepsTimers | internal/jobs/worker.go:58-80 | So do reads, settlements, retries, failures, crashes, archive cleaning, and jobs that anybody else sends into the queue. |
| Reachable.StepKeepsInv | internal/operations/core.go:83-98 | Every legal step keeps rows, calendar, usage, pending bounds, timers and queue sound together. |
| Reachable.RunKeepsInv | internal/operations/core.go:83-98 | Every state any run reaches from an empty business satisfies all the invariants. |
| Guarantees.NeverDoubleBooked | db/queries/appointments.sql:36-40 | In every reachable state two different visits of one resource that are confirmed, completed or missed never share a moment, each taken from its start to its end plus its own buffer. |
| Guarantees.TimerNeverLost | internal/operations/core.go:271-275 | In every reachable state a stored request has a job for its expiry that nobody handled successfully, or that was given up; the job is visible no earlier than the expiry and, until somebody reads it, at most a second after the later of the expiry and its sending. |
| Guarantees.HistoryIsFaithful | internal/operations/core.go:262-270 | In every reachable state a record's history leads from nothing to its status by the listed steps, with at most three or five entries; orders carry their window's times and an estimate that is the sum of their lines; a request expires by its start. |
| Guarantees.PendingStaysBounded | internal/operations/create.go:62-83 | Now and at every later instant at most three unanswered, unlapsed requests of a phone and five hundred in all are there per module. |
| Guarantees.StepCounts | internal/entitlements/service.go:78-92 | A step adds one to a period's count exactly when it confirms in that period, staying within the plan's fifty or thousand; any other step leaves the count. |
| Guarantees.CountStaysWithinPlan | internal/entitlements/service.go:39-47 | In every run usage events are exactly the confirmed records, and a period's count, unless it is zero, is within the limit its plan had at the latest step that charged it. |
| Guarantees.WindowsStayWithinCap | internal/operations/create.go:51-59 | In every run that leaves a positive cap alone and starts within it, no window ever has more orders confirmed, preparing, ready, collected or uncollected than the cap. |
| Guarantees.RunGrows | internal/operations/mutate.go:84-111 | Along every run final records never change, versions never go back, histories only grow and usage events stay as written. |
| Guarantees.OneMutationPerVersion | db/queries/appointments.sql:44-46 | Of all changes of one record that carry one version at most one succeeds in a run. |
| Guarantees.OneExpiryPerRecord | internal/operations/mutate.go:275-314 | However often jobs, redeliveries and sweeps call the expiry of a record in a run, at most one call writes it. |
| Guarantees.ExpiryExactly | internal/operations/mutate.go:275-314 | An expiry call marks exactly a request that has lapsed, with one entry by the system, and touches nothing else. |
| Guarantees.WindowsStayUnique | db/queries/preorders.sql:6-8 | In every run no two pickup windows have the same times, and none changes or disappears. |
| Guarantees.AdministrationIsStored | internal/operations/core.go:99-113 | What owners and billing store is what the next request reads, settings only if valid. |
| Guarantees.CancelOfferedExactly | internal/operations/records.go:165-170 | A customer is offered to cancel exactly when cancelling at that moment succeeds: while the record is in progress and the start is further away than the notice. |
| Replays.ReplyShowsWhatWasStored | internal/operations/mutate.go:252-268 | An accepted request is answered with the row it committed, shown as a reader sees it then, and its whole history. |
| Replays.UnexpiredReplyAnswers | internal/operations/core.go:209-238 | With an unexpired stored reply the same body gets it back, any other body is refused, and no table changes. |
| Replays.FirstAnswerStands | internal/operations/core.go:239-251 | After an accepted request, through any steps of the following day, its key returns that first reply or is refused, and writes nothing. |
| Replays.KeysApart | internal/operations/create.go:133-140 | Two requests share a stored reply exactly when key, kind of caller or customer, module, and for changes record and method agree. |
| Replays.ReplyLastsADay | db/queries/modules.sql:59-64 | A stored reply is found until exactly a day after its transaction began. |
| Replays.CleaningIsExact | db/queries/modules.sql:66-67 | Cleaning deletes exactly the replies that have expired. |
| LazyExpiry.AlikeDecisions | internal/operations/mutate.go:77-111 | Stores that differ only in which lapsed requests are marked expired decide every request alike up to the error code, if the pending limit answers alike. |
| LazyExpiry.LimitDecides | internal/operations/create.go:157-159 | If one such store accepts a creation, the other does exactly when its own pending counts at the transaction's start are below the limits. |
| LazyExpiry.ExpiryChangesCount | db/queries/appointments.sql:47-49 | An expiry changes a pending count exactly when the request lapses after the counting transaction began, and then by one. |
| LazyExpiry.RequestStaysAlikeExactly | internal/operations/create.go:157-159 | Such stores stay so over a request exactly when both answer it alike up to the error code. |
| LazyExpiry.LeanIsAlikeExactly | internal/operations/mutate.go:275-314 | A run and the same run without any expiry or worker step are alike at every moment exactly when no request is answered differently. |
| LazyExpiry.LeanIsAlike | internal/operations/mutate.go:275-314 | So a calm run, in which no creation straddles a lapse, and the same run without any expiry or worker step are both legal and end in alike stores. |
| LazyExpiry.ExpiryTimingIsInvisible | internal/operations/records.go:95-97 | Adding, dropping or moving expiry steps, in calm runs or others that leave every request answered alike, changes neither the status shown later nor any later decision that is calm or on which the limit answers alike. |
| Examples.EarlyStartDisagrees | internal/operations/create.go:62-83 | A legal run reaches a store where a fourth request of a phone is refused with a late expiry and accepted with a timely one. |
| Examples.RaceWithoutLock | internal/operations/core.go:83-98 | A legal run reaches a store on which two confirmations are both accepted, and committing both books one time twice. |
| Examples.SecondIsRefused | internal/operations/create.go:22-28 | A legal run reaches a store where, once the first confirmation has committed, the second is refused because its slot is taken. |
| Locking.AcceptanceIsStable | internal/operations/core.go:83-98 | An acceptance computed under the lock is what would be computed after any window, cleaning or worker steps done meanwhile without it. |
| Locking.MicroKeepsSound | internal/operations/core.go:83-98 | Every begin, lock, compute, commit, abort or unlocked step keeps the committed tables equal to a legal serial run. |
| Locking.EveryInterleavingIsSerial | internal/operations/core.go:83-98 | At every moment of every interleaving at most one client is past the lock and the tables are those of a legal serial run of whole transactions. |
| Locking.InterleavingsKeepInv | internal/operations/core.go:83-98 | So all the invariants hold in the middle of every interleaving. |
| Database.EditItems | internal/operations/mutate.go:209-226 | The loop over edited items with its map of items seen computes the specified edit. |
| Database.Database.FreeSlots | internal/operations/configuration.go:383-414 | The loop keeps exactly the offered slots of the resource that no occupying visit meets. |
| Database.Database.VisitEnd | internal/operations/create.go:14-29 | The search through the free slots finds the specified end or refuses. |
| Database.Database.Pickup | internal/operations/create.go:30-61 | The search through the pickup slots and the capacity count decide as specified. |
| Database.Database.OpenPickups | internal/operations/configuration.go:478-491 | From the day's cutoff on no pickup slot is listed; before it exactly the offered whole slots of the date. |
| Database.Database.ConsumeUsage | internal/entitlements/service.go:79-92 | Charging checks plan and limit and inserts at most one event for the record. |
| Database.Database.Create | internal/operations/create.go:84-277 | The whole create transaction leaves the tables and answers exactly as decided. |
| Database.Database.Mutate | internal/operations/mutate.go:15-274 | The whole change transaction, charging before it checks and rolling back on any error, leaves the tables and answers exactly as decided. |
| Database.Database.Expire | internal/operations/mutate.go:275-314 | The expiry transaction marks a lapsed request expired with its history entry and does nothing otherwise. |
| Configuration.ValidateSchedule | internal/scheduling/schedule.go:28-53 | A schedule passes exactly when it is small enough, has at most one rule per weekday, and every open rule has two different readable times. |
| Configuration.ValidateSettings | internal/operations/configuration.go:40-78 | Settings pass exactly when bounds, schedule, cutoff, quantity rules and plan allow them; every stored setting satisfies what the model assumes of it. |
| Jobs.StepNeverEarly | internal/operations/core.go:271-275 | No job becomes visible, and no copy is read, before the instant it was sent for. |
| Jobs.RunNeverEarly | internal/operations/core.go:271-275 | So in no timely run is any job visible, or any copy read, before that instant. |
| Jobs.PutIsSoon | internal/operations/core.go:271-275 | A job sent is visible at its instant, or at its sending if that is later, or within a second after. |
| Jobs.UnreadIsSoon | internal/operations/core.go:271-275 | In every run a job that nobody has read yet is visible that soon, counted from the step that sent it. |
| Jobs.RunConserves | db/migrations/000020_pgmq_jobs.up.sql:18-31 | In every run each job ever sent is live, archived, purged from the archive, or failed. |
| Jobs.OnePlaceExactly | internal/jobs/worker.go:58-80 | In an arbitrary run each job sent is in exactly one of live, archived, purged and failed exactly when no step gave up a job that had already left the live queue; otherwise some job is and stays in two. |
| Jobs.OnePlaceThroughout | internal/jobs/worker.go:58-80 | And if none did, every job was in one place at every moment of the run. |
| Jobs.StepApartExactly | internal/jobs/worker.go:71-77 | One step keeps the places apart exactly when it does not give up such a job. |
| Jobs.RunKeepsHeldOnce | internal/jobs/worker.go:58-80 | No step does in runs that read no job of which somebody else holds an unsettled copy; then each job is held at most once and only while live. |
| Jobs.RunKeepsInPlace | internal/jobs/worker.go:58-80 | With any workers, crashes and redeliveries every job stays in exactly one place if every settlement takes effect less than a minute after its copy was read. |
| Jobs.RunKeepsOnePlace | internal/jobs/worker.go:58-80 | In particular in every such run from the empty queue. |
| Jobs.OnePlaceNeedsTheMinute | db/migrations/000020_pgmq_jobs.up.sql:20-31 | A limit on the time from read to settlement keeps every job in one place in all runs exactly when it is at most the minute for which a read hides a message. |
| Jobs.StaleCopyDuplicates | internal/jobs/worker.go:58-80 | With any longer limit some run settles an eighth copy as its minute ends, after another worker archived the ninth, and leaves the job both archived and failed. |
| Jobs.PlacesTellOutcomes | internal/jobs/worker.go:58-80 | In every run the archived jobs are exactly those settled after a success while live, and the failed ones exactly those given up after a failed eighth or later read. |
| Jobs.RetryWaits | internal/jobs/worker.go:74-75 | A job returned after a failure can be read again exactly from the end of its read count's retry delay on, and that read raises the count by one. |
| Jobs.ReadHidesAMinute | db/migrations/000020_pgmq_jobs.up.sql:20-21 | A read hides a job for sixty seconds from everybody and no longer, and counts. |
| Jobs.ArchiveKeepsAWeek | db/migrations/000020_pgmq_jobs.up.sql:31-32 | Cleaning purges exactly the archived jobs older than seven days. |
| Jobs.CrashLosesCopies | internal/jobs/worker.go:35-82 | A worker that dies loses the copies it held and changes nothing else. |
| Jobs.RetriesAreBounded | internal/jobs/worker.go:71-77 | With any workers, crashes and redeliveries a job returns to the queue at most seven times, and settling a failed eighth read fails it. |
| Jobs.EightFailuresAreFinal | internal/jobs/worker.go:71-77 | A job of which eight copies have been settled as failed, by whatever workers, is not live then or ever after, and is in the failed queue. |
| Jobs.RetryDelays | internal/jobs/worker.go:74-75 | Retry delays double from five seconds, never exceed an hour, and never exceed 640 seconds for a job that is retried. |
| QueueRuns.QueueIsARun | internal/operations/core.go:271-275 | The queue after any run of the system is the queue after the run's own queue steps, timely if the run is legal. |
| QueueRuns.JobsStayInOnePlace | internal/jobs/worker.go:58-80 | In every run of the system whose settlements take effect within their copies' minute every job is in exactly one place. |
| QueueRuns.EightFailuresAreFinal | internal/jobs/worker.go:71-77 | In every run of the system eight failed settlements of a job are final. |
| Worker.ReadJobs | db/migrations/000020_pgmq_jobs.up.sql:20-21 | A poll takes the visible picked messages, hides them for a minute and holds their copies. |
| Worker.HandleMessage | internal/jobs/worker.go:44-80 | One message is dispatched by its type and then, unless the worker is cut off in between, archived, retried or failed; those are legal steps, in time if the statement is. |
| Worker.Process | internal/jobs/worker.go:35-82 | A whole poll under its 45-second deadline, cut short exactly after a message whose settling fails or is not heard of, is a legal run of reads followed by handling and settling message by message; every settlement takes effect within 45 seconds of the read plus the time a statement may take. |
| Worker.PollKeepsJobsInPlace | internal/jobs/worker.go:140-143 | If settling statements take at most 15 seconds, a poll leaves every job in exactly one place. |
| Worker.Sweep | internal/jobs/worker.go:83-109 | A sweep is a legal run, also one that stops at a failure; without failures, and if its queries returned every lapsed request, none is left. |
| Worker.ReconcileAll | internal/jobs/worker.go:110-128 | Paging by offset over an unchanged table visits every customer exactly once, in order, up to and including the first that fails; nobody is visited without a reconciler. |
| Inventory.Ledger.ResolveLocation | internal/inventory/service.go:17-33 | A requested location is taken; otherwise the business ends with a default, a new one only if it had none, that every later call without a request finds again; no default or location is replaced. |
| Inventory.Ledger.ApplyNonnegativeStockDelta | internal/inventory/handler.go:278-305 | A level changes by the delta unless it would end below zero; only a first arrival inserts a row; no change without a row is not found. |
| Inventory.Ledger.ApplyMovementEditDelta | internal/inventory/handler.go:265-277 | An edit applies one fused delta in place, or takes the old quantity out and puts the new one in elsewhere. |
| Inventory.Ledger.Create | internal/inventory/handler.go:33-123 | Recording a movement, or finding the one its key already recorded, with rollback on any error. |
| Inventory.Ledger.Update | internal/inventory/handler.go:125-226 | Editing a movement, its replay, and its refusals, with rollback on any error. |
| Inventory.Ledger.Delete | internal/inventory/handler.go:228-263 | Deleting a movement reverses its quantity or is refused. |
| StockFacts.StepKeepsSound | internal/inventory/handler.go:33-305 | Every request keeps levels equal to the sum of the movements, rows present where movements are, and the key index exact. |
| StockFacts.LevelsAreTheLedger | internal/inventory/handler.go:33-305 | So they are after every sequence of requests. |
| StockFacts.LevelsAreNet | internal/inventory/service.go:44-48 | After every sequence of requests a level is what was purchased, produced and adjusted upward at its place less what was sold, lost and adjusted downward. |
| StockFacts.PostMovesLevel | internal/inventory/handler.go:68-98 | Recording a movement stores it under its key and raises or lowers the level of its place by the quantity, kind by kind. |
| StockFacts.PostAcceptedExactly | internal/inventory/handler.go:33-98 | A movement is recorded exactly when quantity, variant, place, key and resulting level allow it. |
| StockFacts.PostRefused | internal/inventory/handler.go:33-123 | A create is refused for its quantity, then its variant, then a key that recorded something else, and fails for a location or id that cannot be stored. |
| StockFacts.RemoveExactly | internal/inventory/handler.go:228-263 | A movement of a sound ledger is deleted exactly when it is the business's own and the level left is not negative, and then is gone with its key and its effect. |
| StockFacts.PatchExactly | internal/inventory/handler.go:125-226 | An edit of a sound ledger under a new key succeeds exactly when quantity, variant, location, key and the levels it leaves allow it, and stores exactly what it names. |
| StockFacts.PatchRefused | internal/inventory/handler.go:142-203 | An edit of an unknown movement is not found, one under the movement's own key that says anything else is a conflict, and no refused edit changes a table. |
| StockFacts.RefusalsChangeNothing | internal/inventory/handler.go:99-123 | An error or a replay leaves every table as it was. |
| StockFacts.CreateIsIdempotent | internal/inventory/handler.go:72-78 | Sending a create again returns the same movement and level and records nothing. |
| StockFacts.ReusedKeyIsRefused | internal/inventory/service.go:110-121 | The same key with another movement is refused. |
| StockFacts.DeleteLeavesNonnegative | internal/inventory/handler.go:249-252 | A successful delete leaves the level it touched at zero or above. |
| StockFacts.EditLeavesNonnegative | internal/inventory/handler.go:204-207 | So does a successful stock-changing edit, at both ends of a move. |
| StockFacts.CreateMayGoNegative | internal/inventory/handler.go:82-87 | A create may drive a level below zero. |
| StockFacts.EditIsDeleteThenCreate | internal/inventory/handler.go:125-263 | In a sound ledger, when a client can delete a movement and record the edited one, the edit succeeds exactly if the variant stays, a new location is the business's own, the key is new or nothing changes, and the level ends at zero or above or is left alone; then it leaves the same tables, under the old id. |
| StockFacts.CheckedAgainstUnchecked | internal/inventory/handler.go:265-305 | On the levels the edit does what the delete's and the create's statements do, or is a conflict exactly when they end below zero and it is not left alone. |
| StockFacts.EditRefusesWhatCreateAllows | internal/inventory/handler.go:82-87 | A reachable ledger where delete and create succeed at a negative level and the edit is a conflict. |
| StockFacts.FusedEditRefines | internal/inventory/handler.go:265-277 | In a sound ledger, whenever the two checked statements of a move, out and then in, both succeed, so does the edit, with the same levels. |
| StockFacts.FusedEditRefinesExactly | internal/inventory/handler.go:265-305 | For any levels at which those two statements succeed, the edit agrees with them exactly when the row exists or the place or the signed quantity changes; otherwise it is not found. |
| StockFacts.FusedEditSucceeds | internal/inventory/handler.go:278-305 | Exactly when the edit in place succeeds, and exactly when the two checked statements do. |
| StockFacts.FusedEditNeedsTheRow | internal/inventory/handler.go:279-283 | An input without a level row on which they differ. |
| Billing.Validate | internal/billing/handler.go:116-130 | A choice passes exactly when it is a known plan with one or two different known modules, and comes back sorted. |
| Billing.FormItems | internal/billing/change.go:80-92 | The two loops pair the desired prices with current ids in order and delete the leftover ids. |
| Billing.FormLeavesDesiredPrices | internal/billing/change.go:80-92 | Whatever the current items, applying the form leaves exactly the desired prices, each once and valid. |
| Billing.Interpret | internal/billing/change.go:356-397 | The loop over the provider's items reads the specified plan or refuses. |
| Billing.AcceptedExactly | internal/billing/change.go:356-397 | A list of any length is read exactly when it is one plan and at most one second module, all valid, with a known base module. |
| Billing.ReadingExactly | internal/billing/change.go:356-397 | In the fields of items and metadata: which lists are read, as which tier and modules, and with what error the others are refused. |
| Billing.OrderIsIrrelevant | internal/billing/change.go:356-397 | The order of the items does not matter. |
| Billing.PlanRoundTrip | internal/billing/change.go:179-187 | Changing any item list to a valid choice and reading it back with the written metadata gives that choice. |
| Billing.LegacyMetadata | internal/billing/change.go:377-383 | Without a base module the first listed module is read, which is the same for every valid choice. |
| Reconciliation.SelectLive | internal/billing/change.go:279-288 | The loop finds the one live subscription, none, or refuses several. |
| Reconciliation.Business.Reconcile | internal/billing/change.go:245-354 | Reconciling updates the row, resources and events as specified, or changes nothing and reports an error, also when the customer mapping changed since it was looked up; the next rows say what the row then holds. |
| Reconciliation.RowFollowsProvider | internal/billing/change.go:288-317 | With one live subscription the row has its status, name, pending cancellation and its first item's period, or the old period without items; with none it is free and inactive and keeps only customer and period. |
| Reconciliation.EventsAreProcessed | internal/billing/change.go:245-287 | Processed answers and unknown customers clear the customer's events, unusable answers are errors, and resources are only ever deactivated. |
| Reconciliation.ReconcileIsIdempotent | internal/billing/change.go:289-349 | Reconciling again on the same answer, at any later time, changes nothing. |
| Reconciliation.PaidExactly | internal/billing/change.go:298-331 | The row has a paid tier exactly when one live subscription is listed and it is active or past due; tier and modules are what its items mean. |
| Reconciliation.GraceIsNeverExtended | internal/billing/change.go:318-326 | In every run in which the provider stays past due the grace deadline keeps its first value. |
| Reconciliation.GraceStarts | internal/billing/change.go:318-326 | The first past-due answer sets it a week after the unpaid invoice, or after the answer. |
| Reconciliation.PlannedChangeArrives | internal/billing/change.go:335-350 | A planned change is dropped exactly when the provider's plan has become it, and then only the retained resource is active. |
| Keyset.List | internal/savedbusinesses/handler.go:81-114 | A page is the first rows up to the limit, with a cursor exactly when there was one more. |
| Keyset.Activity | internal/operations/personal.go:108-143 | Each listed row shows the status a single record's page shows at that moment. |
| Keyset.Saved.Save | internal/savedbusinesses/handler.go:57-70 | Saving adds an active business once; one already saved keeps its place. |
| Keyset.Saved.Remove | internal/savedbusinesses/handler.go:71-80 | Removing deletes exactly that business. |
| Keyset.NullCursorExactly | internal/savedbusinesses/handler.go:98-103 | The cursor is null exactly when nothing is left below the page. |
| Keyset.WalkDescends | db/queries/personal.sql:13-18 | Across a walk of pages over a changing table keys strictly descend. |
| Keyset.WalkIsNewestFirst | db/queries/personal.sql:13-18 | That is: newest first, ties by identifier and module, no row twice. |
| Keyset.WalkIsComplete | db/queries/personal.sql:13-18 | A walk followed to its end lists every row present throughout exactly once. |
| Keyset.WalkEnds | internal/api/cursor.go:28-46 | A walk of more than one page has at most one page per row of any set that holds the rows at or below its first listed key, whatever is deleted meanwhile or inserted above that key. |
| Keyset.WalkEndsOnShrinkingTable | internal/api/cursor.go:28-46 | So if nothing is inserted below the first listed key a walk ends within one page per row of the table it began on. |

## Left out

- Routing, JSON decoding, cleaning of names, phones and notes, customer rows, authentication, access tokens and their extension, audit rows, rate limiting and CORS: plumbing, or fields that no rule reads.
- Cryptography: the request digest is equality of bodies, the sealed reply is the reply. An idempotency key that is malformed is refused before anything here runs.
- The time-zone database and calendar text: a zone is any function from instants to local date and minute with the start of each date. A refused zone name or date text is not modelled.
- Checks that read the clock more than once: consecutive readings inside one check are one reading here. Phone patterns, decimal syntax and time texts inside request bodies are parsed before the model starts.
- Catalogue rows and the business's time zone are inputs of a creation, because they can change without the lock; item identifiers are positions in the order; one table holds appointments and preorders, so their identifiers are distinct by construction.
- Checks of the configuration handlers beyond the settings themselves (roles, services and resources that must exist before enabling, resource limits of the plan), and the plan's checks on saved services and resources.
- Availability over all resources at once and the public catalogue page: they repeat the loops proved here without writing.
- Stripe calls: the provider's answers are arbitrary, and an item update means that an id changes that item's price, no id adds an item and deleted removes one. Preview amounts, proration dates, checkout, the portal, webhooks and the stored replies of billing operations are not modelled.
- Stock levels' reserved column and timestamps, listings, analytics, seeds, catalog, marketplace, users and support.
- Locking.EveryInterleavingIsSerial: a worker's report on an expiry is made at the moment of the commit; a worker that dies in between is an expiry without a report followed by a crash.
- Acceptance.BookingAcceptedExactly: about creations that pass the Turnstile challenge, which a customer's creation has to answer after its key is looked up and before plan, limits and schedule are checked; the challenge itself is not modelled.
- Acceptance.OrderAcceptedExactly: likewise.
- Guarantees.TimerNeverLost: assumes, as under Conventions, that the application's and the database's clocks agree; with skew a timer may be consumed before its request lapses on the application's clock, and the sweep is what expires it.
