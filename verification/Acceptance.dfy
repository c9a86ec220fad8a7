/** When a booking, an order or a confirmation goes through: the checks of the whole transaction as one
    condition on the tables, with no slot list or catalogue in it. */
module Acceptance {
  import opened Prelude
  import opened Records
  import opened Operations
  import opened SlotFacts
  import opened ZoneFacts
  import opened Terms
  import Jobs
  import Pricing
  import Scheduling

  // ----- Places -----

  /** Every other busy visit of the resource, buffer included, leaves [from, until) alone. */
  ghost predicate Clear(records: map<Id, Record>, resource: Id, exclude: Option<Id>, from: Instant, until: Instant) {
    forall id :: id in records && exclude != Some(id) && Busy(records[id], resource) ==>
      LeavesAlone(records[id], from, until)
  }

  function HoursOf(cfg: Settings, res: Resource): seq<Scheduling.Hour> {
    if |res.hours| > 0 then res.hours else cfg.hours
  }

  /** The start is offered on its local date by the resource's own hours, or else the business's. */
  ghost predicate OpenFor(zone: Scheduling.Zone, cfg: Settings, res: Resource, duration: nat, buffer: nat,
                          start: Instant, now: Instant)
    requires cfg.slot >= 1
  {
    OfferedOn(zone, zone.clock(start).date, HoursOf(cfg, res), cfg.closed + res.closed, cfg.slot, duration, buffer,
              now, cfg.lead, cfg.horizon, start)
  }

  /** On a date away from a jump of the zone that is: the date is bookable, and an opening contains the whole
      occupied time a whole number of steps in, no earlier than the lead time and touching no closed date. */
  lemma OpenForMeans(zone: Scheduling.Zone, offset: int, cfg: Settings, res: Resource, duration: nat, buffer: nat,
                     start: Instant, now: Instant)
    requires cfg.slot >= 1 && duration >= 1 && SteadyOn(zone, offset, zone.clock(start).date, duration + buffer)
    ensures OpenFor(zone, cfg, res, duration, buffer, start, now) <==>
            Scheduling.Bookable(zone, zone.clock(start).date, cfg.closed + res.closed, now, cfg.horizon) &&
            DeclaredOn(offset, zone.clock(start).date, HoursOf(cfg, res), cfg.closed + res.closed, cfg.slot,
                       duration + buffer, now + cfg.lead * MINUTE, start)
  {
    SteadyDatesAreDeclared(zone, offset, zone.clock(start).date, HoursOf(cfg, res), cfg.closed + res.closed, cfg.slot,
                           duration, buffer, now, cfg.lead, cfg.horizon, start);
  }

  /** With a constant offset that is the declared meaning of a start, horizon included. */
  lemma OpenForConstant(zone: Scheduling.Zone, offset: int, cfg: Settings, res: Resource, duration: nat, buffer: nat,
                        start: Instant, now: Instant)
    requires cfg.slot >= 1 && FixedOffset(zone, offset)
    ensures OpenFor(zone, cfg, res, duration, buffer, start, now) <==>
            duration >= 1 &&
            Declared(offset, DateOf(offset, start), HoursOf(cfg, res), cfg.closed + res.closed, cfg.slot,
                     duration + buffer, now, cfg.lead, cfg.horizon, start)
  {
    if duration >= 1 {
      FixedIsSteady(zone, offset, zone.clock(start).date, duration + buffer);
      OpenForMeans(zone, offset, cfg, res, duration, buffer, start, now);
      BookableIsAWindowOfDates(zone, offset, zone.clock(start).date, cfg.closed + res.closed, now, cfg.horizon);
      hide OpenFor, DeclaredOn, Scheduling.Bookable;
    }
  }

  /** The resource serves this service, is open for the whole occupied time, and nobody else holds it. */
  ghost predicate VisitFits(zone: Scheduling.Zone, st: Store, cfg: Settings, service: Id, duration: nat, buffer: nat,
                            resource: Id, exclude: Option<Id>, start: Instant, now: Instant)
    requires cfg.slot >= 1
  {
    && resource in st.resources && st.resources[resource].active
    && (st.resources[resource].services == [] || service in st.resources[resource].services)
    && OpenFor(zone, cfg, st.resources[resource], duration, buffer, start, now)
    && Clear(st.records, resource, exclude, start, start + (duration + buffer) * MINUTE)
  }

  lemma VisitFitsExactly(zone: Scheduling.Zone, st: Store, cfg: Settings, service: Id, duration: nat, buffer: nat,
                         resource: Id, exclude: Option<Id>, start: Instant, now: Instant)
    requires cfg.slot >= 1
    ensures var r := CheckAppointment(zone, st, cfg, service, duration, buffer, resource, exclude, start, now);
            && (r.Ok? <==> VisitFits(zone, st, cfg, service, duration, buffer, resource, exclude, start, now))
            && (r.Ok? ==> r.value == start + duration * MINUTE)
  {
    hide Overlaps, OpenFor, Busy, LeavesAlone;
    assert Clear(st.records, resource, exclude, start, start + (duration + buffer) * MINUTE) <==>
           !Overlaps(st.records, resource, exclude, start, start + (duration + buffer) * MINUTE) by {
      OverlapIsFound(st.records, resource, exclude, start, start + (duration + buffer) * MINUTE);
    }
    assert (duration + buffer) * MINUTE == duration * MINUTE + buffer * MINUTE;
    if resource in st.resources {
      VisitSlotsExactly(zone, cfg, st.resources[resource], start, duration, buffer, now);
      hide VisitSlots;
    }
  }

  /** In particular no time is given that meets an occupying visit of the resource, buffers included. */
  lemma BusyTimeIsRefused(zone: Scheduling.Zone, st: Store, cfg: Settings, service: Id, duration: nat, buffer: nat,
                          resource: Id, exclude: Option<Id>, start: Instant, now: Instant, other: Id)
    requires cfg.slot >= 1 && other in st.records && exclude != Some(other)
    requires var v := st.records[other];
             && v.detail.Visit? && v.detail.resource == resource
             && (v.status == Confirmed || v.status == Completed || v.status == NoShow)
             && start < v.endsAt + v.detail.buffer * MINUTE && v.startsAt < start + (duration + buffer) * MINUTE
    ensures CheckAppointment(zone, st, cfg, service, duration, buffer, resource, exclude, start, now).Err?
  {
    VisitFitsExactly(zone, st, cfg, service, duration, buffer, resource, exclude, start, now);
    hide CheckAppointment, OpenFor;
  }

  lemma VisitSlotsExactly(zone: Scheduling.Zone, cfg: Settings, res: Resource, start: Instant, duration: nat,
                          buffer: nat, now: Instant)
    requires cfg.slot >= 1
    ensures var slots := VisitSlots(zone, cfg, res, start, duration, buffer, now);
            (slots.Ok? && Scheduling.Slot(start, start + duration * MINUTE) in slots.value) <==>
            OpenFor(zone, cfg, res, duration, buffer, start, now)
  {
    hide OfferedOn;
    SlotsInAnyZone(zone, zone.clock(start).date, HoursOf(cfg, res), cfg.closed + res.closed, cfg.slot, duration, buffer,
                   now, cfg.lead, cfg.horizon, Scheduling.Slot(start, start + duration * MINUTE));
    hide Scheduling.SlotsOf;
  }

  /** The cutoff of the day has not passed; one that cannot be read counts as midnight. */
  predicate BeforeCutoff(zone: Scheduling.Zone, cfg: Settings, date: int, now: Instant) {
    cfg.cutoff == "" || date != zone.clock(now).date || zone.clock(now).minute < Scheduling.Clock(cfg.cutoff).GetOr(0)
  }

  /** The slot is offered for pickup on this date. */
  ghost predicate PickupOffered(zone: Scheduling.Zone, cfg: Settings, date: int, now: Instant, x: Scheduling.Slot)
    requires cfg.slot >= 1
  {
    && x.endsAt == x.startsAt + cfg.slot * MINUTE
    && BeforeCutoff(zone, cfg, date, now)
    && OfferedOn(zone, date, cfg.hours, cfg.closed, cfg.slot, cfg.slot, 0, now, cfg.lead, cfg.horizon, x.startsAt)
  }

  function SlotOf(w: Window): Scheduling.Slot {
    Scheduling.Slot(w.startsAt, w.endsAt)
  }

  /** The window is a whole slot of the current schedule and has a place left. */
  ghost predicate WindowFits(zone: Scheduling.Zone, st: Store, cfg: Settings, window: Id, exclude: Option<Id>,
                             now: Instant)
    requires cfg.slot >= 1
  {
    && window in st.windows
    && PickupOffered(zone, cfg, zone.clock(st.windows[window].startsAt).date, now, SlotOf(st.windows[window]))
    && (cfg.maxOrders > 0 ==> |PlacesTaken(st.records, window, exclude)| < cfg.maxOrders)
  }

  lemma WindowFitsExactly(zone: Scheduling.Zone, st: Store, cfg: Settings, window: Id, exclude: Option<Id>,
                          now: Instant)
    requires cfg.slot >= 1
    ensures var r := CheckPickup(zone, st, cfg, window, exclude, now);
            && (r.Ok? <==> WindowFits(zone, st, cfg, window, exclude, now))
            && (r.Ok? ==> r.value == st.windows[window])
  {
    hide PickupOffered, Holding, PlacesTaken;
    PlacesAreCounted(st.records, window, exclude);
    if window in st.windows {
      var w := st.windows[window];
      PickupSlotsExactly(zone, cfg, zone.clock(w.startsAt).date, now, SlotOf(w));
      hide PickupSlots;
    }
  }

  /** Main result: the pickup slots of a date are none from the day's cutoff on, and before it the offered
      whole slots. */
  lemma PickupSlotsExactly(zone: Scheduling.Zone, cfg: Settings, date: int, now: Instant, x: Scheduling.Slot)
    requires cfg.slot >= 1
    ensures var slots := PickupSlots(zone, cfg, date, now);
            slots.Ok? && (x in slots.value <==> PickupOffered(zone, cfg, date, now, x))
  {
    hide OfferedOn;
    SlotsInAnyZone(zone, date, cfg.hours, cfg.closed, cfg.slot, cfg.slot, 0, now, cfg.lead, cfg.horizon, x);
    hide Scheduling.SlotsOf;
  }

  /** And away from a jump those are the slots that an opening contains. */
  lemma PickupOfferedMeans(zone: Scheduling.Zone, offset: int, cfg: Settings, date: int, now: Instant,
                           x: Scheduling.Slot)
    requires cfg.slot >= 1 && SteadyOn(zone, offset, date, cfg.slot)
    ensures PickupOffered(zone, cfg, date, now, x) <==>
            && x.endsAt == x.startsAt + cfg.slot * MINUTE && BeforeCutoff(zone, cfg, date, now)
            && Scheduling.Bookable(zone, date, cfg.closed, now, cfg.horizon)
            && DeclaredOn(offset, date, cfg.hours, cfg.closed, cfg.slot, cfg.slot, now + cfg.lead * MINUTE, x.startsAt)
  {
    hide OfferedOn;
    SteadyDatesAreDeclared(zone, offset, date, cfg.hours, cfg.closed, cfg.slot, cfg.slot, 0, now, cfg.lead, cfg.horizon,
                           x.startsAt);
  }

  lemma PickupOfferedConstant(zone: Scheduling.Zone, offset: int, cfg: Settings, date: int, now: Instant,
                              x: Scheduling.Slot)
    requires cfg.slot >= 1 && FixedOffset(zone, offset)
    ensures PickupOffered(zone, cfg, date, now, x) <==>
            && x.endsAt == x.startsAt + cfg.slot * MINUTE && BeforeCutoff(zone, cfg, date, now)
            && Declared(offset, date, cfg.hours, cfg.closed, cfg.slot, cfg.slot, now, cfg.lead, cfg.horizon, x.startsAt)
  {
    FixedIsSteady(zone, offset, date, cfg.slot);
    PickupOfferedMeans(zone, offset, cfg, date, now, x);
    BookableIsAWindowOfDates(zone, offset, date, cfg.closed, now, cfg.horizon);
    hide PickupOffered, DeclaredOn, Scheduling.Bookable;
  }

  // ----- Requests -----

  /** The business can take requests of this module: plan, settings and quota. */
  predicate TakesRequests(st: Store, m: Module, now: Instant) {
    && PlanAllows(st.sub, m, now) && HasQuota(st, m)
    && m in st.settings && st.settings[m].enabled && st.settings[m].hours != []
  }

  lemma IntakeExactly(st: Store, m: Module, now: Instant)
    ensures RequireIntake(st, m, now) ==
            if !PlanAllows(st.sub, m, now) || m !in st.settings || !st.settings[m].enabled || st.settings[m].hours == []
            then Err(ModuleUnavailable)
            else if !HasQuota(st, m) then Err(QuotaExceeded)
            else Ok(st.settings[m])
  {
    PlanIsChecked(st.sub, m, now);
    QuotaIsCounted(st.usage, m, st.sub.periodStart, st.sub.tier);
    hide Paid, PlanAllows, UsedIn, ChargedTo, Limit, Allowance;
  }

  /** Everything a new appointment needs. */
  ghost predicate MayBook(zone: Scheduling.Zone, st: Store, t: Readings, c: Command)
    requires Configured(st) && c.Create? && c.body.NewVisit?
  {
    var b := c.body;
    && TakesRequests(st, Appointments, t.owned)
    && MayWait(st.records, Appointments, b.phone, t.began)
    && b.service in st.services && st.services[b.service].active && (c.caller.Owner? || st.services[b.service].isPublic)
    && SettingsOf(st, Appointments).slot >= 1
    && VisitFits(zone, st, SettingsOf(st, Appointments), b.service, st.services[b.service].duration,
                 st.services[b.service].buffer, b.resource, None, b.startsAt, t.offered)
    && c.id !in st.records
  }

  function Earlier(a: Instant, b: Instant): Instant {
    if a < b then a else b
  }

  /** Main result: in any zone a new appointment is accepted exactly when the business takes requests, the caller is
      under the limits, and the occupied time fits the schedule and the calendar; what is stored is the
      request, ending one service later, expiring at its start or after the time to answer, whichever is
      first. */
  lemma BookingAcceptedExactly(zones: Zones, st: Store, t: Readings, c: Command)
    requires Configured(st) && c.Create? && c.body.NewVisit? && Stored(st, c, t.began).None?
    ensures Decide(zones, st, t, c).Accept? <==> MayBook(zones(c.timezone), st, t, c)
    ensures Decide(zones, st, t, c).Accept? ==>
              var w := Decide(zones, st, t, c).writes; var b := c.body; var s := st.services[b.service];
              && w.id == c.id && w.record.status.Requested? && w.record.version == 1 && w.record.confirmedAt.None?
              && w.entry == Some(Entry(Nothing, Requested, if c.caller == Owner then Staff else Customer))
              && w.timer == Some(w.record.expiresAt) && w.charge.None?
              && w.record.detail == Visit(b.service, b.resource, s.duration, s.buffer)
              && w.record.phone == b.phone && w.record.notes == b.notes && w.record.timezone == c.timezone
              && w.record.startsAt == b.startsAt && w.record.endsAt == b.startsAt + s.duration * MINUTE
              && w.record.expiresAt == Earlier(b.startsAt, t.renewed + TimeToAnswer(st, Appointments) * MINUTE)
  {
    hide CheckAppointment, VisitFits, TooMany, MayWait, RequireIntake, PlanAllows, HasQuota, Answer;
    var b, cfg := c.body, SettingsOf(st, Appointments);
    IntakeExactly(st, Appointments, t.owned);
    PendingIsCounted(st.records, Appointments, b.phone, t.began);
    if TakesRequests(st, Appointments, t.owned) {
      SlotIsPositive(st, Appointments);
      if b.service in st.services {
        var s := st.services[b.service];
        VisitFitsExactly(zones(c.timezone), st, cfg, b.service, s.duration, s.buffer, b.resource, None, b.startsAt,
                         t.offered);
      }
    }
  }

  lemma SlotIsPositive(st: Store, m: Module)
    requires Configured(st)
    ensures SettingsOf(st, m).slot >= 1 && ValidSettings(SettingsOf(st, m))
  {
  }

  /** Everything a new preorder needs. */
  ghost predicate MayOrder(zone: Scheduling.Zone, st: Store, t: Readings, c: Command)
    requires Configured(st) && c.Create? && c.body.NewOrder?
  {
    var b, cfg := c.body, SettingsOf(st, Preorders);
    && TakesRequests(st, Preorders, t.owned)
    && MayWait(st.records, Preorders, b.phone, t.began)
    && cfg.slot >= 1 && WindowFits(zone, st, cfg, b.window, None, t.offered)
    && Affordable(cfg, c.rows, b.wanted)
    && c.id !in st.records
  }

  /** Between one and fifty distinct items, each on its variant's grid at the current price, that sum to a storable
      total. */
  ghost predicate Affordable(cfg: Settings, rows: seq<Pricing.Variant>, wanted: seq<Pricing.Wanted>) {
    && 1 <= |wanted| <= 50
    && (forall i, j :: 0 <= i < j < |wanted| ==> wanted[i].variant != wanted[j].variant)
    && (forall i :: 0 <= i < |wanted| ==> Pricing.OnOffer(rows, cfg.rules, wanted[i]))
    && Pricing.Total(Pricing.Lines(wanted)) <= 999_999_999_900
  }

  /** Main result: likewise for a new preorder, whose stored lines price the wanted items in order. */
  lemma OrderAcceptedExactly(zones: Zones, st: Store, t: Readings, c: Command)
    requires Configured(st) && c.Create? && c.body.NewOrder? && Stored(st, c, t.began).None?
    ensures Decide(zones, st, t, c).Accept? <==> MayOrder(zones(c.timezone), st, t, c)
    ensures Decide(zones, st, t, c).Accept? ==>
              var w := Decide(zones, st, t, c).writes; var b := c.body; var window := st.windows[b.window];
              && w.id == c.id && w.record.status.Requested? && w.record.version == 1 && w.record.confirmedAt.None?
              && w.entry == Some(Entry(Nothing, Requested, if c.caller == Owner then Staff else Customer))
              && w.timer == Some(w.record.expiresAt) && w.charge.None?
              && w.record.detail == Order(b.window, NewItems(Pricing.Lines(b.wanted)),
                                          Pricing.Total(Pricing.Lines(b.wanted)), None)
              && w.record.phone == b.phone && w.record.notes == b.notes && w.record.timezone == c.timezone
              && w.record.startsAt == window.startsAt && w.record.endsAt == window.endsAt
              && w.record.expiresAt == Earlier(window.startsAt, t.renewed + TimeToAnswer(st, Preorders) * MINUTE)
  {
    hide CheckPickup, WindowFits, TooMany, MayWait, RequireIntake, PlanAllows, HasQuota, Answer, Affordable,
         Pricing.Quote, Catalog, NewItems;
    var b, cfg := c.body, SettingsOf(st, Preorders);
    IntakeExactly(st, Preorders, t.owned);
    PendingIsCounted(st.records, Preorders, b.phone, t.began);
    SlotIsPositive(st, Preorders);
    if TakesRequests(st, Preorders, t.owned) {
      WindowFitsExactly(zones(c.timezone), st, cfg, b.window, None, t.offered);
      QuoteExactly(cfg, c.rows, b.wanted);
    }
  }

  lemma QuoteExactly(cfg: Settings, rows: seq<Pricing.Variant>, wanted: seq<Pricing.Wanted>)
    requires ValidSettings(cfg)
    ensures var q := Pricing.Quote(Catalog(rows, cfg.rules), wanted);
            && (1 <= |wanted| <= Pricing.MAX_ITEMS && q.Ok? <==> Affordable(cfg, rows, wanted))
            && (q.Ok? ==> q.value == Pricing.Priced(Pricing.Lines(wanted), Pricing.Total(Pricing.Lines(wanted))))
  {
    Pricing.AcceptedExactly(Catalog(rows, cfg.rules), wanted);
    forall i | 0 <= i < |wanted|
      ensures Pricing.Orderable(Catalog(rows, cfg.rules), wanted[i]) <==> Pricing.OnOffer(rows, cfg.rules, wanted[i])
    {
      Pricing.OrderableExactly(rows, cfg.rules, wanted[i]);
    }
    hide Pricing.Orderable, Pricing.OnOffer, Pricing.FirstFault;
  }

  // ----- Confirmations -----

  /** What confirming needs: the version that was read, a live request, a paid plan with quota, and its place still
      free. */
  ghost predicate MayConfirm(zones: Zones, st: Store, t: Readings, c: Command)
    requires Configured(st) && c.Change?
  {
    && c.body.Transition? && c.id in st.records && IsOf(st.records[c.id], c.module_)
    && var r, cfg := st.records[c.id], SettingsOf(st, c.module_);
    && c.body.version == r.version && r.status == Requested && t.seen < r.expiresAt
    && PlanAllows(st.sub, c.module_, t.spent) && PlanAllows(st.sub, c.module_, t.owned) && HasQuota(st, c.module_)
    && cfg.slot >= 1
    && match r.detail
       case Visit(service, resource, duration, buffer) =>
         service in st.services &&
         VisitFits(zones(r.timezone), st, cfg, service, duration, buffer, resource, Some(c.id), r.startsAt, t.offered)
       case Order(window, _, _, _) => WindowFits(zones(r.timezone), st, cfg, window, Some(c.id), t.offered)
  }

  /** Main result: staff can confirm a request exactly when that holds. */
  lemma ConfirmedExactly(zones: Zones, st: Store, t: Readings, c: Command)
    requires Configured(st) && c.Change? && c.caller.Owner? && c.body.Transition? && c.body.status.Confirmed?
    requires Stored(st, c, t.began).None? && c.id in st.records
    ensures Decide(zones, st, t, c).Accept? <==> MayConfirm(zones, st, t, c)
  {
    hide Changed, VisitFits, WindowFits, PlanAllows, HasQuota, Answer;
    SlotIsPositive(st, c.module_);
    if ModuleOf(st.records[c.id]) == c.module_ {
      ConfirmIsChecked(zones, st, t, c);
    } else {
      OtherModuleIsUnknown(zones, st, t, c);
    }
  }

  lemma OtherModuleIsUnknown(zones: Zones, st: Store, t: Readings, c: Command)
    requires c.Change? && c.id in st.records && ModuleOf(st.records[c.id]) != c.module_
    ensures Changed(zones, st, t, c).Err?
  {
  }

  lemma ConfirmIsChecked(zones: Zones, st: Store, t: Readings, c: Command)
    requires Configured(st) && c.Change? && c.caller.Owner? && c.body.Transition? && c.body.status.Confirmed?
    requires c.id in st.records
    requires ModuleOf(st.records[c.id]) == c.module_
    ensures Changed(zones, st, t, c).Ok? <==> MayConfirm(zones, st, t, c)
  {
    var r := st.records[c.id];
    SlotIsPositive(st, c.module_);
    ConfirmIsGuarded(st, t, c, r);
    PlanIsChecked(st.sub, c.module_, t.spent);
    PlanIsChecked(st.sub, c.module_, t.owned);
    QuotaIsCounted(st.usage, c.module_, st.sub.periodStart, st.sub.tier);
    hide Guarded, UsedIn, ChargedTo, Limit, Allowance, RequirePaid, Paid, PlanAllows, VisitFits, WindowFits,
         CheckAppointment, CheckPickup, Shown, Configured;
    if Guarded(st, t, c, r).Ok? {
      if r.detail.Visit? {
        VisitFitsExactly(zones(r.timezone), st, SettingsOf(st, Appointments), r.detail.service, r.detail.duration,
                         r.detail.buffer, r.detail.resource, Some(c.id), r.startsAt, t.offered);
        ConfirmedVisit(zones, st, t, c, r);
      } else {
        WindowFitsExactly(zones(r.timezone), st, SettingsOf(st, Preorders), r.detail.window, Some(c.id), t.offered);
        ConfirmedOrder(zones, st, t, c, r);
      }
      hide ChangedVisit, ChangedOrder;
    }
  }

  lemma ConfirmIsGuarded(st: Store, t: Readings, c: Command, r: Record)
    requires c.Change? && c.caller.Owner? && c.body.Transition? && c.body.status.Confirmed? && ModuleOf(r) == c.module_
    ensures Guarded(st, t, c, r).Ok? <==> c.body.version == r.version && r.status == Requested && t.seen < r.expiresAt
    ensures Guarded(st, t, c, r).Ok? ==> Guarded(st, t, c, r).value.Confirmed? && r.status.Requested?
  {
    hide SettingsOf;
  }

  lemma ConfirmedVisit(zones: Zones, st: Store, t: Readings, c: Command, r: Record)
    requires c.Change? && c.body.Transition? && r.detail.Visit? && r.status.Requested?
    ensures ChangedVisit(zones, st, t, c, r, Confirmed).Ok? <==>
            && RequirePaid(st.sub, Appointments, t.owned).Ok? && r.detail.service in st.services
            && CheckAppointment(zones(r.timezone), st, SettingsOf(st, Appointments), r.detail.service,
                                r.detail.duration, r.detail.buffer, r.detail.resource, Some(c.id), r.startsAt,
                                t.offered).Ok?
  {
    hide CheckAppointment, SettingsOf, RequirePaid;
  }

  lemma ConfirmedOrder(zones: Zones, st: Store, t: Readings, c: Command, r: Record)
    requires c.Change? && c.body.Transition? && r.detail.Order? && r.status.Requested?
    ensures ChangedOrder(zones, st, t, c, r, Confirmed).Ok? <==>
            && RequirePaid(st.sub, Preorders, t.owned).Ok?
            && CheckPickup(zones(r.timezone), st, SettingsOf(st, Preorders), r.detail.window, Some(c.id), t.offered).Ok?
  {
    hide CheckPickup, SettingsOf, RequirePaid;
  }

  /** What a confirmation stores: the same request at its re-checked place, confirmed now and charged to the
      current period. */
  lemma ConfirmationStores(zones: Zones, st: Store, t: Readings, c: Command)
    requires Configured(st) && c.Change? && c.caller.Owner? && c.body.Transition? && c.body.status.Confirmed?
    requires Decide(zones, st, t, c).Accept?
    ensures c.id in st.records
    ensures var r, w := st.records[c.id], Decide(zones, st, t, c).writes;
            && w.id == c.id && w.charge == Some(st.sub.periodStart)
            && w.record == r.(status := Confirmed, version := r.version + 1, confirmedAt := Some(t.stamped),
                              startsAt := w.record.startsAt, endsAt := w.record.endsAt)
            && match r.detail
               case Visit(_, _, duration, _) =>
                 w.record.startsAt == r.startsAt && w.record.endsAt == r.startsAt + duration * MINUTE
               case Order(window, _, _, _) =>
                 window in st.windows && st.windows[window] == Window(w.record.startsAt, w.record.endsAt)
  {
    hide Answer, Guarded, ChangedVisit, ChangedOrder, UsedIn, Paid;
    var r := st.records[c.id];
    ConfirmIsGuarded(st, t, c, r);
    if r.detail.Visit? {
      ConfirmedVisitStores(zones, st, t, c, r);
    } else {
      ConfirmedOrderStores(zones, st, t, c, r);
    }
  }

  lemma ConfirmedVisitStores(zones: Zones, st: Store, t: Readings, c: Command, r: Record)
    requires c.Change? && c.body.Transition? && r.detail.Visit? && r.status.Requested? &&
             ChangedVisit(zones, st, t, c, r, Confirmed).Ok?
    ensures ChangedVisit(zones, st, t, c, r, Confirmed).value ==
            r.(status := Confirmed, version := r.version + 1, confirmedAt := Some(t.stamped),
               endsAt := r.startsAt + r.detail.duration * MINUTE)
  {
    hide VisitSlots, Overlaps, SettingsOf, RequirePaid;
  }

  lemma ConfirmedOrderStores(zones: Zones, st: Store, t: Readings, c: Command, r: Record)
    requires c.Change? && c.body.Transition? && r.detail.Order? && r.status.Requested? &&
             ChangedOrder(zones, st, t, c, r, Confirmed).Ok?
    ensures r.detail.window in st.windows
    ensures var w := st.windows[r.detail.window];
            ChangedOrder(zones, st, t, c, r, Confirmed).value ==
            r.(status := Confirmed, version := r.version + 1, confirmedAt := Some(t.stamped), startsAt := w.startsAt,
               endsAt := w.endsAt)
  {
    hide PickupSlots, Holding, SettingsOf, RequirePaid;
    assert EditedItems(r.detail.items, []) == Ok(r.detail.items);
  }

  // ----- Edits -----

  /** Distinct items of this order, each with a positive quantity. */
  predicate ValidEdits(items: seq<Item>, edits: seq<(Id, int)>) {
    && (forall i :: 0 <= i < |edits| ==> edits[i].0 < |items| && 0 < edits[i].1 <= 999_999_999_000)
    && (forall i, j :: 0 <= i < j < |edits| ==> edits[i].0 != edits[j].0)
  }

  /** Each named item gets its quantity; nothing else about any item changes. */
  ghost predicate EditsWritten(items: seq<Item>, edits: seq<(Id, int)>, after: seq<Item>) {
    && |after| == |items|
    && (forall i :: 0 <= i < |edits| ==>
          edits[i].0 < |items| && after[edits[i].0] == items[edits[i].0].(finalQuantity := Some(edits[i].1)))
    && (forall k :: 0 <= k < |items| && (forall i :: 0 <= i < |edits| ==> edits[i].0 != k) ==> after[k] == items[k])
  }

  /** Main result: the loop over edited items succeeds exactly on valid edits and writes exactly them. */
  lemma {:induction false} EditsExactly(items: seq<Item>, edits: seq<(Id, int)>)
    ensures EditedItems(items, edits).Ok? <==> ValidEdits(items, edits)
    ensures EditedItems(items, edits).Ok? ==> EditsWritten(items, edits, EditedItems(items, edits).value)
  {
    if edits != [] {
      var n := |edits| - 1;
      EditsExactly(items, edits[..n]);
      if EditedItems(items, edits[..n]).Ok? {
        LastEdit(items, edits, EditedItems(items, edits[..n]).value);
      } else {
        assert !ValidEdits(items, edits) by {
          if ValidEdits(items, edits) {
            assert ValidEdits(items, edits[..n]);
          }
        }
      }
    }
  }

  lemma LastEdit(items: seq<Item>, edits: seq<(Id, int)>, before: seq<Item>)
    requires edits != [] && EditedItems(items, edits[..|edits| - 1]) == Ok(before)
    requires ValidEdits(items, edits[..|edits| - 1]) && EditsWritten(items, edits[..|edits| - 1], before)
    ensures EditedItems(items, edits).Ok? <==> ValidEdits(items, edits)
    ensures EditedItems(items, edits).Ok? ==> EditsWritten(items, edits, EditedItems(items, edits).value)
  {
    ValidExtends(items, edits, before);
    if EditedItems(items, edits).Ok? {
      WrittenExtends(items, edits, before, EditedItems(items, edits).value);
    }
  }

  lemma ValidExtends(items: seq<Item>, edits: seq<(Id, int)>, before: seq<Item>)
    requires edits != [] && EditedItems(items, edits[..|edits| - 1]) == Ok(before)
    requires ValidEdits(items, edits[..|edits| - 1]) && |before| == |items|
    ensures EditedItems(items, edits).Ok? <==> ValidEdits(items, edits)
    ensures EditedItems(items, edits).Ok? ==>
              var (id, quantity) := edits[|edits| - 1];
              id < |before| &&
              EditedItems(items, edits).value == before[id := before[id].(finalQuantity := Some(quantity))]
  {
    var n := |edits| - 1;
    var (id, quantity) := edits[n];
    var repeated := exists j :: 0 <= j < n && edits[j].0 == id;
    assert EditedItems(items, edits).Ok? <==> !repeated && Pricing.PositiveQuantity(quantity) && id < |items|;
    OneMoreEdit(items, edits);
  }

  lemma OneMoreEdit(items: seq<Item>, edits: seq<(Id, int)>)
    requires edits != [] && ValidEdits(items, edits[..|edits| - 1])
    ensures var n := |edits| - 1;
            ValidEdits(items, edits) <==>
            !(exists j :: 0 <= j < n && edits[j].0 == edits[n].0) && Pricing.PositiveQuantity(edits[n].1) &&
            edits[n].0 < |items|
  {
    var n := |edits| - 1;
    var earlier := edits[..n];
    assert forall i :: 0 <= i < n ==> earlier[i] == edits[i];
  }

  lemma WrittenExtends(items: seq<Item>, edits: seq<(Id, int)>, before: seq<Item>, after: seq<Item>)
    requires edits != [] && ValidEdits(items, edits) && EditsWritten(items, edits[..|edits| - 1], before)
    requires var (id, quantity) := edits[|edits| - 1];
             id < |before| && after == before[id := before[id].(finalQuantity := Some(quantity))]
    ensures EditsWritten(items, edits, after)
  {
    var n := |edits| - 1;
    var id := edits[n].0;
    var earlier := edits[..n];
    forall i | 0 <= i < n
      ensures edits[i].0 < |items| && after[edits[i].0] == items[edits[i].0].(finalQuantity := Some(edits[i].1))
    {
      assert earlier[i] == edits[i] && edits[i].0 != id;
    }
    assert forall i :: 0 <= i < |earlier| ==> earlier[i].0 != id;
    forall k | 0 <= k < |items| && forall i :: 0 <= i < |edits| ==> edits[i].0 != k
      ensures after[k] == items[k]
    {
      assert edits[n].0 != k;
      assert forall i :: 0 <= i < |earlier| ==> earlier[i] == edits[i];
    }
  }

  /** An accepted edit stores what was asked for and keeps what was not. */
  lemma EditStores(zones: Zones, st: Store, t: Readings, c: Command)
    requires Configured(st) && c.Change? && c.body.Edit? && Decide(zones, st, t, c).Accept?
    ensures c.id in st.records
    ensures var r, w, b := st.records[c.id], Decide(zones, st, t, c).writes.record, c.body;
            && w.expiresAt == (if Moves(r, b) && r.status.Requested?
                               then Earlier(w.startsAt, t.renewed + TimeToAnswer(st, c.module_) * MINUTE)
                               else r.expiresAt)
            && w.confirmedAt == r.confirmedAt && w.version == r.version + 1
            && w.status == r.status && w.notes == b.newNotes.GetOr(r.notes)
            && (r.detail.Visit? ==>
                  w.startsAt == b.newStart.GetOr(r.startsAt) &&
                  w.detail == r.detail.(resource := b.newResource.GetOr(r.detail.resource)))
            && (r.detail.Order? ==>
                  w.detail.Order? && w.detail.window == b.newWindow.GetOr(r.detail.window) &&
                  EditsWritten(r.detail.items, b.finals, w.detail.items) &&
                  w.detail.finalTotal == (if b.finalTotal.Some? then b.finalTotal else r.detail.finalTotal))
  {
    hide Answer, Guarded, ChangedVisit, ChangedOrder, EditsWritten, Moves, SettingsOf;
    var r := st.records[c.id];
    EditKeepsStatus(st, t, c, r);
    if r.detail.Visit? {
      VisitEditStores(zones, st, t, c, r, Guarded(st, t, c, r).value);
    } else {
      OrderEditStores(zones, st, t, c, r, Guarded(st, t, c, r).value);
    }
  }

  lemma EditKeepsStatus(st: Store, t: Readings, c: Command, r: Record)
    requires c.Change? && c.body.Edit? && Guarded(st, t, c, r).Ok?
    ensures Guarded(st, t, c, r).value == r.status
  {
  }

  lemma VisitEditStores(zones: Zones, st: Store, t: Readings, c: Command, r: Record, status: Status)
    requires c.Change? && c.body.Edit? && r.detail.Visit? && ChangedVisit(zones, st, t, c, r, status).Ok?
    ensures var w, b := ChangedVisit(zones, st, t, c, r, status).value, c.body;
            w.status == status && w.notes == b.newNotes.GetOr(r.notes) && w.startsAt == b.newStart.GetOr(r.startsAt) &&
            w.version == r.version + 1 && (status == r.status ==> w.confirmedAt == r.confirmedAt) &&
            w.expiresAt == (if Moves(r, b) && status.Requested?
                            then Earlier(w.startsAt, t.renewed + TimeToAnswer(st, Appointments) * MINUTE)
                            else r.expiresAt) &&
            w.detail == r.detail.(resource := b.newResource.GetOr(r.detail.resource))
  {
    SettingsAreRead(st, Appointments);
    hide RecheckVisit, SettingsOf, TimeToAnswer, Moves;
  }

  lemma OrderEditStores(zones: Zones, st: Store, t: Readings, c: Command, r: Record, status: Status)
    requires c.Change? && c.body.Edit? && r.detail.Order? && ChangedOrder(zones, st, t, c, r, status).Ok?
    ensures var w, b := ChangedOrder(zones, st, t, c, r, status).value, c.body;
            w.status == status && w.notes == b.newNotes.GetOr(r.notes) && w.detail.Order? &&
            w.version == r.version + 1 && (status == r.status ==> w.confirmedAt == r.confirmedAt) &&
            w.expiresAt == (if Moves(r, b) && status.Requested?
                            then Earlier(w.startsAt, t.renewed + TimeToAnswer(st, Preorders) * MINUTE)
                            else r.expiresAt) &&
            w.detail.window == b.newWindow.GetOr(r.detail.window) &&
            EditsWritten(r.detail.items, b.finals, w.detail.items) &&
            w.detail.finalTotal == (if b.finalTotal.Some? then b.finalTotal else r.detail.finalTotal)
  {
    SettingsAreRead(st, Preorders);
    hide RecheckOrder, EditedItems, EditsWritten, SettingsOf, TimeToAnswer, Moves;
    EditsExactly(r.detail.items, c.body.finals);
  }
}
