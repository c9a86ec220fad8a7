/** Which error a refused request is answered with: the first check that fails, in the order of the checks. */
module Refusals {
  import opened Prelude
  import opened Records
  import opened Operations
  import opened Terms
  import opened Acceptance
  import opened Changes
  import Pricing
  import Scheduling

  // ----- Creations -----

  /** A creation whose key has no unexpired reply yet. */
  predicate FirstCreate(st: Store, t: Readings, c: Command) {
    c.Create? && Stored(st, c, t.began).None? && (c.body.NewVisit? || c.body.NewOrder?)
  }

  /** The plan and the settings let the module take requests. */
  predicate Running(st: Store, m: Module, now: Instant) {
    PlanAllows(st.sub, m, now) && m in st.settings && st.settings[m].enabled && st.settings[m].hours != []
  }

  predicate PassesLimits(st: Store, t: Readings, m: Module, phone: string) {
    Running(st, m, t.owned) && HasQuota(st, m) && MayWait(st.records, m, phone, t.began)
  }

  /** Main result: what refuses a creation before its contents are looked at. Customers are not told about the
      quota. */
  lemma LimitsRefuse(zones: Zones, st: Store, t: Readings, c: Command)
    requires Configured(st) && FirstCreate(st, t, c)
    ensures var m := if c.body.NewVisit? then Appointments else Preorders;
            var d := Decide(zones, st, t, c);
            && (!Running(st, m, t.owned) ==> d == Refuse(ModuleUnavailable))
            && (Running(st, m, t.owned) && !HasQuota(st, m) ==>
                  d == Refuse(if c.caller == Owner then QuotaExceeded else ModuleUnavailable))
            && (Running(st, m, t.owned) && HasQuota(st, m) && !MayWait(st.records, m, c.body.phone, t.began) ==>
                  d == Refuse(RateLimited))
  {
    var m := CreatedModule(c.body);
    IntakeExactly(st, m, t.owned);
    PendingIsCounted(st.records, m, c.body.phone, t.began);
    hide RequireIntake, PlanAllows, HasQuota, TooMany, MayWait, CreateVisit, CreateOrder, CreateWrites;
  }

  lemma PassedLimits(zones: Zones, st: Store, t: Readings, c: Command)
    requires Configured(st) && FirstCreate(st, t, c)
    requires PassesLimits(st, t, if c.body.NewVisit? then Appointments else Preorders, c.body.phone)
    ensures c.body.NewVisit? ==>
              ValidSettings(st.settings[Appointments]) &&
              Decide(zones, st, t, c) == AfterChecks(st, t, c, CreateVisit(zones, st, t, c, st.settings[Appointments]))
    ensures c.body.NewOrder? ==>
              ValidSettings(st.settings[Preorders]) &&
              Decide(zones, st, t, c) == AfterChecks(st, t, c, CreateOrder(zones, st, t, c, st.settings[Preorders]))
  {
    var m := CreatedModule(c.body);
    IntakeExactly(st, m, t.owned);
    PendingIsCounted(st.records, m, c.body.phone, t.began);
    hide RequireIntake, PlanAllows, HasQuota, TooMany, MayWait, CreateVisit, CreateOrder, CreateWrites, ValidSettings;
  }

  function AfterChecks(st: Store, t: Readings, c: Command, r: Result<Record>): Decision
    requires c.Create?
  {
    if r.Err? then Refuse(r.error)
    else if c.id in st.records then Refuse(Internal)
    else Accept(CreateWrites(st, t, c, r.value))
  }

  /** Main result: what refuses an appointment within the limits. */
  lemma BookingRefused(zones: Zones, st: Store, t: Readings, c: Command)
    requires Configured(st) && FirstCreate(st, t, c) && c.body.NewVisit?
    requires PassesLimits(st, t, Appointments, c.body.phone)
    ensures var b, d := c.body, Decide(zones, st, t, c); var cfg := st.settings[Appointments];
            if b.service !in st.services then d == Refuse(NotFound)
            else
              var s := st.services[b.service];
              if !s.active || (c.caller != Owner && !s.isPublic) then d == Refuse(InvalidRequest)
              else
                cfg.slot >= 1 && s.duration >= 1 &&
                !VisitFits(zones(c.timezone), st, cfg, b.service, s.duration, s.buffer, b.resource, None, b.startsAt,
                           t.offered) ==>
                d == Refuse(SlotUnavailable)
  {
    var b := c.body;
    PassedLimits(zones, st, t, c);
    hide Decide, PassesLimits, Running, HasQuota, MayWait;
    if b.service in st.services {
      var s := st.services[b.service];
      if st.settings[Appointments].slot >= 1 && s.duration >= 1 {
        PlaceRefused(zones(c.timezone), st, st.settings[Appointments], b.service, s.duration, s.buffer,
                     b.resource, None, b.startsAt, t.offered);
      }
      hide CheckAppointment, VisitFits;
    }
  }

  lemma PlaceRefused(zone: Scheduling.Zone, st: Store, cfg: Settings, service: Id, duration: nat, buffer: nat,
                     resource: Id, exclude: Option<Id>, start: Instant, now: Instant)
    requires cfg.slot >= 1 && duration >= 1
    ensures var r := CheckAppointment(zone, st, cfg, service, duration, buffer, resource, exclude, start, now);
            r == Err(SlotUnavailable) ||
            (VisitFits(zone, st, cfg, service, duration, buffer, resource, exclude, start, now) && r.Ok?)
  {
    VisitFitsExactly(zone, st, cfg, service, duration, buffer, resource, exclude, start, now);
    hide VisitFits, Overlaps, Scheduling.Scan, Scheduling.Steps, Scheduling.Bookable;
  }

  /** Main result: what refuses a preorder within the limits, before its items are priced. */
  lemma OrderRefused(zones: Zones, st: Store, t: Readings, c: Command)
    requires Configured(st) && FirstCreate(st, t, c) && c.body.NewOrder?
    requires PassesLimits(st, t, Preorders, c.body.phone)
    ensures var b, d := c.body, Decide(zones, st, t, c); var cfg := st.settings[Preorders];
            && (|b.wanted| == 0 || |b.wanted| > 50 ==> d == Refuse(InvalidRequest))
            && (1 <= |b.wanted| <= 50 && cfg.slot >= 1 ==>
                WindowError(zones(c.timezone), st, cfg, b.window, None, t.offered, d))
            && (1 <= |b.wanted| <= 50 && cfg.slot >= 1 &&
                WindowFits(zones(c.timezone), st, cfg, b.window, None, t.offered) ==>
                  forall e :: Pricing.Quote(Catalog(c.rows, cfg.rules), b.wanted) == Err(e) ==> d == Refuse(e))
  {
    var b, cfg := c.body, st.settings[Preorders];
    PassedLimits(zones, st, t, c);
    WindowRefused(zones(c.timezone), st, cfg, b.window, None, t.offered);
    WindowFitsExactly(zones(c.timezone), st, cfg, b.window, None, t.offered);
    hide Decide, PassesLimits, Running, HasQuota, MayWait, CheckPickup, WindowFits, PickupOffered, PlacesTaken, Catalog,
         Pricing.Quote, NewItems;
  }

  /** The error of a window that does not fit. */
  ghost predicate WindowError(zone: Scheduling.Zone, st: Store, cfg: Settings, window: Id, exclude: Option<Id>,
                              now: Instant, d: Decision)
    requires cfg.slot >= 1
  {
    && (window !in st.windows ==> d == Refuse(NotFound))
    && (window in st.windows ==>
          var offered := PickupOffered(zone, cfg, zone.clock(st.windows[window].startsAt).date, now,
                                       SlotOf(st.windows[window]));
          && (!offered ==> d == Refuse(SlotUnavailable))
          && (offered && cfg.maxOrders > 0 && |PlacesTaken(st.records, window, exclude)| >= cfg.maxOrders ==>
                d == Refuse(PickupWindowFull)))
  }

  lemma WindowRefused(zone: Scheduling.Zone, st: Store, cfg: Settings, window: Id, exclude: Option<Id>, now: Instant)
    requires cfg.slot >= 1
    ensures var r := CheckPickup(zone, st, cfg, window, exclude, now);
            r.Err? ==> WindowError(zone, st, cfg, window, exclude, now, Refuse(r.error))
    ensures CheckPickup(zone, st, cfg, window, exclude, now).Ok? ==>
              forall d :: WindowError(zone, st, cfg, window, exclude, now, d)
  {
    hide PickupOffered, Holding, PlacesTaken;
    PlacesAreCounted(st.records, window, exclude);
    if window in st.windows {
      var w := st.windows[window];
      PickupSlotsExactly(zone, cfg, zone.clock(w.startsAt).date, now, SlotOf(w));
      hide PickupSlots;
    }
  }

  // ----- Changes -----

  /** Main result: what refuses a change before anything is written. */
  lemma ChangeRefused(zones: Zones, st: Store, t: Readings, c: Command)
    requires Configured(st) && c.Change? && Stored(st, c, t.began).None?
    ensures var d := Decide(zones, st, t, c);
            if c.id !in st.records || !IsOf(st.records[c.id], c.module_) then d == Refuse(NotFound)
            else
              var r := st.records[c.id];
              var lapsed := r.status == Expired || (r.status == Requested && r.expiresAt <= t.seen);
              var read := if c.body.Transition? || c.body.Edit? then c.body.version else 0;
              if read != r.version then d == Refuse(VersionConflict)
              else if lapsed then d == Refuse(RequestExpired)
              else if !InProgress(r, t.seen) then d == Refuse(InvalidTransition)
              else if c.caller != Owner && r.startsAt <= t.cutoff + Notice(st, c.module_) * MINUTE
              then d == Refuse(InvalidTransition)
              else
                && (c.body.Transition? && c.caller == Owner && !Leads(c.module_, r.status, c.body.status) ==>
                      d == Refuse(InvalidTransition))
                && (c.body.Edit? && c.body.newNotes.Some? && |c.body.newNotes.value| > 2000 ==>
                      d == Refuse(InvalidRequest))
  {
    hide ChangedVisit, ChangedOrder, Consume, ChangeWrites;
    if c.id in st.records && IsOf(st.records[c.id], c.module_) {
      GuardRefused(st, t, c, st.records[c.id]);
      hide Guarded, InProgress, Notice, Leads;
    }
  }

  lemma GuardRefused(st: Store, t: Readings, c: Command, r: Record)
    requires c.Change? && IsOf(r, c.module_)
    ensures var d := Guarded(st, t, c, r);
            var lapsed := r.status == Expired || (r.status == Requested && r.expiresAt <= t.seen);
            var read := if c.body.Transition? || c.body.Edit? then c.body.version else 0;
            if read != r.version then d == Err(VersionConflict)
            else if lapsed then d == Err(RequestExpired)
            else if !InProgress(r, t.seen) then d == Err(InvalidTransition)
            else if c.caller != Owner && r.startsAt <= t.cutoff + Notice(st, c.module_) * MINUTE
            then d == Err(InvalidTransition)
            else
              && (c.body.Transition? && c.caller == Owner && !Leads(c.module_, r.status, c.body.status) ==>
                    d == Err(InvalidTransition))
              && (c.body.Edit? && c.body.newNotes.Some? && |c.body.newNotes.value| > 2000 ==> d == Err(InvalidRequest))
  {
    SettingsAreRead(st, c.module_);
    hide SettingsOf, Notice;
  }

  /** Main result: what refuses a confirmation of a live request by its version. */
  lemma ConfirmRefused(zones: Zones, st: Store, t: Readings, c: Command)
    requires Configured(st) && FirstChange(st, t, c) && c.caller == Owner && c.body.Transition?
    requires c.body.status == Confirmed && c.body.version == st.records[c.id].version
    requires st.records[c.id].status == Requested && t.seen < st.records[c.id].expiresAt
    ensures var r, d := st.records[c.id], Decide(zones, st, t, c); var cfg := SettingsOf(st, c.module_);
            if !PlanAllows(st.sub, c.module_, t.spent) then d == Refuse(ModuleUnavailable)
            else if !HasQuota(st, c.module_) then d == Refuse(QuotaExceeded)
            else if !PlanAllows(st.sub, c.module_, t.owned) then d == Refuse(ModuleUnavailable)
            else match r.detail
                 case Visit(service, resource, duration, buffer) =>
                   if service !in st.services then d == Refuse(NotFound)
                   else
                     cfg.slot >= 1 && duration >= 1 &&
                     !VisitFits(zones(r.timezone), st, cfg, service, duration, buffer, resource, Some(c.id), r.startsAt,
                                t.offered) ==>
                     d == Refuse(SlotUnavailable)
                 case Order(window, _, _, _) =>
                   cfg.slot >= 1 ==> WindowError(zones(r.timezone), st, cfg, window, Some(c.id), t.offered, d)
  {
    var r, cfg := st.records[c.id], SettingsOf(st, c.module_);
    GuardedStep(st, t, c, r);
    StepsAreListed(c.module_, Requested, Confirmed);
    PlanIsChecked(st.sub, c.module_, t.spent);
    PlanIsChecked(st.sub, c.module_, t.owned);
    QuotaIsCounted(st.usage, c.module_, st.sub.periodStart, st.sub.tier);
    SlotIsPositive(st, c.module_);
    hide Guarded, Paid, PlanAllows, RequirePaid, UsedIn, ChargedTo, Limit, Allowance, Configured, SettingsOf,
         ChangeWrites;
    if r.detail.Visit? {
      RecheckRefused(zones, st, t, c, r);
    } else {
      WindowRecheckRefused(zones, st, t, c, r);
    }
    hide ChangedVisit, ChangedOrder, WindowError, VisitFits;
  }

  lemma RecheckRefused(zones: Zones, st: Store, t: Readings, c: Command, r: Record)
    requires c.Change? && c.body.Transition? && r.detail.Visit? && r.status == Requested
    requires SettingsOf(st, Appointments).slot >= 1
    ensures var d := ChangedVisit(zones, st, t, c, r, Confirmed); var cfg := SettingsOf(st, Appointments);
            if RequirePaid(st.sub, Appointments, t.owned).Err?
            then d == Err(RequirePaid(st.sub, Appointments, t.owned).error)
            else if r.detail.service !in st.services then d == Err(NotFound)
            else
              r.detail.duration >= 1 &&
              !VisitFits(zones(r.timezone), st, cfg, r.detail.service, r.detail.duration, r.detail.buffer,
                         r.detail.resource, Some(c.id), r.startsAt, t.offered) ==>
              d == Err(SlotUnavailable)
  {
    if r.detail.duration >= 1 {
      PlaceRefused(zones(r.timezone), st, SettingsOf(st, Appointments), r.detail.service, r.detail.duration,
                   r.detail.buffer, r.detail.resource, Some(c.id), r.startsAt, t.offered);
    }
    hide CheckAppointment, VisitFits, SettingsOf, RequirePaid;
  }

  lemma WindowRecheckRefused(zones: Zones, st: Store, t: Readings, c: Command, r: Record)
    requires c.Change? && c.body.Transition? && r.detail.Order? && r.status == Requested
    requires SettingsOf(st, Preorders).slot >= 1
    ensures var d := ChangedOrder(zones, st, t, c, r, Confirmed);
            if RequirePaid(st.sub, Preorders, t.owned).Err? then d == Err(RequirePaid(st.sub, Preorders, t.owned).error)
            else if d.Err? then
              WindowError(zones(r.timezone), st, SettingsOf(st, Preorders), r.detail.window, Some(c.id), t.offered,
                          Refuse(d.error))
            else
              forall e :: WindowError(zones(r.timezone), st, SettingsOf(st, Preorders), r.detail.window, Some(c.id),
                                      t.offered, e)
  {
    WindowRefused(zones(r.timezone), st, SettingsOf(st, Preorders), r.detail.window, Some(c.id), t.offered);
    hide CheckPickup, WindowError, SettingsOf, RequirePaid;
  }

  // ----- Edits -----

  /** The edit passes everything that is checked before its fields. */
  predicate MayEdit(st: Store, t: Readings, c: Command) {
    && FirstChange(st, t, c) && c.body.Edit? && c.body.version == st.records[c.id].version
    && InProgress(st.records[c.id], t.seen)
    && (c.caller != Owner ==> t.cutoff + Notice(st, c.module_) * MINUTE < st.records[c.id].startsAt)
    && (c.body.newNotes.Some? ==> |c.body.newNotes.value| <= 2000)
  }

  /** Main result: what refuses an edit of an appointment: fields of a preorder, then the plan, the service or the
      place if it asks for one. */
  lemma VisitEditRefused(zones: Zones, st: Store, t: Readings, c: Command)
    requires Configured(st) && MayEdit(st, t, c) && st.records[c.id].detail.Visit?
    ensures var r, b, d := st.records[c.id], c.body, Decide(zones, st, t, c); var cfg := SettingsOf(st, Appointments);
            if b.newWindow.Some? || b.finals != [] || b.finalTotal.Some? then d == Refuse(InvalidRequest)
            else
              AsksForPlace(b) ==>
              if !PlanAllows(st.sub, Appointments, t.owned) then d == Refuse(ModuleUnavailable)
              else if r.detail.service !in st.services then d == Refuse(NotFound)
              else
                cfg.slot >= 1 && r.detail.duration >= 1 &&
                !VisitFits(zones(r.timezone), st, cfg, r.detail.service, r.detail.duration, r.detail.buffer,
                           b.newResource.GetOr(r.detail.resource), Some(c.id), b.newStart.GetOr(r.startsAt),
                           t.offered) ==>
                d == Refuse(SlotUnavailable)
  {
    var r, b := st.records[c.id], c.body;
    GuardedEdit(st, t, c, r);
    PlanIsChecked(st.sub, Appointments, t.owned);
    hide Guarded, InProgress, Notice, ChangeWrites, RequirePaid, PlanAllows, Paid, SettingsOf;
    if SettingsOf(st, Appointments).slot >= 1 && r.detail.duration >= 1 {
      PlaceRefused(zones(r.timezone), st, SettingsOf(st, Appointments), r.detail.service, r.detail.duration,
                   r.detail.buffer, b.newResource.GetOr(r.detail.resource), Some(c.id), b.newStart.GetOr(r.startsAt),
                   t.offered);
    }
    hide CheckAppointment, VisitFits;
  }

  /** Main result: what refuses an edit of a preorder: fields of an appointment, then the plan or the window if it asks
      for one, then its items and its total. */
  lemma OrderEditRefused(zones: Zones, st: Store, t: Readings, c: Command)
    requires Configured(st) && MayEdit(st, t, c) && st.records[c.id].detail.Order?
    ensures var r, b, d := st.records[c.id], c.body, Decide(zones, st, t, c); var cfg := SettingsOf(st, Preorders);
            if b.newStart.Some? || b.newResource.Some? then d == Refuse(InvalidRequest)
            else if b.newWindow.Some? && !PlanAllows(st.sub, Preorders, t.owned) then d == Refuse(ModuleUnavailable)
            else if b.newWindow.Some? && cfg.slot >= 1 &&
                    !WindowFits(zones(r.timezone), st, cfg, b.newWindow.value, Some(c.id), t.offered)
            then WindowError(zones(r.timezone), st, cfg, b.newWindow.value, Some(c.id), t.offered, d)
            else
              cfg.slot >= 1 && (!ValidEdits(r.detail.items, b.finals) || !TotalFits(b)) ==>
              d == Refuse(InvalidRequest)
  {
    var r, b := st.records[c.id], c.body;
    GuardedEdit(st, t, c, r);
    PlanIsChecked(st.sub, Preorders, t.owned);
    EditsExactly(r.detail.items, b.finals);
    EditsErr(r.detail.items, b.finals);
    hide Guarded, InProgress, Notice, ChangeWrites, RequirePaid, PlanAllows, Paid, SettingsOf, EditedItems, ValidEdits,
         EditsWritten;
    if SettingsOf(st, Preorders).slot >= 1 && b.newWindow.Some? {
      WindowRefused(zones(r.timezone), st, SettingsOf(st, Preorders), b.newWindow.value, Some(c.id), t.offered);
      WindowFitsExactly(zones(r.timezone), st, SettingsOf(st, Preorders), b.newWindow.value, Some(c.id), t.offered);
    }
    hide CheckPickup, WindowFits, WindowError;
  }

  predicate TotalFits(b: Body)
    requires b.Edit?
  {
    b.finalTotal.Some? ==> 0 <= b.finalTotal.value <= 999_999_999_900
  }

  lemma {:induction false} EditsErr(items: seq<Item>, edits: seq<(Id, int)>)
    ensures EditedItems(items, edits).Err? ==> EditedItems(items, edits).error == InvalidRequest
  {
    if edits != [] {
      EditsErr(items, edits[..|edits| - 1]);
    }
  }
}
