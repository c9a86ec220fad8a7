/** When a transition or an edit goes through and what it then writes, in the fields of the rows. */
module Changes {
  import opened Prelude
  import opened Records
  import opened Operations
  import opened Terms
  import opened Acceptance
  import Pricing

  /** A change of a record of its own module, whose key has no unexpired reply yet. */
  predicate FirstChange(st: Store, t: Readings, c: Command) {
    c.Change? && Stored(st, c, t.began).None? && c.id in st.records && IsOf(st.records[c.id], c.module_)
  }

  // ----- Staff -----

  /** Main result: staff take a record to another status exactly from the version they read, before it lapses,
      along the listed steps, confirming only what may be confirmed. Any other step writes that status and
      nothing else about the record. */
  lemma StaffStepExactly(zones: Zones, st: Store, t: Readings, c: Command)
    requires Configured(st) && FirstChange(st, t, c) && c.caller == Owner && c.body.Transition?
    ensures var r, s := st.records[c.id], c.body.status;
            Decide(zones, st, t, c).Accept? <==>
            && c.body.version == r.version && (r.status == Requested ==> t.seen < r.expiresAt)
            && Leads(c.module_, r.status, s) && (s == Confirmed ==> MayConfirm(zones, st, t, c))
    ensures Decide(zones, st, t, c).Accept? ==>
              var r, s, w := st.records[c.id], c.body.status, Decide(zones, st, t, c).writes;
              && w.id == c.id && w.entry == Some(Entry(r.status, s, Staff)) && w.timer == None
              && (s != Confirmed ==> w.record == r.(status := s, version := r.version + 1) && w.charge == None)
  {
    var r := st.records[c.id];
    GuardedStep(st, t, c, r);
    StepsAreListed(c.module_, r.status, c.body.status);
    if c.body.status == Confirmed {
      ConfirmIsChecked(zones, st, t, c);
      hide Changed, MayConfirm, Guarded;
      if Decide(zones, st, t, c).Accept? {
        ConfirmedStep(zones, st, t, c);
      }
    } else {
      PlainStep(zones, st, t, c, r, c.body.status);
      hide ChangedVisit, ChangedOrder, Guarded, Answer, MayConfirm;
    }
  }

  lemma GuardedStep(st: Store, t: Readings, c: Command, r: Record)
    requires c.Change? && c.caller == Owner && c.body.Transition?
    ensures Guarded(st, t, c, r).Ok? <==>
            && c.body.version == r.version && (r.status == Requested ==> t.seen < r.expiresAt)
            && c.body.status in NextOf(c.module_, r.status)
    ensures Guarded(st, t, c, r).Ok? ==> Guarded(st, t, c, r).value == c.body.status && c.body.status != r.status
  {
    hide SettingsOf;
  }

  lemma ConfirmedStep(zones: Zones, st: Store, t: Readings, c: Command)
    requires Configured(st) && FirstChange(st, t, c) && c.caller == Owner
    requires c.body.Transition? && c.body.status == Confirmed && Decide(zones, st, t, c).Accept?
    ensures var w := Decide(zones, st, t, c).writes;
            w.id == c.id && w.entry == Some(Entry(st.records[c.id].status, Confirmed, Staff)) && w.timer == None
  {
    var r := st.records[c.id];
    ConfirmIsGuarded(st, t, c, r);
    ConfirmationStores(zones, st, t, c);
    hide Changed, Answer;
  }

  /** A transition other than confirming writes the status alone. */
  lemma PlainStep(zones: Zones, st: Store, t: Readings, c: Command, r: Record, s: Status)
    requires c.Change? && c.body.Transition? && !Confirms(r, s)
    ensures r.detail.Visit? ==> ChangedVisit(zones, st, t, c, r, s) == Ok(r.(status := s, version := r.version + 1))
    ensures r.detail.Order? ==> ChangedOrder(zones, st, t, c, r, s) == Ok(r.(status := s, version := r.version + 1))
  {
    hide RecheckVisit, RecheckOrder, SettingsOf;
  }

  // ----- Customers -----

  /** Main result: whatever status a customer asks for, a transition of theirs cancels, and it does exactly for the
      version they read of a record in progress, with the notice the business asks for. */
  lemma CustomerStepExactly(zones: Zones, st: Store, t: Readings, c: Command)
    requires Configured(st) && FirstChange(st, t, c) && c.caller != Owner && c.body.Transition?
    ensures var r := st.records[c.id];
            Decide(zones, st, t, c).Accept? <==>
            && c.body.version == r.version && InProgress(r, t.seen)
            && t.cutoff + Notice(st, c.module_) * MINUTE < r.startsAt
    ensures Decide(zones, st, t, c).Accept? ==>
              var r, w := st.records[c.id], Decide(zones, st, t, c).writes;
              && w.id == c.id && w.record == r.(status := Cancelled, version := r.version + 1)
              && w.entry == Some(Entry(r.status, Cancelled, Customer)) && w.timer == None && w.charge == None
  {
    var r := st.records[c.id];
    GuardedCancel(st, t, c, r);
    PlainStep(zones, st, t, c, r, Cancelled);
    hide ChangedVisit, ChangedOrder, Guarded, Answer;
  }

  lemma GuardedCancel(st: Store, t: Readings, c: Command, r: Record)
    requires c.Change? && c.caller != Owner && c.body.Transition? && IsOf(r, c.module_)
    ensures Guarded(st, t, c, r).Ok? <==>
            && c.body.version == r.version && InProgress(r, t.seen)
            && t.cutoff + Notice(st, c.module_) * MINUTE < r.startsAt
    ensures Guarded(st, t, c, r).Ok? ==> Guarded(st, t, c, r).value == Cancelled && r.status != Cancelled
  {
    SettingsAreRead(st, c.module_);
    hide SettingsOf, Notice;
  }

  // ----- Edits -----

  /** The fields of the other module are not used, and the ones used have values that can be stored. */
  predicate WellFormed(r: Record, b: Body)
    requires b.Edit?
  {
    && (b.newNotes.Some? ==> |b.newNotes.value| <= 2000)
    && match r.detail
       case Visit(_, _, _, _) => b.newWindow == None && b.finals == [] && b.finalTotal == None
       case Order(_, items, _, _) =>
         && b.newStart == None && b.newResource == None && ValidEdits(items, b.finals)
         && (b.finalTotal.Some? ==> 0 <= b.finalTotal.value <= 999_999_999_900)
  }

  predicate AsksForPlace(b: Body)
    requires b.Edit?
  {
    b.newStart.Some? || b.newResource.Some? || b.newWindow.Some?
  }

  /** The plan is paid and the place that the edited record asks for is free for it. */
  ghost predicate PlaceIsFree(zones: Zones, st: Store, t: Readings, id: Id, r: Record, b: Body)
    requires Configured(st) && b.Edit?
  {
    match r.detail
    case Visit(service, resource, duration, buffer) =>
      var cfg := SettingsOf(st, Appointments);
      && PlanAllows(st.sub, Appointments, t.owned) && service in st.services && cfg.slot >= 1
      && VisitFits(zones(r.timezone), st, cfg, service, duration, buffer, b.newResource.GetOr(resource), Some(id),
                   b.newStart.GetOr(r.startsAt), t.offered)
    case Order(window, _, _, _) =>
      var cfg := SettingsOf(st, Preorders);
      && PlanAllows(st.sub, Preorders, t.owned) && cfg.slot >= 1
      && WindowFits(zones(r.timezone), st, cfg, b.newWindow.GetOr(window), Some(id), t.offered)
  }

  /** Main result: an edit is accepted exactly for the version that was read of a record in progress, from a customer
      with the notice the business asks for, when its fields are well formed and the place is free if it asks
      for one. */
  lemma EditAcceptedExactly(zones: Zones, st: Store, t: Readings, c: Command)
    requires Configured(st) && FirstChange(st, t, c) && c.body.Edit?
    ensures var r, b := st.records[c.id], c.body;
            Decide(zones, st, t, c).Accept? <==>
            && b.version == r.version && InProgress(r, t.seen)
            && (c.caller != Owner ==> t.cutoff + Notice(st, c.module_) * MINUTE < r.startsAt)
            && WellFormed(r, b) && (AsksForPlace(b) ==> PlaceIsFree(zones, st, t, c.id, r, b))
  {
    var r, b := st.records[c.id], c.body;
    GuardedEdit(st, t, c, r);
    hide Guarded, Notice, InProgress, Answer;
    if Guarded(st, t, c, r).Ok? {
      if r.detail.Visit? {
        VisitEditExactly(zones, st, t, c, r);
      } else {
        OrderEditExactly(zones, st, t, c, r);
      }
      hide ChangedVisit, ChangedOrder, PlaceIsFree;
    }
  }

  lemma GuardedEdit(st: Store, t: Readings, c: Command, r: Record)
    requires c.Change? && c.body.Edit? && IsOf(r, c.module_)
    ensures Guarded(st, t, c, r).Ok? <==>
            && c.body.version == r.version && InProgress(r, t.seen)
            && (c.caller != Owner ==> t.cutoff + Notice(st, c.module_) * MINUTE < r.startsAt)
            && (c.body.newNotes.Some? ==> |c.body.newNotes.value| <= 2000)
    ensures Guarded(st, t, c, r).Ok? ==> Guarded(st, t, c, r).value == r.status
  {
    SettingsAreRead(st, c.module_);
    hide SettingsOf, Notice;
  }

  lemma VisitEditExactly(zones: Zones, st: Store, t: Readings, c: Command, r: Record)
    requires Configured(st) && c.Change? && c.body.Edit? && r.detail.Visit?
    requires c.body.newNotes.Some? ==> |c.body.newNotes.value| <= 2000
    ensures ChangedVisit(zones, st, t, c, r, r.status).Ok? <==>
            WellFormed(r, c.body) && (AsksForPlace(c.body) ==> PlaceIsFree(zones, st, t, c.id, r, c.body))
  {
    var b, cfg := c.body, SettingsOf(st, Appointments);
    SlotIsPositive(st, Appointments);
    PlanIsChecked(st.sub, Appointments, t.owned);
    VisitFitsExactly(zones(r.timezone), st, cfg, r.detail.service, r.detail.duration, r.detail.buffer,
                     b.newResource.GetOr(r.detail.resource), Some(c.id), b.newStart.GetOr(r.startsAt), t.offered);
    hide CheckAppointment, VisitFits, SettingsOf, RequirePaid, PlanAllows, Paid;
  }

  lemma OrderEditExactly(zones: Zones, st: Store, t: Readings, c: Command, r: Record)
    requires Configured(st) && c.Change? && c.body.Edit? && r.detail.Order?
    requires c.body.newNotes.Some? ==> |c.body.newNotes.value| <= 2000
    ensures ChangedOrder(zones, st, t, c, r, r.status).Ok? <==>
            WellFormed(r, c.body) && (AsksForPlace(c.body) ==> PlaceIsFree(zones, st, t, c.id, r, c.body))
  {
    var b, cfg := c.body, SettingsOf(st, Preorders);
    SlotIsPositive(st, Preorders);
    PlanIsChecked(st.sub, Preorders, t.owned);
    WindowFitsExactly(zones(r.timezone), st, cfg, b.newWindow.GetOr(r.detail.window), Some(c.id), t.offered);
    EditsExactly(r.detail.items, b.finals);
    hide CheckPickup, WindowFits, SettingsOf, RequirePaid, PlanAllows, Paid, EditedItems, ValidEdits, EditsWritten;
  }

  /** An accepted edit writes no history and no charge, a timer exactly when it asks for a place, and the times of
      that place: a visit's from its original duration, an order's from its window. */
  lemma EditTimes(zones: Zones, st: Store, t: Readings, c: Command)
    requires Configured(st) && FirstChange(st, t, c) && c.body.Edit? && Decide(zones, st, t, c).Accept?
    ensures var r, b, w := st.records[c.id], c.body, Decide(zones, st, t, c).writes;
            && w.id == c.id && w.entry == None && w.charge == None
            && w.timer == (if AsksForPlace(b) then Some(w.record.expiresAt) else None)
            && w.record.phone == r.phone && w.record.timezone == r.timezone
            && (if !AsksForPlace(b) then w.record.startsAt == r.startsAt && w.record.endsAt == r.endsAt
                else match w.record.detail
                     case Visit(_, _, duration, _) => w.record.endsAt == w.record.startsAt + duration * MINUTE
                     case Order(window, _, _, _) =>
                       window in st.windows && st.windows[window] == Window(w.record.startsAt, w.record.endsAt))
  {
    var r := st.records[c.id];
    GuardedEdit(st, t, c, r);
    hide Guarded, Notice, InProgress, Answer;
    if r.detail.Visit? {
      VisitEditTimes(zones, st, t, c, r);
    } else {
      OrderEditTimes(zones, st, t, c, r);
    }
    hide ChangedVisit, ChangedOrder;
  }

  lemma VisitEditTimes(zones: Zones, st: Store, t: Readings, c: Command, r: Record)
    requires c.Change? && c.body.Edit? && r.detail.Visit? && ChangedVisit(zones, st, t, c, r, r.status).Ok?
    ensures var w := ChangedVisit(zones, st, t, c, r, r.status).value;
            && w.status == r.status && w.phone == r.phone && w.timezone == r.timezone && w.detail.Visit?
            && (AsksForPlace(c.body) <==> Moves(r, c.body))
            && (if AsksForPlace(c.body) then w.endsAt == w.startsAt + w.detail.duration * MINUTE
                else w.startsAt == r.startsAt && w.endsAt == r.endsAt)
  {
    hide VisitSlots, Overlaps, SettingsOf, RequirePaid;
  }

  lemma OrderEditTimes(zones: Zones, st: Store, t: Readings, c: Command, r: Record)
    requires c.Change? && c.body.Edit? && r.detail.Order? && ChangedOrder(zones, st, t, c, r, r.status).Ok?
    ensures var w := ChangedOrder(zones, st, t, c, r, r.status).value;
            && w.status == r.status && w.phone == r.phone && w.timezone == r.timezone && w.detail.Order?
            && (AsksForPlace(c.body) <==> Moves(r, c.body))
            && (if AsksForPlace(c.body) then
                  w.detail.window in st.windows && st.windows[w.detail.window] == Window(w.startsAt, w.endsAt)
                else w.startsAt == r.startsAt && w.endsAt == r.endsAt)
  {
    hide PickupSlots, Holding, SettingsOf, RequirePaid, EditedItems;
  }
}
