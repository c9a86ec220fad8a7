/** Expiring requests when a job gets round to it is equivalent to expiring them on time.

    Two stores are alike when they differ only in whether lapsed requests have been marked expired yet,
    and in the queue. Readers and later requests cannot tell them apart, except for a creation that began
    before such a request lapsed and still counts it as pending. */
module LazyExpiry {
  import opened Prelude
  import opened Records
  import opened Operations
  import opened Machine
  import Jobs
  import Pricing
  import Scheduling

  // ----- Alike stores -----

  predicate AlikeRow(a: Record, b: Record, now: Instant) {
    if Shown(a, now).Expired? then Shown(b, now).Expired? && b.(status := a.status, version := a.version) == a
    else a == b
  }

  ghost predicate AlikeRows(a: map<Id, Record>, b: map<Id, Record>, now: Instant) {
    a.Keys == b.Keys && forall id :: id in a ==> AlikeRow(a[id], b[id], now)
  }

  predicate SameHistory(a: Store, b: Store, id: Id, now: Instant) {
    id !in a.records || !Shown(a.records[id], now).Expired? ==> HistoryOf(a, id) == HistoryOf(b, id)
  }

  ghost predicate Alike(a: Store, b: Store, now: Instant) {
    && AlikeRows(a.records, b.records, now)
    && (forall id :: SameHistory(a, b, id, now))
    && SameBut(a, b)
  }

  predicate SameBut(a: Store, b: Store) {
    b == a.(records := b.records, history := b.history, queue := b.queue)
  }

  lemma AlikeItself(a: Store, now: Instant)
    ensures Alike(a, a, now)
  {
  }

  lemma AlikeMirrored(a: Store, b: Store, now: Instant)
    requires Alike(a, b, now)
    ensures Alike(b, a, now)
  {
    forall id
      ensures SameHistory(b, a, id, now)
    {
      assert SameHistory(a, b, id, now);
    }
  }

  lemma AlikeStays(a: Store, b: Store, now: Instant, later: Instant)
    requires Alike(a, b, now) && now <= later
    ensures Alike(a, b, later)
  {
    forall id
      ensures SameHistory(a, b, id, later)
    {
      assert SameHistory(a, b, id, now);
    }
  }

  lemma AlikeThrough(a: Store, b: Store, c: Store, now: Instant)
    requires Alike(a, b, now) && Alike(b, c, now)
    ensures Alike(a, c, now)
  {
    forall id | id in a.records
      ensures AlikeRow(a.records[id], c.records[id], now)
    {
      assert AlikeRow(a.records[id], b.records[id], now) && AlikeRow(b.records[id], c.records[id], now);
    }
    forall id
      ensures SameHistory(a, c, id, now)
    {
      assert SameHistory(a, b, id, now) && SameHistory(b, c, id, now);
    }
  }

  /** Readers see the same statuses. */
  lemma AlikeShown(a: Store, b: Store, now: Instant, later: Instant, id: Id)
    requires Alike(a, b, now) && now <= later && id in a.records
    ensures id in b.records && Shown(a.records[id], later) == Shown(b.records[id], later)
  {
    assert AlikeRow(a.records[id], b.records[id], now);
  }

  // ----- The queries cannot tell alike stores apart -----

  lemma AlikeOverlaps(a: map<Id, Record>, b: map<Id, Record>, now: Instant, resource: Id, exclude: Option<Id>,
                      start: Instant, end: Instant)
    requires AlikeRows(a, b, now)
    ensures Overlaps(a, resource, exclude, start, end) == Overlaps(b, resource, exclude, start, end)
  {
    forall id | id in a
      ensures Meets(a[id], resource, start, end) == Meets(b[id], resource, start, end)
    {
      assert AlikeRow(a[id], b[id], now);
    }
  }

  lemma AlikeHolding(a: map<Id, Record>, b: map<Id, Record>, now: Instant, window: Id, exclude: Option<Id>)
    requires AlikeRows(a, b, now)
    ensures Holding(a, window, exclude) == Holding(b, window, exclude)
  {
    forall id | id in a
      ensures id in Holding(a, window, exclude) <==> id in Holding(b, window, exclude)
    {
      assert AlikeRow(a[id], b[id], now);
    }
  }

  lemma AlikeCheckAppointment(zone: Scheduling.Zone, a: Store, b: Store, now: Instant, cfg: Settings, service: Id,
                              duration: nat, buffer: nat, resource: Id, exclude: Option<Id>, start: Instant,
                              at: Instant)
    requires Alike(a, b, now)
    ensures CheckAppointment(zone, a, cfg, service, duration, buffer, resource, exclude, start, at) ==
            CheckAppointment(zone, b, cfg, service, duration, buffer, resource, exclude, start, at)
  {
    hide VisitSlots, Overlaps, AlikeRows;
    AlikeOverlaps(a.records, b.records, now, resource, exclude, start, start + duration * MINUTE + buffer * MINUTE);
  }

  lemma AlikeCheckPickup(zone: Scheduling.Zone, a: Store, b: Store, now: Instant, cfg: Settings, window: Id,
                         exclude: Option<Id>, at: Instant)
    requires Alike(a, b, now)
    ensures CheckPickup(zone, a, cfg, window, exclude, at) == CheckPickup(zone, b, cfg, window, exclude, at)
  {
    hide PickupSlots, Holding, AlikeRows;
    AlikeHolding(a.records, b.records, now, window, exclude);
  }

  // ----- Decisions -----

  /** A request about a lapsed record is refused either way; about any other it is decided the same. */
  lemma AlikeChanged(zones: Zones, a: Store, b: Store, now: Instant, t: Readings, c: Command)
    requires Alike(a, b, now) && now <= t.seen && c.Change?
    ensures if Changed(zones, a, t, c).Ok? then Changed(zones, b, t, c) == Changed(zones, a, t, c)
            else Changed(zones, b, t, c).Err?
    ensures Changed(zones, a, t, c).Ok? ==>
              c.id in a.records && HistoryOf(a, c.id) == HistoryOf(b, c.id) && a.records[c.id] == b.records[c.id]
  {
    hide ChangedVisit, ChangedOrder, Consume;
    if c.id in a.records {
      assert AlikeRow(a.records[c.id], b.records[c.id], now);
      assert SameHistory(a, b, c.id, now);
      if !Shown(a.records[c.id], now).Expired? {
        var r := a.records[c.id];
        AlikeConsume(a, b, now, c.module_, t.spent);
        if Guarded(a, t, c, r).Ok? && r.detail.Visit? {
          AlikeChangedVisit(zones, a, b, now, t, c, r, Guarded(a, t, c, r).value);
        } else if Guarded(a, t, c, r).Ok? {
          AlikeChangedOrder(zones, a, b, now, t, c, r, Guarded(a, t, c, r).value);
        }
      }
    }
  }

  lemma AlikeConsume(a: Store, b: Store, now: Instant, m: Module, at: Instant)
    requires Alike(a, b, now)
    ensures Consume(a, m, at) == Consume(b, m, at)
  {
    hide AlikeRows, UsedIn;
  }

  lemma AlikeChangedVisit(zones: Zones, a: Store, b: Store, now: Instant, t: Readings, c: Command, r: Record,
                          status: Status)
    requires Alike(a, b, now) && c.Change? && r.detail.Visit?
    ensures ChangedVisit(zones, a, t, c, r, status) == ChangedVisit(zones, b, t, c, r, status)
  {
    hide AlikeRows, CheckAppointment, Paid;
    var start := if c.body.Edit? && c.body.newStart.Some? then c.body.newStart.value else r.startsAt;
    var resource := if c.body.Edit? && c.body.newResource.Some? then c.body.newResource.value else r.detail.resource;
    AlikeCheckAppointment(zones(r.timezone), a, b, now, SettingsOf(a, Appointments), r.detail.service,
                          r.detail.duration, r.detail.buffer, resource, Some(c.id), start, t.offered);
  }

  lemma AlikeChangedOrder(zones: Zones, a: Store, b: Store, now: Instant, t: Readings, c: Command, r: Record,
                          status: Status)
    requires Alike(a, b, now) && c.Change? && r.detail.Order?
    ensures ChangedOrder(zones, a, t, c, r, status) == ChangedOrder(zones, b, t, c, r, status)
  {
    hide AlikeRows, CheckPickup, EditedItems, Paid;
    var window := if c.body.Edit? && c.body.newWindow.Some? then c.body.newWindow.value else r.detail.window;
    AlikeCheckPickup(zones(r.timezone), a, b, now, SettingsOf(a, Preorders), window, Some(c.id), t.offered);
  }

  predicate Crowded(st: Store, t: Readings, c: Command) {
    c.Create? && (c.body.NewVisit? || c.body.NewOrder?) &&
    TooMany(st.records, CreatedModule(c.body), c.body.phone, t.began)
  }

  lemma AlikeCreateBodies(zones: Zones, a: Store, b: Store, now: Instant, t: Readings, c: Command, cfg: Settings)
    requires Alike(a, b, now) && c.Create? && ValidSettings(cfg)
    ensures c.body.NewVisit? ==> CreateVisit(zones, a, t, c, cfg) == CreateVisit(zones, b, t, c, cfg)
    ensures c.body.NewOrder? ==> CreateOrder(zones, a, t, c, cfg) == CreateOrder(zones, b, t, c, cfg)
  {
    hide AlikeRows, CheckAppointment, CheckPickup, Catalog, Pricing.Quote, ValidSettings, NewItems;
    if c.body.NewVisit? && c.body.service in a.services {
      var s := a.services[c.body.service];
      AlikeCheckAppointment(zones(c.timezone), a, b, now, cfg, c.body.service, s.duration, s.buffer, c.body.resource,
                            None, c.body.startsAt, t.offered);
    }
    if c.body.NewOrder? {
      AlikeCheckPickup(zones(c.timezone), a, b, now, cfg, c.body.window, None, t.offered);
    }
  }

  /** A creation is decided the same unless the pending limit refuses it. */
  lemma AlikeCreated(zones: Zones, a: Store, b: Store, now: Instant, t: Readings, c: Command)
    requires Configured(a) && Configured(b) && Alike(a, b, now) && c.Create?
    ensures Crowded(a, t, c) ==> Created(zones, a, t, c).Err?
    ensures !Crowded(a, t, c) && !Crowded(b, t, c) ==> Created(zones, a, t, c) == Created(zones, b, t, c)
    ensures Created(zones, a, t, c).Ok? ==> c.id !in a.records && HistoryOf(a, c.id) == HistoryOf(b, c.id)
  {
    hide CreateVisit, CreateOrder, TooMany, AlikeRows, UsedIn, Paid;
    assert SameHistory(a, b, c.id, now);
    assert a.records.Keys == b.records.Keys by { KeysAlike(a, b, now); }
    var m := CreatedModule(c.body);
    AlikeIntake(a, b, now, m, t.owned);
    var intake := RequireIntake(a, m, t.owned);
    if intake.Ok? {
      assert intake.value == SettingsOf(a, m) && ValidSettings(intake.value);
      AlikeCreateBodies(zones, a, b, now, t, c, intake.value);
    }
  }

  lemma KeysAlike(a: Store, b: Store, now: Instant)
    requires Alike(a, b, now)
    ensures a.records.Keys == b.records.Keys
  {
  }

  lemma AlikeIntake(a: Store, b: Store, now: Instant, m: Module, at: Instant)
    requires Alike(a, b, now)
    ensures RequireIntake(a, m, at) == RequireIntake(b, m, at)
  {
    hide AlikeRows, UsedIn;
  }

  predicate Similar(x: Decision, y: Decision) {
    if x.Refuse? then y.Refuse? else x == y
  }

  /** The pending limit is not asked or answers alike. */
  predicate SameLimit(a: Store, b: Store, t: Readings, c: Command) {
    Stored(a, c, t.began).Some? || Crowded(a, t, c) == Crowded(b, t, c)
  }

  /** Main result: alike stores decide every request alike, up to the error code, as long as the pending
      limit answers alike. Changes never depend on the limit. */
  lemma AlikeDecisions(zones: Zones, a: Store, b: Store, now: Instant, t: Readings, c: Command)
    requires Configured(a) && Configured(b) && Alike(a, b, now) && now <= t.seen
    requires SameLimit(a, b, t, c)
    ensures Similar(Decide(zones, a, t, c), Decide(zones, b, t, c))
  {
    hide Created, Changed, Crowded, AlikeRows;
    if c.Create? {
      AlikeMirrored(a, b, now);
      AlikeCreated(zones, a, b, now, t, c);
      AlikeCreated(zones, b, a, now, t, c);
    } else {
      AlikeChanged(zones, a, b, now, t, c);
    }
  }

  /** The exact condition for a creation: if the one store accepts, the other does just when its own
      pending count is below the limits. */
  lemma LimitDecides(zones: Zones, a: Store, b: Store, now: Instant, t: Readings, c: Command)
    requires Configured(a) && Configured(b) && Alike(a, b, now) && now <= t.seen && c.Create?
    requires Decide(zones, b, t, c).Accept?
    ensures Decide(zones, a, t, c).Accept? <==> !TooMany(a.records, CreatedModule(c.body), c.body.phone, t.began)
  {
    hide TooMany, AlikeRows;
    assert (c.body.NewVisit? || c.body.NewOrder?) && !Crowded(b, t, c) by {
      AcceptedIsNotCrowded(zones, b, t, c);
    }
    hide Decide, Crowded;
    assert Crowded(a, t, c) <==> TooMany(a.records, CreatedModule(c.body), c.body.phone, t.began) by {
      CrowdedIsTooMany(a, t, c);
    }
    if Crowded(a, t, c) {
      CrowdedIsRefused(zones, a, t, c);
    } else {
      AlikeDecisions(zones, a, b, now, t, c);
    }
  }

  lemma CrowdedIsTooMany(st: Store, t: Readings, c: Command)
    requires c.Create? && (c.body.NewVisit? || c.body.NewOrder?)
    ensures Crowded(st, t, c) <==> TooMany(st.records, CreatedModule(c.body), c.body.phone, t.began)
  {
  }

  lemma AcceptedIsNotCrowded(zones: Zones, st: Store, t: Readings, c: Command)
    requires Configured(st) && c.Create? && Decide(zones, st, t, c).Accept?
    ensures (c.body.NewVisit? || c.body.NewOrder?) && !Crowded(st, t, c)
  {
    hide TooMany, CreateVisit, CreateOrder;
  }

  lemma CrowdedIsRefused(zones: Zones, st: Store, t: Readings, c: Command)
    requires Configured(st) && Crowded(st, t, c)
    ensures !Decide(zones, st, t, c).Accept?
  {
    hide TooMany, CreateVisit, CreateOrder;
  }

  /** When one more expiry changes the pending count that a creation sees: exactly when the request
      lapsed after the creation's transaction had started. */
  lemma ExpiryChangesCount(st: Store, m: Module, id: Id, at: Instant, phone: Option<string>, began: Instant)
    requires DecideExpiry(st, m, id, at).Ok? && DecideExpiry(st, m, id, at).value.Some?
    ensures var before := Waiting(st.records, m, phone, began);
            var after := Waiting(Lapsed(st, m, id, at, false).records, m, phone, began);
            if began < st.records[id].expiresAt && (phone.Some? ==> st.records[id].phone == phone.value)
            then |after| == |before| - 1 else after == before
  {
    var r := st.records[id];
    hide Waiting;
    SettledCount(st.records, id, r.(status := Expired, version := r.version + 1), m, phone, began);
  }

  lemma SettledCount(records: map<Id, Record>, id: Id, r: Record, m: Module, phone: Option<string>, began: Instant)
    requires id in records && records[id].status.Requested? && !r.status.Requested? && ModuleOf(records[id]) == m
    ensures var before, after := Waiting(records, m, phone, began), Waiting(records[id := r], m, phone, began);
            if began < records[id].expiresAt && (phone.Some? ==> records[id].phone == phone.value)
            then |after| == |before| - 1 else after == before
  {
    hide ModuleOf;
    var next := records[id := r];
    var before, after := Waiting(records, m, phone, began), Waiting(next, m, phone, began);
    assert id !in after;
    forall i
      ensures i in after <==> i in before && i != id
    {
      assert i != id && i in records ==> next[i] == records[i];
    }
    if id in before {
      assert before == after + {id};
    } else {
      assert before == after;
    }
  }

  // ----- Steps -----

  lemma AlikeCommit(a: Store, b: Store, now: Instant, later: Instant, w: Writes)
    requires Alike(a, b, now) && now <= later && HistoryOf(a, w.id) == HistoryOf(b, w.id)
    ensures Alike(Apply(a, w), Apply(b, w), later)
  {
    AlikeStays(a, b, now, later);
    hide Shown, Jobs.Put;
    var x, y := Apply(a, w), Apply(b, w);
    forall id
      ensures SameHistory(x, y, id, later)
    {
      assert SameHistory(a, b, id, later);
    }
    assert y == x.(records := y.records, history := y.history, queue := y.queue) by {
      hide HistoryOf;
    }
    forall id | id in x.records
      ensures AlikeRow(x.records[id], y.records[id], later)
    {
      assert id != w.id ==> AlikeRow(a.records[id], b.records[id], later);
    }
  }

  /** No request of the module lapsed between the start of this transaction and its turn. */
  predicate Calm(st: Store, t: Readings, c: Command) {
    c.Create? ==>
      forall id :: id in st.records && ModuleOf(st.records[id]) == CreatedModule(c.body) &&
                   Confirmless(st.records[id].status) ==>
        !(t.began < st.records[id].expiresAt <= t.seen)
  }

  predicate Confirmless(s: Status) {
    s.Requested? || s.Expired?
  }

  lemma CalmCounts(a: Store, b: Store, now: Instant, t: Readings, c: Command)
    requires Alike(a, b, now) && now <= t.seen && Calm(a, t, c)
    ensures Crowded(a, t, c) == Crowded(b, t, c)
  {
    if c.Create? && (c.body.NewVisit? || c.body.NewOrder?) {
      var m := CreatedModule(c.body);
      forall id | id in a.records
        ensures ModuleOf(a.records[id]) == ModuleOf(b.records[id]) && a.records[id].phone == b.records[id].phone
        ensures ModuleOf(a.records[id]) == m ==>
                (a.records[id].status.Requested? && t.began < a.records[id].expiresAt <==>
                 b.records[id].status.Requested? && t.began < b.records[id].expiresAt)
      {
        assert AlikeRow(a.records[id], b.records[id], now);
      }
      assert Waiting(a.records, m, Some(c.body.phone), t.began) == Waiting(b.records, m, Some(c.body.phone), t.began);
      assert Waiting(a.records, m, None, t.began) == Waiting(b.records, m, None, t.began);
    }
  }

  lemma AcceptedHistory(zones: Zones, a: Store, b: Store, now: Instant, t: Readings, c: Command)
    requires Configured(a) && Configured(b) && Alike(a, b, now) && now <= t.seen && Decide(zones, a, t, c).Accept?
    ensures HistoryOf(a, c.id) == HistoryOf(b, c.id) && (c.Create? ==> c.id !in a.records)
  {
    hide Created, Changed, Crowded, AlikeRows;
    if c.Create? {
      AlikeCreated(zones, a, b, now, t, c);
    } else {
      AlikeChanged(zones, a, b, now, t, c);
    }
  }

  /** Alike stores stay alike over a request exactly when it is answered alike. */
  lemma RequestStaysAlikeExactly(zones: Zones, a: Store, b: Store, now: Instant, t: Readings, c: Command)
    requires Configured(a) && Configured(b) && Alike(a, b, now) && now <= t.seen && Ordered(t)
    ensures Alike(AfterRequest(zones, a, c, t), AfterRequest(zones, b, c, t), t.shown) <==>
            Similar(Decide(zones, a, t, c), Decide(zones, b, t, c))
  {
    hide Decide, Alike, Apply, Configured, Crowded;
    AlikeStays(a, b, now, t.shown);
    var d := Decide(zones, a, t, c);
    if Similar(d, Decide(zones, b, t, c)) {
      if d.Accept? {
        AcceptedId(zones, a, t, c);
        AcceptedHistory(zones, a, b, now, t, c);
        AlikeCommit(a, b, now, t.shown, d.writes);
      }
    } else {
      OneAccepts(zones, a, b, now, t, c);
    }
  }

  /** Otherwise the one store accepts a creation that the limit refuses in the other, and has a record more. */
  lemma OneAccepts(zones: Zones, a: Store, b: Store, now: Instant, t: Readings, c: Command)
    requires Configured(a) && Configured(b) && Alike(a, b, now) && now <= t.seen
    requires !Similar(Decide(zones, a, t, c), Decide(zones, b, t, c))
    ensures !Alike(AfterRequest(zones, a, c, t), AfterRequest(zones, b, c, t), t.shown)
  {
    hide Crowded, Configured, Decide, Apply, Alike, TooMany;
    if SameLimit(a, b, t, c) {
      AlikeDecisions(zones, a, b, now, t, c);
    }
    SameReplies(a, b, now, t, c);
    KeysAlike(a, b, now);
    assert c.Create? by { OnlyCreationsAreCrowded(a, b, t, c); }
    if Crowded(a, t, c) {
      CrowdedIsRefused(zones, a, t, c);
      AlikeMirrored(a, b, now);
      LimitRefuses(zones, b, a, now, t, c);
    } else {
      CrowdedIsRefused(zones, b, t, c);
      LimitRefuses(zones, a, b, now, t, c);
    }
    if Alike(AfterRequest(zones, a, c, t), AfterRequest(zones, b, c, t), t.shown) {
      KeysAlike(AfterRequest(zones, a, c, t), AfterRequest(zones, b, c, t), t.shown);
    }
  }

  lemma SameReplies(a: Store, b: Store, now: Instant, t: Readings, c: Command)
    requires Alike(a, b, now)
    ensures Stored(a, c, t.began) == Stored(b, c, t.began)
  {
  }

  lemma OnlyCreationsAreCrowded(a: Store, b: Store, t: Readings, c: Command)
    requires Crowded(a, t, c) || Crowded(b, t, c)
    ensures c.Create?
  {
  }

  lemma LimitRefuses(zones: Zones, a: Store, b: Store, now: Instant, t: Readings, c: Command)
    requires Configured(a) && Configured(b) && Alike(a, b, now) && now <= t.seen && c.Create?
    requires Stored(a, c, t.began).None? && Crowded(b, t, c)
    requires !Similar(Decide(zones, a, t, c), Decide(zones, b, t, c)) ||
             !Similar(Decide(zones, b, t, c), Decide(zones, a, t, c))
    ensures !Decide(zones, b, t, c).Accept? && Decide(zones, a, t, c).Accept?
    ensures c.id !in a.records && c.id in AfterRequest(zones, a, c, t).records
    ensures AfterRequest(zones, b, c, t) == b
  {
    SameReplies(a, b, now, t, c);
    CrowdedIsRefused(zones, b, t, c);
    FreshIsDecided(zones, a, t, c);
    FreshIsDecided(zones, b, t, c);
    hide Decide, Crowded, Configured, Alike, Apply;
    AcceptedHistory(zones, a, b, now, t, c);
    AcceptedId(zones, a, t, c);
    AppliedHasRecord(a, Decide(zones, a, t, c).writes);
  }

  lemma FreshIsDecided(zones: Zones, st: Store, t: Readings, c: Command)
    requires Configured(st) && Stored(st, c, t.began).None?
    ensures !Decide(zones, st, t, c).Repeat?
  {
    hide Created, Changed;
  }

  lemma AppliedHasRecord(st: Store, w: Writes)
    ensures w.id in Apply(st, w).records
  {
  }

  lemma AcceptedId(zones: Zones, st: Store, t: Readings, c: Command)
    requires Configured(st) && Decide(zones, st, t, c).Accept?
    ensures Decide(zones, st, t, c).writes.id == c.id
  {
    hide Created, Changed, Answer;
  }

  /** Expiring a lapsed request is invisible. */
  lemma ExpiryIsInvisible(st: Store, m: Module, id: Id, at: Instant, fault: bool, hand: Option<(Jobs.Worker, Id)>)
    ensures Alike(AfterExpiry(st, m, id, at, fault, hand), st, at)
  {
    hide Alike, Jobs.Marked, Lapsed;
    var lapsed := Lapsed(st, m, id, at, fault);
    LapseIsInvisible(st, m, id, at, fault);
    QueueIsInvisible(lapsed, AfterExpiry(st, m, id, at, fault, hand).queue, at);
    AlikeThrough(AfterExpiry(st, m, id, at, fault, hand), lapsed, st, at);
  }

  lemma LapseIsInvisible(st: Store, m: Module, id: Id, at: Instant, fault: bool)
    ensures Alike(Lapsed(st, m, id, at, fault), st, at)
  {
    var d := ExpiryOutcome(st, m, id, at, fault);
    if d.Ok? && d.value.Some? {
      var r, lapsed := d.value.value.record, Lapsed(st, m, id, at, fault);
      assert AlikeRow(r, st.records[id], at);
      hide ExpiryOutcome, Lapsed;
      forall i
        ensures SameHistory(lapsed, st, i, at)
      {
      }
      assert AlikeRows(lapsed.records, st.records, at);
    } else {
      AlikeItself(st, at);
    }
  }

  lemma QueueIsInvisible(st: Store, q: Jobs.Queue, now: Instant)
    ensures Alike(st.(queue := q), st, now)
  {
  }

  predicate Invisible(s: Step) {
    s.Expiry? || s.Work?
  }

  lemma AlikeOther(zones: Zones, a: Store, b: Store, now: Instant, s: Step)
    requires Configured(a) && Configured(b) && Alike(a, b, now) && !Invisible(s) && !s.Request?
    ensures Alike(StepStore(zones, a, s), StepStore(zones, b, s), now)
  {
    hide AfterRequest, AfterExpiry, Jobs.Next, AlikeRows, SameHistory, Configured, AfterAdmin, AfterOpening,
         AfterCleaning;
    match s
    case Administer(d) =>
      AdminAlike(a, b, d);
      SameHistories(a, b, AfterAdmin(a, d), AfterAdmin(b, d), now);
    case OpenWindow(id, w) =>
      OpeningAlike(a, b, id, w);
      SameHistories(a, b, AfterOpening(a, id, w), AfterOpening(b, id, w), now);
    case CleanReplays(at) =>
      CleaningAlike(a, b, at);
      SameHistories(a, b, AfterCleaning(a, at), AfterCleaning(b, at), now);
  }

  lemma AdminAlike(a: Store, b: Store, d: Admin)
    requires SameBut(a, b)
    ensures SameBut(AfterAdmin(a, d), AfterAdmin(b, d))
    ensures AfterAdmin(a, d).records == a.records && AfterAdmin(a, d).history == a.history
    ensures AfterAdmin(b, d).records == b.records && AfterAdmin(b, d).history == b.history
  {
    hide ValidSettings;
  }

  lemma OpeningAlike(a: Store, b: Store, id: Id, w: Window)
    requires SameBut(a, b)
    ensures SameBut(AfterOpening(a, id, w), AfterOpening(b, id, w))
    ensures AfterOpening(a, id, w).records == a.records && AfterOpening(a, id, w).history == a.history
    ensures AfterOpening(b, id, w).records == b.records && AfterOpening(b, id, w).history == b.history
  {
  }

  lemma CleaningAlike(a: Store, b: Store, at: Instant)
    requires SameBut(a, b)
    ensures SameBut(AfterCleaning(a, at), AfterCleaning(b, at))
    ensures AfterCleaning(a, at).records == a.records && AfterCleaning(a, at).history == a.history
    ensures AfterCleaning(b, at).records == b.records && AfterCleaning(b, at).history == b.history
  {
  }

  lemma SameHistories(a: Store, b: Store, x: Store, y: Store, now: Instant)
    requires Alike(a, b, now) && SameBut(x, y)
    requires x.records == a.records && x.history == a.history && y.records == b.records && y.history == b.history
    ensures Alike(x, y, now)
  {
    forall id
      ensures SameHistory(x, y, id, now)
    {
      assert SameHistory(a, b, id, now);
    }
  }

  // ----- Runs -----

  /** The run without its expiry and worker steps. */
  function Lean(steps: seq<Step>): seq<Step> {
    if steps == [] then []
    else
      var before, s := Lean(steps[..|steps| - 1]), steps[|steps| - 1];
      if Invisible(s) then before else before + [s]
  }

  ghost predicate CalmRun(zones: Zones, sys: State, steps: seq<Step>)
    requires Configured(sys.store)
  {
    forall i :: 0 <= i < |steps| && steps[i].Request? ==>
      Calm(Run(zones, sys, steps[..i]).store, steps[i].t, steps[i].command)
  }

  lemma CalmBefore(zones: Zones, sys: State, steps: seq<Step>, n: nat)
    requires Configured(sys.store) && CalmRun(zones, sys, steps) && n <= |steps|
    ensures CalmRun(zones, sys, steps[..n])
  {
    hide Run, Calm;
    forall i | 0 <= i < n && steps[..n][i].Request?
      ensures Calm(Run(zones, sys, steps[..n][..i]).store, steps[..n][i].t, steps[..n][i].command)
    {
      assert steps[..n][..i] == steps[..i];
    }
  }

  /** One step: an invisible one changes nothing, any other stays alike exactly when it is answered alike. */
  lemma StepStaysAlike(zones: Zones, a: State, b: State, s: Step)
    requires Configured(a.store) && Configured(b.store) && Alike(a.store, b.store, a.clock) && b.clock <= a.clock &&
             Legal(a, s)
    ensures var x := StepOf(zones, a, s);
            if Invisible(s) then Alike(x.store, b.store, x.clock)
            else
              Alike(x.store, StepOf(zones, b, s).store, x.clock) <==>
              s.Request? ==> AnswersAlike(zones, a.store, b.store, s)
  {
    hide Alike, AfterRequest, AfterExpiry, Jobs.Next, Configured, Decide;
    match s
    case Request(c, t) => RequestStaysAlikeExactly(zones, a.store, b.store, a.clock, t, c);
    case Expiry(m, id, at, fault, hand) =>
      ExpiryIsInvisible(a.store, m, id, at, fault, hand);
      AlikeStays(a.store, b.store, a.clock, at);
      AlikeThrough(AfterExpiry(a.store, m, id, at, fault, hand), a.store, b.store, at);
    case Work(j) =>
      QueueIsInvisible(a.store, Jobs.Next(a.store.queue, j), a.clock);
      AlikeThrough(a.store.(queue := Jobs.Next(a.store.queue, j)), a.store, b.store, a.clock);
    case _ => AlikeOther(zones, a.store, b.store, a.clock, s);
  }

  ghost predicate AnswersAlike(zones: Zones, a: Store, b: Store, s: Step)
    requires Configured(a) && Configured(b) && s.Request?
  {
    Similar(Decide(zones, a, s.t, s.command), Decide(zones, b, s.t, s.command))
  }

  lemma {:induction false} LeanIsLegal(zones: Zones, sys: State, steps: seq<Step>)
    requires Configured(sys.store) && LegalRun(zones, sys, steps)
    ensures LegalRun(zones, sys, Lean(steps))
    ensures Run(zones, sys, Lean(steps)).clock <= Run(zones, sys, steps).clock
  {
    hide StepStore, Configured;
    if steps != [] {
      var before, s := steps[..|steps| - 1], steps[|steps| - 1];
      LeanIsLegal(zones, sys, before);
      if !Invisible(s) {
        Extend(zones, sys, Lean(before), s);
      }
    }
  }

  /** The run and its lean version are alike at this point. */
  ghost predicate AlikeAt(zones: Zones, sys: State, steps: seq<Step>)
    requires Configured(sys.store)
  {
    var x := Run(zones, sys, steps);
    Alike(x.store, Run(zones, sys, Lean(steps)).store, x.clock)
  }

  ghost predicate AlikeThroughout(zones: Zones, sys: State, steps: seq<Step>)
    requires Configured(sys.store)
  {
    AlikeAt(zones, sys, steps) && (steps == [] || AlikeThroughout(zones, sys, steps[..|steps| - 1]))
  }

  /** Every request of the run is answered as in the lean run, up to the error code. */
  ghost predicate AnsweredAlike(zones: Zones, sys: State, steps: seq<Step>)
    requires Configured(sys.store)
  {
    steps == [] ||
    var before, s := steps[..|steps| - 1], steps[|steps| - 1];
    AnsweredAlike(zones, sys, before) &&
    (s.Request? ==>
       AnswersAlike(zones, Run(zones, sys, before).store, Run(zones, sys, Lean(before)).store, s))
  }

  /** Main result: a run and the same run without any expiry or worker step are alike at every moment exactly
      when no request is answered differently. */
  lemma {:induction false} LeanIsAlikeExactly(zones: Zones, sys: State, steps: seq<Step>)
    requires Configured(sys.store) && LegalRun(zones, sys, steps)
    ensures LegalRun(zones, sys, Lean(steps))
    ensures AlikeThroughout(zones, sys, steps) <==> AnsweredAlike(zones, sys, steps)
  {
    LeanIsLegal(zones, sys, steps);
    if steps == [] {
      AlikeItself(sys.store, sys.clock);
    } else {
      hide AnswersAlike, AlikeAt, Legal, Configured, Run, Lean;
      LeanIsAlikeExactly(zones, sys, steps[..|steps| - 1]);
      if AlikeThroughout(zones, sys, steps[..|steps| - 1]) {
        OneMoreAlike(zones, sys, steps);
      }
    }
  }

  lemma OneMoreAlike(zones: Zones, sys: State, steps: seq<Step>)
    requires Configured(sys.store) && LegalRun(zones, sys, steps) && steps != []
    requires AlikeAt(zones, sys, steps[..|steps| - 1])
    ensures var before, s := steps[..|steps| - 1], steps[|steps| - 1];
            AlikeAt(zones, sys, steps) <==>
            s.Request? ==>
              AnswersAlike(zones, Run(zones, sys, before).store, Run(zones, sys, Lean(before)).store, s)
  {
    var before, s := steps[..|steps| - 1], steps[|steps| - 1];
    LeanIsLegal(zones, sys, before);
    hide Alike, AnswersAlike, StepOf, Legal, Configured, Invisible;
    var x, y := Run(zones, sys, before), Run(zones, sys, Lean(before));
    StepStaysAlike(zones, x, y, s);
    InvisibleIsNoRequest(s);
    assert (Lean(before) + [s])[..|Lean(before)|] == Lean(before);
  }

  lemma InvisibleIsNoRequest(s: Step)
    ensures Invisible(s) ==> !s.Request?
  {
  }

  /** Calm runs are answered alike. */
  lemma {:induction false} CalmIsAnsweredAlike(zones: Zones, sys: State, steps: seq<Step>)
    requires Configured(sys.store) && LegalRun(zones, sys, steps) && CalmRun(zones, sys, steps)
    ensures AnsweredAlike(zones, sys, steps)
  {
    hide Alike, Calm, Similar, StepOf, Configured, CalmRun, Crowded, Decide;
    if steps != [] {
      var n, s := |steps| - 1, steps[|steps| - 1];
      var before := steps[..n];
      CalmBefore(zones, sys, steps, n);
      CalmIsAnsweredAlike(zones, sys, before);
      LeanIsAlikeExactly(zones, sys, before);
      assert AlikeAt(zones, sys, before);
      if s.Request? {
        CalmAt(zones, sys, steps, n);
        var x, y := Run(zones, sys, before), Run(zones, sys, Lean(before));
        CalmCounts(x.store, y.store, x.clock, s.t, s.command);
        AlikeDecisions(zones, x.store, y.store, x.clock, s.t, s.command);
      }
    }
  }

  /** Main result: so a calm run and its lean version end in alike stores. */
  lemma LeanIsAlike(zones: Zones, sys: State, steps: seq<Step>)
    requires Configured(sys.store) && LegalRun(zones, sys, steps) && CalmRun(zones, sys, steps)
    ensures LegalRun(zones, sys, Lean(steps)) && AlikeAt(zones, sys, steps)
    ensures Run(zones, sys, Lean(steps)).clock <= Run(zones, sys, steps).clock
  {
    hide Alike, Run, LegalRun, CalmRun, AlikeAt, AnsweredAlike, Configured;
    CalmIsAnsweredAlike(zones, sys, steps);
    LeanIsAlikeExactly(zones, sys, steps);
    LeanIsLegal(zones, sys, steps);
  }

  lemma CalmAt(zones: Zones, sys: State, steps: seq<Step>, i: nat)
    requires Configured(sys.store) && CalmRun(zones, sys, steps) && i < |steps| && steps[i].Request?
    ensures Calm(Run(zones, sys, steps[..i]).store, steps[i].t, steps[i].command)
  {
    hide Calm, Run;
  }

  /** Main result: add, drop or move expiry steps in any way that leaves every request answered alike, as it
      does in calm runs; the runs stay alike, so afterwards every record shows the same status, and every
      request on which the limit answers alike, as it does on calm ones, is decided the same. */
  lemma ExpiryTimingIsInvisible(zones: Zones, sys: State, x: seq<Step>, y: seq<Step>, later: Instant)
    requires Configured(sys.store) && Lean(x) == Lean(y) && LegalRun(zones, sys, x) && LegalRun(zones, sys, y)
    requires AnsweredAlike(zones, sys, x) || CalmRun(zones, sys, x)
    requires AnsweredAlike(zones, sys, y) || CalmRun(zones, sys, y)
    requires Run(zones, sys, x).clock <= later && Run(zones, sys, y).clock <= later
    ensures var a, b := Run(zones, sys, x).store, Run(zones, sys, y).store;
            && Alike(a, b, later)
            && (forall id :: id in a.records ==>
                  id in b.records && Shown(a.records[id], later) == Shown(b.records[id], later))
            && (forall t: Readings, c: Command ::
                  later <= t.seen && Ordered(t) && (SameLimit(a, b, t, c) || Calm(a, t, c)) ==>
                  Similar(Decide(zones, a, t, c), Decide(zones, b, t, c)))
  {
    hide Alike, Calm, Similar, Decide, Run, LegalRun, CalmRun, AnsweredAlike, Configured, Lean, Shown, Crowded;
    AlikeAtTheEnd(zones, sys, x);
    AlikeAtTheEnd(zones, sys, y);
    var a, b, lean := Run(zones, sys, x), Run(zones, sys, y), Run(zones, sys, Lean(x)).store;
    AlikeStays(a.store, lean, a.clock, later);
    AlikeStays(b.store, lean, b.clock, later);
    AlikeMirrored(b.store, lean, later);
    AlikeThrough(a.store, lean, b.store, later);
    forall id | id in a.store.records
      ensures id in b.store.records && Shown(a.store.records[id], later) == Shown(b.store.records[id], later)
    {
      AlikeShown(a.store, b.store, later, later, id);
    }
    forall t: Readings, c: Command |
      later <= t.seen && Ordered(t) && (SameLimit(a.store, b.store, t, c) || Calm(a.store, t, c))
      ensures Similar(Decide(zones, a.store, t, c), Decide(zones, b.store, t, c))
    {
      if Calm(a.store, t, c) {
        CalmCounts(a.store, b.store, later, t, c);
      }
      AlikeDecisions(zones, a.store, b.store, later, t, c);
    }
  }

  lemma AlikeAtTheEnd(zones: Zones, sys: State, steps: seq<Step>)
    requires Configured(sys.store) && LegalRun(zones, sys, steps)
    requires AnsweredAlike(zones, sys, steps) || CalmRun(zones, sys, steps)
    ensures AlikeAt(zones, sys, steps)
  {
    hide Alike, Run, LegalRun, CalmRun, AlikeAt, AnsweredAlike, Configured;
    if CalmRun(zones, sys, steps) {
      CalmIsAnsweredAlike(zones, sys, steps);
    }
    LeanIsAlikeExactly(zones, sys, steps);
  }
}
