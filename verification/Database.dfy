/** The request transactions as they are executed: tables updated in place, statement by statement,
    and rolled back on any error. Each one is proved to do exactly what its specification decides. */
module Database {
  import opened Prelude
  import opened Records
  import opened Operations
  import opened Machine
  import Acceptance
  import Jobs
  import Pricing
  import Scheduling
  import SlotFacts

  function Answered(d: Decision): Result<Response> {
    match d
    case Refuse(e) => Err(e)
    case Repeat(response) => Ok(response)
    case Accept(w) => if w.reply.Some? then Ok(w.reply.value.1.response) else Err(Internal)
  }

  /** What a request that found no stored reply does, given its checks. */
  function Outcome(r: Result<Writes>): Decision {
    match r
    case Err(e) => Refuse(e)
    case Ok(w) => Accept(w)
  }

  ghost function Attempted(zones: Zones, st: Store, t: Readings, c: Command): Result<Writes>
    requires Configured(st)
  {
    if c.Create? then
      var r :- Created(zones, st, t, c);
      Ok(CreateWrites(st, t, c, r))
    else
      var (r, charge) :- Changed(zones, st, t, c);
      Ok(ChangeWrites(st, t, c, r, charge))
  }

  lemma DecidedByAttempt(zones: Zones, st: Store, t: Readings, c: Command)
    requires Configured(st)
    ensures Decide(zones, st, t, c) ==
            var stored := Stored(st, c, t.began);
            if stored.None? then Outcome(Attempted(zones, st, t, c))
            else if stored.value.body == c.body then Repeat(stored.value.response) else Refuse(VersionConflict)
  {
    hide Created, Changed, CreateWrites, ChangeWrites;
  }

  /** What the checks see does not depend on whether this confirmation is already charged. */
  lemma ChargeIsUnseen(zones: Zones, st: Store, usage: map<(Module, Id), Instant>, t: Readings, c: Command, r: Record,
                       status: Status)
    requires c.Change?
    ensures r.detail.Visit? ==>
              ChangedVisit(zones, st.(usage := usage), t, c, r, status) == ChangedVisit(zones, st, t, c, r, status)
    ensures r.detail.Order? ==>
              ChangedOrder(zones, st.(usage := usage), t, c, r, status) == ChangedOrder(zones, st, t, c, r, status)
  {
    hide VisitSlots, PickupSlots, Overlaps, Holding, EditedItems, Paid;
  }

  lemma {:induction false} FaultStops(items: seq<Item>, edits: seq<(Id, int)>, n: nat)
    requires n <= |edits| && EditedItems(items, edits[..n]).Err?
    ensures EditedItems(items, edits) == EditedItems(items, edits[..n])
    decreases |edits|
  {
    if n < |edits| {
      var last := |edits| - 1;
      assert edits[..last][..n] == edits[..n];
      FaultStops(items, edits[..last], n);
    } else {
      assert edits[..n] == edits;
    }
  }

  /** The loop over edited items, with its map of the items seen. */
  method EditItems(items: seq<Item>, edits: seq<(Id, int)>) returns (r: Result<seq<Item>>)
    ensures r == EditedItems(items, edits)
  {
    hide EditedItems, Pricing.PositiveQuantity;
    var after := items;
    var seen: set<Id> := {};
    var i := 0;
    NoEdits(items, edits);
    while i < |edits|
      invariant 0 <= i <= |edits|
      invariant EditedItems(items, edits[..i]) == Ok(after)
      invariant forall id: Id :: id in seen <==> exists j :: 0 <= j < i && edits[j].0 == id
    {
      var (id, quantity) := edits[i];
      NextEdit(items, edits, i, after);
      if id in seen || !Pricing.PositiveQuantity(quantity) || id >= |after| {
        FaultStops(items, edits, i + 1);
        return Err(InvalidRequest);
      }
      seen := seen + {id};
      after := after[id := after[id].(finalQuantity := Some(quantity))];
      i := i + 1;
    }
    assert edits[..i] == edits;
    return Ok(after);
  }

  lemma NoEdits(items: seq<Item>, edits: seq<(Id, int)>)
    ensures EditedItems(items, edits[..0]) == Ok(items)
  {
  }

  lemma NextEdit(items: seq<Item>, edits: seq<(Id, int)>, i: nat, before: seq<Item>)
    requires i < |edits| && EditedItems(items, edits[..i]) == Ok(before)
    ensures var (id, quantity) := edits[i];
            EditedItems(items, edits[..i + 1]) ==
            if (exists j :: 0 <= j < i && edits[j].0 == id) || !Pricing.PositiveQuantity(quantity) || id >= |before|
            then Err(InvalidRequest)
            else Ok(before[id := before[id].(finalQuantity := Some(quantity))])
  {
    hide Pricing.PositiveQuantity;
    var upTo := edits[..i + 1];
    assert upTo[..i] == edits[..i] && upTo[i] == edits[i];
    assert forall j :: 0 <= j < i ==> upTo[j] == edits[j];
    assert (exists j :: 0 <= j < i && upTo[j].0 == edits[i].0) <==>
             (exists j :: 0 <= j < i && edits[j].0 == edits[i].0);
  }

  lemma SameVisitPlace(zones: Zones, st: Store, t: Readings, id: Id, r: Record, a: Record, cfg: Settings)
    requires r.detail.Visit? && a.detail.Visit? && a.detail == r.detail.(resource := a.detail.resource) &&
             a.timezone == r.timezone
    ensures RecheckVisit(zones, st, t, id, a, cfg, a.detail.resource, a.startsAt) ==
            RecheckVisit(zones, st, t, id, r, cfg, a.detail.resource, a.startsAt)
  {
    hide CheckAppointment, RequirePaid;
  }

  lemma SameOrderPlace(zones: Zones, st: Store, t: Readings, id: Id, r: Record, p: Record, cfg: Settings)
    requires r.detail.Order? && p.detail.Order? && p.timezone == r.timezone
    ensures RecheckOrder(zones, st, t, id, p, cfg, p.detail.window) ==
              RecheckOrder(zones, st, t, id, r, cfg, p.detail.window)
  {
    hide CheckPickup, RequirePaid;
  }

  /** An appointment with the fields overwritten that the change asks for. */
  function AskedVisit(b: Body, r: Record, status: Status): Record
    requires r.detail.Visit?
  {
    var start := if b.Edit? && b.newStart.Some? then b.newStart.value else r.startsAt;
    var resource := if b.Edit? && b.newResource.Some? then b.newResource.value else r.detail.resource;
    r.(detail := r.detail.(resource := resource), notes := NewNotes(r, b), startsAt := start, status := status,
       version := r.version + 1)
  }

  function AskedOrder(b: Body, r: Record, status: Status): Record
    requires r.detail.Order?
  {
    var window := if b.Edit? && b.newWindow.Some? then b.newWindow.value else r.detail.window;
    r.(detail := r.detail.(window := window), notes := NewNotes(r, b), status := status, version := r.version + 1)
  }

  /** The confirmation instant, and the expiry of a request that was moved. */
  function Stamped(c: Command, t: Readings, r: Record, a: Record, ttl: int): Record {
    a.(expiresAt := if Moves(r, c.body) && a.status.Requested? then PendingExpiration(t.renewed, a.startsAt, ttl)
                    else a.expiresAt,
       confirmedAt := if Confirms(r, a.status) then Some(t.stamped) else a.confirmedAt)
  }

  /** The final quantities and total of a preorder. */
  function Finals(b: Body, p: Record): Result<Record>
    requires p.detail.Order?
  {
    var items :- EditedItems(p.detail.items, if b.Edit? then b.finals else []);
    if b.Edit? && b.finalTotal.Some? && !Pricing.Money(b.finalTotal.value) then Err(InvalidRequest)
    else
      var total := if b.Edit? && b.finalTotal.Some? then b.finalTotal else p.detail.finalTotal;
      Ok(p.(detail := p.detail.(items := items, finalTotal := total)))
  }

  lemma VisitInSteps(zones: Zones, st: Store, t: Readings, c: Command, r: Record, status: Status)
    requires c.Change? && r.detail.Visit?
    ensures var a, cfg := AskedVisit(c.body, r, status), SettingsOf(st, Appointments);
            var end := if Confirms(r, status) || Moves(r, c.body)
                       then RecheckVisit(zones, st, t, c.id, a, cfg, a.detail.resource, a.startsAt)
                       else Ok(a.endsAt);
            ChangedVisit(zones, st, t, c, r, status) ==
            if c.body.Edit? && (c.body.newWindow.Some? || c.body.finals != [] || c.body.finalTotal.Some?)
            then Err(InvalidRequest)
            else if end.Err? then Err(end.error) else Ok(Stamped(c, t, r, a.(endsAt := end.value), cfg.ttl))
  {
    SameVisitPlace(zones, st, t, c.id, r, AskedVisit(c.body, r, status), SettingsOf(st, Appointments));
    hide RecheckVisit, PendingExpiration, NewNotes, SettingsOf, Moves, Confirms;
  }

  function Placed(p: Record, w: Window): (r: Record)
    ensures r.detail == p.detail
  {
    p.(startsAt := w.startsAt, endsAt := w.endsAt)
  }

  function Finished(c: Command, t: Readings, r: Record, placed: Record, ttl: int): Result<Record>
    requires placed.detail.Order?
  {
    var p :- Finals(c.body, placed);
    Ok(Stamped(c, t, r, p, ttl))
  }

  lemma OrderInSteps(zones: Zones, st: Store, t: Readings, c: Command, r: Record, status: Status)
    requires c.Change? && r.detail.Order?
    ensures var p, cfg := AskedOrder(c.body, r, status), SettingsOf(st, Preorders);
            var w := if Confirms(r, status) || Moves(r, c.body)
                     then RecheckOrder(zones, st, t, c.id, p, cfg, p.detail.window)
                     else Ok(Window(p.startsAt, p.endsAt));
            ChangedOrder(zones, st, t, c, r, status) ==
            if c.body.Edit? && (c.body.newStart.Some? || c.body.newResource.Some?) then Err(InvalidRequest)
            else if w.Err? then Err(w.error)
            else Finished(c, t, r, Placed(p, w.value), cfg.ttl)
  {
    SameOrderPlace(zones, st, t, c.id, r, AskedOrder(c.body, r, status), SettingsOf(st, Preorders));
    hide RecheckOrder, PendingExpiration, NewNotes, SettingsOf, Moves, Confirms, EditedItems, Pricing.Money;
  }

  lemma ChangeKeepsModule(zones: Zones, st: Store, t: Readings, c: Command, r: Record, status: Status)
    requires c.Change?
    ensures r.detail.Visit? && ChangedVisit(zones, st, t, c, r, status).Ok? ==>
              ChangedVisit(zones, st, t, c, r, status).value.detail.Visit?
    ensures r.detail.Order? && ChangedOrder(zones, st, t, c, r, status).Ok? ==>
              ChangedOrder(zones, st, t, c, r, status).value.detail.Order?
  {
    hide RecheckVisit, RecheckOrder, EditedItems, SettingsOf;
  }

  /** Inserting the usage event first or with the rest makes no difference. */
  lemma ChargedFirst(st: Store, usage: map<(Module, Id), Instant>, t: Readings, c: Command, after: Record,
                     charge: Option<Instant>)
    requires c.Change? && c.id in st.records
    requires var key := (ModuleOf(after), c.id);
             usage == if charge.Some? && key !in st.usage then st.usage[key := charge.value] else st.usage
    ensures ChangeWrites(st.(usage := usage), t, c, after, charge) == ChangeWrites(st, t, c, after, charge)
    ensures Apply(st.(usage := usage), ChangeWrites(st, t, c, after, charge)) ==
              Apply(st, ChangeWrites(st, t, c, after, charge))
  {
    hide Shown, Moves, ScopeOf, Jobs.Put;
  }

  class Database {
    var sub: Subscription
    var settings: map<Module, Settings>
    var services: map<Id, Service>
    var resources: map<Id, Resource>
    var windows: map<Id, Window>
    var records: map<Id, Record>
    var history: map<Id, seq<Entry>>
    var usage: map<(Module, Id), Instant>
    var replays: map<ReplayKey, Replay>
    var queue: Jobs.Queue

    function Snapshot(): Store
      reads this
    {
      Store(sub, settings, services, resources, windows, records, history, usage, replays, queue)
    }

    constructor (plan: Subscription)
      ensures Snapshot() == Fresh(plan, 0).store
    {
      sub := plan;
      settings, services, resources, windows := map[], map[], map[], map[];
      records, history, usage, replays, queue := map[], map[], map[], map[], Jobs.EMPTY;
    }

    method Rollback(st: Store)
      modifies this
      ensures Snapshot() == st
    {
      sub, settings, services, resources, windows := st.sub, st.settings, st.services, st.resources, st.windows;
      records, history, usage, replays, queue := st.records, st.history, st.usage, st.replays, st.queue;
    }

    // ----- Checks -----

    predicate Serves(resource: Id, service: Id)
      reads this
    {
      resource in resources && resources[resource].active &&
      (resources[resource].services == [] || service in resources[resource].services)
    }

    /** The offered slots of one resource that nothing else occupies. */
    method FreeSlots(zone: Scheduling.Zone, cfg: Settings, service: Id, duration: nat, buffer: nat, resource: Id,
                     exclude: Option<Id>, start: Instant, now: Instant) returns (r: Result<seq<Scheduling.Slot>>)
      ensures if !Serves(resource, service) then r == Ok([])
              else
                var offered := VisitSlots(zone, cfg, resources[resource], start, duration, buffer, now);
                if offered.Err? then r == Err(offered.error)
                else r.Ok? && forall x :: x in r.value <==>
                       x in offered.value &&
                       !Overlaps(records, resource, exclude, x.startsAt, x.endsAt + buffer * MINUTE)
    {
      var out: seq<Scheduling.Slot> := [];
      if !Serves(resource, service) {
        return Ok(out);
      }
      var res := resources[resource];
      var hours := if |res.hours| > 0 then res.hours else cfg.hours;
      var slots :- Scheduling.Slots(zone, zone.clock(start).date, hours, cfg.closed + res.closed, cfg.slot, duration,
                                    buffer, now, cfg.lead, cfg.horizon);
      var i := 0;
      while i < |slots|
        invariant 0 <= i <= |slots|
        invariant forall x :: x in out <==>
                    x in slots[..i] && !Overlaps(records, resource, exclude, x.startsAt, x.endsAt + buffer * MINUTE)
      {
        if !Overlaps(records, resource, exclude, slots[i].startsAt, slots[i].endsAt + buffer * MINUTE) {
          out := out + [slots[i]];
        }
        assert slots[..i + 1] == slots[..i] + [slots[i]];
        i := i + 1;
      }
      assert slots[..i] == slots;
      return Ok(out);
    }

    /** The first free slot that starts at `start`. */
    method VisitEnd(zone: Scheduling.Zone, cfg: Settings, service: Id, duration: nat, buffer: nat, resource: Id,
                    exclude: Option<Id>, start: Instant, now: Instant) returns (r: Result<Instant>)
      ensures r == CheckAppointment(zone, Snapshot(), cfg, service, duration, buffer, resource, exclude, start, now)
    {
      var slots :- FreeSlots(zone, cfg, service, duration, buffer, resource, exclude, start, now);
      ghost var end := start + duration * MINUTE;
      assert forall x :: x in slots ==> x.endsAt == x.startsAt + duration * MINUTE by {
        if slots != [] {
          LengthOfOffered(zone, cfg, resources[resource], start, duration, buffer, now);
        }
      }
      hide VisitSlots, Overlaps;
      var i := 0;
      while i < |slots|
        invariant 0 <= i <= |slots|
        invariant forall j :: 0 <= j < i ==> slots[j].startsAt != start
      {
        if slots[i].startsAt == start {
          assert slots[i] == Scheduling.Slot(start, end);
          return Ok(slots[i].endsAt);
        }
        i := i + 1;
      }
      assert Scheduling.Slot(start, end) !in slots;
      return Err(SlotUnavailable);
    }

    lemma LengthOfOffered(zone: Scheduling.Zone, cfg: Settings, res: Resource, start: Instant, duration: nat,
                          buffer: nat, now: Instant)
      ensures var offered := VisitSlots(zone, cfg, res, start, duration, buffer, now);
              offered.Ok? ==> forall x :: x in offered.value ==> x.endsAt == x.startsAt + duration * MINUTE
    {
      var offered := VisitSlots(zone, cfg, res, start, duration, buffer, now);
      if offered.Ok? {
        forall x | x in offered.value
          ensures x.endsAt == x.startsAt + duration * MINUTE
        {
          SlotFacts.SlotLength(zone, zone.clock(start).date, if |res.hours| > 0 then res.hours else cfg.hours,
                               cfg.closed + res.closed, cfg.slot, duration, buffer, now, cfg.lead, cfg.horizon, x);
        }
      }
    }

    method Pickup(zone: Scheduling.Zone, cfg: Settings, window: Id, exclude: Option<Id>, now: Instant)
      returns (r: Result<Window>)
      ensures r == CheckPickup(zone, Snapshot(), cfg, window, exclude, now)
    {
      if window !in windows {
        return Err(NotFound);
      }
      var w := windows[window];
      var slots :- OpenPickups(zone, cfg, zone.clock(w.startsAt).date, now);
      var i, valid := 0, false;
      while i < |slots| && !valid
        invariant 0 <= i <= |slots|
        invariant valid <==> Scheduling.Slot(w.startsAt, w.endsAt) in slots[..i]
      {
        valid := slots[i].startsAt == w.startsAt && slots[i].endsAt == w.endsAt;
        assert slots[..i + 1] == slots[..i] + [slots[i]];
        i := i + 1;
      }
      assert !valid ==> slots[..i] == slots;
      assert valid ==> Scheduling.Slot(w.startsAt, w.endsAt) in slots;
      if !valid {
        return Err(SlotUnavailable);
      }
      if cfg.maxOrders > 0 && |Holding(records, window, exclude)| >= cfg.maxOrders {
        return Err(PickupWindowFull);
      }
      return Ok(w);
    }

    /** The pickup slots of a date: none from the day's cutoff on, before it exactly the offered whole slots. */
    method OpenPickups(zone: Scheduling.Zone, cfg: Settings, date: int, now: Instant)
      returns (r: Result<seq<Scheduling.Slot>>)
      ensures !Acceptance.BeforeCutoff(zone, cfg, date, now) ==> r == Ok([])
      ensures cfg.slot >= 1 ==> r.Ok? && forall x :: x in r.value <==> Acceptance.PickupOffered(zone, cfg, date, now, x)
      ensures r == PickupSlots(zone, cfg, date, now)
    {
      hide Acceptance.PickupOffered;
      forall x | cfg.slot >= 1
        ensures PickupSlots(zone, cfg, date, now).Ok?
        ensures x in PickupSlots(zone, cfg, date, now).value <==> Acceptance.PickupOffered(zone, cfg, date, now, x)
      {
        Acceptance.PickupSlotsExactly(zone, cfg, date, now, x);
      }
      var local := zone.clock(now);
      if cfg.cutoff != "" && date == local.date {
        if local.minute >= CutoffMinute(cfg) {
          return Ok([]);
        }
      }
      r := Scheduling.Slots(zone, date, cfg.hours, cfg.closed, cfg.slot, cfg.slot, 0, now, cfg.lead, cfg.horizon);
    }

    // ----- Statements -----

    method AddHistory(id: Id, e: Entry)
      modifies this`history
      ensures history == old(history)[id := HistoryOf(old(Snapshot()), id) + [e]]
    {
      history := history[id := (if id in history then history[id] else []) + [e]];
    }

    method EnqueueExpiration(id: Id, r: Record, now: Instant)
      modifies this`queue
      ensures queue == Jobs.Put(old(queue), Timer(id, r), r.expiresAt, now)
    {
      queue := Jobs.Put(queue, Timer(id, r), r.expiresAt, now);
    }

    method SaveReplay(t: Readings, c: Command, code: nat, r: Record) returns (response: Response)
      modifies this`replays
      ensures response == Response(code, c.id, r.(status := Shown(r, t.shown)), HistoryOf(Snapshot(), c.id))
      ensures replays == old(replays)[ScopeOf(c) := Replay(c.body, response, t.began + DAY)]
    {
      response := Response(code, c.id, r.(status := Shown(r, t.shown)), if c.id in history then history[c.id] else []);
      replays := replays[ScopeOf(c) := Replay(c.body, response, t.began + DAY)];
    }

    // ----- Create -----

    method NewRecord(zones: Zones, c: Command, t: Readings) returns (r: Result<Record>)
      requires c.Create? && Configured(Snapshot())
      ensures r == Created(zones, Snapshot(), t, c)
    {
      hide CheckAppointment, CheckPickup, Pricing.Quote, Catalog, TooMany;
      var b := c.body;
      if !b.NewVisit? && !b.NewOrder? {
        return Err(InvalidRequest);
      }
      var m := CreatedModule(b);
      var intake := RequireIntake(Snapshot(), m, t.owned);
      if intake.Err? {
        return Err(PublicUnavailable(Facing(c.caller), intake.error));
      }
      var cfg := intake.value;
      assert cfg == SettingsOf(Snapshot(), m) && ValidSettings(cfg);
      if TooMany(records, m, b.phone, t.began) {
        return Err(RateLimited);
      }
      var new_: Record;
      if b.NewVisit? {
        new_ :- NewVisitRecord(zones, c, t, cfg);
      } else {
        new_ :- NewOrderRecord(zones, c, t, cfg);
      }
      if c.id in records {
        return Err(Internal);
      }
      return Ok(new_);
    }

    method NewVisitRecord(zones: Zones, c: Command, t: Readings, cfg: Settings) returns (r: Result<Record>)
      requires c.Create? && c.body.NewVisit?
      ensures r == CreateVisit(zones, Snapshot(), t, c, cfg)
    {
      hide CheckAppointment;
      var b := c.body;
      if b.service !in services {
        return Err(NotFound);
      }
      var s := services[b.service];
      if !s.active || (Facing(c.caller) && !s.isPublic) {
        return Err(InvalidRequest);
      }
      var end :- VisitEnd(zones(c.timezone), cfg, b.service, s.duration, s.buffer, b.resource, None, b.startsAt,
                          t.offered);
      var expiry := PendingExpiration(t.renewed, b.startsAt, cfg.ttl);
      return Ok(Record(Visit(b.service, b.resource, s.duration, s.buffer), b.phone, b.notes, c.timezone,
                       b.startsAt, end, Requested, 1, expiry, None));
    }

    method NewOrderRecord(zones: Zones, c: Command, t: Readings, cfg: Settings) returns (r: Result<Record>)
      requires c.Create? && c.body.NewOrder? && ValidSettings(cfg)
      ensures r == CreateOrder(zones, Snapshot(), t, c, cfg)
    {
      hide CheckPickup, Pricing.Quote, Pricing.Catalog;
      var b := c.body;
      if |b.wanted| == 0 || |b.wanted| > Pricing.MAX_ITEMS {
        return Err(InvalidRequest);
      }
      var w :- Pickup(zones(c.timezone), cfg, b.window, None, t.offered);
      var expiry := PendingExpiration(t.renewed, w.startsAt, cfg.ttl);
      ghost var valid := Catalog(c.rows, cfg.rules);
      var catalog := Pricing.BuildCatalog(c.rows, cfg.rules);
      var priced :- Pricing.PriceOrder(catalog, b.wanted);
      return Ok(Record(Order(b.window, NewItems(priced.lines), priced.total, None), b.phone, b.notes, c.timezone,
                       w.startsAt, w.endsAt, Requested, 1, expiry, None));
    }

    method InsertRecord(c: Command, t: Readings, r: Record) returns (response: Response)
      requires c.Create?
      modifies this
      ensures var w := CreateWrites(old(Snapshot()), t, c, r);
              Snapshot() == Apply(old(Snapshot()), w) && response == w.reply.value.1.response
    {
      records := records[c.id := r];
      AddHistory(c.id, Entry(Nothing, Requested, ActorOf(c.caller)));
      EnqueueExpiration(c.id, r, t.queued);
      response := SaveReplay(t, c, 201, r);
    }

    /** One create request: replay, check, insert the rows, and commit. */
    method Create(zones: Zones, c: Command, t: Readings) returns (r: Result<Response>)
      requires c.Create? && Configured(Snapshot())
      modifies this
      ensures Snapshot() == AfterRequest(zones, old(Snapshot()), c, t)
      ensures r == Answered(Decide(zones, old(Snapshot()), t, c))
    {
      DecidedByAttempt(zones, Snapshot(), t, c);
      hide Created, Decide, Apply, ScopeOf;
      var stored := Stored(Snapshot(), c, t.began);
      if stored.Some? {
        if stored.value.body != c.body {
          return Err(VersionConflict);
        }
        return Ok(stored.value.response);
      }
      var new_ :- NewRecord(zones, c, t);
      var response := InsertRecord(c, t, new_);
      return Ok(response);
    }

    // ----- Confirm, edit, cancel and the other transitions -----

    method ConsumeUsage(m: Module, id: Id, now: Instant) returns (r: Result<Instant>)
      modifies this`usage
      ensures r == Consume(old(Snapshot()), m, now)
      ensures usage == if r.Ok? && (m, id) !in old(usage) then old(usage)[(m, id) := r.value] else old(usage)
    {
      if !Paid(sub, now) || m !in sub.modules {
        return Err(ModuleUnavailable);
      }
      if |UsedIn(usage, m, sub.periodStart)| >= Limit(sub.tier) {
        return Err(QuotaExceeded);
      }
      if (m, id) !in usage {
        usage := usage[(m, id) := sub.periodStart];
      }
      return Ok(sub.periodStart);
    }

    method VisitPlace(zones: Zones, id: Id, t: Readings, cfg: Settings, a: Record) returns (end: Result<Instant>)
      requires a.detail.Visit?
      ensures end == RecheckVisit(zones, Snapshot(), t, id, a, cfg, a.detail.resource, a.startsAt)
    {
      hide CheckAppointment, Paid;
      var _ :- RequirePaid(sub, Appointments, t.owned);
      if a.detail.service !in services {
        return Err(NotFound);
      }
      end := VisitEnd(zones(a.timezone), cfg, a.detail.service, a.detail.duration, a.detail.buffer, a.detail.resource,
                      Some(id), a.startsAt, t.offered);
    }

    method OrderPlace(zones: Zones, id: Id, t: Readings, cfg: Settings, p: Record) returns (w: Result<Window>)
      requires p.detail.Order?
      ensures w == RecheckOrder(zones, Snapshot(), t, id, p, cfg, p.detail.window)
    {
      hide CheckPickup, Paid;
      var _ :- RequirePaid(sub, Preorders, t.owned);
      w := Pickup(zones(p.timezone), cfg, p.detail.window, Some(id), t.offered);
    }

    method AskVisit(b: Body, r: Record, status: Status) returns (a: Record)
      requires r.detail.Visit?
      ensures a == AskedVisit(b, r, status) && a.detail.Visit? && a.status == status
    {
      a := r.(notes := NewNotes(r, b), status := status, version := r.version + 1);
      if b.Edit? {
        if b.newStart.Some? {
          a := a.(startsAt := b.newStart.value);
        }
        if b.newResource.Some? {
          a := a.(detail := a.detail.(resource := b.newResource.value));
        }
      }
    }

    method AskOrder(b: Body, r: Record, status: Status) returns (p: Record)
      requires r.detail.Order?
      ensures p == AskedOrder(b, r, status) && p.detail.Order? && p.status == status
    {
      p := r.(notes := NewNotes(r, b), status := status, version := r.version + 1);
      if b.Edit? && b.newWindow.Some? {
        p := p.(detail := p.detail.(window := b.newWindow.value));
      }
    }

    method Stamp(c: Command, t: Readings, r: Record, asked: Record, ttl: int) returns (a: Record)
      ensures a == Stamped(c, t, r, asked, ttl)
    {
      a := asked;
      if Confirms(r, asked.status) {
        a := a.(confirmedAt := Some(t.stamped));
      }
      if Moves(r, c.body) && asked.status.Requested? {
        a := a.(expiresAt := PendingExpiration(t.renewed, asked.startsAt, ttl));
      }
    }

    method EditVisit(zones: Zones, c: Command, t: Readings, r: Record, status: Status) returns (after: Result<Record>)
      requires c.Change? && r.detail.Visit?
      ensures after == ChangedVisit(zones, Snapshot(), t, c, r, status)
    {
      hide ChangedVisit, RecheckVisit, SettingsOf, AskedVisit, Stamped, Moves, Confirms;
      var b := c.body;
      VisitInSteps(zones, Snapshot(), t, c, r, status);
      if b.Edit? && (b.newWindow.Some? || b.finals != [] || b.finalTotal.Some?) {
        return Err(InvalidRequest);
      }
      var a := AskVisit(b, r, status);
      after := PlaceVisit(zones, c, t, r, a);
    }

    method PlaceVisit(zones: Zones, c: Command, t: Readings, r: Record, asked: Record) returns (after: Result<Record>)
      requires asked.detail.Visit?
      ensures var cfg := SettingsOf(Snapshot(), Appointments);
              var end := if Confirms(r, asked.status) || Moves(r, c.body)
                         then RecheckVisit(zones, Snapshot(), t, c.id, asked, cfg, asked.detail.resource,
                                           asked.startsAt)
                         else Ok(asked.endsAt);
              after == if end.Err? then Err(end.error) else Ok(Stamped(c, t, r, asked.(endsAt := end.value), cfg.ttl))
    {
      hide RecheckVisit, SettingsOf, Stamped, Moves, Confirms;
      var a, cfg := asked, SettingsOf(Snapshot(), Appointments);
      if Confirms(r, a.status) || Moves(r, c.body) {
        var end :- VisitPlace(zones, c.id, t, cfg, a);
        a := a.(endsAt := end);
      } else {
        assert a == a.(endsAt := a.endsAt);
      }
      a := Stamp(c, t, r, a, cfg.ttl);
      return Ok(a);
    }

    /** The final quantities and total of a preorder. */
    method EditFinals(b: Body, p: Record) returns (r: Result<Record>)
      requires p.detail.Order?
      ensures r == Finals(b, p)
    {
      hide EditedItems, Pricing.Money;
      var items :- EditItems(p.detail.items, if b.Edit? then b.finals else []);
      var after := p.(detail := p.detail.(items := items));
      if b.Edit? && b.finalTotal.Some? {
        if !Pricing.Money(b.finalTotal.value) {
          return Err(InvalidRequest);
        }
        after := after.(detail := after.detail.(finalTotal := b.finalTotal));
      }
      return Ok(after);
    }

    method EditOrder(zones: Zones, c: Command, t: Readings, r: Record, status: Status) returns (after: Result<Record>)
      requires c.Change? && r.detail.Order?
      ensures after == ChangedOrder(zones, Snapshot(), t, c, r, status)
    {
      hide ChangedOrder, RecheckOrder, SettingsOf, AskedOrder, Finished, Placed, Moves, Confirms, NewNotes;
      var b := c.body;
      OrderInSteps(zones, Snapshot(), t, c, r, status);
      if b.Edit? && (b.newStart.Some? || b.newResource.Some?) {
        return Err(InvalidRequest);
      }
      var p := AskOrder(b, r, status);
      after := PlaceOrder(zones, c, t, r, p);
    }

    method PlaceOrder(zones: Zones, c: Command, t: Readings, r: Record, asked: Record) returns (after: Result<Record>)
      requires asked.detail.Order?
      ensures var cfg := SettingsOf(Snapshot(), Preorders);
              var w := if Confirms(r, asked.status) || Moves(r, c.body)
                       then RecheckOrder(zones, Snapshot(), t, c.id, asked, cfg, asked.detail.window)
                       else Ok(Window(asked.startsAt, asked.endsAt));
              after == if w.Err? then Err(w.error) else Finished(c, t, r, Placed(asked, w.value), cfg.ttl)
    {
      hide RecheckOrder, SettingsOf, Finished, Moves, Confirms;
      var cfg := SettingsOf(Snapshot(), Preorders);
      var p := asked;
      if Confirms(r, asked.status) || Moves(r, c.body) {
        var w :- OrderPlace(zones, c.id, t, cfg, asked);
        p := p.(startsAt := w.startsAt, endsAt := w.endsAt);
      } else {
        assert p == Placed(asked, Window(asked.startsAt, asked.endsAt));
      }
      after := FinishOrder(c, t, r, p, cfg.ttl);
    }

    method FinishOrder(c: Command, t: Readings, r: Record, placed: Record, ttl: int) returns (after: Result<Record>)
      requires placed.detail.Order?
      ensures after == Finished(c, t, r, placed, ttl)
    {
      var p :- EditFinals(c.body, placed);
      p := Stamp(c, t, r, p, ttl);
      return Ok(p);
    }

    method UpdateRecord(c: Command, t: Readings, r: Record, after: Record, charge: Option<Instant>)
      returns (response: Response)
      requires c.Change? && c.id in records && records[c.id] == r && ModuleOf(after) == c.module_
      requires (c.module_, c.id) in usage || charge.None?
      modifies this
      ensures var w := ChangeWrites(old(Snapshot()), t, c, after, charge);
              Snapshot() == Apply(old(Snapshot()), w) && response == w.reply.value.1.response
    {
      hide Jobs.Put, Shown, Moves, ScopeOf;
      records := records[c.id := after];
      if Moves(r, c.body) {
        EnqueueExpiration(c.id, after, t.queued);
      }
      if after.status != r.status {
        AddHistory(c.id, Entry(r.status, after.status, ActorOf(c.caller)));
      } else {
        assert HistoryOf(old(Snapshot()), c.id) + [] == HistoryOf(old(Snapshot()), c.id);
      }
      response := SaveReplay(t, c, 200, after);
    }

    /** The statements of a change, in order: the usage event is inserted before the record is checked. */
    method Attempt(zones: Zones, c: Command, t: Readings) returns (r: Result<Response>)
      requires c.Change? && Configured(Snapshot())
      modifies this
      ensures var changed := Changed(zones, old(Snapshot()), t, c);
              if changed.Err? then r == Err(changed.error)
              else
                c.id in old(records) &&
                var w := ChangeWrites(old(Snapshot()), t, c, changed.value.0, changed.value.1);
                Snapshot() == Apply(old(Snapshot()), w) && r == Ok(w.reply.value.1.response)
    {
      hide ChangedVisit, ChangedOrder, Guarded, Consume, ChangeWrites, Apply;
      if c.id !in records || ModuleOf(records[c.id]) != c.module_ {
        return Err(NotFound);
      }
      var before := records[c.id];
      var status :- Guarded(Snapshot(), t, c, before);
      var charge: Option<Instant> := None;
      if Confirms(before, status) {
        var period :- ConsumeUsage(c.module_, c.id, t.spent);
        charge := Some(period);
      }
      ChargeIsUnseen(zones, old(Snapshot()), usage, t, c, before, status);
      ChangeKeepsModule(zones, old(Snapshot()), t, c, before, status);
      assert Snapshot() == old(Snapshot()).(usage := usage);
      var after: Record;
      if before.detail.Visit? {
        after :- EditVisit(zones, c, t, before, status);
      } else {
        after :- EditOrder(zones, c, t, before, status);
      }
      ChargedFirst(old(Snapshot()), usage, t, c, after, charge);
      var response := UpdateRecord(c, t, before, after, charge);
      return Ok(response);
    }

    /** One change request: replay, write, and commit or roll back. */
    method Mutate(zones: Zones, c: Command, t: Readings) returns (r: Result<Response>)
      requires c.Change? && Configured(Snapshot())
      modifies this
      ensures Snapshot() == AfterRequest(zones, old(Snapshot()), c, t)
      ensures r == Answered(Decide(zones, old(Snapshot()), t, c))
    {
      DecidedByAttempt(zones, Snapshot(), t, c);
      hide Changed, Decide, Apply, ScopeOf, ChangeWrites;
      var stored := Stored(Snapshot(), c, t.began);
      if stored.Some? {
        if stored.value.body != c.body {
          return Err(VersionConflict);
        }
        return Ok(stored.value.response);
      }
      var saved := Snapshot();
      r := Attempt(zones, c, t);
      if r.Err? {
        Rollback(saved);
      } else {
        ReplyIsWritten(saved, t, c, Changed(zones, saved, t, c));
      }
    }

    lemma ReplyIsWritten(st: Store, t: Readings, c: Command, changed: Result<(Record, Option<Instant>)>)
      requires c.Change? && c.id in st.records
      ensures changed.Ok? ==> ChangeWrites(st, t, c, changed.value.0, changed.value.1).reply.Some?
    {
    }

    // ----- Expiry -----

    /** The expiry of one request; `fault` is a transaction that does not get to its commit. */
    method Expire(m: Module, id: Id, now: Instant, fault: bool) returns (r: Result<()>)
      modifies this
      ensures Snapshot() == Lapsed(old(Snapshot()), m, id, now, fault)
      ensures r.Ok? == ExpiryOutcome(old(Snapshot()), m, id, now, fault).Ok?
    {
      if id !in records || ModuleOf(records[id]) != m {
        return Err(NotFound);
      }
      var a := records[id];
      if fault {
        return Err(Internal);
      }
      if !a.status.Requested? || now < a.expiresAt {
        return Ok(());
      }
      records := records[id := a.(status := Expired, version := a.version + 1)];
      AddHistory(id, Entry(Requested, Expired, System));
      return Ok(());
    }
  }
}
