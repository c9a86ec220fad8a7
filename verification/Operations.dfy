/** The request transactions of one business, as functions from tables to a decision.

    A transaction reads the clock several times. `began` is the database's now(), fixed when the
    transaction starts and so possibly before the business lock was granted; the others are readings
    taken under the lock, in program order. */
module Operations {
  import opened Prelude
  import opened Records
  import Jobs
  import Pricing
  import Scheduling

  type Zones = string -> Scheduling.Zone

  datatype Readings = Readings(began: Instant, seen: Instant, cutoff: Instant, spent: Instant, owned: Instant,
                               offered: Instant, stamped: Instant, renewed: Instant, queued: Instant, shown: Instant)

  predicate Ordered(t: Readings) {
    && t.began <= t.seen <= t.cutoff <= t.spent <= t.owned <= t.offered
    && t.offered <= t.stamped <= t.renewed <= t.queued <= t.shown
  }

  datatype Command =
    | Create(caller: Caller, key: string, id: Id, timezone: string, rows: seq<Pricing.Variant>, body: Body)
    | Change(caller: Caller, key: string, module_: Module, id: Id, body: Body)

  /** The rows a transaction writes when it commits. */
  datatype Writes = Writes(id: Id, record: Record, entry: Option<Entry>, charge: Option<Instant>,
                           timer: Option<Instant>, sentAt: Instant, reply: Option<(ReplayKey, Replay)>)

  datatype Decision = Refuse(error: Error) | Repeat(response: Response) | Accept(writes: Writes)

  const PHONE_LIMIT: nat := 3
  const TOTAL_LIMIT: nat := 500
  const NOTES_LIMIT: nat := 2000

  // ----- Shared checks -----

  predicate Facing(c: Caller) {
    !c.Owner?
  }

  function ActorOf(c: Caller): Actor {
    if c.Owner? then Staff else Customer
  }

  function RequirePaid(sub: Subscription, m: Module, now: Instant): Result<()> {
    if !Paid(sub, now) || m !in sub.modules then Err(ModuleUnavailable) else Ok(())
  }

  function RequireIntake(st: Store, m: Module, now: Instant): Result<Settings> {
    var cfg := SettingsOf(st, m);
    var _ :- RequirePaid(st.sub, m, now);
    if !cfg.enabled || cfg.hours == [] then Err(ModuleUnavailable)
    else if |UsedIn(st.usage, m, st.sub.periodStart)| >= Limit(st.sub.tier) then Err(QuotaExceeded)
    else Ok(cfg)
  }

  function PublicUnavailable(facing: bool, e: Error): Error {
    if facing && e.QuotaExceeded? then ModuleUnavailable else e
  }

  predicate TooMany(records: map<Id, Record>, m: Module, phone: string, after: Instant) {
    |Waiting(records, m, Some(phone), after)| >= PHONE_LIMIT || |Waiting(records, m, None, after)| >= TOTAL_LIMIT
  }

  function PendingExpiration(now: Instant, start: Instant, minutes: int): Instant {
    if start < now + minutes * MINUTE then start else now + minutes * MINUTE
  }

  /** Charge one confirmation to the current period. */
  function Consume(st: Store, m: Module, now: Instant): Result<Instant> {
    var _ :- RequirePaid(st.sub, m, now);
    if |UsedIn(st.usage, m, st.sub.periodStart)| >= Limit(st.sub.tier) then Err(QuotaExceeded)
    else Ok(st.sub.periodStart)
  }

  ghost function VisitSlots(zone: Scheduling.Zone, cfg: Settings, res: Resource, start: Instant,
                            duration: nat, buffer: nat, now: Instant): Result<seq<Scheduling.Slot>>
  {
    Scheduling.SlotsOf(zone, zone.clock(start).date, if |res.hours| > 0 then res.hours else cfg.hours,
                       cfg.closed + res.closed, cfg.slot, duration, buffer, now, cfg.lead, cfg.horizon)
  }

  /** The end of the free slot that starts at `start` on the resource. */
  ghost function CheckAppointment(zone: Scheduling.Zone, st: Store, cfg: Settings, service: Id, duration: nat,
                                  buffer: nat, resource: Id, exclude: Option<Id>, start: Instant,
                                  now: Instant): Result<Instant>
  {
    if resource !in st.resources || !st.resources[resource].active ||
       (st.resources[resource].services != [] && service !in st.resources[resource].services)
    then Err(SlotUnavailable)
    else
      var end := start + duration * MINUTE;
      var slots :- VisitSlots(zone, cfg, st.resources[resource], start, duration, buffer, now);
      if Scheduling.Slot(start, end) !in slots || Overlaps(st.records, resource, exclude, start, end + buffer * MINUTE)
      then Err(SlotUnavailable)
      else Ok(end)
  }

  ghost function PickupSlots(zone: Scheduling.Zone, cfg: Settings, date: int,
                             now: Instant): Result<seq<Scheduling.Slot>> {
    var local := zone.clock(now);
    if cfg.cutoff != "" && date == local.date && CutoffMinute(cfg) <= local.minute then Ok([])
    else Scheduling.SlotsOf(zone, date, cfg.hours, cfg.closed, cfg.slot, cfg.slot, 0, now, cfg.lead, cfg.horizon)
  }

  function CutoffMinute(cfg: Settings): int {
    var c := Scheduling.Clock(cfg.cutoff);
    if c.Some? then c.value else 0
  }

  ghost function CheckPickup(zone: Scheduling.Zone, st: Store, cfg: Settings, window: Id, exclude: Option<Id>,
                             now: Instant): Result<Window> {
    if window !in st.windows then Err(NotFound)
    else
      var w := st.windows[window];
      var slots :- PickupSlots(zone, cfg, zone.clock(w.startsAt).date, now);
      if Scheduling.Slot(w.startsAt, w.endsAt) !in slots then Err(SlotUnavailable)
      else if cfg.maxOrders > 0 && |Holding(st.records, window, exclude)| >= cfg.maxOrders then Err(PickupWindowFull)
      else Ok(w)
  }

  // ----- Create -----

  function NewItems(lines: seq<Pricing.Line>): (r: seq<Item>)
    ensures |r| == |lines|
    ensures forall i :: 0 <= i < |r| ==> r[i] == Item(i, lines[i], None)
  {
    seq(|lines|, i requires 0 <= i < |lines| => Item(i, lines[i], None))
  }

  ghost function CreateVisit(zones: Zones, st: Store, t: Readings, c: Command, cfg: Settings): Result<Record>
    requires c.Create? && c.body.NewVisit?
  {
    var b := c.body;
    if b.service !in st.services then Err(NotFound)
    else
      var s := st.services[b.service];
      if !s.active || (Facing(c.caller) && !s.isPublic) then Err(InvalidRequest)
      else
        var end :- CheckAppointment(zones(c.timezone), st, cfg, b.service, s.duration, s.buffer, b.resource, None,
                                    b.startsAt, t.offered);
        Ok(Record(Visit(b.service, b.resource, s.duration, s.buffer), b.phone, b.notes, c.timezone, b.startsAt, end,
                  Requested, 1, PendingExpiration(t.renewed, b.startsAt, cfg.ttl), None))
  }

  ghost function CreateOrder(zones: Zones, st: Store, t: Readings, c: Command, cfg: Settings): Result<Record>
    requires c.Create? && c.body.NewOrder?
    requires ValidSettings(cfg)
  {
    var b := c.body;
    if |b.wanted| == 0 || |b.wanted| > Pricing.MAX_ITEMS then Err(InvalidRequest)
    else
      var w :- CheckPickup(zones(c.timezone), st, cfg, b.window, None, t.offered);
      var priced :- Pricing.Quote(Catalog(c.rows, cfg.rules), b.wanted);
      Ok(Record(Order(b.window, NewItems(priced.lines), priced.total, None), b.phone, b.notes, c.timezone, w.startsAt,
                w.endsAt, Requested, 1, PendingExpiration(t.renewed, w.startsAt, cfg.ttl), None))
  }

  function Catalog(rows: seq<Pricing.Variant>, rules: seq<Pricing.Rule>): (c: seq<Pricing.CatalogItem>)
    requires forall i :: 0 <= i < |rules| ==> Pricing.ValidRule(rules[i])
    ensures Pricing.ValidCatalog(c)
  {
    var c := Pricing.Catalog(rows, rules);
    assert forall i :: 0 <= i < |c| ==>
             c[i] in c && Pricing.ValidRule(Pricing.Rule(c[i].variant, c[i].min, c[i].max, c[i].step));
    c
  }

  function CreatedModule(b: Body): Module {
    if b.NewVisit? then Appointments else Preorders
  }

  ghost function Created(zones: Zones, st: Store, t: Readings, c: Command): Result<Record>
    requires c.Create?
    requires Configured(st)
  {
    if !c.body.NewVisit? && !c.body.NewOrder? then Err(InvalidRequest)
    else
      var m := CreatedModule(c.body);
      var intake := RequireIntake(st, m, t.owned);
      if intake.Err? then Err(PublicUnavailable(Facing(c.caller), intake.error))
      else if TooMany(st.records, m, c.body.phone, t.began) then Err(RateLimited)
      else
        var r :- if c.body.NewVisit? then CreateVisit(zones, st, t, c, intake.value)
                 else CreateOrder(zones, st, t, c, intake.value);
        if c.id in st.records then Err(Internal) else Ok(r)
  }

  /** Settings are only ever stored after validation. */
  predicate Configured(st: Store) {
    forall m :: m in st.settings ==> ValidSettings(st.settings[m])
  }

  // ----- Change: transitions and edits -----

  function VersionOf(b: Body): int {
    if b.Transition? || b.Edit? then b.version else 0
  }

  /** Customers can only cancel. */
  function Target(caller: Caller, b: Body, current: Status): Status {
    if b.Edit? then current else if Facing(caller) then Cancelled else if b.Transition? then b.status else Nothing
  }

  /** The checks that come before any write; yields the status the record will have. */
  function Guarded(st: Store, t: Readings, c: Command, r: Record): Result<Status>
    requires c.Change?
  {
    var status := Shown(r, t.seen);
    var allowed := NextOf(c.module_, status);
    var target := Target(c.caller, c.body, status);
    if VersionOf(c.body) != r.version then Err(VersionConflict)
    else if status.Expired? then Err(RequestExpired)
    else if allowed == [] then Err(InvalidTransition)
    else if Facing(c.caller) &&
            (Cancelled !in allowed || t.cutoff + SettingsOf(st, c.module_).cancelBefore * MINUTE >= r.startsAt)
    then Err(InvalidTransition)
    else if !c.body.Edit? && target !in allowed then Err(InvalidTransition)
    else if c.body.Edit? && c.body.newNotes.Some? && |c.body.newNotes.value| > NOTES_LIMIT then Err(InvalidRequest)
    else Ok(target)
  }

  predicate Confirms(r: Record, status: Status) {
    r.status.Requested? && status.Confirmed?
  }

  predicate Moves(r: Record, b: Body) {
    b.Edit? && (if r.detail.Visit? then b.newStart.Some? || b.newResource.Some? else b.newWindow.Some?)
  }

  function NewNotes(r: Record, b: Body): string {
    if b.Edit? && b.newNotes.Some? then b.newNotes.value else r.notes
  }

  function NewExpiry(r: Record, b: Body, status: Status, start: Instant, now: Instant, ttl: int): Instant {
    if Moves(r, b) && status.Requested? then PendingExpiration(now, start, ttl) else r.expiresAt
  }

  /** The appointment after the change; its original duration and buffer are kept. */
  ghost function ChangedVisit(zones: Zones, st: Store, t: Readings, c: Command, r: Record,
                              status: Status): Result<Record>
    requires c.Change? && r.detail.Visit?
  {
    var b, cfg := c.body, SettingsOf(st, Appointments);
    if b.Edit? && (b.newWindow.Some? || b.finals != [] || b.finalTotal.Some?) then Err(InvalidRequest)
    else
      var start := if b.Edit? && b.newStart.Some? then b.newStart.value else r.startsAt;
      var resource := if b.Edit? && b.newResource.Some? then b.newResource.value else r.detail.resource;
      var checks := Confirms(r, status) || Moves(r, b);
      var end :- if checks then RecheckVisit(zones, st, t, c.id, r, cfg, resource, start) else Ok(r.endsAt);
      Ok(r.(detail := r.detail.(resource := resource), notes := NewNotes(r, b), startsAt := start, endsAt := end,
            status := status, version := r.version + 1,
            expiresAt := NewExpiry(r, b, status, start, t.renewed, cfg.ttl),
            confirmedAt := if Confirms(r, status) then Some(t.stamped) else r.confirmedAt))
  }

  ghost function RecheckVisit(zones: Zones, st: Store, t: Readings, id: Id, r: Record, cfg: Settings, resource: Id,
                              start: Instant): Result<Instant>
    requires r.detail.Visit?
  {
    var _ :- RequirePaid(st.sub, Appointments, t.owned);
    if r.detail.service !in st.services then Err(NotFound)
    else CheckAppointment(zones(r.timezone), st, cfg, r.detail.service, r.detail.duration, r.detail.buffer, resource,
                          Some(id), start, t.offered)
  }

  /** Final quantities, item by item; a repeated or foreign item refuses the edit. */
  function EditedItems(items: seq<Item>, edits: seq<(Id, int)>): Result<seq<Item>> {
    if edits == [] then Ok(items)
    else
      var n := |edits| - 1;
      var before :- EditedItems(items, edits[..n]);
      var (id, quantity) := edits[n];
      if exists j :: 0 <= j < n && edits[j].0 == id then Err(InvalidRequest)
      else if !Pricing.PositiveQuantity(quantity) then Err(InvalidRequest)
      else if id >= |before| then Err(InvalidRequest)
      else Ok(before[id := before[id].(finalQuantity := Some(quantity))])
  }

  ghost function ChangedOrder(zones: Zones, st: Store, t: Readings, c: Command, r: Record,
                              status: Status): Result<Record>
    requires c.Change? && r.detail.Order?
  {
    var b, cfg := c.body, SettingsOf(st, Preorders);
    if b.Edit? && (b.newStart.Some? || b.newResource.Some?) then Err(InvalidRequest)
    else
      var window := if b.Edit? && b.newWindow.Some? then b.newWindow.value else r.detail.window;
      var checks := Confirms(r, status) || Moves(r, b);
      var w :- if checks then RecheckOrder(zones, st, t, c.id, r, cfg, window) else Ok(Window(r.startsAt, r.endsAt));
      var items :- EditedItems(r.detail.items, if b.Edit? then b.finals else []);
      if b.Edit? && b.finalTotal.Some? && !Pricing.Money(b.finalTotal.value) then Err(InvalidRequest)
      else
        var total := if b.Edit? && b.finalTotal.Some? then b.finalTotal else r.detail.finalTotal;
        Ok(r.(detail := r.detail.(window := window, items := items, finalTotal := total), notes := NewNotes(r, b),
              startsAt := w.startsAt, endsAt := w.endsAt, status := status, version := r.version + 1,
              expiresAt := NewExpiry(r, b, status, w.startsAt, t.renewed, cfg.ttl),
              confirmedAt := if Confirms(r, status) then Some(t.stamped) else r.confirmedAt))
  }

  ghost function RecheckOrder(zones: Zones, st: Store, t: Readings, id: Id, r: Record, cfg: Settings,
                              window: Id): Result<Window> {
    var _ :- RequirePaid(st.sub, Preorders, t.owned);
    CheckPickup(zones(r.timezone), st, cfg, window, Some(id), t.offered)
  }

  /** The new record and the period charged for it, if any. */
  ghost function Changed(zones: Zones, st: Store, t: Readings, c: Command): Result<(Record, Option<Instant>)>
    requires c.Change?
  {
    if c.id !in st.records || ModuleOf(st.records[c.id]) != c.module_ then Err(NotFound)
    else
      var r := st.records[c.id];
      var status :- Guarded(st, t, c, r);
      var charge :- if Confirms(r, status) then Charged(st, c.module_, t.spent) else Ok(None);
      var after :- if r.detail.Visit? then ChangedVisit(zones, st, t, c, r, status)
                   else ChangedOrder(zones, st, t, c, r, status);
      Ok((after, charge))
  }

  function Charged(st: Store, m: Module, now: Instant): Result<Option<Instant>> {
    var period :- Consume(st, m, now);
    Ok(Some(period))
  }

  // ----- Decisions -----

  function ScopeOf(c: Command): ReplayKey {
    match c
    case Create(caller, key, _, _, _, body) => ReplayKey(Creating(caller, CreatedModule(body)), key)
    case Change(caller, key, m, id, body) => ReplayKey(Changing(caller, m, id, body.Edit?), key)
  }

  /** An unexpired stored reply for this key, as the transaction's now() sees it. */
  function Stored(st: Store, c: Command, began: Instant): Option<Replay> {
    var k := ScopeOf(c);
    if k in st.replays && began < st.replays[k].expiresAt then Some(st.replays[k]) else None
  }

  function HistoryOf(st: Store, id: Id): seq<Entry> {
    if id in st.history then st.history[id] else []
  }

  function Answer(st: Store, t: Readings, c: Command, code: nat, r: Record, entry: Option<Entry>): (ReplayKey, Replay) {
    var history := HistoryOf(st, c.id) + (if entry.Some? then [entry.value] else []);
    (ScopeOf(c), Replay(c.body, Response(code, c.id, r.(status := Shown(r, t.shown)), history), t.began + DAY))
  }

  ghost function Decide(zones: Zones, st: Store, t: Readings, c: Command): Decision
    requires Configured(st)
  {
    var stored := Stored(st, c, t.began);
    if stored.Some? then
      if stored.value.body == c.body then Repeat(stored.value.response) else Refuse(VersionConflict)
    else
      match c
      case Create(_, _, _, _, _, _) =>
        (match Created(zones, st, t, c)
         case Err(e) => Refuse(e)
         case Ok(r) => Accept(CreateWrites(st, t, c, r)))
      case Change(_, _, _, _, _) =>
        (match Changed(zones, st, t, c)
         case Err(e) => Refuse(e)
         case Ok((r, charge)) => Accept(ChangeWrites(st, t, c, r, charge)))
  }

  function CreateWrites(st: Store, t: Readings, c: Command, r: Record): Writes
    requires c.Create?
  {
    var entry := Some(Entry(Nothing, Requested, ActorOf(c.caller)));
    Writes(c.id, r, entry, None, Some(r.expiresAt), t.queued, Some(Answer(st, t, c, 201, r, entry)))
  }

  function ChangeWrites(st: Store, t: Readings, c: Command, r: Record, charge: Option<Instant>): Writes
    requires c.Change? && c.id in st.records
  {
    var before := st.records[c.id];
    var entry := if r.status != before.status then Some(Entry(before.status, r.status, ActorOf(c.caller))) else None;
    Writes(c.id, r, entry, charge, if Moves(before, c.body) then Some(r.expiresAt) else None, t.queued,
           Some(Answer(st, t, c, 200, r, entry)))
  }

  /** Expiry of one request: an error, nothing to do, or the expired row. */
  function DecideExpiry(st: Store, m: Module, id: Id, now: Instant): Result<Option<Writes>> {
    if id !in st.records || ModuleOf(st.records[id]) != m then Err(NotFound)
    else
      var r := st.records[id];
      if !r.status.Requested? || now < r.expiresAt then Ok(None)
      else Ok(Some(Writes(id, r.(status := Expired, version := r.version + 1), Some(Entry(Requested, Expired, System)),
                          None, None, now, None)))
  }

  // ----- Commit -----

  function Timer(id: Id, r: Record): Jobs.Payload {
    Jobs.ExpireRequest(id, r.detail.Order?)
  }

  function Apply(st: Store, w: Writes): Store {
    st.(records := st.records[w.id := w.record],
        history := if w.entry.Some? then st.history[w.id := HistoryOf(st, w.id) + [w.entry.value]] else st.history,
        usage := if w.charge.Some? && (ModuleOf(w.record), w.id) !in st.usage
                 then st.usage[(ModuleOf(w.record), w.id) := w.charge.value] else st.usage,
        queue := if w.timer.Some? then Jobs.Put(st.queue, Timer(w.id, w.record), w.timer.value, w.sentAt) else st.queue,
        replays := if w.reply.Some? then st.replays[w.reply.value.0 := w.reply.value.1] else st.replays)
  }
}
