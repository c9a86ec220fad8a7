/** The tables of one business, as values. */
module Records {
  import opened Prelude
  import Jobs
  import Pricing
  import Scheduling

  datatype Module = Appointments | Preorders

  /** `Nothing` is the empty status a history starts from. */
  datatype Status =
    | Nothing | Requested | Confirmed | Preparing | Ready | Collected | Uncollected
    | Completed | NoShow | Cancelled | Rejected | Expired

  function NextAppointment(s: Status): seq<Status> {
    match s
    case Requested => [Confirmed, Rejected, Cancelled]
    case Confirmed => [Completed, Cancelled, NoShow]
    case _ => []
  }

  function NextPreorder(s: Status): seq<Status> {
    match s
    case Requested => [Confirmed, Rejected, Cancelled]
    case Confirmed => [Preparing, Ready, Collected, Cancelled, Uncollected]
    case Preparing => [Ready, Collected, Cancelled, Uncollected]
    case Ready => [Collected, Cancelled, Uncollected]
    case _ => []
  }

  function NextOf(m: Module, s: Status): seq<Status> {
    if m.Appointments? then NextAppointment(s) else NextPreorder(s)
  }

  /** An order line; `id` is its position, which stands for its row identifier. */
  datatype Item = Item(id: Id, line: Pricing.Line, finalQuantity: Option<int>)

  datatype Detail =
    | Visit(service: Id, resource: Id, duration: nat, buffer: nat)
    | Order(window: Id, items: seq<Item>, estimate: int, finalTotal: Option<int>)

  datatype Record = Record(detail: Detail, phone: string, notes: string, timezone: string,
                           startsAt: Instant, endsAt: Instant, status: Status, version: int,
                           expiresAt: Instant, confirmedAt: Option<Instant>)

  function ModuleOf(r: Record): Module {
    if r.detail.Visit? then Appointments else Preorders
  }

  /** The status a reader is shown: a lapsed request reads as expired before any job runs. */
  function Shown(r: Record, now: Instant): Status {
    if r.status.Requested? && r.expiresAt <= now then Expired else r.status
  }

  datatype Actor = Customer | Staff | System

  datatype Entry = Entry(from: Status, to: Status, actor: Actor)

  // ----- Configuration and plan -----

  datatype Tier = Free | Essential | Business

  datatype Billing = Inactive | Active | Pilot | PastDue | Other(name: string)

  datatype Subscription = Subscription(tier: Tier, status: Billing, modules: set<Module>,
                                       periodStart: Instant, periodEnd: Instant, graceUntil: Option<Instant>)

  predicate Paid(s: Subscription, now: Instant) {
    !s.tier.Free? &&
    (((s.status.Active? || s.status.Pilot?) && now < s.periodEnd) ||
     (s.status.PastDue? && s.graceUntil.Some? && now < s.graceUntil.value))
  }

  function Limit(t: Tier): nat {
    match t
    case Business => 1000
    case Essential => 50
    case Free => 0
  }

  datatype Settings = Settings(enabled: bool, hours: seq<Scheduling.Hour>, closed: seq<int>,
                               lead: int, horizon: int, slot: int, cancelBefore: int, ttl: int,
                               cutoff: string, maxOrders: int, rules: seq<Pricing.Rule>)

  const DEFAULTS: Settings := Settings(false, [], [], 60, 30, 30, 60, 1440, "", 0, [])

  /** The bounds and quantity rules the owner's settings are checked against. */
  predicate ValidSettings(s: Settings) {
    && 0 <= s.lead <= 10080 && 1 <= s.horizon <= 90 && 5 <= s.slot <= 240
    && 0 <= s.cancelBefore <= 10080 && 5 <= s.ttl <= 10080 && 0 <= s.maxOrders <= 1000
    && (s.cutoff != "" ==> Scheduling.Clock(s.cutoff).Some?)
    && (forall i :: 0 <= i < |s.rules| ==> Pricing.ValidRule(s.rules[i]))
    && (forall i, j :: 0 <= i < j < |s.rules| ==> s.rules[i].variant != s.rules[j].variant)
  }

  datatype Service = Service(active: bool, isPublic: bool, duration: nat, buffer: nat)

  datatype Resource = Resource(active: bool, services: seq<Id>, hours: seq<Scheduling.Hour>, closed: seq<int>)

  datatype Window = Window(startsAt: Instant, endsAt: Instant)

  // ----- Requests and their stored replies -----

  datatype Caller = Owner | Visitor | Member(user: Id)

  datatype Body =
    | NewVisit(phone: string, notes: string, service: Id, resource: Id, startsAt: Instant)
    | NewOrder(phone: string, notes: string, window: Id, wanted: seq<Pricing.Wanted>)
    | Transition(status: Status, version: int)
    | Edit(version: int, newStart: Option<Instant>, newResource: Option<Id>, newWindow: Option<Id>,
           newNotes: Option<string>, finals: seq<(Id, int)>, finalTotal: Option<int>)

  datatype Scope =
    | Creating(caller: Caller, module_: Module)
    | Changing(caller: Caller, module_: Module, id: Id, patch: bool)

  datatype ReplayKey = ReplayKey(scope: Scope, key: string)

  datatype Response = Response(code: nat, id: Id, record: Record, history: seq<Entry>)

  datatype Replay = Replay(body: Body, response: Response, expiresAt: Instant)

  // ----- The tables -----

  datatype Store = Store(
    sub: Subscription,
    settings: map<Module, Settings>,
    services: map<Id, Service>,
    resources: map<Id, Resource>,
    windows: map<Id, Window>,
    records: map<Id, Record>,
    history: map<Id, seq<Entry>>,
    usage: map<(Module, Id), Instant>,
    replays: map<ReplayKey, Replay>,
    queue: Jobs.Queue)

  function SettingsOf(st: Store, m: Module): Settings {
    if m in st.settings then st.settings[m] else DEFAULTS
  }

  // ----- The counting and existence queries -----

  predicate Occupying(s: Status) {
    s.Confirmed? || s.Completed? || s.NoShow?
  }

  predicate HoldsPlace(s: Status) {
    s.Confirmed? || s.Preparing? || s.Ready? || s.Collected? || s.Uncollected?
  }

  function OccupiedEnd(r: Record): Instant {
    r.endsAt + (if r.detail.Visit? then r.detail.buffer else 0) * MINUTE
  }

  /** Another occupying visit on the resource meets [startsAt, occupiedEnd). */
  predicate Overlaps(records: map<Id, Record>, resource: Id, exclude: Option<Id>, startsAt: Instant,
                     occupiedEnd: Instant) {
    exists id :: id in records && Some(id) != exclude && Meets(records[id], resource, startsAt, occupiedEnd)
  }

  predicate Meets(r: Record, resource: Id, startsAt: Instant, occupiedEnd: Instant) {
    r.detail.Visit? && r.detail.resource == resource && Occupying(r.status) &&
    r.startsAt < occupiedEnd && startsAt < OccupiedEnd(r)
  }

  function Holding(records: map<Id, Record>, window: Id, exclude: Option<Id>): set<Id> {
    set id | id in records && Some(id) != exclude && records[id].detail.Order? &&
             records[id].detail.window == window && HoldsPlace(records[id].status)
  }

  /** Requests of a module still pending at `after`, of one phone or of everybody. */
  function Waiting(records: map<Id, Record>, m: Module, phone: Option<string>, after: Instant): set<Id> {
    set id | id in records && ModuleOf(records[id]) == m && records[id].status.Requested? &&
             after < records[id].expiresAt && (phone.Some? ==> records[id].phone == phone.value)
  }

  function UsedIn(usage: map<(Module, Id), Instant>, m: Module, period: Instant): set<(Module, Id)> {
    set k | k in usage && k.0 == m && usage[k] == period
  }
}
