/** The rules of the business told in the fields of its rows and in plain numbers. The main results are stated
    in these terms; the lemmas at the end connect them to the checks that the transactions run. */
module Terms {
  import opened Prelude
  import opened Records
  import opened Operations

  // ----- The plan -----

  /** A plan that is paid for at this moment and includes the module. */
  predicate PlanAllows(sub: Subscription, m: Module, now: Instant) {
    && (sub.tier == Essential || sub.tier == Business) && m in sub.modules
    && (((sub.status == Active || sub.status == Pilot) && now < sub.periodEnd) ||
        (sub.status == PastDue && sub.graceUntil.Some? && now < sub.graceUntil.value))
  }

  /** Confirmations a period and module. */
  function Allowance(tier: Tier): nat {
    if tier == Business then 1000 else if tier == Essential then 50 else 0
  }

  function ChargedTo(usage: map<(Module, Id), Instant>, m: Module, period: Instant): set<(Module, Id)> {
    set k | k in usage.Keys && k.0 == m && usage[k] == period
  }

  predicate HasQuota(st: Store, m: Module) {
    |ChargedTo(st.usage, m, st.sub.periodStart)| < Allowance(st.sub.tier)
  }

  // ----- Pending requests -----

  predicate IsOf(r: Record, m: Module) {
    m == (if r.detail.Visit? then Appointments else Preorders)
  }

  /** The requests of a module that nobody has answered and that have not lapsed at this moment. */
  function Pending(records: map<Id, Record>, m: Module, at: Instant): set<Id> {
    set id | id in records.Keys && IsOf(records[id], m) && records[id].status == Requested && at < records[id].expiresAt
  }

  function PendingOf(records: map<Id, Record>, m: Module, phone: string, at: Instant): set<Id> {
    set id | id in Pending(records, m, at) && records[id].phone == phone
  }

  predicate MayWait(records: map<Id, Record>, m: Module, phone: string, at: Instant) {
    |PendingOf(records, m, phone, at)| < 3 && |Pending(records, m, at)| < 500
  }

  // ----- The calendar and the pickup windows -----

  /** A confirmed visit of this resource, also once it is over. */
  predicate Busy(r: Record, resource: Id) {
    r.detail.Visit? && r.detail.resource == resource &&
    (r.status == Confirmed || r.status == Completed || r.status == NoShow)
  }

  /** The visit and its buffer leave [from, until) alone. */
  predicate LeavesAlone(v: Record, from: Instant, until: Instant)
    requires v.detail.Visit?
  {
    v.endsAt + v.detail.buffer * MINUTE <= from || until <= v.startsAt
  }

  /** An order that has a place in the window, collected or not. */
  predicate HasPlace(r: Record, window: Id) {
    r.detail.Order? && r.detail.window == window &&
    (r.status == Confirmed || r.status == Preparing || r.status == Ready || r.status == Collected ||
     r.status == Uncollected)
  }

  function PlacesTaken(records: map<Id, Record>, window: Id, exclude: Option<Id>): set<Id> {
    set id | id in records.Keys && HasPlace(records[id], window) && exclude != Some(id)
  }

  // ----- The status machine -----

  /** The steps that staff can take a record through. */
  predicate Leads(m: Module, from: Status, to: Status) {
    match from
    case Requested => to == Confirmed || to == Rejected || to == Cancelled
    case Confirmed =>
      to == Cancelled ||
      (if m.Appointments? then to == Completed || to == NoShow
       else to == Preparing || to == Ready || to == Collected || to == Uncollected)
    case Preparing => m.Preorders? && (to == Ready || to == Collected || to == Cancelled || to == Uncollected)
    case Ready => m.Preorders? && (to == Collected || to == Cancelled || to == Uncollected)
    case _ => false
  }

  /** Neither answered for good nor lapsed. */
  predicate InProgress(r: Record, now: Instant) {
    || (r.status == Requested && now < r.expiresAt)
    || r.status == Confirmed
    || (r.detail.Order? && (r.status == Preparing || r.status == Ready))
  }

  predicate Unfinished(r: Record) {
    r.status == Requested || r.status == Confirmed || (r.detail.Order? && (r.status == Preparing || r.status == Ready))
  }

  /** A customer's notice for cancelling or editing, in minutes. */
  function Notice(st: Store, m: Module): int {
    if m in st.settings then st.settings[m].cancelBefore else 60
  }

  /** The time to answer a request, in minutes. */
  function TimeToAnswer(st: Store, m: Module): int {
    if m in st.settings then st.settings[m].ttl else 1440
  }

  // ----- The checks compute these -----

  lemma PlanIsChecked(sub: Subscription, m: Module, now: Instant)
    ensures RequirePaid(sub, m, now) == if PlanAllows(sub, m, now) then Ok(()) else Err(ModuleUnavailable)
    ensures Paid(sub, now) && m in sub.modules <==> PlanAllows(sub, m, now)
  {
  }

  lemma QuotaIsCounted(usage: map<(Module, Id), Instant>, m: Module, period: Instant, tier: Tier)
    ensures UsedIn(usage, m, period) == ChargedTo(usage, m, period) && Limit(tier) == Allowance(tier)
  {
  }

  lemma PendingIsCounted(records: map<Id, Record>, m: Module, phone: string, at: Instant)
    ensures Waiting(records, m, None, at) == Pending(records, m, at)
    ensures Waiting(records, m, Some(phone), at) == PendingOf(records, m, phone, at)
    ensures !TooMany(records, m, phone, at) <==> MayWait(records, m, phone, at)
  {
  }

  lemma PlacesAreCounted(records: map<Id, Record>, window: Id, exclude: Option<Id>)
    ensures Holding(records, window, exclude) == PlacesTaken(records, window, exclude)
  {
  }

  /** The overlap query finds a busy visit that does not leave the time alone. */
  lemma OverlapIsFound(records: map<Id, Record>, resource: Id, exclude: Option<Id>, from: Instant, until: Instant)
    ensures !Overlaps(records, resource, exclude, from, until) <==>
            forall id :: id in records && exclude != Some(id) && Busy(records[id], resource) ==>
              LeavesAlone(records[id], from, until)
  {
    if !Overlaps(records, resource, exclude, from, until) {
      forall id | id in records && exclude != Some(id) && Busy(records[id], resource)
        ensures LeavesAlone(records[id], from, until)
      {
        assert !Meets(records[id], resource, from, until);
      }
    }
  }

  lemma StepsAreListed(m: Module, from: Status, to: Status)
    ensures to in NextOf(m, from) <==> Leads(m, from, to)
    ensures NextOf(m, from) != [] <==> Leads(m, from, Cancelled)
  {
  }

  lemma SettingsAreRead(st: Store, m: Module)
    ensures SettingsOf(st, m).cancelBefore == Notice(st, m) && SettingsOf(st, m).ttl == TimeToAnswer(st, m)
    ensures SettingsOf(st, m) ==
            if m in st.settings then st.settings[m] else Settings(false, [], [], 60, 30, 30, 60, 1440, "", 0, [])
  {
  }
}
