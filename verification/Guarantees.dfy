/** What the invariants mean to the people using the system, stated for every run. */
module Guarantees {
  import opened Prelude
  import opened Records
  import opened Operations
  import opened Machine
  import opened Accepted
  import opened Bookings
  import opened Limits
  import opened Timers
  import opened Reachable
  import opened Terms
  import opened QueueRuns
  import Jobs

  // ----- Consequences in every reachable state -----

  /** No two visits of one resource that are confirmed, completed or missed ever occupy one moment, each from its
      start to the end of its buffer. */
  lemma NeverDoubleBooked(zones: Zones, sub: Subscription, now: Instant, steps: seq<Step>, a: Id, b: Id,
                          moment: Instant)
    requires LegalRun(zones, Fresh(sub, now), steps)
    requires var records := Run(zones, Fresh(sub, now), steps).store.records;
             && a in records && b in records
             && var x, y := records[a], records[b];
             && x.detail.Visit? && y.detail.Visit? && x.detail.resource == y.detail.resource
             && (x.status == Confirmed || x.status == Completed || x.status == NoShow)
             && (y.status == Confirmed || y.status == Completed || y.status == NoShow)
             && x.startsAt <= moment < x.endsAt + x.detail.buffer * MINUTE
             && y.startsAt <= moment < y.endsAt + y.detail.buffer * MINUTE
    ensures a == b
  {
    RunKeepsInv(zones, sub, now, steps);
    hide Run, LegalRun, Rows, UsageMatches, PendingBound, TimersCover, NoDoubleBooking, Jobs.NeverEarly, Jobs.Conserved,
         Configured;
    OneAtATime(Run(zones, Fresh(sub, now), steps).store.records, a, b, moment);
  }

  lemma OneAtATime(records: map<Id, Record>, a: Id, b: Id, moment: Instant)
    requires NoDoubleBooking(records) && a in records && b in records
    requires var x, y := records[a], records[b];
             && x.detail.Visit? && y.detail.Visit? && x.detail.resource == y.detail.resource
             && (x.status == Confirmed || x.status == Completed || x.status == NoShow)
             && (y.status == Confirmed || y.status == Completed || y.status == NoShow)
             && x.startsAt <= moment < x.endsAt + x.detail.buffer * MINUTE
             && y.startsAt <= moment < y.endsAt + y.detail.buffer * MINUTE
    ensures a == b
  {
    if a != b {
      assert Clashing(records[a], records[b]);
    }
  }

  /** A stored request is covered by a job that nobody has handled successfully, unless that job was given up
      after its retries. It becomes visible no earlier than the request expires, and until somebody reads it at
      most a second later, or a second after it was sent if that was later still. */
  lemma TimerNeverLost(zones: Zones, sub: Subscription, now: Instant, steps: seq<Step>, id: Id)
    requires LegalRun(zones, Fresh(sub, now), steps)
    requires var records := Run(zones, Fresh(sub, now), steps).store.records;
             id in records && records[id].status.Requested?
    ensures var st := Run(zones, Fresh(sub, now), steps).store; var r := st.records[id];
            GivenUp(st.queue, Timer(id, r), r.expiresAt) ||
            exists j ::
              && Unconsumed(st.queue, j, Timer(id, r), r.expiresAt) && r.expiresAt <= st.queue.live[j].visibleAt
              && (st.queue.live[j].readCount == 0 ==>
                    var sent := QueueSteps(zones, Fresh(sub, now), steps);
                    exists n: nat :: Jobs.SentSoon(sent, n, j, st.queue.live[j]))
  {
    RunKeepsInv(zones, sub, now, steps);
    QueueIsARun(zones, Fresh(sub, now), steps);
    hide QueueSteps, Jobs.SentSoon, Jobs.Run;
    hide Run, LegalRun, Rows, UsageMatches, PendingBound, NoDoubleBooking, Jobs.Conserved, Configured;
    var st := Run(zones, Fresh(sub, now), steps).store;
    var r := st.records[id];
    assert Covered(st.queue, Timer(id, r), r.expiresAt);
    if !GivenUp(st.queue, Timer(id, r), r.expiresAt) {
      var j :| Unconsumed(st.queue, j, Timer(id, r), r.expiresAt);
      assert r.expiresAt <= st.queue.live[j].visibleAt;
      Jobs.UnreadIsSoon(QueueSteps(zones, Fresh(sub, now), steps), j);
    }
  }

  /** Every record has a history, a path of the status machine from nothing to the stored status of at
      most three or five entries; a request still pending expires no later than it starts. */
  lemma HistoryIsFaithful(zones: Zones, sub: Subscription, now: Instant, steps: seq<Step>, id: Id)
    requires LegalRun(zones, Fresh(sub, now), steps)
    requires id in Run(zones, Fresh(sub, now), steps).store.records
    ensures var st := Run(zones, Fresh(sub, now), steps).store; var r := st.records[id];
            && id in st.history && StepByStep(if r.detail.Visit? then Appointments else Preorders, st.history[id])
            && st.history[id][|st.history[id]| - 1].to == r.status
            && |st.history[id]| <= (if r.detail.Visit? then 3 else 5)
            && (r.status.Requested? ==> r.expiresAt <= r.startsAt)
            && PlaceOk(st.windows, r)
  {
    RunKeepsInv(zones, sub, now, steps);
    hide Run, LegalRun, UsageMatches, PendingBound, TimersCover, NoDoubleBooking, Jobs.NeverEarly, Jobs.Conserved,
         Configured;
    var st := Run(zones, Fresh(sub, now), steps).store;
    assert StampOk(st.records[id]);
    HistoryIsBounded(ModuleOf(st.records[id]), st.history[id]);
    PathIsStepByStep(ModuleOf(st.records[id]), st.history[id]);
  }

  /** From nothing to requested, then each entry from where the one before led, along the listed steps; or a
      request that expired. */
  predicate StepByStep(m: Module, h: seq<Entry>) {
    && h != [] && h[0].from == Nothing && h[0].to == Requested
    && forall i :: 0 < i < |h| ==>
         h[i].from == h[i - 1].to &&
         (Leads(m, h[i].from, h[i].to) || (h[i].from == Requested && h[i].to == Expired))
  }

  lemma PathIsStepByStep(m: Module, h: seq<Entry>)
    requires Path(m, h)
    ensures StepByStep(m, h)
  {
    forall i | 0 < i < |h|
      ensures Leads(m, h[i].from, h[i].to) || (h[i].from == Requested && h[i].to == Expired)
    {
      assert Follows(m, h[i].from, h[i].to);
      StepsAreListed(m, h[i].from, h[i].to);
    }
  }

  /** At the present and at every later moment, at most three of a phone's requests and five hundred of
      anybody's are pending. */
  lemma PendingStaysBounded(zones: Zones, sub: Subscription, now: Instant, steps: seq<Step>, m: Module, phone: string,
                            at: Instant)
    requires LegalRun(zones, Fresh(sub, now), steps) && Run(zones, Fresh(sub, now), steps).clock <= at
    ensures var records := Run(zones, Fresh(sub, now), steps).store.records;
            |PendingOf(records, m, phone, at)| <= 3 && |Pending(records, m, at)| <= 500
  {
    RunKeepsInv(zones, sub, now, steps);
    PendingIsCounted(Run(zones, Fresh(sub, now), steps).store.records, m, phone, at);
    hide Run, LegalRun, Rows, UsageMatches, TimersCover, NoDoubleBooking, Jobs.NeverEarly, Jobs.Conserved, Configured;
    assert FewWaiting(Run(zones, Fresh(sub, now), steps).store.records, at);
    assert Few(Run(zones, Fresh(sub, now), steps).store.records, m, phone, at);
  }

  // ----- The plan's limit -----

  /** The step is a confirmation charged to this period. */
  ghost predicate Charges(zones: Zones, st: Store, s: Step, m: Module, period: Instant)
    requires Configured(st)
  {
    s.Request? && var d := Decide(zones, st, s.t, s.command);
    d.Accept? && d.writes.charge == Some(period) && ModuleOf(d.writes.record) == m
  }

  lemma StepCounts(zones: Zones, sys: State, s: Step, m: Module, period: Instant)
    requires Inv(sys) && Legal(sys, s)
    ensures var before := ChargedTo(sys.store.usage, m, period);
            var after := ChargedTo(StepOf(zones, sys, s).store.usage, m, period);
            if Charges(zones, sys.store, s, m, period) then |after| == |before| + 1 <= Allowance(sys.store.sub.tier)
            else after == before
  {
    QuotaIsCounted(sys.store.usage, m, period, sys.store.sub.tier);
    QuotaIsCounted(StepOf(zones, sys, s).store.usage, m, period, sys.store.sub.tier);
    hide Inv, Decide, Apply, UsedIn, ChargedTo, Limit, Allowance;
    assert Rows(sys.store) && UsageMatches(sys.store) && Configured(sys.store) by { InvParts(sys); }
    hide Rows, UsageMatches, Configured, Legal;
    match s
    case Request(c, t) =>
      hide CreateFacts, ChangeFacts;
      var w := RequestCases(zones, sys.store, c, t);
      if w.Some? {
        WriteCounts(sys.store, t, c, w.value, m, period);
      }
    case Expiry(mm, id, at, fault, hand) => ExpiryCounts(sys.store, mm, id, at, fault, hand);
    case _ =>
      hide StepStore;
      OtherCases(zones, sys.store, s);
  }

  lemma InvParts(sys: State)
    requires Inv(sys)
    ensures Configured(sys.store) && Rows(sys.store) && UsageMatches(sys.store)
  {
  }

  lemma ExpiryCounts(st: Store, m: Module, id: Id, at: Instant, fault: bool, hand: Option<(Jobs.Worker, Id)>)
    ensures AfterExpiry(st, m, id, at, fault, hand).usage == st.usage
  {
  }

  lemma WriteCounts(st: Store, t: Readings, c: Command, w: Writes, m: Module, period: Instant)
    requires Rows(st) && UsageMatches(st) && (CreateFacts(st, t, c, w) || ChangeFacts(st, t, c, w))
    ensures var before, after := UsedIn(st.usage, m, period), UsedIn(Apply(st, w).usage, m, period);
            if w.charge == Some(period) && ModuleOf(w.record) == m then |after| == |before| + 1 <= Limit(st.sub.tier)
            else after == before
  {
    hide UsedIn, Rows, UsageMatches;
    if CreateFacts(st, t, c, w) {
      hide Answer, TooMany, CreatedDetail;
      CreateKeepsUsage(st, t, c, w);
    } else {
      ChangeKeepsUsage(st, t, c, w);
      KeptModule(st, t, c, w);
      hide Answer, PlaceFacts, StampFacts;
      if w.charge.Some? {
        ChargeCounts(st.usage, (c.module_, w.id), w.charge.value, m, period);
      }
    }
  }

  /** Step i is the last of these steps that charges the period. */
  ghost predicate LatestCharge(zones: Zones, start: State, steps: seq<Step>, m: Module, period: Instant, i: nat)
    requires Configured(start.store)
  {
    && i < |steps| && Charges(zones, Run(zones, start, steps[..i]).store, steps[i], m, period)
    && forall j :: i < j < |steps| ==> !Charges(zones, Run(zones, start, steps[..j]).store, steps[j], m, period)
  }

  /** This many events are within the limit of the plan at the latest charge. */
  ghost predicate WithinLatest(zones: Zones, start: State, steps: seq<Step>, m: Module, period: Instant, used: nat)
    requires Configured(start.store)
  {
    exists i: nat :: LatestCharge(zones, start, steps, m, period, i) &&
                     used <= Allowance(Run(zones, start, steps[..i]).store.sub.tier)
  }

  lemma OtherStepKeepsLatest(zones: Zones, start: State, steps: seq<Step>, m: Module, period: Instant, used: nat)
    requires Configured(start.store) && steps != [] && WithinLatest(zones, start, steps[..|steps| - 1], m, period, used)
    requires !Charges(zones, Run(zones, start, steps[..|steps| - 1]).store, steps[|steps| - 1], m, period)
    ensures WithinLatest(zones, start, steps, m, period, used)
  {
    hide Charges, Run, Configured;
    var n := |steps| - 1;
    var before := steps[..n];
    var i: nat :| LatestCharge(zones, start, before, m, period, i) &&
                  used <= Allowance(Run(zones, start, before[..i]).store.sub.tier);
    forall j | i <= j < n
      ensures before[..j] == steps[..j] && before[j] == steps[j]
    {
    }
    assert LatestCharge(zones, start, steps, m, period, i);
  }

  lemma LastStepIsLatest(zones: Zones, start: State, steps: seq<Step>, m: Module, period: Instant, used: nat)
    requires Configured(start.store) && steps != []
    requires Charges(zones, Run(zones, start, steps[..|steps| - 1]).store, steps[|steps| - 1], m, period)
    requires used <= Allowance(Run(zones, start, steps[..|steps| - 1]).store.sub.tier)
    ensures WithinLatest(zones, start, steps, m, period, used)
  {
    hide Charges, Run, Configured;
    assert LatestCharge(zones, start, steps, m, period, |steps| - 1);
  }

  /** Main result: usage events are exactly the records ever confirmed, and a period's count never
      exceeds the limit of the plan in force at its latest confirmation. */
  lemma {:induction false} CountStaysWithinPlan(zones: Zones, sub: Subscription, now: Instant, steps: seq<Step>,
                                                m: Module, period: Instant)
    requires LegalRun(zones, Fresh(sub, now), steps)
    ensures UsageMatches(Run(zones, Fresh(sub, now), steps).store)
    ensures var used := ChargedTo(Run(zones, Fresh(sub, now), steps).store.usage, m, period);
            used == {} || WithinLatest(zones, Fresh(sub, now), steps, m, period, |used|)
  {
    hide Charges, Inv, Legal, StepOf, Fresh, UsageMatches, WithinLatest;
    assert Configured(Fresh(sub, now).store) by { FreshInv(sub, now); }
    RunKeepsInv(zones, sub, now, steps);
    InvParts(Run(zones, Fresh(sub, now), steps));
    if steps == [] {
      NoneUsedYet(sub, now, m, period);
    } else {
      hide ChargedTo, Allowance;
      var start, n := Fresh(sub, now), |steps| - 1;
      var before := steps[..n];
      CountStaysWithinPlan(zones, sub, now, before, m, period);
      RunKeepsInv(zones, sub, now, before);
      StepCounts(zones, Run(zones, start, before), steps[n], m, period);
      var used := ChargedTo(Run(zones, start, steps).store.usage, m, period);
      if Charges(zones, Run(zones, start, before).store, steps[n], m, period) {
        LastStepIsLatest(zones, start, steps, m, period, |used|);
      } else if used != {} {
        OtherStepKeepsLatest(zones, start, steps, m, period, |used|);
      }
    }
  }

  lemma NoneUsedYet(sub: Subscription, now: Instant, m: Module, period: Instant)
    ensures ChargedTo(Fresh(sub, now).store.usage, m, period) == {}
  {
  }

  // ----- Pickup windows while the cap stays put -----

  /** The owner does not change the cap in this step. */
  predicate KeepsCap(s: Step, cap: nat) {
    s.Administer? && s.admin.Configure? && s.admin.module_.Preorders? && ValidSettings(s.admin.settings) ==>
      s.admin.settings.maxOrders == cap
  }

  lemma StepKeepsCapSetting(zones: Zones, st: Store, s: Step, cap: nat)
    requires Configured(st) && SettingsOf(st, Preorders).maxOrders == cap && KeepsCap(s, cap)
    ensures SettingsOf(StepStore(zones, st, s), Preorders).maxOrders == cap
  {
    hide AfterRequest, AfterExpiry, ValidSettings, AfterOpening, AfterCleaning, AfterAdmin, Jobs.Next;
    match s
    case Administer(a) => AdminKeepsCapSetting(st, a, cap);
    case Request(c, t) => RequestKeepsSettings(zones, st, c, t);
    case Expiry(m, id, at, fault, hand) => ExpiryKeepsSettings(st, m, id, at, fault, hand);
    case OpenWindow(id, w) => OpeningCase(st, id, w);
    case CleanReplays(at) => CleaningCase(st, at);
    case _ =>
  }

  lemma AdminKeepsCapSetting(st: Store, a: Admin, cap: nat)
    requires SettingsOf(st, Preorders).maxOrders == cap && KeepsCap(Administer(a), cap)
    ensures SettingsOf(AfterAdmin(st, a), Preorders).maxOrders == cap
  {
    hide ValidSettings;
  }

  lemma StepKeepsWithinCap(zones: Zones, st: Store, s: Step, cap: nat)
    requires Configured(st) && cap > 0 && SettingsOf(st, Preorders).maxOrders == cap && WithinCap(st.records, cap)
    ensures WithinCap(StepStore(zones, st, s).records, cap)
  {
    hide Decide, WithinCap, ValidSettings, Apply, Jobs.Next;
    match s
    case Request(c, t) =>
      hide CreateFacts, ChangeFacts, Configured;
      var w := RequestCases(zones, st, c, t);
      if w.Some? {
        WriteKeepsCap(st, t, c, w.value, cap);
      }
    case Expiry(m, id, at, fault, hand) =>
      hide AfterRequest;
      LapseKeepsCap(st, m, id, at, fault, cap);
      hide Lapsed, ExpiryOutcome;
    case _ =>
      hide StepStore;
      OtherCases(zones, st, s);
  }

  lemma WriteKeepsCap(st: Store, t: Readings, c: Command, w: Writes, cap: nat)
    requires CreateFacts(st, t, c, w) || ChangeFacts(st, t, c, w)
    requires cap > 0 && SettingsOf(st, Preorders).maxOrders == cap && WithinCap(st.records, cap)
    ensures WithinCap(Apply(st, w).records, cap)
  {
    hide WithinCap;
    if CreateFacts(st, t, c, w) {
      hide Answer, TooMany, CreatedDetail, ChangeFacts;
      IdleKeepsCap(st.records, w.id, w.record, cap);
    } else {
      hide ChangeFacts, Apply;
      ChangeKeepsCap(st, t, c, w, cap);
    }
  }

  lemma LapseKeepsCap(st: Store, m: Module, id: Id, at: Instant, fault: bool, cap: nat)
    requires WithinCap(st.records, cap)
    ensures WithinCap(Lapsed(st, m, id, at, fault).records, cap)
  {
    hide WithinCap;
    if id in st.records {
      IdleKeepsCap(st.records, id, st.records[id].(status := Expired, version := st.records[id].version + 1), cap);
    }
  }

  /** Main result: starting within a positive cap that the owner leaves alone, no run ever gives more orders a
      place in a window, collected or not, than the cap. */
  lemma WindowsStayWithinCap(zones: Zones, sys: State, steps: seq<Step>, cap: nat, window: Id)
    requires Configured(sys.store) && cap > 0 && SettingsOf(sys.store, Preorders).maxOrders == cap
    requires forall i :: 0 <= i < |steps| ==> KeepsCap(steps[i], cap)
    requires forall w: Id :: |PlacesTaken(sys.store.records, w, None)| <= cap
    ensures |PlacesTaken(Run(zones, sys, steps).store.records, window, None)| <= cap
  {
    hide Run, Configured, KeepsCap, SettingsOf, PlacesTaken, Holding;
    assert WithinCap(sys.store.records, cap) by {
      forall w: Id
        ensures Fits(sys.store.records, w, cap)
      {
        PlacesAreCounted(sys.store.records, w, None);
      }
    }
    RunKeepsWithinCap(zones, sys, steps, cap);
    assert Fits(Run(zones, sys, steps).store.records, window, cap);
    PlacesAreCounted(Run(zones, sys, steps).store.records, window, None);
  }

  lemma {:induction false} RunKeepsWithinCap(zones: Zones, sys: State, steps: seq<Step>, cap: nat)
    requires Configured(sys.store) && cap > 0 && SettingsOf(sys.store, Preorders).maxOrders == cap
    requires forall i :: 0 <= i < |steps| ==> KeepsCap(steps[i], cap)
    requires WithinCap(sys.store.records, cap)
    ensures WithinCap(Run(zones, sys, steps).store.records, cap)
    ensures SettingsOf(Run(zones, sys, steps).store, Preorders).maxOrders == cap
  {
    if steps != [] {
      var n := |steps| - 1;
      hide StepStore, WithinCap, Configured, KeepsCap, SettingsOf;
      RunKeepsWithinCap(zones, sys, steps[..n], cap);
      StepKeepsCapSetting(zones, Run(zones, sys, steps[..n]).store, steps[n], cap);
      StepKeepsWithinCap(zones, Run(zones, sys, steps[..n]).store, steps[n], cap);
    }
  }

  // ----- Records only move forward -----

  /** The same row, or a later version of one that was not final. */
  predicate Later(a: Record, b: Record) {
    b == a || (a.version < b.version && Unfinished(a) && (b.detail.Visit? <==> a.detail.Visit?))
  }

  ghost predicate Grows(a: Store, b: Store) {
    && (forall id :: id in a.records ==> id in b.records && Later(a.records[id], b.records[id]))
    && (forall id :: id in a.history ==> id in b.history && a.history[id] <= b.history[id])
    && (forall k :: k in a.usage ==> k in b.usage && a.usage[k] == b.usage[k])
  }

  lemma GrowsTransitively(a: Store, b: Store, c: Store)
    requires Grows(a, b) && Grows(b, c)
    ensures Grows(a, c)
  {
    forall id | id in a.records
      ensures Later(a.records[id], c.records[id])
    {
      assert Later(a.records[id], b.records[id]) && Later(b.records[id], c.records[id]);
    }
  }

  lemma WriteGrows(st: Store, w: Writes)
    requires w.id in st.records ==> Later(st.records[w.id], w.record)
    ensures Grows(st, Apply(st, w))
  {
    hide Later;
    forall id | id in st.records && id != w.id
      ensures Later(st.records[id], st.records[id])
    {
      LaterItself(st.records[id]);
    }
  }

  lemma LaterItself(r: Record)
    ensures Later(r, r)
  {
  }

  lemma SameRowsGrow(a: Store, b: Store)
    requires b.records == a.records && b.history == a.history && b.usage == a.usage
    ensures Grows(a, b)
  {
  }

  lemma StepGrows(zones: Zones, sys: State, s: Step)
    requires Configured(sys.store)
    ensures Grows(sys.store, StepOf(zones, sys, s).store)
  {
    var st := sys.store;
    match s
    case Request(c, t) =>
      hide Decide, CreateFacts, ChangeFacts, Grows, Apply;
      var w := RequestCases(zones, st, c, t);
      if w.Some? {
        WriteIsLater(st, t, c, w.value);
        WriteGrows(st, w.value);
      } else {
        SameRowsGrow(st, st);
      }
    case Expiry(m, id, at, fault, hand) =>
      hide Grows;
      ExpiryGrows(st, m, id, at, fault, hand);
    case _ =>
      hide StepStore, Grows;
      OtherCases(zones, st, s);
      SameRowsGrow(st, StepStore(zones, st, s));
  }

  lemma WriteIsLater(st: Store, t: Readings, c: Command, w: Writes)
    requires CreateFacts(st, t, c, w) || ChangeFacts(st, t, c, w)
    ensures w.id in st.records ==> Later(st.records[w.id], w.record)
  {
    if CreateFacts(st, t, c, w) {
      hide Answer, TooMany, CreatedDetail, ChangeFacts;
    } else {
      KeptModule(st, t, c, w);
      hide Answer, PlaceFacts, CreateFacts;
    }
  }

  lemma ExpiryGrows(st: Store, m: Module, id: Id, at: Instant, fault: bool, hand: Option<(Jobs.Worker, Id)>)
    ensures Grows(st, AfterExpiry(st, m, id, at, fault, hand))
  {
    hide Jobs.Marked;
    var d := ExpiryOutcome(st, m, id, at, fault);
    if d.Ok? && d.value.Some? {
      var w := d.value.value;
      assert Later(st.records[w.id], w.record);
      hide Grows, DecideExpiry, Apply;
      WriteGrows(st, w);
      SameRowsGrow(Apply(st, w), AfterExpiry(st, m, id, at, fault, hand));
      GrowsTransitively(st, Apply(st, w), AfterExpiry(st, m, id, at, fault, hand));
    } else {
      SameRowsGrow(st, AfterExpiry(st, m, id, at, fault, hand));
    }
  }

  /** Main result: along every run a final record never changes again, a version never goes back,
      histories only grow, and a usage event once written stays as it was written. */
  lemma {:induction false} RunGrows(zones: Zones, sys: State, steps: seq<Step>, n: nat)
    requires Configured(sys.store) && n <= |steps|
    ensures Grows(Run(zones, sys, steps[..n]).store, Run(zones, sys, steps).store)
  {
    hide Grows, StepOf, Configured;
    if n == |steps| {
      assert steps[..n] == steps;
      SameRowsGrow(Run(zones, sys, steps).store, Run(zones, sys, steps).store);
    } else {
      var before := steps[..|steps| - 1];
      RunGrows(zones, sys, before, n);
      assert before[..n] == steps[..n];
      StepGrows(zones, Run(zones, sys, before), steps[|steps| - 1]);
      GrowsTransitively(Run(zones, sys, steps[..n]).store, Run(zones, sys, before).store, Run(zones, sys, steps).store);
    }
  }

  /** The step changes this record by request. */
  ghost predicate Mutates(zones: Zones, st: Store, s: Step, id: Id)
    requires Configured(st)
  {
    s.Request? && s.command.Change? && s.command.id == id && Decide(zones, st, s.t, s.command).Accept?
  }

  lemma MutationBumps(zones: Zones, sys: State, s: Step, id: Id)
    requires Configured(sys.store) && Mutates(zones, sys.store, s, id)
    ensures id in sys.store.records && sys.store.records[id].version == VersionOf(s.command.body)
    ensures var after := StepOf(zones, sys, s).store.records;
            id in after && after[id].version == VersionOf(s.command.body) + 1
  {
    AcceptedChange(zones, sys.store, s.t, s.command);
    hide Decide, Answer, PlaceFacts;
  }

  /** Main result: of all the changes of one record that carry one version, at most one succeeds. */
  lemma OneMutationPerVersion(zones: Zones, sys: State, steps: seq<Step>, i: nat, j: nat, id: Id)
    requires Configured(sys.store) && i < j < |steps|
    requires Mutates(zones, Run(zones, sys, steps[..i]).store, steps[i], id)
    requires Mutates(zones, Run(zones, sys, steps[..j]).store, steps[j], id)
    ensures VersionOf(steps[i].command.body) < VersionOf(steps[j].command.body)
  {
    hide Mutates, StepOf, Configured, Grows, Run;
    MutationBumps(zones, Run(zones, sys, steps[..i]), steps[i], id);
    MutationBumps(zones, Run(zones, sys, steps[..j]), steps[j], id);
    GrowsBetween(zones, sys, steps, i, j);
    VersionsGrow(StepOf(zones, Run(zones, sys, steps[..i]), steps[i]).store, Run(zones, sys, steps[..j]).store, id);
  }

  lemma GrowsBetween(zones: Zones, sys: State, steps: seq<Step>, i: nat, j: nat)
    requires Configured(sys.store) && i < j <= |steps|
    ensures Grows(StepOf(zones, Run(zones, sys, steps[..i]), steps[i]).store, Run(zones, sys, steps[..j]).store)
  {
    hide StepOf, Configured, Grows;
    var upTo := steps[..i + 1];
    assert upTo[..i] == steps[..i] && upTo[i] == steps[i];
    assert steps[..j][..i + 1] == upTo;
    RunGrows(zones, sys, steps[..j], i + 1);
  }

  lemma VersionsGrow(a: Store, b: Store, id: Id)
    requires Grows(a, b) && id in a.records
    ensures id in b.records && a.records[id].version <= b.records[id].version
  {
    assert Later(a.records[id], b.records[id]);
  }

  /** The step writes the expiry of this record. */
  predicate Expires(st: Store, s: Step, id: Id) {
    s.Expiry? && s.id == id &&
    var d := ExpiryOutcome(st, s.module_, s.id, s.at, s.fault); d.Ok? && d.value.Some?
  }

  lemma ExpiryIsFinal(zones: Zones, sys: State, s: Step, id: Id)
    requires Configured(sys.store) && Expires(sys.store, s, id)
    ensures id in sys.store.records && sys.store.records[id].status.Requested?
    ensures var after := StepOf(zones, sys, s).store.records; id in after && after[id].status.Expired?
  {
  }

  /** A final record is the same row ever after. */
  lemma FinalStays(a: Store, b: Store, id: Id)
    requires Grows(a, b) && id in a.records && a.records[id].status.Expired?
    ensures id in b.records && b.records[id].status.Expired?
  {
    assert Later(a.records[id], b.records[id]);
  }

  lemma NoSecondExpiry(zones: Zones, sys: State, steps: seq<Step>, i: nat, j: nat, id: Id)
    requires Configured(sys.store) && i < j < |steps|
    requires Expires(Run(zones, sys, steps[..i]).store, steps[i], id)
    ensures !Expires(Run(zones, sys, steps[..j]).store, steps[j], id)
  {
    hide StepOf, Configured, Grows, Run;
    ExpiryIsFinal(zones, Run(zones, sys, steps[..i]), steps[i], id);
    GrowsBetween(zones, sys, steps, i, j);
    FinalStays(StepOf(zones, Run(zones, sys, steps[..i]), steps[i]).store, Run(zones, sys, steps[..j]).store, id);
  }

  /** Main result: an expiry call marks a request that has lapsed by its own clock as expired, with one entry by the
      system, and writes nothing else to any table; any other record it leaves alone. */
  lemma ExpiryExactly(st: Store, m: Module, id: Id, at: Instant)
    ensures var after := Lapsed(st, m, id, at, false);
            if id in st.records && IsOf(st.records[id], m) && st.records[id].status == Requested &&
               st.records[id].expiresAt <= at
            then
              var r := st.records[id];
              var h := if id in st.history then st.history[id] else [];
              after == st.(records := st.records[id := r.(status := Expired, version := r.version + 1)],
                           history := st.history[id := h + [Entry(Requested, Expired, System)]])
            else after == st
    ensures ExpiryOutcome(st, m, id, at, false).Ok? <==> id in st.records && IsOf(st.records[id], m)
  {
  }

  // ----- Pickup windows and settings -----

  ghost predicate WindowsDiffer(windows: map<Id, Window>) {
    forall i, j :: i in windows && j in windows && windows[i] == windows[j] ==> i == j
  }

  /** Main result: opening a window of times that exist changes nothing, otherwise it is added; so in every run no two
      windows have the same times, and none ever changes or disappears. */
  lemma {:induction false} WindowsStayUnique(zones: Zones, sys: State, steps: seq<Step>)
    requires Configured(sys.store) && WindowsDiffer(sys.store.windows)
    ensures var windows := Run(zones, sys, steps).store.windows;
            && WindowsDiffer(windows)
            && forall k :: k in sys.store.windows ==> k in windows && windows[k] == sys.store.windows[k]
  {
    if steps != [] {
      var before, s := steps[..|steps| - 1], steps[|steps| - 1];
      hide WindowsDiffer, StepStore, Configured;
      WindowsStayUnique(zones, sys, before);
      StepKeepsWindows(zones, Run(zones, sys, before).store, s);
    }
  }

  lemma StepKeepsWindows(zones: Zones, st: Store, s: Step)
    requires Configured(st) && WindowsDiffer(st.windows)
    ensures var windows := StepStore(zones, st, s).windows;
            && WindowsDiffer(windows)
            && (forall k :: k in st.windows ==> k in windows && windows[k] == st.windows[k])
            && (s.OpenWindow? && s.id !in st.windows ==> exists k :: k in windows && windows[k] == s.window)
  {
    hide Decide, AfterRequest, AfterExpiry, AfterOpening, AfterAdmin, AfterCleaning, Configured, Jobs.Next,
         WindowsDiffer;
    match s
    case Request(c, t) => RequestKeepsWindows(zones, st, c, t);
    case Expiry(m, id, at, fault, hand) => ExpiryKeepsWindows(st, m, id, at, fault, hand);
    case OpenWindow(id, w) => OpeningKeepsWindows(st, id, w);
    case Administer(a) => AdministrationIsStored(st, a);
    case CleanReplays(at) => CleaningCase(st, at);
    case Work(_) =>
  }

  lemma OpeningKeepsWindows(st: Store, id: Id, w: Window)
    requires WindowsDiffer(st.windows)
    ensures var windows := AfterOpening(st, id, w).windows;
            && WindowsDiffer(windows)
            && (forall k :: k in st.windows ==> k in windows && windows[k] == st.windows[k])
            && (id !in st.windows ==> exists k :: k in windows && windows[k] == w)
  {
    if id !in st.windows && !exists k :: k in st.windows && st.windows[k] == w {
      assert AfterOpening(st, id, w).windows[id] == w;
    }
  }

  lemma RequestKeepsWindows(zones: Zones, st: Store, c: Command, t: Readings)
    requires Configured(st)
    ensures AfterRequest(zones, st, c, t).windows == st.windows
  {
    hide Decide;
  }

  lemma ExpiryKeepsWindows(st: Store, m: Module, id: Id, at: Instant, fault: bool, hand: Option<(Jobs.Worker, Id)>)
    ensures AfterExpiry(st, m, id, at, fault, hand).windows == st.windows
  {
  }

  /** What the owner and the payment provider store is what the next request reads; settings only if valid. */
  lemma AdministrationIsStored(st: Store, a: Admin)
    ensures var after := AfterAdmin(st, a);
            match a
            case Configure(m, s) =>
              if ValidSettings(s)
              then m in after.settings && after.settings[m] == s && after == st.(settings := after.settings)
              else after == st
            case SaveService(id, s) =>
              id in after.services && after.services[id] == s && after == st.(services := after.services)
            case SaveResource(id, r) =>
              id in after.resources && after.resources[id] == r && after == st.(resources := after.resources)
            case Bill(sub) => after == st.(sub := sub)
  {
    hide ValidSettings;
  }

  /** Main result: however often and late a record's expiry is called, by jobs, redeliveries and sweeps,
      one call at most writes it. */
  lemma OneExpiryPerRecord(zones: Zones, sys: State, steps: seq<Step>, i: nat, j: nat, id: Id)
    requires Configured(sys.store) && i < |steps| && j < |steps|
    requires Expires(Run(zones, sys, steps[..i]).store, steps[i], id)
    requires Expires(Run(zones, sys, steps[..j]).store, steps[j], id)
    ensures i == j
  {
    hide Expires, Run;
    if i < j {
      NoSecondExpiry(zones, sys, steps, i, j, id);
    } else if j < i {
      NoSecondExpiry(zones, sys, steps, j, i, id);
    }
  }

  // ----- What the customer is offered -----

  /** The transitions a customer's page lists. */
  function CustomerTransitions(m: Module, r: Record, cfg: Settings, now: Instant): seq<Status> {
    if Cancelled in NextOf(m, Shown(r, now)) && now + cfg.cancelBefore * MINUTE < r.startsAt then [Cancelled] else []
  }

  /** Main result: a customer is offered to cancel exactly when cancelling now would succeed. */
  lemma CancelOfferedExactly(zones: Zones, st: Store, t: Readings, c: Command)
    requires Configured(st) && Ordered(t) && t.seen == t.cutoff
    requires c.Change? && Facing(c.caller) && c.body.Transition? && Stored(st, c, t.began).None?
    requires c.id in st.records && ModuleOf(st.records[c.id]) == c.module_ && c.body.version == st.records[c.id].version
    ensures CustomerTransitions(c.module_, st.records[c.id], SettingsOf(st, c.module_), t.seen) == [Cancelled] <==>
            Decide(zones, st, t, c).Accept? && Decide(zones, st, t, c).writes.record.status.Cancelled?
    ensures var r := st.records[c.id];
            CustomerTransitions(c.module_, r, SettingsOf(st, c.module_), t.seen) ==
            if InProgress(r, t.seen) && t.seen + Notice(st, c.module_) * MINUTE < r.startsAt then [Cancelled] else []
  {
    var r := st.records[c.id];
    OfferedInProgress(st, c.module_, r, t.seen);
    hide RecheckVisit, RecheckOrder, SettingsOf, Answer, Created;
    CancelIsGuarded(st, t, c, r);
    if Guarded(st, t, c, r).Ok? {
      CancelNeedsNoMore(zones, st, t, c, r);
    }
    hide Guarded, ChangedVisit, ChangedOrder, CustomerTransitions;
  }

  lemma OfferedInProgress(st: Store, m: Module, r: Record, now: Instant)
    requires ModuleOf(r) == m
    ensures CustomerTransitions(m, r, SettingsOf(st, m), now) ==
            if InProgress(r, now) && now + Notice(st, m) * MINUTE < r.startsAt then [Cancelled] else []
  {
    SettingsAreRead(st, m);
    hide SettingsOf, Notice;
  }

  lemma CancelIsGuarded(st: Store, t: Readings, c: Command, r: Record)
    requires t.seen == t.cutoff && c.Change? && Facing(c.caller) && c.body.Transition? && c.body.version == r.version
    ensures CustomerTransitions(c.module_, r, SettingsOf(st, c.module_), t.seen) == [Cancelled] <==>
              Guarded(st, t, c, r) == Ok(Cancelled)
    ensures Guarded(st, t, c, r).Ok? ==> Guarded(st, t, c, r).value == Cancelled
  {
    hide SettingsOf;
  }

  lemma CancelNeedsNoMore(zones: Zones, st: Store, t: Readings, c: Command, r: Record)
    requires c.Change? && c.body.Transition?
    ensures r.detail.Visit? ==>
              ChangedVisit(zones, st, t, c, r, Cancelled).Ok? &&
              ChangedVisit(zones, st, t, c, r, Cancelled).value.status.Cancelled?
    ensures r.detail.Order? ==>
              ChangedOrder(zones, st, t, c, r, Cancelled).Ok? &&
              ChangedOrder(zones, st, t, c, r, Cancelled).value.status.Cancelled?
  {
    hide RecheckVisit, RecheckOrder, SettingsOf;
  }
}
