/** Safety over whole runs: every state a business can reach keeps all of the invariants together. */
module Reachable {
  import opened Prelude
  import opened Records
  import opened Operations
  import opened Machine
  import opened Accepted
  import opened Bookings
  import opened Limits
  import opened Timers
  import Jobs

  ghost predicate Inv(sys: State) {
    && Configured(sys.store)
    && Rows(sys.store)
    && NoDoubleBooking(sys.store.records)
    && UsageMatches(sys.store)
    && PendingBound(sys.store.records, sys.clock)
    && TimersCover(sys.store)
    && Jobs.NeverEarly(sys.store.queue)
    && Jobs.Conserved(sys.store.queue)
  }

  /** A request changes nothing, or commits the writes of an accepted creation or change. */
  lemma RequestCases(zones: Zones, st: Store, c: Command, t: Readings) returns (w: Option<Writes>)
    requires Configured(st)
    ensures w.None? ==> AfterRequest(zones, st, c, t) == st && !Decide(zones, st, t, c).Accept?
    ensures w.Some? ==>
              AfterRequest(zones, st, c, t) == Apply(st, w.value) && Decide(zones, st, t, c) == Accept(w.value)
    ensures w.Some? ==> CreateFacts(st, t, c, w.value) || ChangeFacts(st, t, c, w.value)
  {
    hide Decide, CreateFacts, ChangeFacts, Apply;
    var d := Decide(zones, st, t, c);
    if d.Accept? {
      if c.Create? {
        AcceptedCreate(zones, st, t, c);
      } else {
        AcceptedChange(zones, st, t, c);
      }
      w := Some(d.writes);
    } else {
      w := None;
    }
  }

  /** The remaining steps leave records, history and usage alone; only the worker touches the queue. */
  lemma OtherCases(zones: Zones, st: Store, s: Step)
    requires Configured(st) && !s.Request? && !s.Expiry?
    ensures var after := StepStore(zones, st, s);
            && after.records == st.records && after.history == st.history && after.usage == st.usage
            && after.queue == (if s.Work? then Jobs.Next(st.queue, s.job) else st.queue)
            && (forall k :: k in st.windows ==> k in after.windows && after.windows[k] == st.windows[k])
  {
    hide Jobs.Next, AfterRequest, AfterExpiry, AfterAdmin, AfterOpening, AfterCleaning;
    match s
    case Administer(a) => AdminCase(st, a);
    case OpenWindow(id, w) => OpeningCase(st, id, w);
    case CleanReplays(at) => CleaningCase(st, at);
    case Work(_) =>
  }

  lemma AdminCase(st: Store, a: Admin)
    ensures AfterAdmin(st, a) == st.(settings := AfterAdmin(st, a).settings, services := AfterAdmin(st, a).services,
                                     resources := AfterAdmin(st, a).resources, sub := AfterAdmin(st, a).sub)
  {
    hide ValidSettings;
  }

  lemma OpeningCase(st: Store, id: Id, w: Window)
    ensures AfterOpening(st, id, w) == st.(windows := AfterOpening(st, id, w).windows)
    ensures forall k :: k in st.windows ==>
              k in AfterOpening(st, id, w).windows && AfterOpening(st, id, w).windows[k] == st.windows[k]
  {
  }

  lemma CleaningCase(st: Store, at: Instant)
    ensures AfterCleaning(st, at) == st.(replays := AfterCleaning(st, at).replays)
  {
  }

  // ----- One step -----

  lemma ApplyKeepsQueue(st: Store, w: Writes)
    requires Jobs.NeverEarly(st.queue) && Jobs.Conserved(st.queue)
    ensures Jobs.NeverEarly(Apply(st, w).queue) && Jobs.Conserved(Apply(st, w).queue)
  {
    hide Jobs.NeverEarly, Jobs.Conserved, Jobs.Put;
    if w.timer.Some? {
      var s := Jobs.Enqueue(Timer(w.id, w.record), w.timer.value, w.sentAt);
      Jobs.StepNeverEarly(st.queue, s);
      Jobs.StepConserves(st.queue, s);
    }
  }

  lemma CreateKeepsInv(sys: State, t: Readings, c: Command, w: Writes)
    requires Inv(sys) && CreateFacts(sys.store, t, c, w) && Ordered(t) && sys.clock <= t.seen
    requires Configured(Apply(sys.store, w))
    ensures Inv(State(Apply(sys.store, w), t.shown))
  {
    hide Rows, UsageMatches, PendingBound, TimersCover, Jobs.NeverEarly, Jobs.Conserved, NoDoubleBooking;
    CreateKeepsRows(sys.store, t, c, w);
    CreateKeepsUsage(sys.store, t, c, w);
    CreateKeepsPending(sys.store, t, c, w, sys.clock);
    CreateKeepsTimers(sys.store, t, c, w);
    IdleKeepsCalendar(sys.store.records, w.id, w.record);
    ApplyKeepsQueue(sys.store, w);
  }

  lemma ChangeKeepsInv(sys: State, t: Readings, c: Command, w: Writes)
    requires Inv(sys) && ChangeFacts(sys.store, t, c, w) && Ordered(t) && sys.clock <= t.seen
    requires Configured(Apply(sys.store, w))
    ensures Inv(State(Apply(sys.store, w), t.shown))
  {
    hide Rows, UsageMatches, PendingBound, TimersCover, Jobs.NeverEarly, Jobs.Conserved, NoDoubleBooking, ChangeFacts,
         Apply, Configured;
    ChangeKeepsRows(sys.store, t, c, w);
    ChangeKeepsUsage(sys.store, t, c, w);
    ChangeKeepsPending(sys.store, t, c, w, sys.clock);
    ChangeKeepsTimers(sys.store, t, c, w);
    ChangeKeepsCalendar(sys.store, t, c, w);
    ApplyKeepsQueue(sys.store, w);
  }

  lemma RequestKeepsInv(zones: Zones, sys: State, c: Command, t: Readings)
    requires Inv(sys) && Legal(sys, Request(c, t))
    ensures Inv(StepOf(zones, sys, Request(c, t)))
  {
    hide Rows, UsageMatches, TimersCover, Jobs.NeverEarly, Jobs.Conserved, NoDoubleBooking, Apply,
      Decide, CreateFacts, ChangeFacts, AfterRequest, Configured;
    StepKeepsConfigured(zones, sys.store, Request(c, t));
    var w := RequestCases(zones, sys.store, c, t);
    if w.None? {
      hide FewWaiting;
    } else if CreateFacts(sys.store, t, c, w.value) {
      CreateKeepsInv(sys, t, c, w.value);
    } else {
      ChangeKeepsInv(sys, t, c, w.value);
    }
  }

  lemma LapseKeepsInv(sys: State, m: Module, id: Id, at: Instant, fault: bool)
    requires Inv(sys) && sys.clock <= at
    ensures Inv(State(Lapsed(sys.store, m, id, at, fault), at))
  {
    LapseKeepsTimers(sys.store, m, id, at, fault);
    hide Rows, UsageMatches, TimersCover, Jobs.NeverEarly, Jobs.Conserved, NoDoubleBooking, DecideExpiry, FewWaiting,
         ValidSettings;
    var d := DecideExpiry(sys.store, m, id, at);
    if !fault && d.Ok? && d.value.Some? {
      hide Apply, PendingBound;
      ExpiryKeepsRows(sys.store, m, id, at);
      ExpiryKeepsUsage(sys.store, m, id, at);
      ExpiryKeepsPending(sys.store, m, id, sys.clock, at);
      LapseWrites(sys, m, id, at);
    }
  }

  lemma LapseWrites(sys: State, m: Module, id: Id, at: Instant)
    requires Configured(sys.store) && NoDoubleBooking(sys.store.records)
    requires DecideExpiry(sys.store, m, id, at).Ok? && DecideExpiry(sys.store, m, id, at).value.Some?
    ensures var after := Apply(sys.store, DecideExpiry(sys.store, m, id, at).value.value);
            Configured(after) && NoDoubleBooking(after.records) && after.queue == sys.store.queue
  {
    hide NoDoubleBooking;
    var r := sys.store.records[id];
    IdleKeepsCalendar(sys.store.records, id, r.(status := Expired, version := r.version + 1));
  }

  lemma ExpiryKeepsInv(zones: Zones, sys: State, m: Module, id: Id, at: Instant, fault: bool,
                       hand: Option<(Jobs.Worker, Id)>)
    requires Inv(sys) && Legal(sys, Expiry(m, id, at, fault, hand))
    ensures Inv(StepOf(zones, sys, Expiry(m, id, at, fault, hand)))
  {
    hide Rows, UsageMatches, TimersCover, PendingBound, Jobs.NeverEarly, Jobs.Conserved, NoDoubleBooking, Lapsed,
         ExpiryOutcome, Configured,
         Jobs.Marked;
    LapseKeepsInv(sys, m, id, at, fault);
    ExpiryKeepsTimers(sys.store, m, id, at, fault, hand);
    StepKeepsConfigured(zones, sys.store, Expiry(m, id, at, fault, hand));
    if hand.Some? {
      LapseKeepsQueue(sys.store, m, id, at, fault);
      var s := Jobs.Handle(hand.value.0, hand.value.1, at, ExpiryOutcome(sys.store, m, id, at, fault).Ok?);
      Jobs.StepNeverEarly(sys.store.queue, s);
      Jobs.StepConserves(sys.store.queue, s);
      SameTables(Lapsed(sys.store, m, id, at, fault), AfterExpiry(sys.store, m, id, at, fault, hand));
    }
  }

  lemma LapseKeepsQueue(st: Store, m: Module, id: Id, at: Instant, fault: bool)
    ensures Lapsed(st, m, id, at, fault).queue == st.queue
  {
  }

  lemma SameTables(before: Store, after: Store)
    requires Rows(before) && UsageMatches(before)
    requires after.records == before.records && after.history == before.history && after.usage == before.usage
    requires forall k :: k in before.windows ==> k in after.windows && after.windows[k] == before.windows[k]
    ensures Rows(after) && UsageMatches(after)
  {
    hide ItemsAddUp, Path, StampOk;
  }

  lemma OtherKeepsInv(zones: Zones, sys: State, s: Step)
    requires Inv(sys) && Legal(sys, s) && !s.Request? && !s.Expiry?
    ensures Inv(StepOf(zones, sys, s))
  {
    hide Rows, UsageMatches, PendingBound, Jobs.NeverEarly, Jobs.Conserved, NoDoubleBooking, StepStore, Configured,
         CallsExpiry, Jobs.Next, Covered, Jobs.Timely;
    StepKeepsConfigured(zones, sys.store, s);
    OtherCases(zones, sys.store, s);
    SameTables(sys.store, StepStore(zones, sys.store, s));
    if s.Work? {
      WorkKeepsTimers(sys.store, s.job);
      Jobs.StepNeverEarly(sys.store.queue, s.job);
      Jobs.StepConserves(sys.store.queue, s.job);
    }
  }

  lemma StepKeepsInv(zones: Zones, sys: State, s: Step)
    requires Inv(sys) && Legal(sys, s)
    ensures Inv(StepOf(zones, sys, s))
  {
    hide StepOf, Legal;
    assert Configured(sys.store);
    hide Inv;
    match s
    case Request(c, t) => RequestKeepsInv(zones, sys, c, t);
    case Expiry(m, id, at, fault, hand) => ExpiryKeepsInv(zones, sys, m, id, at, fault, hand);
    case _ => OtherKeepsInv(zones, sys, s);
  }

  // ----- Every run -----

  /** Main result: whatever the interleaving of clients, owners, billing and workers, every state
      reachable from an empty business satisfies all of the invariants. */
  lemma {:induction false} RunKeepsInv(zones: Zones, sub: Subscription, now: Instant, steps: seq<Step>)
    requires LegalRun(zones, Fresh(sub, now), steps)
    ensures Inv(Run(zones, Fresh(sub, now), steps))
  {
    if steps == [] {
      FreshInv(sub, now);
    } else {
      var n := |steps| - 1;
      hide Inv, Legal, Fresh, StepOf;
      assert Configured(Fresh(sub, now).store) by { FreshInv(sub, now); }
      RunKeepsInv(zones, sub, now, steps[..n]);
      StepKeepsInv(zones, Run(zones, Fresh(sub, now), steps[..n]), steps[n]);
    }
  }

  lemma FreshInv(sub: Subscription, now: Instant)
    ensures Inv(Fresh(sub, now)) && Configured(Fresh(sub, now).store)
  {
    forall at, m, phone
      ensures Few(map[], m, phone, at)
    {
      assert Waiting(map[], m, Some(phone), at) == {} && Waiting(map[], m, None, at) == {};
    }
  }
}
