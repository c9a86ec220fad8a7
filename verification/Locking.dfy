/** Many clients at once: begin, wait for the business lock, decide, then commit or abort, while windows
    are opened, replies cleaned and jobs worked without the lock.

    Every interleaving commits what some serial run of whole transactions commits. */
module Locking {
  import opened Prelude
  import opened Records
  import opened Operations
  import opened Machine
  import opened Accepted
  import opened Bookings
  import opened Reachable
  import Jobs
  import Pricing
  import Scheduling

  type Client = nat

  datatype Task =
    | Serve(command: Command)
    | Lapse(module_: Module, id: Id, fault: bool, hand: Option<(Jobs.Worker, Id)>)
    | Manage(admin: Admin)

  /** What a transaction has computed and not yet committed. */
  datatype Buffer =
    | Granted(command: Command, t: Readings, decision: Decision)
    | Lapsing(module_: Module, id: Id, fault: bool, hand: Option<(Jobs.Worker, Id)>, at: Instant,
              outcome: Result<Option<Writes>>)
    | Setting(admin: Admin)

  datatype Txn =
    | Waiting(task: Task, began: Instant)
    | Inside(task: Task, began: Instant)
    | Buffered(buffer: Buffer)
    | Leaving

  /** `log` lists the transactions in the order in which they took effect. */
  datatype World = World(store: Store, clock: Instant, holder: Option<Client>, txns: map<Client, Txn>, log: seq<Step>)

  datatype Micro =
    | Begin(who: Client, task: Task, began: Instant)
    | Acquire(who: Client)
    | Compute(who: Client, t: Readings)
    | Finish(who: Client)
    | Abort(who: Client)
    | Aside(step: Step)

  predicate Unlocked(s: Step) {
    s.OpenWindow? || s.CleanReplays? || s.Work?
  }

  /** The worker still holds the message it called the expiry for. */
  predicate StillHeld(q: Jobs.Queue, m: Module, id: Id, at: Instant, hand: (Jobs.Worker, Id)) {
    CallsExpiry(q, hand.0, hand.1) && q.hands[hand].payload == Jobs.ExpireRequest(id, m.Preorders?) &&
    q.hands[hand].readAt <= at
  }

  predicate Allowed(sys: World, x: Micro) {
    match x
    case Begin(who, _, _) => who !in sys.txns
    case Acquire(who) => sys.holder.None? && who in sys.txns && sys.txns[who].Waiting?
    case Compute(who, t) =>
      && sys.holder == Some(who) && who in sys.txns && sys.txns[who].Inside?
      && Ordered(t) && t.began == sys.txns[who].began && sys.clock <= t.seen
    case Finish(who) =>
      sys.holder == Some(who) && who in sys.txns && (sys.txns[who].Buffered? || sys.txns[who].Leaving?)
    case Abort(who) => who in sys.txns
    case Aside(s) => Unlocked(s) && Legal(State(sys.store, sys.clock), s)
  }

  function Released(sys: World, who: Client): World {
    sys.(holder := if sys.holder == Some(who) then None else sys.holder, txns := sys.txns - {who})
  }

  /** A message handled in the meantime by somebody else is not reported on. */
  function ReportedHand(q: Jobs.Queue, m: Module, id: Id, at: Instant,
                        hand: Option<(Jobs.Worker, Id)>): Option<(Jobs.Worker, Id)> {
    if hand.Some? && StillHeld(q, m, id, at, hand.value) then hand else None
  }

  /** The serial step a buffered transaction stands for. */
  function StepOfBuffer(q: Jobs.Queue, b: Buffer): Step {
    match b
    case Granted(c, t, _) => Request(c, t)
    case Lapsing(m, id, fault, hand, at, _) => Expiry(m, id, at, fault, ReportedHand(q, m, id, at, hand))
    case Setting(a) => Administer(a)
  }

  function Committed(st: Store, b: Buffer): Store {
    match b
    case Granted(_, _, d) => AfterDecision(st, d)
    case Lapsing(m, id, _, hand, at, outcome) =>
      Reported(if outcome.Ok? && outcome.value.Some? then Apply(st, outcome.value.value) else st,
               ReportedHand(st.queue, m, id, at, hand), outcome.Ok?)
    case Setting(a) => AfterAdmin(st, a)
  }

  ghost function Computed(zones: Zones, sys: World, who: Client, t: Readings): World
    requires Configured(sys.store) && Allowed(sys, Compute(who, t))
  {
    match sys.txns[who].task
    case Serve(c) =>
      var d := Decide(zones, sys.store, t, c);
      if d.Accept? then sys.(txns := sys.txns[who := Buffered(Granted(c, t, d))])
      else sys.(txns := sys.txns[who := Leaving], clock := t.shown, log := sys.log + [Request(c, t)])
    case Lapse(m, id, fault, hand) =>
      sys.(txns := sys.txns[who := Buffered(Lapsing(m, id, fault, hand, t.seen,
                                                    ExpiryOutcome(sys.store, m, id, t.seen, fault)))])
    case Manage(a) => sys.(txns := sys.txns[who := Buffered(Setting(a))])
  }

  ghost function NextWorld(zones: Zones, sys: World, x: Micro): World
    requires Configured(sys.store) && Allowed(sys, x)
  {
    match x
    case Begin(who, task, began) => sys.(txns := sys.txns[who := Waiting(task, began)])
    case Acquire(who) =>
      sys.(holder := Some(who), txns := sys.txns[who := Inside(sys.txns[who].task, sys.txns[who].began)])
    case Compute(who, t) => Computed(zones, sys, who, t)
    case Finish(who) =>
      if sys.txns[who].Leaving? then Released(sys, who)
      else
        var b := sys.txns[who].buffer;
        var s := StepOfBuffer(sys.store.queue, b);
        Released(sys.(store := Committed(sys.store, b), clock := Tick(sys.clock, s), log := sys.log + [s]), who)
    case Abort(who) => Released(sys, who)
    case Aside(s) => sys.(store := StepStore(zones, sys.store, s), log := sys.log + [s])
  }

  // ----- The invariant -----

  /** What the holder computed is still what it would compute now. */
  ghost predicate Current(zones: Zones, st: Store, clock: Instant, b: Buffer)
    requires Configured(st)
  {
    match b
    case Granted(c, t, d) => Ordered(t) && clock <= t.seen && d.Accept? && Decide(zones, st, t, c) == d
    case Lapsing(m, id, fault, _, at, outcome) => clock <= at && outcome == ExpiryOutcome(st, m, id, at, fault)
    case Setting(_) => true
  }

  /** Only the lock holder is past its wait. */
  ghost predicate Exclusive(sys: World) {
    && (forall who :: who in sys.txns && !sys.txns[who].Waiting? ==> sys.holder == Some(who))
    && (sys.holder.Some? ==> sys.holder.value in sys.txns && !sys.txns[sys.holder.value].Waiting?)
  }

  ghost predicate Serial(zones: Zones, init: State, sys: World)
    requires Configured(init.store)
  {
    LegalRun(zones, init, sys.log) && Run(zones, init, sys.log) == State(sys.store, sys.clock)
  }

  ghost predicate Sound(zones: Zones, init: State, sys: World)
    requires Configured(init.store)
  {
    && Serial(zones, init, sys)
    && Configured(sys.store)
    && Exclusive(sys)
    && (sys.holder.Some? && sys.txns[sys.holder.value].Buffered? ==>
          Current(zones, sys.store, sys.clock, sys.txns[sys.holder.value].buffer))
  }

  // ----- Decisions are stable under the steps that need no lock -----

  /** More windows, fewer stored replies, any queue. */
  ghost predicate Widens(a: Store, b: Store) {
    && b == a.(windows := b.windows, replays := b.replays, queue := b.queue)
    && (forall k :: k in a.windows ==> k in b.windows && b.windows[k] == a.windows[k])
    && (forall k :: k in b.replays ==> k in a.replays && a.replays[k] == b.replays[k])
  }

  lemma UnlockedWidens(zones: Zones, st: Store, s: Step)
    requires Configured(st) && Unlocked(s)
    ensures Widens(st, StepStore(zones, st, s))
  {
    hide AfterRequest, AfterExpiry, AfterAdmin, AfterOpening, AfterCleaning, Jobs.Next;
    match s
    case OpenWindow(id, w) => OpeningCase(st, id, w);
    case CleanReplays(at) => CleaningWidens(st, at);
    case Work(_) =>
  }

  lemma CleaningWidens(st: Store, at: Instant)
    ensures Widens(st, AfterCleaning(st, at))
  {
  }

  lemma WiderPickup(zone: Scheduling.Zone, a: Store, b: Store, cfg: Settings, window: Id, exclude: Option<Id>,
                    now: Instant)
    requires Widens(a, b) && CheckPickup(zone, a, cfg, window, exclude, now).Ok?
    ensures CheckPickup(zone, b, cfg, window, exclude, now) == CheckPickup(zone, a, cfg, window, exclude, now)
  {
    hide PickupSlots, Holding;
  }

  lemma WiderAppointment(zone: Scheduling.Zone, a: Store, b: Store, cfg: Settings, service: Id, duration: nat,
                         buffer: nat, resource: Id, exclude: Option<Id>, start: Instant, now: Instant)
    requires Widens(a, b)
    ensures CheckAppointment(zone, b, cfg, service, duration, buffer, resource, exclude, start, now) ==
            CheckAppointment(zone, a, cfg, service, duration, buffer, resource, exclude, start, now)
  {
    hide VisitSlots, Overlaps;
  }

  lemma WiderBodies(zones: Zones, a: Store, b: Store, t: Readings, c: Command, cfg: Settings)
    requires Widens(a, b) && c.Create? && ValidSettings(cfg)
    ensures c.body.NewVisit? ==> CreateVisit(zones, b, t, c, cfg) == CreateVisit(zones, a, t, c, cfg)
    ensures c.body.NewOrder? && CreateOrder(zones, a, t, c, cfg).Ok? ==>
              CreateOrder(zones, b, t, c, cfg) == CreateOrder(zones, a, t, c, cfg)
  {
    hide Widens, CheckAppointment, CheckPickup, Catalog, Pricing.Quote, ValidSettings, NewItems;
    assert a.services == b.services by { SameUnlessWidened(a, b); }
    if c.body.NewVisit? && c.body.service in a.services {
      var s := a.services[c.body.service];
      WiderAppointment(zones(c.timezone), a, b, cfg, c.body.service, s.duration, s.buffer, c.body.resource, None,
                       c.body.startsAt, t.offered);
    }
    if c.body.NewOrder? && CheckPickup(zones(c.timezone), a, cfg, c.body.window, None, t.offered).Ok? {
      WiderPickup(zones(c.timezone), a, b, cfg, c.body.window, None, t.offered);
    }
  }

  lemma SameUnlessWidened(a: Store, b: Store)
    requires Widens(a, b)
    ensures b == a.(windows := b.windows, replays := b.replays, queue := b.queue)
  {
  }

  lemma WiderCreated(zones: Zones, a: Store, b: Store, t: Readings, c: Command)
    requires Widens(a, b) && Configured(a) && Configured(b) && c.Create? && Created(zones, a, t, c).Ok?
    ensures Created(zones, b, t, c) == Created(zones, a, t, c)
  {
    hide CreateVisit, CreateOrder, TooMany, UsedIn, Paid, Widens;
    SameUnlessWidened(a, b);
    var m := CreatedModule(c.body);
    var cfg := RequireIntake(a, m, t.owned).value;
    assert RequireIntake(b, m, t.owned) == RequireIntake(a, m, t.owned);
    assert cfg == SettingsOf(a, m) && ValidSettings(cfg);
    WiderBodies(zones, a, b, t, c, cfg);
  }

  lemma WiderRecheck(zones: Zones, a: Store, b: Store, t: Readings, id: Id, r: Record, resource: Id, start: Instant)
    requires Widens(a, b) && r.detail.Visit?
    ensures RecheckVisit(zones, b, t, id, r, SettingsOf(b, Appointments), resource, start) ==
            RecheckVisit(zones, a, t, id, r, SettingsOf(a, Appointments), resource, start)
  {
    hide CheckAppointment, Paid, Widens;
    SameUnlessWidened(a, b);
    WiderAppointment(zones(r.timezone), a, b, SettingsOf(a, Appointments), r.detail.service, r.detail.duration,
                     r.detail.buffer, resource, Some(id), start, t.offered);
  }

  lemma WiderChangedVisit(zones: Zones, a: Store, b: Store, t: Readings, c: Command, r: Record, status: Status)
    requires Widens(a, b) && c.Change? && r.detail.Visit?
    ensures ChangedVisit(zones, b, t, c, r, status) == ChangedVisit(zones, a, t, c, r, status)
  {
    hide RecheckVisit, Widens, NewNotes, NewExpiry, Confirms, Moves;
    SameUnlessWidened(a, b);
    var start := if c.body.Edit? && c.body.newStart.Some? then c.body.newStart.value else r.startsAt;
    var resource := if c.body.Edit? && c.body.newResource.Some? then c.body.newResource.value else r.detail.resource;
    WiderRecheck(zones, a, b, t, c.id, r, resource, start);
  }

  lemma WiderChangedOrder(zones: Zones, a: Store, b: Store, t: Readings, c: Command, r: Record, status: Status)
    requires Widens(a, b) && c.Change? && r.detail.Order? && ChangedOrder(zones, a, t, c, r, status).Ok?
    ensures ChangedOrder(zones, b, t, c, r, status) == ChangedOrder(zones, a, t, c, r, status)
  {
    hide CheckPickup, EditedItems, Paid, Widens;
    SameUnlessWidened(a, b);
    var window := if c.body.Edit? && c.body.newWindow.Some? then c.body.newWindow.value else r.detail.window;
    if CheckPickup(zones(r.timezone), a, SettingsOf(a, Preorders), window, Some(c.id), t.offered).Ok? {
      WiderPickup(zones(r.timezone), a, b, SettingsOf(a, Preorders), window, Some(c.id), t.offered);
    }
  }

  lemma WiderChanged(zones: Zones, a: Store, b: Store, t: Readings, c: Command)
    requires Widens(a, b) && c.Change? && Changed(zones, a, t, c).Ok?
    ensures Changed(zones, b, t, c) == Changed(zones, a, t, c)
  {
    hide ChangedVisit, ChangedOrder, UsedIn, Paid, Widens;
    SameUnlessWidened(a, b);
    var r := a.records[c.id];
    var status := Guarded(a, t, c, r).value;
    assert Guarded(b, t, c, r) == Guarded(a, t, c, r) &&
           Consume(b, c.module_, t.spent) == Consume(a, c.module_, t.spent);
    hide Guarded, Consume;
    if r.detail.Visit? {
      WiderChangedVisit(zones, a, b, t, c, r, status);
    } else {
      WiderChangedOrder(zones, a, b, t, c, r, status);
    }
  }

  /** An acceptance computed under the lock stays valid until the commit. */
  lemma AcceptanceIsStable(zones: Zones, a: Store, b: Store, t: Readings, c: Command)
    requires Widens(a, b) && Configured(a) && Configured(b) && Decide(zones, a, t, c).Accept?
    ensures Decide(zones, b, t, c) == Decide(zones, a, t, c)
  {
    hide Created, Changed, ScopeOf;
    if c.Create? {
      WiderCreated(zones, a, b, t, c);
    } else {
      WiderChanged(zones, a, b, t, c);
    }
  }

  lemma CurrentStaysCurrent(zones: Zones, a: Store, b: Store, clock: Instant, buffer: Buffer)
    requires Widens(a, b) && Configured(a) && Configured(b) && Current(zones, a, clock, buffer)
    ensures Current(zones, b, clock, buffer)
  {
    hide Widens, Decide, Configured;
    SameUnlessWidened(a, b);
    match buffer
    case Granted(c, t, d) => AcceptanceIsStable(zones, a, b, t, c);
    case _ =>
  }

  // ----- Every interleaving is serial -----

  lemma SerialExtends(zones: Zones, init: State, sys: World, s: Step)
    requires Configured(init.store) && Serial(zones, init, sys) && Configured(sys.store) &&
             Legal(State(sys.store, sys.clock), s)
    ensures var next := StepOf(zones, State(sys.store, sys.clock), s);
            LegalRun(zones, init, sys.log + [s]) && Run(zones, init, sys.log + [s]) == next && Configured(next.store)
  {
    hide Legal, StepStore, Tick, Configured;
    Extend(zones, init, sys.log, s);
    StepKeepsConfigured(zones, sys.store, s);
  }

  /** Committing a current buffer is the serial step it stands for. */
  lemma CommitIsAStep(zones: Zones, sys: World, b: Buffer)
    requires Configured(sys.store) && Current(zones, sys.store, sys.clock, b)
    ensures var s := StepOfBuffer(sys.store.queue, b);
            Legal(State(sys.store, sys.clock), s) && Committed(sys.store, b) == StepStore(zones, sys.store, s)
  {
    hide Decide, Apply, DecideExpiry, AfterAdmin, Jobs.Marked;
  }

  lemma FinishKeepsSound(zones: Zones, init: State, sys: World, who: Client)
    requires Configured(init.store) && Sound(zones, init, sys) && Allowed(sys, Finish(who))
    ensures Sound(zones, init, NextWorld(zones, sys, Finish(who)))
  {
    if sys.txns[who].Buffered? {
      var b := sys.txns[who].buffer;
      hide Current, Serial, Configured, Committed, StepOfBuffer, Legal, LegalRun, Run, StepStore, Tick;
      CommitIsAStep(zones, sys, b);
      SerialExtends(zones, init, sys, StepOfBuffer(sys.store.queue, b));
      SerialIs(zones, init, NextWorld(zones, sys, Finish(who)));
    } else {
      hide Configured, LegalRun, Run;
    }
  }

  lemma SerialIs(zones: Zones, init: State, sys: World)
    requires Configured(init.store) && LegalRun(zones, init, sys.log) &&
             Run(zones, init, sys.log) == State(sys.store, sys.clock)
    ensures Serial(zones, init, sys)
  {
  }

  lemma ComputeKeepsSound(zones: Zones, init: State, sys: World, who: Client, t: Readings)
    requires Configured(init.store) && Sound(zones, init, sys) && Allowed(sys, Compute(who, t))
    ensures Sound(zones, init, NextWorld(zones, sys, Compute(who, t)))
  {
    hide Configured, LegalRun, Run, Decide, ExpiryOutcome, AfterAdmin;
    match sys.txns[who].task
    case Serve(c) =>
      if !Decide(zones, sys.store, t, c).Accept? {
        SerialExtends(zones, init, sys, Request(c, t));
      }
    case _ =>
  }

  lemma AsideKeepsSound(zones: Zones, init: State, sys: World, s: Step)
    requires Configured(init.store) && Sound(zones, init, sys) && Allowed(sys, Aside(s))
    ensures Sound(zones, init, NextWorld(zones, sys, Aside(s)))
  {
    hide Configured, LegalRun, Run, Legal, StepStore, Current, Widens;
    SerialExtends(zones, init, sys, s);
    UnlockedWidens(zones, sys.store, s);
    if sys.holder.Some? && sys.txns[sys.holder.value].Buffered? {
      CurrentStaysCurrent(zones, sys.store, StepStore(zones, sys.store, s), sys.clock,
                          sys.txns[sys.holder.value].buffer);
    }
  }

  lemma MicroKeepsSound(zones: Zones, init: State, sys: World, x: Micro)
    requires Configured(init.store) && Sound(zones, init, sys) && Allowed(sys, x)
    ensures Sound(zones, init, NextWorld(zones, sys, x))
  {
    match x
    case Compute(who, t) =>
      hide Sound, NextWorld, Allowed, Configured;
      ComputeKeepsSound(zones, init, sys, who, t);
    case Finish(who) =>
      hide Sound, NextWorld, Allowed, Configured;
      FinishKeepsSound(zones, init, sys, who);
    case Aside(s) =>
      hide Sound, NextWorld, Allowed, Configured;
      AsideKeepsSound(zones, init, sys, s);
    case _ => hide Configured, LegalRun, Run, Current;
  }

  function Start(init: State): World {
    World(init.store, init.clock, None, map[], [])
  }

  /** The systems that an interleaving of allowed micro-steps can produce. */
  ghost predicate Interleaving(zones: Zones, init: State, micros: seq<Micro>, states: seq<World>)
    requires Configured(init.store)
  {
    && |states| == |micros| + 1 && states[0] == Start(init)
    && (forall i :: 0 <= i < |micros| ==>
          Configured(states[i].store) && Allowed(states[i], micros[i]) &&
          states[i + 1] == NextWorld(zones, states[i], micros[i]))
  }

  /** Main result: at every moment of every interleaving at most one client is past the lock, and the
      store is the result of a legal serial run of whole transactions. */
  lemma {:induction false} EveryInterleavingIsSerial(zones: Zones, init: State, micros: seq<Micro>,
                                                     states: seq<World>, i: nat)
    requires Configured(init.store) && Interleaving(zones, init, micros, states) && i <= |micros|
    ensures Sound(zones, init, states[i])
    ensures forall a, b ::
              (a in states[i].txns && b in states[i].txns && !states[i].txns[a].Waiting? &&
               !states[i].txns[b].Waiting?) ==> a == b
  {
    hide Configured, LegalRun, Run, Current, NextWorld, Allowed;
    if i > 0 {
      EveryInterleavingIsSerial(zones, init, micros, states, i - 1);
      assert states[i - 1 + 1] == NextWorld(zones, states[i - 1], micros[i - 1]);
      MicroKeepsSound(zones, init, states[i - 1], micros[i - 1]);
    } else {
      StartIsSound(zones, init);
    }
  }

  lemma StartIsSound(zones: Zones, init: State)
    requires Configured(init.store)
    ensures Sound(zones, init, Start(init))
  {
  }

  /** So every invariant of the serial runs holds in the middle of every interleaving. */
  lemma InterleavingsKeepInv(zones: Zones, sub: Subscription, now: Instant, micros: seq<Micro>,
                             states: seq<World>, i: nat)
    requires Configured(Fresh(sub, now).store)
    requires Interleaving(zones, Fresh(sub, now), micros, states) && i <= |micros|
    ensures Inv(State(states[i].store, states[i].clock))
    ensures NoDoubleBooking(states[i].store.records)
  {
    hide Run, LegalRun, Configured, Fresh, Current, Exclusive, Rows, NoDoubleBooking;
    EveryInterleavingIsSerial(zones, Fresh(sub, now), micros, states, i);
    RunKeepsInv(zones, sub, now, states[i].log);
  }
}
