/** Runs of one business: requests, expiry, administration, the worker, and writes without the lock.

    Steps marked as locked hold the business lock from decision to commit, so a run is a sequence of
    whole transactions; Locking.dfy shows that interleaved transactions amount to such a run. */
module Machine {
  import opened Prelude
  import opened Records
  import opened Operations
  import Jobs

  datatype Admin =
    | Configure(module_: Module, settings: Settings)
    | SaveService(id: Id, service: Service)
    | SaveResource(id: Id, resource: Resource)
    | Bill(sub: Subscription)

  datatype Step =
    | Request(command: Command, t: Readings)
    | Expiry(module_: Module, id: Id, at: Instant, fault: bool, hand: Option<(Jobs.Worker, Id)>)
    | Administer(admin: Admin)
    | OpenWindow(id: Id, window: Window)
    | CleanReplays(at: Instant)
    | Work(job: Jobs.Step)

  /** `clock` is the last reading taken under the lock. */
  datatype State = State(store: Store, clock: Instant)

  function AfterAdmin(st: Store, a: Admin): Store {
    match a
    case Configure(m, s) => if ValidSettings(s) then st.(settings := st.settings[m := s]) else st
    case SaveService(id, s) => st.(services := st.services[id := s])
    case SaveResource(id, r) => st.(resources := st.resources[id := r])
    case Bill(sub) => st.(sub := sub)
  }

  /** Windows are unique by their times and never change. */
  function AfterOpening(st: Store, id: Id, w: Window): Store {
    if id in st.windows || (exists k :: k in st.windows && st.windows[k] == w) then st
    else st.(windows := st.windows[id := w])
  }

  function AfterCleaning(st: Store, at: Instant): Store {
    st.(replays := map k | k in st.replays && at <= st.replays[k].expiresAt :: st.replays[k])
  }

  ghost function AfterRequest(zones: Zones, st: Store, c: Command, t: Readings): Store
    requires Configured(st)
  {
    AfterDecision(st, Decide(zones, st, t, c))
  }

  function AfterDecision(st: Store, d: Decision): Store {
    if d.Accept? then Apply(st, d.writes) else st
  }

  /** The expiry transaction, and what the worker that called it then knows. */
  function ExpiryOutcome(st: Store, m: Module, id: Id, at: Instant, fault: bool): Result<Option<Writes>> {
    if fault then Err(Internal) else DecideExpiry(st, m, id, at)
  }

  function Lapsed(st: Store, m: Module, id: Id, at: Instant, fault: bool): Store {
    var d := ExpiryOutcome(st, m, id, at, fault);
    if d.Ok? && d.value.Some? then Apply(st, d.value.value) else st
  }

  function Reported(st: Store, hand: Option<(Jobs.Worker, Id)>, ok: bool): Store {
    if hand.Some? then st.(queue := Jobs.Marked(st.queue, hand.value.0, hand.value.1, ok)) else st
  }

  function AfterExpiry(st: Store, m: Module, id: Id, at: Instant, fault: bool, hand: Option<(Jobs.Worker, Id)>): Store {
    Reported(Lapsed(st, m, id, at, fault), hand, ExpiryOutcome(st, m, id, at, fault).Ok?)
  }

  ghost function StepStore(zones: Zones, st: Store, s: Step): Store
    requires Configured(st)
  {
    match s
    case Request(c, t) => AfterRequest(zones, st, c, t)
    case Expiry(m, id, at, fault, hand) => AfterExpiry(st, m, id, at, fault, hand)
    case Administer(a) => AfterAdmin(st, a)
    case OpenWindow(id, w) => AfterOpening(st, id, w)
    case CleanReplays(at) => AfterCleaning(st, at)
    case Work(j) => st.(queue := Jobs.Next(st.queue, j))
  }

  function Tick(clock: Instant, s: Step): Instant {
    match s
    case Request(_, t) => t.shown
    case Expiry(_, _, at, _, _) => at
    case _ => clock
  }

  ghost function StepOf(zones: Zones, sys: State, s: Step): State
    requires Configured(sys.store)
  {
    State(StepStore(zones, sys.store, s), Tick(sys.clock, s))
  }

  predicate CallsExpiry(q: Jobs.Queue, w: Jobs.Worker, id: Id) {
    (w, id) in q.hands && q.hands[(w, id)].payload.ExpireRequest?
  }

  /** What a step may be: lock readings move forward, a worker acts on a copy after reading it, and
      only expiry transactions handle expiry messages. Anybody may send jobs, timers included. */
  predicate Legal(sys: State, s: Step) {
    match s
    case Request(c, t) => Ordered(t) && sys.clock <= t.seen
    case Expiry(m, id, at, fault, hand) =>
      sys.clock <= at &&
      (hand.Some? ==>
         CallsExpiry(sys.store.queue, hand.value.0, hand.value.1) &&
         var h := sys.store.queue.hands[hand.value];
         h.payload == Jobs.ExpireRequest(id, m.Preorders?) && h.readAt <= at)
    case Work(j) => Jobs.Timely(sys.store.queue, j) && (j.Handle? ==> !CallsExpiry(sys.store.queue, j.worker, j.id))
    case _ => true
  }

  lemma RequestKeepsSettings(zones: Zones, st: Store, c: Command, t: Readings)
    requires Configured(st)
    ensures AfterRequest(zones, st, c, t).settings == st.settings
  {
    hide Decide;
  }

  lemma ExpiryKeepsSettings(st: Store, m: Module, id: Id, at: Instant, fault: bool, hand: Option<(Jobs.Worker, Id)>)
    ensures AfterExpiry(st, m, id, at, fault, hand).settings == st.settings
  {
  }

  lemma StepKeepsConfigured(zones: Zones, st: Store, s: Step)
    requires Configured(st)
    ensures Configured(StepStore(zones, st, s))
  {
    hide AfterRequest, AfterExpiry, AfterAdmin;
    match s
    case Request(c, t) => RequestKeepsSettings(zones, st, c, t);
    case Expiry(m, id, at, fault, hand) => ExpiryKeepsSettings(st, m, id, at, fault, hand);
    case Administer(a) => AdminKeepsConfigured(st, a);
    case _ =>
  }

  lemma AdminKeepsConfigured(st: Store, a: Admin)
    requires Configured(st)
    ensures Configured(AfterAdmin(st, a))
  {
  }

  /** A run, with its legality; the settings stay valid along it. */
  ghost function Run(zones: Zones, sys: State, steps: seq<Step>): (r: State)
    requires Configured(sys.store)
    ensures Configured(r.store)
  {
    if steps == [] then sys
    else
      var before := Run(zones, sys, steps[..|steps| - 1]);
      StepKeepsConfigured(zones, before.store, steps[|steps| - 1]);
      StepOf(zones, before, steps[|steps| - 1])
  }

  ghost predicate LegalRun(zones: Zones, sys: State, steps: seq<Step>)
    requires Configured(sys.store)
  {
    steps == [] ||
    (LegalRun(zones, sys, steps[..|steps| - 1]) &&
     Legal(Run(zones, sys, steps[..|steps| - 1]), steps[|steps| - 1]))
  }

  /** A business with a plan and nothing else yet. */
  function Fresh(sub: Subscription, now: Instant): State {
    State(Store(sub, map[], map[], map[], map[], map[], map[], map[], map[], Jobs.EMPTY), now)
  }

  lemma Extend(zones: Zones, sys: State, steps: seq<Step>, s: Step)
    requires Configured(sys.store) && LegalRun(zones, sys, steps) && Legal(Run(zones, sys, steps), s)
    ensures LegalRun(zones, sys, steps + [s])
    ensures Run(zones, sys, steps + [s]) == StepOf(zones, Run(zones, sys, steps), s)
  {
    assert (steps + [s])[..|steps|] == steps;
  }

  lemma {:induction false} RunAppends(zones: Zones, sys: State, a: seq<Step>, b: seq<Step>)
    requires Configured(sys.store)
    ensures Run(zones, sys, a + b) == Run(zones, Run(zones, sys, a), b)
    ensures LegalRun(zones, sys, a + b) <==> LegalRun(zones, sys, a) && LegalRun(zones, Run(zones, sys, a), b)
  {
    hide StepOf, Legal, Configured;
    if b == [] {
      assert a + b == a;
    } else {
      var n := |b| - 1;
      RunAppends(zones, sys, a, b[..n]);
      assert (a + b)[..|a + b| - 1] == a + b[..n];
    }
  }
}
