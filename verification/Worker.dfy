/** The worker: polls the queue, sweeps lapsed requests, and pages through billing customers. */
module Worker {
  import opened Prelude
  import opened Records
  import opened Operations
  import opened Machine
  import opened Database
  import opened QueueRuns
  import Jobs

  const BATCH: nat := 10
  const DUE_BATCH: nat := 100

  const DEADLINE: int := 45 * SECOND

  /** What happens to one message: when it is handled and whether the handler fails for outside reasons; when the
      statement that settles it is sent, when that takes effect, if it does, and whether the worker hears of it. */
  datatype Attempt = Attempt(at: Instant, fault: bool, sent: Instant, settled: Option<Instant>, heard: bool)

  /** Once the poll's context has expired every call fails. */
  function UnderDeadline(a: Attempt, deadline: Instant): Attempt {
    a.(fault := a.fault || deadline <= a.at, settled := if deadline <= a.sent then None else a.settled)
  }

  function AllUnderDeadline(attempts: seq<Attempt>, deadline: Instant): (r: seq<Attempt>)
    ensures |r| == |attempts| && forall i :: 0 <= i < |r| ==> r[i] == UnderDeadline(attempts[i], deadline)
  {
    seq(|attempts|, i requires 0 <= i < |attempts| => UnderDeadline(attempts[i], deadline))
  }

  /** The poll goes on to the next message. */
  predicate GoesOn(a: Attempt) {
    a.settled.Some? && a.heard
  }

  function Ended(a: Attempt): Instant {
    a.settled.GetOr(a.sent)
  }

  function Kind(preorder: bool): Module {
    if preorder then Preorders else Appointments
  }

  function HandleStep(w: Jobs.Worker, id: Id, payload: Jobs.Payload, a: Attempt): Step {
    match payload
    case ExpireRequest(record, preorder) => Expiry(Kind(preorder), record, a.at, a.fault, Some((w, id)))
    case ReconcileSubscription(_) => Work(Jobs.Handle(w, id, a.at, !a.fault))
    case Unrecognised => Work(Jobs.Handle(w, id, a.at, false))
  }

  /** A message is handled and then, unless the worker fails in between, settled. */
  function MessageStep(w: Jobs.Worker, m: (Id, Jobs.Payload), a: Attempt): seq<Step> {
    [HandleStep(w, m.0, m.1, a)] + (if a.settled.Some? then [Work(Jobs.Settle(w, m.0, a.settled.value))] else [])
  }

  function MessageSteps(w: Jobs.Worker, messages: seq<(Id, Jobs.Payload)>, attempts: seq<Attempt>): seq<Step>
    requires |messages| == |attempts|
  {
    if messages == [] then []
    else
      var n := |messages| - 1;
      MessageSteps(w, messages[..n], attempts[..n]) + MessageStep(w, messages[n], attempts[n])
  }

  predicate Distinct(ids: seq<Id>) {
    forall i, j :: 0 <= i < j < |ids| ==> ids[i] != ids[j]
  }

  /** The clock moves forward from message to message, and no settling statement takes effect more than
      `lag` after it was sent. */
  predicate Forward(from: Instant, attempts: seq<Attempt>, lag: int) {
    && (forall i :: 0 <= i < |attempts| ==>
          from <= attempts[i].at <= attempts[i].sent <= Ended(attempts[i]) <= attempts[i].sent + lag)
    && (forall i, j :: 0 <= i < j < |attempts| ==> Ended(attempts[i]) <= attempts[j].at)
  }

  /** The copies of these messages that the worker holds. */
  ghost predicate Held(q: Jobs.Queue, w: Jobs.Worker, messages: seq<(Id, Jobs.Payload)>, at: Instant) {
    forall i :: 0 <= i < |messages| ==> Holds(q, w, messages[i], at)
  }

  predicate Holds(q: Jobs.Queue, w: Jobs.Worker, m: (Id, Jobs.Payload), at: Instant) {
    (w, m.0) in q.hands && q.hands[(w, m.0)].payload == m.1 && q.hands[(w, m.0)].readAt == at
  }

  predicate DistinctMessages(messages: seq<(Id, Jobs.Payload)>) {
    forall i, j :: 0 <= i < j < |messages| ==> messages[i].0 != messages[j].0
  }

  function ReadSteps(w: Jobs.Worker, picks: seq<Id>, at: Instant): (r: seq<Step>)
    ensures |r| == |picks|
  {
    if picks == [] then [] else ReadSteps(w, picks[..|picks| - 1], at) + [Work(Jobs.Read(w, picks[|picks| - 1], at))]
  }

  lemma OneStep(zones: Zones, sys: State, s: Step)
    requires Configured(sys.store)
    ensures Run(zones, sys, [s]) == StepOf(zones, sys, s)
    ensures LegalRun(zones, sys, [s]) <==> Legal(sys, s)
  {
    assert [s][..0] == [];
    hide StepOf, Legal;
  }

  /** The table after these legal steps, from this clock to that one. */
  ghost predicate Amounts(zones: Zones, before: Store, clock: Instant, steps: seq<Step>, after: Store, later: Instant) {
    Configured(before) && LegalRun(zones, State(before, clock), steps) &&
    Run(zones, State(before, clock), steps) == State(after, later)
  }

  lemma Combine(zones: Zones, x: Store, t: Instant, a: seq<Step>, y: Store, u: Instant, b: seq<Step>, z: Store,
                v: Instant)
    requires Amounts(zones, x, t, a, y, u) && Amounts(zones, y, u, b, z, v)
    ensures Amounts(zones, x, t, a + b, z, v)
  {
    hide Run, LegalRun, Configured;
    RunAppends(zones, State(x, t), a, b);
  }

  lemma Single(zones: Zones, x: Store, t: Instant, s: Step)
    requires Configured(x) && Legal(State(x, t), s)
    ensures var y := StepOf(zones, State(x, t), s); Amounts(zones, x, t, [s], y.store, y.clock)
  {
    hide StepOf, Legal, Configured;
    OneStep(zones, State(x, t), s);
  }

  /** The reads and settlements of these steps follow the queue's clock, from `since` to `until` at the latest,
      and every settlement takes effect less than `limit` after its copy was read. */
  ghost predicate InTime(zones: Zones, x: Store, t: Instant, steps: seq<Step>, since: Instant, limit: int,
                         until: Instant)
    requires Configured(x)
  {
    var jobs := QueueSteps(zones, State(x, t), steps);
    Jobs.WithinRun(x.queue, jobs, since, limit) && Jobs.Clocked(jobs, since) <= until
  }

  lemma CombineInTime(zones: Zones, x: Store, t: Instant, a: seq<Step>, y: Store, u: Instant, b: seq<Step>,
                      since: Instant, limit: int, early: Instant, middle: Instant, until: Instant)
    requires Amounts(zones, x, t, a, y, u) && Configured(y) && early <= middle
    requires InTime(zones, x, t, a, since, limit, early) && InTime(zones, y, u, b, middle, limit, until)
    ensures InTime(zones, x, t, a + b, since, limit, until)
  {
    hide Run, LegalRun, Configured, QueueSteps, Jobs.Run, Jobs.WithinRun, Jobs.Clocked;
    var first, second := QueueSteps(zones, State(x, t), a), QueueSteps(zones, State(y, u), b);
    QueueStepsAppend(zones, State(x, t), a, b);
    QueueIsARun(zones, State(x, t), a);
    Jobs.EarlierStart(y.queue, second, Jobs.Clocked(first, since), middle, limit);
    Jobs.RunAppends(x.queue, first, second, since, limit);
    assert Run(zones, State(x, t), a) == State(y, u);
    assert QueueSteps(zones, State(x, t), a + b) == first + second;
  }

  lemma SingleInTime(zones: Zones, x: Store, t: Instant, s: Step, since: Instant, limit: int, until: Instant)
    requires Configured(x) && since <= until
    requires var j := JobStep(zones, x, s);
             j.Some? ==> Jobs.Within(x.queue, j.value, since, limit) && Jobs.ClockAfter(j.value, since) <= until
    ensures InTime(zones, x, t, [s], since, limit, until)
  {
    hide JobStep, QueueSteps, Configured, Jobs.Within, Jobs.ClockAfter, Jobs.WithinRun, Jobs.Clocked;
    OneQueueStep(zones, State(x, t), s);
    var j := JobStep(zones, x, s);
    if j.Some? {
      Jobs.OneWithin(x.queue, j.value, since, limit);
    } else {
      Jobs.NoneWithin(x.queue, since, limit);
    }
  }

  /** Both: legal steps from one table to the other whose settlements are in time. */
  ghost predicate Polled(zones: Zones, x: Store, t: Instant, steps: seq<Step>, y: Store, u: Instant,
                         since: Instant, limit: int, until: Instant)
  {
    Amounts(zones, x, t, steps, y, u) && InTime(zones, x, t, steps, since, limit, until) && Configured(y)
  }

  lemma CombinePolled(zones: Zones, x: Store, t: Instant, a: seq<Step>, y: Store, u: Instant, b: seq<Step>,
                      z: Store, v: Instant, since: Instant, limit: int, early: Instant, middle: Instant,
                      until: Instant)
    requires Polled(zones, x, t, a, y, u, since, limit, early) && early <= middle
    requires Polled(zones, y, u, b, z, v, middle, limit, until)
    ensures Polled(zones, x, t, a + b, z, v, since, limit, until)
  {
    hide Amounts, InTime, Configured;
    Combine(zones, x, t, a, y, u, b, z, v);
    CombineInTime(zones, x, t, a, y, u, b, since, limit, early, middle, until);
  }

  lemma PolledLater(zones: Zones, x: Store, t: Instant, steps: seq<Step>, y: Store, u: Instant, since: Instant,
                    limit: int, until: Instant, later: Instant)
    requires Polled(zones, x, t, steps, y, u, since, limit, until) && until <= later
    ensures Polled(zones, x, t, steps, y, u, since, limit, later)
  {
    hide Amounts, Configured;
  }

  lemma Nothing(zones: Zones, x: Store, t: Instant)
    requires Configured(x)
    ensures Amounts(zones, x, t, [], x, t)
  {
  }

  lemma NothingPolled(zones: Zones, x: Store, t: Instant, since: Instant, limit: int)
    requires Configured(x)
    ensures Polled(zones, x, t, [], x, t, since, limit, since)
  {
    hide Configured;
  }

  predicate Untouched(a: Jobs.Queue, b: Jobs.Queue, id: Id) {
    (id in a.live <==> id in b.live) && (id in a.live ==> a.live[id] == b.live[id])
  }

  predicate Visible(q: Jobs.Queue, id: Id, at: Instant) {
    id in q.live && q.live[id].visibleAt <= at
  }

  lemma TakeFacts(q: Jobs.Queue, w: Jobs.Worker, id: Id, at: Instant)
    ensures var r := Jobs.Take(q, w, id, at);
            && (forall k :: k in q.hands && k != (w, id) ==> k in r.hands && r.hands[k] == q.hands[k])
            && (forall i :: i != id ==> Untouched(q, r, i))
            && (Visible(q, id, at) ==> Holds(r, w, (id, q.live[id].payload), at))
  {
  }

  lemma QueueKeepsConfigured(st: Store, q: Jobs.Queue)
    requires Configured(st)
    ensures Configured(st.(queue := q))
  {
  }

  method ReadJob(ghost zones: Zones, db: Database, w: Jobs.Worker, id: Id, at: Instant, ghost clock: Instant,
                 ghost limit: int)
    returns (m: Option<(Id, Jobs.Payload)>)
    requires Configured(db.Snapshot())
    modifies db`queue
    ensures db.queue == Jobs.Take(old(db.queue), w, id, at)
    ensures m == if Visible(old(db.queue), id, at) then Some((id, old(db.queue).live[id].payload)) else None
    ensures Polled(zones, old(db.Snapshot()), clock, [Work(Jobs.Read(w, id, at))], db.Snapshot(), clock, at, limit, at)
  {
    hide Amounts, InTime;
    QueueKeepsConfigured(db.Snapshot(), Jobs.Take(db.queue, w, id, at));
    m := if Visible(db.queue, id, at) then Some((id, db.queue.live[id].payload)) else None;
    ghost var st := db.Snapshot();
    db.queue := Jobs.Take(db.queue, w, id, at);
    Single(zones, st, clock, Work(Jobs.Read(w, id, at)));
    SingleInTime(zones, st, clock, Work(Jobs.Read(w, id, at)), at, limit, at);
  }

  lemma NothingPicked(q: Jobs.Queue, w: Jobs.Worker, picks: seq<Id>, at: Instant)
    ensures ReadSteps(w, picks[..0], at) == [] && Picked(q, picks[..0], at) == []
  {
  }

  lemma OneMorePick(q: Jobs.Queue, w: Jobs.Worker, picks: seq<Id>, at: Instant, i: nat)
    requires i < |picks|
    ensures ReadSteps(w, picks[..i + 1], at) == ReadSteps(w, picks[..i], at) + [Work(Jobs.Read(w, picks[i], at))]
    ensures Picked(q, picks[..i + 1], at) ==
            Picked(q, picks[..i], at) + (if Visible(q, picks[i], at) then [(picks[i], q.live[picks[i]].payload)]
                                         else [])
  {
    assert picks[..i + 1][..i] == picks[..i];
  }

  /** Up to ten visible messages, each hidden for a minute. */
  method ReadJobs(ghost zones: Zones, db: Database, w: Jobs.Worker, picks: seq<Id>, at: Instant, ghost clock: Instant,
                  ghost limit: int)
    returns (messages: seq<(Id, Jobs.Payload)>)
    requires Distinct(picks) && |picks| <= BATCH && Configured(db.Snapshot())
    modifies db`queue
    ensures Polled(zones, old(db.Snapshot()), clock, ReadSteps(w, picks, at), db.Snapshot(), clock, at, limit, at)
    ensures Held(db.queue, w, messages, at) && DistinctMessages(messages)
    ensures messages == Picked(old(db.queue), picks, at)
  {
    hide Polled, Jobs.Take, Configured, Picked, ReadSteps;
    messages := [];
    var i := 0;
    NothingPolled(zones, db.Snapshot(), clock, at, limit);
    NothingPicked(db.queue, w, picks, at);
    while i < |picks|
      invariant 0 <= i <= |picks|
      invariant db.Snapshot() == old(db.Snapshot()).(queue := db.queue) && Configured(db.Snapshot())
      invariant Polled(zones, old(db.Snapshot()), clock, ReadSteps(w, picks[..i], at), db.Snapshot(), clock, at,
                       limit, at)
      invariant Held(db.queue, w, messages, at) && DistinctMessages(messages)
      invariant forall j :: 0 <= j < |messages| ==> messages[j].0 in picks[..i]
      invariant forall j :: i <= j < |picks| ==> Untouched(old(db.queue), db.queue, picks[j])
      invariant messages == Picked(old(db.queue), picks[..i], at)
    {
      ghost var st := db.Snapshot();
      TakeFacts(db.queue, w, picks[i], at);
      assert Untouched(old(db.queue), db.queue, picks[i]);
      ghost var was := db.queue;
      var m := ReadJob(zones, db, w, picks[i], at, clock, limit);
      QueueKeepsConfigured(st, db.queue);
      forall j | i < j < |picks|
        ensures Untouched(old(db.queue), db.queue, picks[j])
      {
        assert Untouched(old(db.queue), was, picks[j]) && Untouched(was, db.queue, picks[j]);
      }
      CombinePolled(zones, old(db.Snapshot()), clock, ReadSteps(w, picks[..i], at), st, clock,
                    [Work(Jobs.Read(w, picks[i], at))], db.Snapshot(), clock, at, limit, at, at, at);
      OneMorePick(old(db.queue), w, picks, at, i);
      if m.Some? {
        messages := messages + [m.value];
      }
      i := i + 1;
    }
    assert picks[..i] == picks;
  }

  /** The visible messages among these, in order. */
  function Picked(q: Jobs.Queue, picks: seq<Id>, at: Instant): seq<(Id, Jobs.Payload)> {
    if picks == [] then []
    else
      var before, id := Picked(q, picks[..|picks| - 1], at), picks[|picks| - 1];
      if Visible(q, id, at) then before + [(id, q.live[id].payload)] else before
  }

  /** The switch on the payload type. */
  method Dispatch(db: Database, payload: Jobs.Payload, a: Attempt) returns (ok: bool)
    modifies db
    ensures db.queue == old(db.queue)
    ensures match payload
            case ExpireRequest(record, preorder) =>
              db.Snapshot() == Lapsed(old(db.Snapshot()), Kind(preorder), record, a.at, a.fault) &&
              ok == ExpiryOutcome(old(db.Snapshot()), Kind(preorder), record, a.at, a.fault).Ok?
            case ReconcileSubscription(_) => db.Snapshot() == old(db.Snapshot()) && ok == !a.fault
            case Unrecognised => db.Snapshot() == old(db.Snapshot()) && !ok
  {
    match payload
    case ExpireRequest(record, preorder) =>
      var r := db.Expire(Kind(preorder), record, a.at, a.fault);
      ok := r.Ok?;
    case ReconcileSubscription(_) => ok := !a.fault;
    case Unrecognised => ok := false;
  }

  /** The handler runs and the worker notes its outcome. */
  method Handle(ghost zones: Zones, db: Database, w: Jobs.Worker, m: (Id, Jobs.Payload), a: Attempt,
                ghost readAt: Instant, ghost limit: int, ghost clock: Instant)
    returns (ghost later: Instant)
    requires Configured(db.Snapshot()) && Holds(db.queue, w, m, readAt) && readAt <= a.at && clock <= a.at
    modifies db
    ensures clock <= later <= a.at && Configured(db.Snapshot())
    ensures Polled(zones, old(db.Snapshot()), clock, [HandleStep(w, m.0, m.1, a)], db.Snapshot(), later, a.at,
                   limit, a.at)
    ensures Holds(db.queue, w, m, readAt) && OthersKept(old(db.queue), db.queue, (w, m.0))
  {
    hide Amounts, InTime, Lapsed, ExpiryOutcome, StepStore;
    ghost var before := db.Snapshot();
    var ok := Dispatch(db, m.1, a);
    db.queue := Jobs.Marked(db.queue, w, m.0, ok);
    ghost var s := HandleStep(w, m.0, m.1, a);
    later := Tick(clock, s);
    HandledIsAStep(zones, before, clock, w, m, a, db.Snapshot());
    Single(zones, before, clock, s);
    SingleInTime(zones, before, clock, s, a.at, limit, a.at);
    StepKeepsConfigured(zones, before, s);
  }

  predicate OthersKept(a: Jobs.Queue, b: Jobs.Queue, k: (Jobs.Worker, Id)) {
    forall l :: l in a.hands && l != k ==> l in b.hands && b.hands[l] == a.hands[l]
  }

  /** The statement that archives, retries or fails the message. */
  method Settle(ghost zones: Zones, db: Database, w: Jobs.Worker, m: (Id, Jobs.Payload), at: Instant,
                ghost readAt: Instant, ghost limit: int, ghost since: Instant, ghost clock: Instant)
    requires Configured(db.Snapshot()) && Holds(db.queue, w, m, readAt) && since <= at && readAt <= at < readAt + limit
    modifies db`queue
    ensures Polled(zones, old(db.Snapshot()), clock, [Work(Jobs.Settle(w, m.0, at))], db.Snapshot(), clock, since,
                   limit, at)
    ensures db.queue == Jobs.Settled(old(db.queue), w, m.0, at)
    ensures OthersKept(old(db.queue), db.queue, (w, m.0))
  {
    hide Amounts, InTime, Jobs.Settled;
    ghost var before := db.Snapshot();
    db.queue := Jobs.Settled(db.queue, w, m.0, at);
    QueueKeepsConfigured(before, db.queue);
    SettleKeepsHands(before.queue, w, m.0, at);
    WorkIsQueue(zones, before, Jobs.Settle(w, m.0, at));
    Single(zones, before, clock, Work(Jobs.Settle(w, m.0, at)));
    SingleInTime(zones, before, clock, Work(Jobs.Settle(w, m.0, at)), since, limit, at);
  }

  /** Handle one message, then archive, retry or fail it unless the worker is cut off in between. */
  method HandleMessage(ghost zones: Zones, db: Database, w: Jobs.Worker, m: (Id, Jobs.Payload), a: Attempt,
                       ghost readAt: Instant, ghost limit: int, ghost clock: Instant)
    returns (ghost later: Instant)
    requires Configured(db.Snapshot()) && Holds(db.queue, w, m, readAt) && readAt <= a.at && clock <= a.at
    requires a.at <= Ended(a) && (a.settled.Some? ==> Ended(a) < readAt + limit)
    modifies db
    ensures clock <= later <= a.at
    ensures Polled(zones, old(db.Snapshot()), clock, MessageStep(w, m, a), db.Snapshot(), later, a.at, limit, Ended(a))
    ensures OthersKept(old(db.queue), db.queue, (w, m.0))
  {
    hide Polled, Jobs.Settled, Configured;
    ghost var before, s := db.Snapshot(), HandleStep(w, m.0, m.1, a);
    later := Handle(zones, db, w, m, a, readAt, limit, clock);
    if a.settled.Some? {
      ghost var handled, settle := db.Snapshot(), Work(Jobs.Settle(w, m.0, a.settled.value));
      Settle(zones, db, w, m, a.settled.value, readAt, limit, a.at, later);
      CombinePolled(zones, before, clock, [s], handled, later, [settle], db.Snapshot(), later, a.at, limit, a.at,
                    a.at, Ended(a));
      assert MessageStep(w, m, a) == [s] + [settle];
    } else {
      assert MessageStep(w, m, a) == [s] + [] == [s];
      PolledLater(zones, before, clock, [s], db.Snapshot(), later, a.at, limit, a.at, Ended(a));
    }
  }

  lemma WorkIsQueue(zones: Zones, st: Store, j: Jobs.Step)
    requires Configured(st)
    ensures StepStore(zones, st, Work(j)) == st.(queue := Jobs.Next(st.queue, j))
  {
    hide AfterRequest, AfterExpiry;
  }

  /** The dispatch and the mark it leaves on the held copy are the handling step. */
  lemma HandledIsAStep(zones: Zones, before: Store, clock: Instant, w: Jobs.Worker, m: (Id, Jobs.Payload), a: Attempt,
                       handled: Store)
    requires Configured(before)
    requires match m.1
             case ExpireRequest(record, preorder) =>
               var lapsed := Lapsed(before, Kind(preorder), record, a.at, a.fault);
               var ok := ExpiryOutcome(before, Kind(preorder), record, a.at, a.fault).Ok?;
               handled == lapsed.(queue := Jobs.Marked(before.queue, w, m.0, ok)) && lapsed.queue == before.queue
             case ReconcileSubscription(_) => handled == before.(queue := Jobs.Marked(before.queue, w, m.0, !a.fault))
             case Unrecognised => handled == before.(queue := Jobs.Marked(before.queue, w, m.0, false))
    ensures var s := HandleStep(w, m.0, m.1, a);
            StepOf(zones, State(before, clock), s) == State(handled, Tick(clock, s))
  {
    hide Lapsed, ExpiryOutcome, Jobs.Marked, AfterRequest, Decide;
  }

  lemma SettleKeepsHands(q: Jobs.Queue, w: Jobs.Worker, id: Id, at: Instant)
    ensures forall k :: k in q.hands && k != (w, id) ==>
              k in Jobs.Settled(q, w, id, at).hands && Jobs.Settled(q, w, id, at).hands[k] == q.hands[k]
  {
  }

  lemma OneMoreMessage(w: Jobs.Worker, messages: seq<(Id, Jobs.Payload)>, attempts: seq<Attempt>, n: nat)
    requires n < |messages| <= |attempts|
    ensures MessageSteps(w, messages[..n + 1], attempts[..n + 1]) ==
            MessageSteps(w, messages[..n], attempts[..n]) + MessageStep(w, messages[n], attempts[n])
  {
    assert messages[..n + 1][..n] == messages[..n] && attempts[..n + 1][..n] == attempts[..n];
  }

  lemma PickedFits(q: Jobs.Queue, picks: seq<Id>, at: Instant)
    ensures |Picked(q, picks, at)| <= |picks|
  {
  }

  /** What a poll that read at `at` and handled these messages did. */
  function PollSteps(w: Jobs.Worker, picks: seq<Id>, at: Instant, messages: seq<(Id, Jobs.Payload)>,
                     attempts: seq<Attempt>): seq<Step>
    requires |messages| == |attempts|
  {
    ReadSteps(w, picks, at) + MessageSteps(w, messages, attempts)
  }

  /** The next message of a poll. */
  method HandleNext(ghost zones: Zones, db: Database, w: Jobs.Worker, picks: seq<Id>, at: Instant,
                    messages: seq<(Id, Jobs.Payload)>, tries: seq<Attempt>, done: nat, ghost start: Store,
                    ghost clock: Instant, ghost from: Instant, ghost limit: int, ghost until: Instant)
    returns (ghost later: Instant)
    requires done < |messages| <= |tries| && DistinctMessages(messages) && Configured(db.Snapshot())
    requires forall i :: done <= i < |messages| ==> Holds(db.queue, w, messages[i], at)
    requires at <= tries[done].at && from <= tries[done].at && until <= tries[done].at
    requires tries[done].at <= Ended(tries[done]) && (tries[done].settled.Some? ==> Ended(tries[done]) < at + limit)
    requires Polled(zones, start, clock, PollSteps(w, picks, at, messages[..done], tries[..done]), db.Snapshot(), from,
                    at, limit, until)
    modifies db
    ensures Configured(db.Snapshot()) && later <= tries[done].at
    ensures forall i :: done < i < |messages| ==> Holds(db.queue, w, messages[i], at)
    ensures Polled(zones, start, clock, PollSteps(w, picks, at, messages[..done + 1], tries[..done + 1]),
                   db.Snapshot(), later, at, limit, Ended(tries[done]))
  {
    hide Polled, Configured, PollSteps, MessageStep;
    var m, a := messages[done], tries[done];
    ghost var st, so_far := db.Snapshot(), PollSteps(w, picks, at, messages[..done], tries[..done]);
    later := HandleMessage(zones, db, w, m, a, at, limit, from);
    ghost var steps := MessageStep(w, m, a);
    CombinePolled(zones, start, clock, so_far, st, from, steps, db.Snapshot(), later, at, limit, until, a.at, Ended(a));
    PolledConfigured(zones, start, clock, so_far + steps, db.Snapshot(), later, at, limit, Ended(a));
    OneMorePolled(w, picks, at, messages, tries, done);
  }

  /** The messages of a poll, up to the first whose settling fails or is not heard of. */
  method HandleAll(ghost zones: Zones, db: Database, w: Jobs.Worker, picks: seq<Id>, at: Instant,
                   messages: seq<(Id, Jobs.Payload)>, tries: seq<Attempt>, ghost start: Store, ghost clock: Instant,
                   ghost limit: int)
    returns (done: nat, ghost later: Instant, ghost until: Instant)
    requires |messages| <= |tries| && DistinctMessages(messages) && OnTime(tries, at, limit)
    requires Configured(db.Snapshot()) && Held(db.queue, w, messages, at) && clock <= at
    requires Polled(zones, start, clock, PollSteps(w, picks, at, messages[..0], tries[..0]), db.Snapshot(), clock, at,
                    limit, at)
    modifies db
    ensures done <= |messages| && (forall i :: 0 <= i < done - 1 ==> GoesOn(tries[i]))
    ensures done < |messages| ==> done > 0 && !GoesOn(tries[done - 1])
    ensures Polled(zones, start, clock, PollSteps(w, picks, at, messages[..done], tries[..done]), db.Snapshot(), later,
                   at, limit, until)
  {
    hide Polled, Configured, Decide, PollSteps;
    later, done, until := clock, 0, at;
    var more := true;
    while done < |messages| && more
      invariant 0 <= done <= |messages| && (more <==> done == 0 || GoesOn(tries[done - 1]))
      invariant forall i :: 0 <= i < done - 1 ==> GoesOn(tries[i])
      invariant Configured(db.Snapshot())
      invariant forall i :: done <= i < |messages| ==> Holds(db.queue, w, messages[i], at)
      invariant forall i :: done <= i < |messages| ==> later <= tries[i].at && until <= tries[i].at
      invariant Polled(zones, start, clock, PollSteps(w, picks, at, messages[..done], tries[..done]), db.Snapshot(),
                       later, at, limit, until)
    {
      later := HandleNext(zones, db, w, picks, at, messages, tries, done, start, clock, later, limit, until);
      until := Ended(tries[done]);
      more := GoesOn(tries[done]);
      done := done + 1;
    }
  }

  /** The clock moves forward and every settlement takes effect less than `limit` after `at`. */
  predicate OnTime(tries: seq<Attempt>, at: Instant, limit: int) {
    && (forall i :: 0 <= i < |tries| ==>
          at <= tries[i].at <= Ended(tries[i]) && (tries[i].settled.Some? ==> Ended(tries[i]) < at + limit))
    && (forall i, j :: 0 <= i < j < |tries| ==> Ended(tries[i]) <= tries[j].at)
  }

  lemma InTimeUnderDeadline(attempts: seq<Attempt>, began: Instant, at: Instant, lag: int)
    requires began <= at && Forward(at, attempts, lag)
    ensures OnTime(AllUnderDeadline(attempts, began + DEADLINE), at, DEADLINE + lag)
  {
  }

  lemma NoneHandled(w: Jobs.Worker, picks: seq<Id>, at: Instant, messages: seq<(Id, Jobs.Payload)>,
                    tries: seq<Attempt>)
    ensures PollSteps(w, picks, at, messages[..0], tries[..0]) == ReadSteps(w, picks, at)
  {
  }

  /** One poll, begun at `began` under a context that expires 45 seconds later. It stops after the first message
      whose settling fails or is not heard of, leaving the other copies to time out, and does nothing if the
      context expires before it reads. The whole poll is a legal run: read, then handle and settle message
      by message, each settlement taking effect in time. */
  method Process(ghost zones: Zones, db: Database, w: Jobs.Worker, began: Instant, picks: seq<Id>, at: Instant,
                 attempts: seq<Attempt>, ghost lag: int, ghost clock: Instant)
    returns (done: nat, ghost later: Instant, ghost until: Instant)
    requires Distinct(picks) && |picks| <= BATCH && |attempts| == |picks|
    requires began <= at && clock <= at && Forward(at, attempts, lag) && Configured(db.Snapshot())
    modifies db
    ensures began + 45 * SECOND <= at ==> done == 0 && later == clock && db.Snapshot() == old(db.Snapshot())
    ensures at < began + 45 * SECOND ==>
              var messages := Picked(old(db.queue), picks, at);
              var tries := AllUnderDeadline(attempts, began + 45 * SECOND);
              && done <= |messages| <= |tries| && (forall i :: 0 <= i < done - 1 ==> GoesOn(tries[i]))
              && (done < |messages| ==> done > 0 && !GoesOn(tries[done - 1]))
              && var steps := PollSteps(w, picks, at, messages[..done], tries[..done]);
                 Polled(zones, old(db.Snapshot()), clock, steps, db.Snapshot(), later, at, 45 * SECOND + lag, until)
  {
    hide Polled, Configured, Decide, MessageSteps, OnTime, AllUnderDeadline;
    later, done, until := clock, 0, at;
    if began + DEADLINE <= at {
      return;
    }
    PickedFits(db.queue, picks, at);
    var messages := ReadJobs(zones, db, w, picks, at, clock, DEADLINE + lag);
    var tries := AllUnderDeadline(attempts, began + DEADLINE);
    InTimeUnderDeadline(attempts, began, at, lag);
    PolledConfigured(zones, old(db.Snapshot()), clock, ReadSteps(w, picks, at), db.Snapshot(), clock, at,
                     DEADLINE + lag, at);
    NoneHandled(w, picks, at, messages, tries);
    done, later, until := HandleAll(zones, db, w, picks, at, messages, tries, old(db.Snapshot()), clock,
                                    DEADLINE + lag);
  }

  lemma OneMorePolled(w: Jobs.Worker, picks: seq<Id>, at: Instant, messages: seq<(Id, Jobs.Payload)>,
                      attempts: seq<Attempt>, n: nat)
    requires n < |messages| <= |attempts|
    ensures PollSteps(w, picks, at, messages[..n + 1], attempts[..n + 1]) ==
            PollSteps(w, picks, at, messages[..n], attempts[..n]) + MessageStep(w, messages[n], attempts[n])
  {
    OneMoreMessage(w, messages, attempts, n);
  }

  lemma PolledConfigured(zones: Zones, x: Store, t: Instant, steps: seq<Step>, y: Store, u: Instant,
                         since: Instant, limit: int, until: Instant)
    requires Polled(zones, x, t, steps, y, u, since, limit, until)
    ensures Configured(y)
  {
  }

  lemma AmountsConfigured(zones: Zones, before: Store, clock: Instant, steps: seq<Step>, after: Store, later: Instant)
    requires Amounts(zones, before, clock, steps, after, later)
    ensures Configured(after)
  {
    hide Configured;
  }

  /** Main result: the 45 seconds of a poll leave a settling statement 15 to take effect in; if none takes longer,
      a poll leaves every job in exactly one place. */
  lemma PollKeepsJobsInPlace(zones: Zones, x: Store, t: Instant, steps: seq<Step>, y: Store, u: Instant,
                             since: Instant, lag: int, until: Instant)
    requires Polled(zones, x, t, steps, y, u, since, 45 * SECOND + lag, until) && lag <= 15 * SECOND
    requires Jobs.InPlace(x.queue, since)
    ensures Jobs.InPlace(y.queue, until)
  {
    hide QueueSteps, Jobs.InPlace, Jobs.WithinRun, Jobs.Clocked, Configured, Decide;
    var jobs := QueueSteps(zones, State(x, t), steps);
    QueueIsARun(zones, State(x, t), steps);
    Jobs.RunKeepsInPlace(x.queue, jobs, since, DEADLINE + lag);
    Jobs.LaterInPlace(y.queue, Jobs.Clocked(jobs, since), until);
  }

  // ----- The recovery sweep -----

  function SweepSteps(m: Module, due: seq<Id>, faults: seq<bool>, at: Instant): (r: seq<Step>)
    requires |due| == |faults|
    ensures |r| == |due|
  {
    if due == [] then []
    else
      var n := |due| - 1;
      SweepSteps(m, due[..n], faults[..n], at) + [Expiry(m, due[n], at, faults[n], None)]
  }

  predicate Settled(records: map<Id, Record>, id: Id, at: Instant) {
    id in records ==> !records[id].status.Requested? || at < records[id].expiresAt
  }

  /** The same rows in the same modules; these are settled, and whatever was settled still is. */
  ghost predicate Swept(before: map<Id, Record>, after: map<Id, Record>, ids: seq<Id>, at: Instant) {
    && after.Keys == before.Keys
    && (forall id :: id in after ==> ModuleOf(after[id]) == ModuleOf(before[id]))
    && (forall id :: id in ids || Settled(before, id, at) ==> Settled(after, id, at))
  }

  lemma SweptThrough(a: map<Id, Record>, b: map<Id, Record>, c: map<Id, Record>, x: seq<Id>, y: seq<Id>, at: Instant)
    requires Swept(a, b, x, at) && Swept(b, c, y, at)
    ensures Swept(a, c, x + y, at) && Swept(a, c, [], at)
  {
  }

  lemma SweptRow(before: map<Id, Record>, after: map<Id, Record>, ids: seq<Id>, at: Instant, id: Id)
    requires Swept(before, after, ids, at) && id in before
    ensures id in after && ModuleOf(after[id]) == ModuleOf(before[id])
  {
  }

  lemma SweepStarts(zones: Zones, st: Store, m: Module, due: seq<Id>, faults: seq<bool>, at: Instant, clock: Instant)
    requires Configured(st) && due == [] && faults == []
    ensures Amounts(zones, st, clock, SweepSteps(m, due, faults, at), st, clock) &&
            Swept(st.records, st.records, due, at)
  {
    hide Configured, Amounts;
    Nothing(zones, st, clock);
  }

  /** Expire the due requests of one module, in the order the query returns them, up to the first failure. */
  method SweepModule(ghost zones: Zones, db: Database, m: Module, due: seq<Id>, faults: seq<bool>, at: Instant,
                     ghost clock: Instant)
    returns (ok: bool, done: nat, ghost later: Instant)
    requires Configured(db.Snapshot()) && clock <= at && |due| <= DUE_BATCH && |faults| == |due|
    requires forall id :: id in due ==> id in db.records && ModuleOf(db.records[id]) == m
    modifies db
    ensures clock <= later <= at && done <= |due|
    ensures if ok then done == |due| && (forall i :: 0 <= i < |due| ==> !faults[i]) else done > 0 && faults[done - 1]
    ensures Amounts(zones, old(db.Snapshot()), clock, SweepSteps(m, due[..done], faults[..done], at),
                    db.Snapshot(), later)
    ensures Swept(old(db.records), db.records, if ok then due else [], at)
  {
    hide Amounts, Configured, Swept, SweepSteps;
    ok, later, done := true, clock, 0;
    SweepStarts(zones, db.Snapshot(), m, due[..0], faults[..0], at, clock);
    while done < |due| && ok
      invariant 0 <= done <= |due| && clock <= later <= at
      invariant if ok then (forall i :: 0 <= i < done ==> !faults[i]) else done > 0 && faults[done - 1]
      invariant Swept(old(db.records), db.records, if ok then due[..done] else [], at)
      invariant Amounts(zones, old(db.Snapshot()), clock, SweepSteps(m, due[..done], faults[..done], at),
                        db.Snapshot(), later)
    {
      ghost var was := db.records;
      assert due[done] in due;
      SweptRow(old(db.records), was, due[..done], at, due[done]);
      later := SweepOne(zones, db, m, due, faults, at, done, old(db.Snapshot()), clock, later);
      ok := !faults[done];
      SweptThrough(old(db.records), was, db.records, due[..done], if ok then [due[done]] else [], at);
      assert due[..done] + [due[done]] == due[..done + 1];
      done := done + 1;
    }
    assert due[..|due|] == due;
  }

  /** One call of the sweep. */
  method SweepOne(ghost zones: Zones, db: Database, m: Module, due: seq<Id>, faults: seq<bool>, at: Instant, i: nat,
                  ghost start: Store, ghost clock: Instant, ghost from: Instant)
    returns (ghost later: Instant)
    requires i < |due| == |faults| && from <= at
    requires due[i] in db.records && ModuleOf(db.records[due[i]]) == m
    requires Amounts(zones, start, clock, SweepSteps(m, due[..i], faults[..i], at), db.Snapshot(), from)
    modifies db
    ensures from <= later <= at
    ensures Amounts(zones, start, clock, SweepSteps(m, due[..i + 1], faults[..i + 1], at), db.Snapshot(), later)
    ensures Swept(old(db.records), db.records, if faults[i] then [] else [due[i]], at)
  {
    hide Amounts, Configured, Lapsed, ExpiryOutcome, Settled, Swept;
    ghost var st, steps := db.Snapshot(), SweepSteps(m, due[..i], faults[..i], at);
    ghost var s := Expiry(m, due[i], at, faults[i], None);
    AmountsConfigured(zones, start, clock, steps, st, from);
    LapseSettles(st, m, due[i], at, faults[i]);
    var r := db.Expire(m, due[i], at, faults[i]);
    later := at;
    Single(zones, st, from, s);
    Combine(zones, start, clock, steps, st, from, [s], db.Snapshot(), later);
    assert due[..i + 1][..i] == due[..i] && faults[..i + 1][..i] == faults[..i];
  }

  lemma LapseSettles(st: Store, m: Module, id: Id, at: Instant, fault: bool)
    requires id in st.records && ModuleOf(st.records[id]) == m
    ensures ExpiryOutcome(st, m, id, at, fault).Ok? <==> !fault
    ensures Swept(st.records, Lapsed(st, m, id, at, fault).records, if fault then [] else [id], at)
  {
    hide Swept, Settled;
    var r := st.records[id];
    var expired := r.(status := Expired, version := r.version + 1);
    OneSwept(st.records, id, if !fault && r.status.Requested? && r.expiresAt <= at then expired else r, at, fault);
    assert st.records[id := r] == st.records;
  }

  lemma OneSwept(records: map<Id, Record>, id: Id, r: Record, at: Instant, fault: bool)
    requires id in records && ModuleOf(r) == ModuleOf(records[id])
    requires r == records[id] || !r.status.Requested?
    requires !fault && r.status.Requested? ==> at < r.expiresAt
    ensures Swept(records, records[id := r], if fault then [] else [id], at)
  {
  }

  predicate Due(r: Record, m: Module, at: Instant) {
    ModuleOf(r) == m && r.status.Requested? && r.expiresAt <= at
  }

  /** Main result: a sweep without failures, whose two queries return every lapsed request, leaves none behind;
      a failed one stops there, and is a legal run all the same. */
  method Sweep(ghost zones: Zones, db: Database, visits: seq<Id>, orders: seq<Id>, visitFaults: seq<bool>,
               orderFaults: seq<bool>, at: Instant, ghost clock: Instant)
    returns (ok: bool, ghost steps: seq<Step>, ghost later: Instant)
    requires Configured(db.Snapshot()) && clock <= at && |visits| == |visitFaults| <= DUE_BATCH &&
             |orders| == |orderFaults| <= DUE_BATCH
    requires forall id :: id in visits ==> id in db.records && Due(db.records[id], Appointments, at)
    requires forall id :: id in orders ==> id in db.records && Due(db.records[id], Preorders, at)
    modifies db
    ensures Amounts(zones, old(db.Snapshot()), clock, steps, db.Snapshot(), later)
    ensures ok <==> true !in visitFaults && true !in orderFaults
    ensures ok ==> steps == SweepSteps(Appointments, visits, visitFaults, at) +
                            SweepSteps(Preorders, orders, orderFaults, at) +
                            [CleanReplays(at), Work(Jobs.Clean(at))]
    ensures ok && (forall id, m :: id in old(db.records) && Due(old(db.records)[id], m, at) ==>
                   id in visits || id in orders) ==>
              forall id :: Settled(db.records, id, at)
  {
    hide Amounts, Configured;
    var done: nat;
    ok, done, later := SweepModule(zones, db, Appointments, visits, visitFaults, at, clock);
    steps := SweepSteps(Appointments, visits[..done], visitFaults[..done], at);
    if !ok {
      assert visitFaults[done - 1] in visitFaults;
      return;
    }
    assert visits[..done] == visits && visitFaults[..done] == visitFaults;
    ghost var first, mid := db.Snapshot(), later;
    AmountsConfigured(zones, old(db.Snapshot()), clock, steps, first, mid);
    ok, done, later := SweepModule(zones, db, Preorders, orders, orderFaults, at, later);
    ghost var more := SweepSteps(Preorders, orders[..done], orderFaults[..done], at);
    Combine(zones, old(db.Snapshot()), clock, steps, first, mid, more, db.Snapshot(), later);
    steps := steps + more;
    if !ok {
      assert orderFaults[done - 1] in orderFaults;
      return;
    }
    assert orders[..done] == orders && orderFaults[..done] == orderFaults;
    forall id | (forall i, m :: i in old(db.records) && Due(old(db.records)[i], m, at) ==> i in visits || i in orders)
      ensures Settled(db.records, id, at)
    {
      if id in old(db.records) && id !in visits && id !in orders {
        assert !Due(old(db.records)[id], ModuleOf(old(db.records)[id]), at);
      }
      assert id in visits || id in orders || Settled(old(db.records), id, at);
    }
    CleanUp(zones, db, at, old(db.Snapshot()), clock, steps, later);
    steps := steps + [CleanReplays(at), Work(Jobs.Clean(at))];
  }

  /** Delete expired replies and old archived jobs. */
  method CleanUp(ghost zones: Zones, db: Database, at: Instant, ghost start: Store, ghost clock: Instant,
                 ghost done: seq<Step>, ghost later: Instant)
    requires Amounts(zones, start, clock, done, db.Snapshot(), later)
    modifies db`replays, db`queue
    ensures Amounts(zones, start, clock, done + [CleanReplays(at), Work(Jobs.Clean(at))], db.Snapshot(), later)
  {
    hide Amounts, Configured, Jobs.Cleaned;
    ghost var before := db.Snapshot();
    AmountsConfigured(zones, start, clock, done, before, later);
    db.replays := map k | k in db.replays && at <= db.replays[k].expiresAt :: db.replays[k];
    ghost var between := db.Snapshot();
    assert between == AfterCleaning(before, at);
    Single(zones, before, later, CleanReplays(at));
    AmountsConfigured(zones, before, later, [CleanReplays(at)], between, later);
    db.queue := Jobs.Cleaned(db.queue, at);
    Single(zones, between, later, Work(Jobs.Clean(at)));
    Combine(zones, before, later, [CleanReplays(at)], between, later, [Work(Jobs.Clean(at))], db.Snapshot(), later);
    assert [CleanReplays(at)] + [Work(Jobs.Clean(at))] == [CleanReplays(at), Work(Jobs.Clean(at))];
    Combine(zones, start, clock, done, before, later, [CleanReplays(at), Work(Jobs.Clean(at))], db.Snapshot(), later);
  }

  // ----- Paging through the billing customers -----

  const PAGE: nat := 100

  /** Pages of a hundred by offset over an unchanged table: every customer is reconciled exactly once and in
      order, up to the first that fails; without a reconciler nobody is. */
  method ReconcileAll(customers: seq<string>, available: bool, faults: set<string>)
    returns (ok: bool, visited: seq<string>)
    ensures !available ==> ok && visited == []
    ensures available ==> visited <= customers && forall i :: 0 <= i < |visited| - 1 ==> visited[i] !in faults
    ensures available ==> if ok then visited == customers && forall i :: 0 <= i < |visited| ==> visited[i] !in faults
                          else visited != [] && visited[|visited| - 1] in faults
  {
    visited := [];
    if !available {
      return true, visited;
    }
    var offset, more := 0, true;
    while more
      invariant 0 <= offset && visited == customers[..if offset < |customers| then offset else |customers|]
      invariant forall i :: 0 <= i < |visited| ==> visited[i] !in faults
      invariant !more ==> offset >= |customers|
      decreases more, |customers| - offset
    {
      var first := if offset < |customers| then offset else |customers|;
      var last := if offset + PAGE < |customers| then offset + PAGE else |customers|;
      var rows := customers[first..last];
      var i := 0;
      while i < |rows|
        invariant 0 <= i <= |rows| && visited == customers[..first + i]
        invariant forall j :: 0 <= j < |visited| ==> visited[j] !in faults
      {
        visited := visited + [rows[i]];
        if rows[i] in faults {
          return false, visited;
        }
        i := i + 1;
      }
      more := |rows| >= PAGE;
      offset := offset + PAGE;
    }
    return true, visited;
  }
}
