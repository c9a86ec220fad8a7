/** The job queue of a business, seen on its own: whatever the whole system does is a run of the queue. */
module QueueRuns {
  import opened Prelude
  import opened Records
  import opened Operations
  import opened Machine
  import Reachable
  import Jobs

  /** What one step of the system does to the queue: an accepted request may send a timer, an expiry
      transaction reports to the worker that called it, and the worker's own steps are the queue's. */
  ghost function JobStep(zones: Zones, st: Store, s: Step): Option<Jobs.Step>
    requires Configured(st)
  {
    match s
    case Request(c, t) => Sent(Decide(zones, st, t, c))
    case Expiry(m, id, at, fault, hand) =>
      if hand.Some? then Some(Jobs.Handle(hand.value.0, hand.value.1, at, ExpiryOutcome(st, m, id, at, fault).Ok?))
      else None
    case Work(j) => Some(j)
    case _ => None
  }

  function Sent(d: Decision): Option<Jobs.Step> {
    if d.Accept? && d.writes.timer.Some?
    then Some(Jobs.Enqueue(Timer(d.writes.id, d.writes.record), d.writes.timer.value, d.writes.sentAt))
    else None
  }

  function Listed(j: Option<Jobs.Step>): seq<Jobs.Step> {
    if j.Some? then [j.value] else []
  }

  ghost function QueueSteps(zones: Zones, sys: State, steps: seq<Step>): seq<Jobs.Step>
    requires Configured(sys.store)
  {
    if steps == [] then []
    else
      var before, s := steps[..|steps| - 1], steps[|steps| - 1];
      QueueSteps(zones, sys, before) + Listed(JobStep(zones, Run(zones, sys, before).store, s))
  }

  lemma StepIsTheQueues(zones: Zones, sys: State, s: Step)
    requires Configured(sys.store)
    ensures var (q, j) := (sys.store.queue, JobStep(zones, sys.store, s));
            && StepStore(zones, sys.store, s).queue == (if j.Some? then Jobs.Next(q, j.value) else q)
            && (Legal(sys, s) && j.Some? ==> Jobs.Timely(q, j.value))
  {
    hide AfterRequest, AfterExpiry, AfterAdmin, AfterOpening, AfterCleaning, Sent, Decide, ExpiryOutcome, Configured,
         Jobs.Next, Jobs.Timely;
    match s
    case Request(c, t) => RequestSends(zones, sys.store, c, t);
    case Expiry(m, id, at, fault, hand) => ExpiryReports(sys, m, id, at, fault, hand);
    case _ => Reachable.OtherCases(zones, sys.store, s);
  }

  lemma RequestSends(zones: Zones, st: Store, c: Command, t: Readings)
    requires Configured(st)
    ensures var j := Sent(Decide(zones, st, t, c));
            && AfterRequest(zones, st, c, t).queue == (if j.Some? then Jobs.Next(st.queue, j.value) else st.queue)
            && (j.Some? ==> Jobs.Timely(st.queue, j.value))
  {
    hide Decide, Jobs.Put;
  }

  lemma ExpiryReports(sys: State, m: Module, id: Id, at: Instant, fault: bool, hand: Option<(Jobs.Worker, Id)>)
    ensures var ok := ExpiryOutcome(sys.store, m, id, at, fault).Ok?;
            AfterExpiry(sys.store, m, id, at, fault, hand).queue ==
            if hand.Some? then Jobs.Next(sys.store.queue, Jobs.Handle(hand.value.0, hand.value.1, at, ok))
            else sys.store.queue
    ensures Legal(sys, Expiry(m, id, at, fault, hand)) && hand.Some? ==>
              forall ok :: Jobs.Timely(sys.store.queue, Jobs.Handle(hand.value.0, hand.value.1, at, ok))
  {
    hide Jobs.Marked;
  }

  lemma OneMoreQueueStep(q: Jobs.Queue, steps: seq<Jobs.Step>, j: Option<Jobs.Step>)
    ensures var r := Jobs.Run(q, steps);
            && Jobs.Run(q, steps + Listed(j)) == (if j.Some? then Jobs.Next(r, j.value) else r)
            && (Jobs.TimelyRun(q, steps + Listed(j)) <==>
                  Jobs.TimelyRun(q, steps) && (j.Some? ==> Jobs.Timely(r, j.value)))
  {
    hide Jobs.Next, Jobs.Timely;
    if j.Some? {
      assert (steps + [j.value])[..|steps|] == steps;
    } else {
      assert steps + [] == steps;
    }
  }

  /** Main result: the queue after any run of the system is the queue after its queue steps, and a legal run
      is timely for the queue; so everything proved of all runs of the queue holds in the system. */
  lemma {:induction false} QueueIsARun(zones: Zones, sys: State, steps: seq<Step>)
    requires Configured(sys.store)
    ensures Run(zones, sys, steps).store.queue == Jobs.Run(sys.store.queue, QueueSteps(zones, sys, steps))
    ensures LegalRun(zones, sys, steps) ==> Jobs.TimelyRun(sys.store.queue, QueueSteps(zones, sys, steps))
  {
    hide StepStore, Legal, JobStep, Jobs.Next, Jobs.Timely, Listed;
    if steps != [] {
      var before, s := steps[..|steps| - 1], steps[|steps| - 1];
      QueueIsARun(zones, sys, before);
      StepIsTheQueues(zones, Run(zones, sys, before), s);
      OneMoreQueueStep(sys.store.queue, QueueSteps(zones, sys, before),
                       JobStep(zones, Run(zones, sys, before).store, s));
    }
  }

  /** Main result: in every run of the system whose settlements take effect while their copies' minutes last,
      every job sent is in exactly one place. */
  lemma JobsStayInOnePlace(zones: Zones, sub: Subscription, now: Instant, steps: seq<Step>, since: Instant,
                            limit: int)
    requires Jobs.WithinRun(Jobs.EMPTY, QueueSteps(zones, Fresh(sub, now), steps), since, limit)
    requires limit <= 60 * SECOND
    ensures var q := Run(zones, Fresh(sub, now), steps).store.queue; Jobs.Conserved(q) && Jobs.Apart(q)
  {
    QueueIsARun(zones, Fresh(sub, now), steps);
    Jobs.RunKeepsOnePlace(QueueSteps(zones, Fresh(sub, now), steps), since, limit);
  }

  /** Main result: in every run of the system a job whose copies were settled as failed eight times has been
      given up, and stays so whatever follows. */
  lemma EightFailuresAreFinal(zones: Zones, sub: Subscription, now: Instant, steps: seq<Step>, more: seq<Step>, j: Id)
    requires Jobs.FailureCount(QueueSteps(zones, Fresh(sub, now), steps), j) >= 8
    ensures var q := Run(zones, Fresh(sub, now), steps + more).store.queue; j !in q.live && Jobs.InFailed(q, j)
  {
    var sys := Fresh(sub, now);
    var rest := QueueSteps(zones, Run(zones, sys, steps), more);
    QueueStepsAppend(zones, sys, steps, more);
    QueueIsARun(zones, sys, steps + more);
    Jobs.EightFailuresAreFinal(QueueSteps(zones, sys, steps), rest, j);
  }

  lemma OneQueueStep(zones: Zones, sys: State, s: Step)
    requires Configured(sys.store)
    ensures QueueSteps(zones, sys, [s]) == Listed(JobStep(zones, sys.store, s))
  {
    hide JobStep, Listed, StepOf;
    assert [s][..0] == [];
    assert QueueSteps(zones, sys, []) == [];
  }

  lemma {:induction false} QueueStepsAppend(zones: Zones, sys: State, a: seq<Step>, b: seq<Step>)
    requires Configured(sys.store)
    ensures QueueSteps(zones, sys, a + b) ==
            QueueSteps(zones, sys, a) + QueueSteps(zones, Run(zones, sys, a), b)
  {
    hide JobStep, Listed, StepOf;
    if b == [] {
      assert a + b == a;
    } else {
      var n := |b| - 1;
      assert (a + b)[..|a + b| - 1] == a + b[..n];
      QueueStepsAppend(zones, sys, a, b[..n]);
      RunAppends(zones, sys, a, b[..n]);
    }
  }
}
