/** The job queue: visible-at times, read counts, an archive and a failed queue.

    `due`, `purged`, `origin` and `hands` are not columns: `due` is the instant a timer was set for,
    `purged` and `origin` let a job be followed to its end, and a hand is the copy of a message that a
    worker holds between reading it and settling it. */
module Jobs {
  import opened Prelude

  datatype Payload =
    | ExpireRequest(record: Id, preorder: bool)
    | ReconcileSubscription(customer: string)
    | Unrecognised

  datatype Job = Job(payload: Payload, due: Instant, visibleAt: Instant, readCount: nat)

  datatype Phase = Fresh | Succeeded | Failed

  datatype Hand = Hand(payload: Payload, due: Instant, readCount: nat, readAt: Instant, phase: Phase)

  datatype Failure = Failure(origin: Id, payload: Payload, due: Instant)

  type Worker = nat

  datatype Queue = Queue(live: map<Id, Job>, hands: map<(Worker, Id), Hand>,
                         archive: map<Id, Instant>, purged: set<Id>, failed: seq<Failure>, next: Id)

  datatype Step =
    | Enqueue(payload: Payload, due: Instant, sentAt: Instant)
    | Read(worker: Worker, id: Id, at: Instant)
    | Handle(worker: Worker, id: Id, at: Instant, ok: bool)
    | Settle(worker: Worker, id: Id, at: Instant)
    | Crash(worker: Worker)
    | Clean(at: Instant)

  const EMPTY: Queue := Queue(map[], map[], map[], {}, [], 0)

  const LAST_READ: nat := 8
  const HIDDEN: int := 60 * SECOND
  const KEPT: int := 7 * DAY

  /** Whole seconds, truncated toward zero. */
  function Seconds(d: int): int {
    if d >= 0 then d / SECOND else -(-d / SECOND)
  }

  function Delay(due: Instant, now: Instant): int {
    var seconds := Seconds(due - now) + 1;
    if seconds < 0 then 0 else seconds
  }

  function Power2(n: nat): nat {
    if n == 0 then 1 else 2 * Power2(n - 1)
  }

  function RetryDelay(readCount: nat): nat {
    var d := 5 * Power2(if readCount < 10 then readCount else 10);
    if d < 3600 then d else 3600
  }

  // ----- The queue's operations -----

  function Put(q: Queue, payload: Payload, due: Instant, sentAt: Instant): Queue {
    q.(live := q.live[q.next := Job(payload, due, sentAt + Delay(due, sentAt) * SECOND, 0)], next := q.next + 1)
  }

  function Take(q: Queue, w: Worker, id: Id, at: Instant): Queue {
    if id in q.live && q.live[id].visibleAt <= at then
      var j := q.live[id].(visibleAt := at + HIDDEN, readCount := q.live[id].readCount + 1);
      q.(live := q.live[id := j], hands := q.hands[(w, id) := Hand(j.payload, j.due, j.readCount, at, Fresh)])
    else q
  }

  function Marked(q: Queue, w: Worker, id: Id, ok: bool): Queue {
    if (w, id) in q.hands then
      q.(hands := q.hands[(w, id) := q.hands[(w, id)].(phase := if ok then Succeeded else Failed)])
    else q
  }

  /** Archive a handled job; retry a failed one, or give it up on its eighth read. */
  function Settled(q: Queue, w: Worker, id: Id, at: Instant): Queue {
    if (w, id) !in q.hands || q.hands[(w, id)].phase.Fresh? then q
    else
      var h := q.hands[(w, id)];
      var q := q.(hands := q.hands - {(w, id)});
      if h.phase.Succeeded? then
        if id in q.live then q.(live := q.live - {id}, archive := q.archive[id := at]) else q
      else if h.readCount >= LAST_READ then
        q.(live := q.live - {id}, failed := q.failed + [Failure(id, h.payload, h.due)])
      else if id in q.live then
        q.(live := q.live[id := q.live[id].(visibleAt := at + RetryDelay(h.readCount) * SECOND)])
      else q
  }

  function Dropped(q: Queue, w: Worker): Queue {
    q.(hands := map k | k in q.hands && k.0 != w :: q.hands[k])
  }

  function Cleaned(q: Queue, at: Instant): Queue {
    var aged := set id | id in q.archive && q.archive[id] < at - KEPT;
    q.(archive := q.archive - aged, purged := q.purged + aged)
  }

  function Next(q: Queue, s: Step): Queue {
    match s
    case Enqueue(payload, due, sentAt) => Put(q, payload, due, sentAt)
    case Read(w, id, at) => Take(q, w, id, at)
    case Handle(w, id, at, ok) => Marked(q, w, id, ok)
    case Settle(w, id, at) => Settled(q, w, id, at)
    case Crash(w) => Dropped(q, w)
    case Clean(at) => Cleaned(q, at)
  }

  /** A worker handles and settles a message no earlier than it read it. */
  predicate Timely(q: Queue, s: Step) {
    match s
    case Handle(w, id, at, _) => (w, id) in q.hands ==> q.hands[(w, id)].readAt <= at
    case Settle(w, id, at) => (w, id) in q.hands ==> q.hands[(w, id)].readAt <= at
    case _ => true
  }

  function Run(q: Queue, steps: seq<Step>): Queue {
    if steps == [] then q else Next(Run(q, steps[..|steps| - 1]), steps[|steps| - 1])
  }

  predicate TimelyRun(q: Queue, steps: seq<Step>) {
    steps == [] ||
    (TimelyRun(q, steps[..|steps| - 1]) && Timely(Run(q, steps[..|steps| - 1]), steps[|steps| - 1]))
  }

  // ----- Timers are never early -----

  /** Every job hides until its due instant, and every held copy was read no earlier than that. */
  ghost predicate NeverEarly(q: Queue) {
    && (forall id :: id in q.live ==> q.live[id].due <= q.live[id].visibleAt)
    && (forall k :: k in q.hands ==> q.hands[k].due <= q.hands[k].readAt)
    && (forall k :: k in q.hands && k.1 in q.live ==>
          q.hands[k].due == q.live[k.1].due && q.hands[k].payload == q.live[k.1].payload)
    && (forall id :: id in q.live ==> id < q.next)
    && (forall k :: k in q.hands ==> k.1 < q.next)
  }

  lemma DelayReachesDue(due: Instant, now: Instant)
    ensures due <= now + Delay(due, now) * SECOND
    ensures due < now ==> Delay(due, now) <= 1
  {
  }

  lemma StepNeverEarly(q: Queue, s: Step)
    requires NeverEarly(q) && Timely(q, s)
    ensures NeverEarly(Next(q, s))
  {
    match s
    case Enqueue(payload, due, sentAt) => DelayReachesDue(due, sentAt);
    case _ =>
  }

  lemma {:induction false} RunNeverEarly(steps: seq<Step>)
    requires TimelyRun(EMPTY, steps)
    ensures NeverEarly(Run(EMPTY, steps))
  {
    if steps != [] {
      RunNeverEarly(steps[..|steps| - 1]);
      StepNeverEarly(Run(EMPTY, steps[..|steps| - 1]), steps[|steps| - 1]);
    }
  }

  // ----- And never late -----

  /** Within a second of the instant it was sent for, or of the sending if that is later. */
  predicate Soon(visibleAt: Instant, due: Instant, sentAt: Instant) {
    due <= visibleAt && visibleAt <= (if due < sentAt then sentAt else due) + 1_000_000
  }

  /** Main result: a job sent is visible from the first whole second after its sending that is past its instant, at
      once if the instant was a second ago or more. */
  lemma PutIsSoon(q: Queue, payload: Payload, due: Instant, sentAt: Instant)
    ensures var r := Put(q, payload, due, sentAt);
            && r == q.(live := r.live, next := q.next + 1) && q.next in r.live
            && var job := r.live[q.next];
            && r.live == q.live[q.next := job] && job == Job(payload, due, job.visibleAt, 0)
            && Soon(job.visibleAt, due, sentAt) && (job.visibleAt - sentAt) % 1_000_000 == 0
            && (sentAt <= due ==> job.visibleAt - 1_000_000 <= due < job.visibleAt)
            && (due + 1_000_000 <= sentAt ==> job.visibleAt == sentAt)
  {
    DelayReachesDue(due, sentAt);
  }

  /** A job somebody holds a copy of has been read. */
  ghost predicate HeldIsRead(q: Queue) {
    && (forall k :: k in q.hands ==> k.1 < q.next)
    && (forall k :: k in q.hands && k.1 in q.live ==> q.live[k.1].readCount >= 1)
    && (forall id :: id in q.live ==> id < q.next)
  }

  lemma StepKeepsUnread(q: Queue, s: Step, j: Id)
    requires HeldIsRead(q)
    ensures HeldIsRead(Next(q, s))
    ensures j in Next(q, s).live && Next(q, s).live[j].readCount == 0 ==>
              (s.Enqueue? && j == q.next) || (j in q.live && q.live[j] == Next(q, s).live[j])
  {
  }

  /** Step n of the run sent job j, which is now to become visible at this instant. */
  predicate SentSoon(steps: seq<Step>, n: nat, j: Id, job: Job) {
    && n < |steps| && steps[n].Enqueue? && Run(EMPTY, steps[..n]).next == j
    && job.payload == steps[n].payload && job.due == steps[n].due && Soon(job.visibleAt, job.due, steps[n].sentAt)
  }

  /** Main result: in every run a job that nobody has read yet is visible as soon as that, counted from the step
      that sent it. */
  lemma {:induction false} UnreadIsSoon(steps: seq<Step>, j: Id)
    ensures HeldIsRead(Run(EMPTY, steps))
    ensures var q := Run(EMPTY, steps);
            j in q.live && q.live[j].readCount == 0 ==> exists n: nat :: SentSoon(steps, n, j, q.live[j])
  {
    if steps != [] {
      var before, s := steps[..|steps| - 1], steps[|steps| - 1];
      UnreadIsSoon(before, j);
      var q := Run(EMPTY, before);
      StepKeepsUnread(q, s, j);
      if s.Enqueue? && j == q.next {
        PutIsSoon(q, s.payload, s.due, s.sentAt);
        hide Soon;
        assert SentSoon(steps, |steps| - 1, j, Run(EMPTY, steps).live[j]);
      } else if j in q.live && q.live[j].readCount == 0 {
        var n: nat :| SentSoon(before, n, j, q.live[j]);
        assert before[..n] == steps[..n];
        assert SentSoon(steps, n, j, q.live[j]);
      }
    }
  }

  // ----- Jobs are conserved -----

  predicate InFailed(q: Queue, id: Id) {
    exists i :: 0 <= i < |q.failed| && q.failed[i].origin == id
  }

  /** No job is lost: each job ever sent is live, archived, purged from the archive, or failed. */
  ghost predicate Conserved(q: Queue) {
    && (forall id: Id :: id in q.live || id in q.archive || id in q.purged || InFailed(q, id) ==> id < q.next)
    && (forall k :: k in q.hands ==> k.1 < q.next)
    && (forall id: Id :: id < q.next ==> id in q.live || id in q.archive || id in q.purged || InFailed(q, id))
  }

  lemma StepConserves(q: Queue, s: Step)
    requires Conserved(q)
    ensures Conserved(Next(q, s))
  {
    hide InFailed;
    forall id
      ensures InFailed(Next(q, s), id) <==> InFailed(q, id) || GivesUp(q, s, id)
    {
      StepTellsOutcome(q, s, id);
    }
  }

  lemma {:induction false} RunConserves(steps: seq<Step>)
    ensures Conserved(Run(EMPTY, steps))
  {
    if steps != [] {
      RunConserves(steps[..|steps| - 1]);
      StepConserves(Run(EMPTY, steps[..|steps| - 1]), steps[|steps| - 1]);
    }
  }

  /** At most one place per job, and at most one entry in the failed queue. */
  ghost predicate Apart(q: Queue) {
    && q.live.Keys !! q.archive.Keys && q.live.Keys !! q.purged && q.archive.Keys !! q.purged
    && (forall i :: 0 <= i < |q.failed| ==>
          var id := q.failed[i].origin; id !in q.live && id !in q.archive && id !in q.purged)
    && (forall i, j :: 0 <= i < j < |q.failed| ==> q.failed[i].origin != q.failed[j].origin)
  }

  /** A worker gives up a job that has left the live queue since it read it: the failed queue gets an
      entry whether or not there is a message left to delete. */
  predicate FailsGoneJob(q: Queue, s: Step) {
    && s.Settle? && (s.worker, s.id) in q.hands
    && q.hands[(s.worker, s.id)].phase.Failed? && q.hands[(s.worker, s.id)].readCount >= LAST_READ
    && s.id !in q.live
  }

  /** A failed job that is also archived or purged, or failed twice. */
  ghost predicate Twice(q: Queue) {
    || (exists i :: 0 <= i < |q.failed| && (q.failed[i].origin in q.archive || q.failed[i].origin in q.purged))
    || (exists i, j :: 0 <= i < j < |q.failed| && q.failed[i].origin == q.failed[j].origin)
  }

  /** The one step that puts a job in two places. */
  lemma StepApartExactly(q: Queue, s: Step)
    requires Conserved(q) && Apart(q)
    ensures Apart(Next(q, s)) <==> !FailsGoneJob(q, s)
    ensures FailsGoneJob(q, s) ==> Twice(Next(q, s))
  {
    match s
    case Enqueue(_, _, _) => assert forall i :: 0 <= i < |q.failed| ==> InFailed(q, q.failed[i].origin);
    case Settle(w, id, at) => SettleApartExactly(q, w, id, at);
    case Clean(at) => CleanKeepsApart(q, at);
    case _ =>
  }

  lemma SettleApartExactly(q: Queue, w: Worker, id: Id, at: Instant)
    requires Conserved(q) && Apart(q)
    ensures Apart(Settled(q, w, id, at)) <==> !FailsGoneJob(q, Settle(w, id, at))
    ensures FailsGoneJob(q, Settle(w, id, at)) ==> Twice(Settled(q, w, id, at))
  {
    var r := Settled(q, w, id, at);
    if FailsGoneJob(q, Settle(w, id, at)) {
      GoneJobIsTwice(q, w, id, at);
      TwiceIsNotApart(r);
    } else {
      assert r.archive.Keys <= q.archive.Keys + {id};
      assert r.archive.Keys != q.archive.Keys ==> id in q.live && id !in r.live;
      assert |r.failed| > |q.failed| ==> id in q.live && id !in r.live && r.failed[|q.failed|].origin == id;
    }
  }

  lemma GoneJobIsTwice(q: Queue, w: Worker, id: Id, at: Instant)
    requires Conserved(q) && FailsGoneJob(q, Settle(w, id, at))
    ensures Twice(Settled(q, w, id, at))
  {
    var r, n := Settled(q, w, id, at), |q.failed|;
    assert r.failed[n].origin == id;
    if InFailed(q, id) {
      var i :| 0 <= i < n && q.failed[i].origin == id;
      assert r.failed[i].origin == r.failed[n].origin;
    }
  }

  lemma TwiceIsNotApart(q: Queue)
    requires Twice(q)
    ensures !Apart(q)
  {
  }

  /** Nothing repairs it: the failed queue is never cleaned. */
  lemma TwiceStays(q: Queue, s: Step)
    requires Twice(q)
    ensures Twice(Next(q, s))
  {
    OnlyAdds(q, s);
    hide Next;
    var r := Next(q, s);
    if i :| 0 <= i < |q.failed| && (q.failed[i].origin in q.archive || q.failed[i].origin in q.purged) {
      assert r.failed[i].origin in r.archive || r.failed[i].origin in r.purged;
    } else {
      var i, j :| 0 <= i < j < |q.failed| && q.failed[i].origin == q.failed[j].origin;
      assert r.failed[i].origin == r.failed[j].origin;
    }
  }

  /** The failed queue only grows, and what was archived stays archived or purged. */
  lemma OnlyAdds(q: Queue, s: Step)
    ensures q.failed <= Next(q, s).failed
    ensures forall id :: id in q.archive || id in q.purged ==> id in Next(q, s).archive || id in Next(q, s).purged
  {
  }

  lemma CleanKeepsApart(q: Queue, at: Instant)
    requires Apart(q)
    ensures Apart(Cleaned(q, at))
  {
    assert Cleaned(q, at).purged <= q.purged + q.archive.Keys;
  }

  predicate NeverFailsGone(steps: seq<Step>) {
    steps == [] ||
    (NeverFailsGone(steps[..|steps| - 1]) && !FailsGoneJob(Run(EMPTY, steps[..|steps| - 1]), steps[|steps| - 1]))
  }

  /** Main result: every job sent is in exactly one place at the end of a run, and so throughout it, exactly
      when no step of the run gave up a job that had already left the live queue. */
  lemma {:induction false} OnePlaceExactly(steps: seq<Step>)
    ensures Conserved(Run(EMPTY, steps))
    ensures Apart(Run(EMPTY, steps)) <==> NeverFailsGone(steps)
    ensures !NeverFailsGone(steps) ==> Twice(Run(EMPTY, steps))
  {
    RunConserves(steps);
    if steps != [] {
      var before, s := steps[..|steps| - 1], steps[|steps| - 1];
      OnePlaceExactly(before);
      RunConserves(before);
      hide Apart, Twice, Conserved, FailsGoneJob, Next;
      if NeverFailsGone(before) {
        StepApartExactly(Run(EMPTY, before), s);
      } else {
        TwiceStays(Run(EMPTY, before), s);
        TwiceIsNotApart(Next(Run(EMPTY, before), s));
      }
    }
  }

  /** A run that never does so keeps every job in one place at every moment of it. */
  lemma {:induction false} OnePlaceThroughout(steps: seq<Step>, n: nat)
    requires NeverFailsGone(steps) && n <= |steps|
    ensures Conserved(Run(EMPTY, steps[..n])) && Apart(Run(EMPTY, steps[..n]))
  {
    if n == |steps| {
      assert steps[..n] == steps;
      OnePlaceExactly(steps);
    } else {
      OnePlaceThroughout(steps[..|steps| - 1], n);
      assert steps[..|steps| - 1][..n] == steps[..n];
    }
  }

  /** Nobody reads a job of which somebody still holds an unsettled copy. One worker that settles or
      drops its batch before the next poll always satisfies this. */
  predicate NoStaleRead(q: Queue, s: Step) {
    s.Read? ==> forall k :: k in q.hands && k.1 == s.id ==> k.0 == s.worker
  }

  /** At most one copy of each job is held, and only of live jobs. */
  ghost predicate HeldOnce(q: Queue) {
    && (forall k, l :: k in q.hands && l in q.hands && k.1 == l.1 ==> k == l)
    && (forall k :: k in q.hands ==> k.1 in q.live)
  }

  lemma StepKeepsHeldOnce(q: Queue, s: Step)
    requires HeldOnce(q) && NoStaleRead(q, s)
    ensures HeldOnce(Next(q, s)) && !FailsGoneJob(q, s)
  {
    match s
    case Settle(w, id, at) => SettleKeepsHeldOnce(q, w, id, at);
    case _ =>
  }

  lemma SettleKeepsHeldOnce(q: Queue, w: Worker, id: Id, at: Instant)
    requires HeldOnce(q)
    ensures HeldOnce(Settled(q, w, id, at))
  {
    var r := Settled(q, w, id, at);
    if (w, id) in q.hands && !q.hands[(w, id)].phase.Fresh? {
      assert forall k :: k in r.hands ==> k in q.hands && k != (w, id);
      assert forall k :: k in r.hands ==> k.1 != id;
    }
  }

  predicate NoStaleReads(q: Queue, steps: seq<Step>) {
    steps == [] ||
    (NoStaleReads(q, steps[..|steps| - 1]) && NoStaleRead(Run(q, steps[..|steps| - 1]), steps[|steps| - 1]))
  }

  /** Without such reads too, however slow a worker is, no job is given up after it left the live queue. */
  lemma {:induction false} RunKeepsHeldOnce(steps: seq<Step>)
    requires NoStaleReads(EMPTY, steps)
    ensures HeldOnce(Run(EMPTY, steps)) && NeverFailsGone(steps)
  {
    if steps != [] {
      RunKeepsHeldOnce(steps[..|steps| - 1]);
      StepKeepsHeldOnce(Run(EMPTY, steps[..|steps| - 1]), steps[|steps| - 1]);
    }
  }

  // ----- Settling in time -----

  /** Reads and settlements take effect in the order of the database's clock, and a settlement less than
      `limit` after its copy was read. */
  predicate Within(q: Queue, s: Step, now: Instant, limit: int) {
    match s
    case Read(_, _, at) => now <= at
    case Settle(w, id, at) => now <= at && ((w, id) in q.hands ==> at < q.hands[(w, id)].readAt + limit)
    case _ => true
  }

  function ClockAfter(s: Step, now: Instant): Instant {
    match s
    case Read(_, _, at) => at
    case Settle(_, _, at) => at
    case _ => now
  }

  function Clocked(steps: seq<Step>, now: Instant): Instant {
    if steps == [] then now else ClockAfter(steps[|steps| - 1], Clocked(steps[..|steps| - 1], now))
  }

  predicate WithinRun(q: Queue, steps: seq<Step>, now: Instant, limit: int) {
    steps == [] ||
    (WithinRun(q, steps[..|steps| - 1], now, limit) &&
     Within(Run(q, steps[..|steps| - 1]), steps[|steps| - 1], Clocked(steps[..|steps| - 1], now), limit))
  }

  predicate Current(q: Queue, k: (Worker, Id), now: Instant) {
    k in q.hands && now < q.hands[k].readAt + HIDDEN
  }

  /** A copy read less than a minute ago is the only such copy of its job, which is live and hidden until
      that minute is over. */
  ghost predicate OneCurrentCopy(q: Queue, now: Instant) {
    && (forall k :: Current(q, k, now) ==> k.1 in q.live && q.live[k.1].visibleAt == q.hands[k].readAt + HIDDEN)
    && (forall k, l :: Current(q, k, now) && Current(q, l, now) && k.1 == l.1 ==> k == l)
  }

  lemma StepKeepsOneCurrentCopy(q: Queue, s: Step, now: Instant, limit: int)
    requires Conserved(q) && OneCurrentCopy(q, now) && Within(q, s, now, limit) && limit <= HIDDEN
    ensures OneCurrentCopy(Next(q, s), ClockAfter(s, now)) && !FailsGoneJob(q, s)
  {
    match s
    case Settle(w, id, at) => SettleKeepsOneCurrentCopy(q, w, id, at, now, limit);
    case Read(w, id, at) => ReadKeepsOneCurrentCopy(q, w, id, at, now);
    case _ => assert forall k :: Current(Next(q, s), k, now) ==> Current(q, k, now);
  }

  lemma ReadKeepsOneCurrentCopy(q: Queue, w: Worker, id: Id, at: Instant, now: Instant)
    requires OneCurrentCopy(q, now) && now <= at
    ensures OneCurrentCopy(Take(q, w, id, at), at)
  {
    assert forall k :: Current(Take(q, w, id, at), k, at) && k.1 != id ==> Current(q, k, now);
    assert forall k :: Current(q, k, at) ==> Current(q, k, now);
  }

  lemma SettleKeepsOneCurrentCopy(q: Queue, w: Worker, id: Id, at: Instant, now: Instant, limit: int)
    requires OneCurrentCopy(q, now) && Within(q, Settle(w, id, at), now, limit) && limit <= HIDDEN
    ensures OneCurrentCopy(Settled(q, w, id, at), at) && !FailsGoneJob(q, Settle(w, id, at))
  {
    var r := Settled(q, w, id, at);
    SettleOnlyDrops(q, w, id, at);
    assert forall k :: Current(r, k, at) ==> Current(q, k, now);
    if (w, id) in q.hands && !q.hands[(w, id)].phase.Fresh? {
      assert Current(q, (w, id), now);
      assert forall k :: Current(r, k, at) ==> k.1 != id;
    }
  }

  /** Every job is in exactly one place, and will be given up only while it is live. */
  ghost predicate InPlace(q: Queue, now: Instant) {
    Conserved(q) && Apart(q) && OneCurrentCopy(q, now)
  }

  /** Main result: with any number of workers, crashes and redeliveries every job stays in exactly one place, as
      long as every settlement takes effect while its copy's minute lasts. */
  lemma {:induction false} RunKeepsInPlace(q: Queue, steps: seq<Step>, now: Instant, limit: int)
    requires InPlace(q, now) && WithinRun(q, steps, now, limit) && limit <= HIDDEN
    ensures InPlace(Run(q, steps), Clocked(steps, now))
  {
    hide Conserved, Apart, OneCurrentCopy, Within, Next, ClockAfter;
    if steps != [] {
      var before, s := steps[..|steps| - 1], steps[|steps| - 1];
      RunKeepsInPlace(q, before, now, limit);
      StepConserves(Run(q, before), s);
      StepKeepsOneCurrentCopy(Run(q, before), s, Clocked(before, now), limit);
      StepApartExactly(Run(q, before), s);
    }
  }

  /** In particular from the empty queue. */
  lemma RunKeepsOnePlace(steps: seq<Step>, now: Instant, limit: int)
    requires WithinRun(EMPTY, steps, now, limit) && limit <= HIDDEN
    ensures Conserved(Run(EMPTY, steps)) && Apart(Run(EMPTY, steps))
  {
    RunKeepsInPlace(EMPTY, steps, now, limit);
  }

  lemma LaterInPlace(q: Queue, now: Instant, later: Instant)
    requires InPlace(q, now) && now <= later
    ensures InPlace(q, later)
  {
    hide Conserved, Apart;
    assert forall k :: Current(q, k, later) ==> Current(q, k, now);
  }

  /** Main result: and a minute is exactly what it takes; any later limit lets some run break it. */
  lemma OnePlaceNeedsTheMinute(limit: int)
    ensures (forall steps, now :: WithinRun(EMPTY, steps, now, limit) ==> Apart(Run(EMPTY, steps))) <==>
            limit <= 60 * SECOND
  {
    if limit <= HIDDEN {
      forall steps, now | WithinRun(EMPTY, steps, now, limit)
        ensures Apart(Run(EMPTY, steps))
      {
        RunKeepsOnePlace(steps, now, limit);
      }
    } else {
      StaleCopyDuplicates(limit);
    }
  }

  lemma NoneWithin(q: Queue, now: Instant, limit: int)
    ensures WithinRun(q, [], now, limit) && Clocked([], now) == now
  {
  }

  lemma OneWithin(q: Queue, s: Step, now: Instant, limit: int)
    ensures WithinRun(q, [s], now, limit) <==> Within(q, s, now, limit)
    ensures Clocked([s], now) == ClockAfter(s, now)
  {
    assert [s][..0] == [];
    hide Within, ClockAfter;
  }

  lemma {:induction false} EarlierStart(q: Queue, steps: seq<Step>, earlier: Instant, now: Instant, limit: int)
    requires WithinRun(q, steps, now, limit) && earlier <= now
    ensures WithinRun(q, steps, earlier, limit) && Clocked(steps, earlier) <= Clocked(steps, now)
  {
    if steps != [] {
      EarlierStart(q, steps[..|steps| - 1], earlier, now, limit);
    }
  }

  lemma {:induction false} RunAppends(q: Queue, a: seq<Step>, b: seq<Step>, now: Instant, limit: int)
    ensures Run(q, a + b) == Run(Run(q, a), b) && Clocked(a + b, now) == Clocked(b, Clocked(a, now))
    ensures WithinRun(q, a + b, now, limit) <==>
            WithinRun(q, a, now, limit) && WithinRun(Run(q, a), b, Clocked(a, now), limit)
  {
    hide Next, Within, ClockAfter;
    if b == [] {
      assert a + b == a;
    } else {
      assert (a + b)[..|a + b| - 1] == a + b[..|b| - 1];
      RunAppends(q, a, b[..|b| - 1], now, limit);
    }
  }

  // ----- What a job's place says about its handling -----

  /** The step archives a live job whose held copy was handled successfully. */
  predicate Archives(q: Queue, s: Step, id: Id) {
    s.Settle? && s.id == id && id in q.live && (s.worker, id) in q.hands && q.hands[(s.worker, id)].phase.Succeeded?
  }

  /** The step gives up a job whose copy failed on its eighth or a later read. */
  predicate GivesUp(q: Queue, s: Step, id: Id) {
    s.Settle? && s.id == id && (s.worker, id) in q.hands && q.hands[(s.worker, id)].phase.Failed? &&
    q.hands[(s.worker, id)].readCount >= LAST_READ
  }

  ghost predicate Archived(steps: seq<Step>, id: Id) {
    exists n :: 0 <= n < |steps| && Archives(Run(EMPTY, steps[..n]), steps[n], id)
  }

  ghost predicate GivenUp(steps: seq<Step>, id: Id) {
    exists n :: 0 <= n < |steps| && GivesUp(Run(EMPTY, steps[..n]), steps[n], id)
  }

  lemma StepTellsOutcome(q: Queue, s: Step, id: Id)
    ensures var r := Next(q, s);
            && (id in r.archive || id in r.purged <==> id in q.archive || id in q.purged || Archives(q, s, id))
            && (InFailed(r, id) <==> InFailed(q, id) || GivesUp(q, s, id))
  {
    OnlyAdds(q, s);
    var r := Next(q, s);
    if GivesUp(q, s, id) {
      assert r.failed[|q.failed|].origin == id;
    }
    if InFailed(q, id) {
      var i :| 0 <= i < |q.failed| && q.failed[i].origin == id;
      assert r.failed[i].origin == id;
    }
  }

  /** Main result: in every run the archived jobs, purged ones included, are exactly those that a worker
      settled after handling them successfully while they were live, and the failed jobs exactly those that
      a worker gave up after a failed eighth or later read. */
  lemma {:induction false} PlacesTellOutcomes(steps: seq<Step>, id: Id)
    ensures var q := Run(EMPTY, steps);
            && (id in q.archive || id in q.purged <==> Archived(steps, id))
            && (InFailed(q, id) <==> GivenUp(steps, id))
  {
    if steps != [] {
      var n := |steps| - 1;
      var before := steps[..n];
      PlacesTellOutcomes(before, id);
      StepTellsOutcome(Run(EMPTY, before), steps[n], id);
      hide Next, Archives, GivesUp, InFailed;
      assert forall i :: 0 <= i < n ==> before[..i] == steps[..i] && before[i] == steps[i];
      OneMoreStep(steps, id);
    }
  }

  lemma OneMoreStep(steps: seq<Step>, id: Id)
    requires steps != []
    ensures var n := |steps| - 1;
            && (Archived(steps, id) <==> Archived(steps[..n], id) || Archives(Run(EMPTY, steps[..n]), steps[n], id))
            && (GivenUp(steps, id) <==> GivenUp(steps[..n], id) || GivesUp(Run(EMPTY, steps[..n]), steps[n], id))
  {
    hide Run, Archives, GivesUp;
    var n := |steps| - 1;
    var before := steps[..n];
    assert forall i :: 0 <= i < n ==> before[..i] == steps[..i] && before[i] == steps[i];
    if i :| 0 <= i < n && Archives(Run(EMPTY, before[..i]), before[i], id) {
      assert Archives(Run(EMPTY, steps[..i]), steps[i], id);
    }
    if i :| 0 <= i < n && GivesUp(Run(EMPTY, before[..i]), before[i], id) {
      assert GivesUp(Run(EMPTY, steps[..i]), steps[i], id);
    }
    if i :| 0 <= i < |steps| && Archives(Run(EMPTY, steps[..i]), steps[i], id) {
      assert i < n ==> Archives(Run(EMPTY, before[..i]), before[i], id);
    }
    if i :| 0 <= i < |steps| && GivesUp(Run(EMPTY, steps[..i]), steps[i], id) {
      assert i < n ==> GivesUp(Run(EMPTY, before[..i]), before[i], id);
    }
  }

  /** A run in which workers also follow the clock, from zero. */
  ghost predicate Orderly(steps: seq<Step>, limit: int) {
    TimelyRun(EMPTY, steps) && WithinRun(EMPTY, steps, 0, limit)
  }

  lemma Extend(steps: seq<Step>, s: Step, limit: int)
    requires Orderly(steps, limit) && Timely(Run(EMPTY, steps), s)
    requires Within(Run(EMPTY, steps), s, Clocked(steps, 0), limit)
    ensures Orderly(steps + [s], limit)
    ensures Run(EMPTY, steps + [s]) == Next(Run(EMPTY, steps), s)
    ensures Clocked(steps + [s], 0) == ClockAfter(s, Clocked(steps, 0))
  {
    assert (steps + [s])[..|steps|] == steps;
  }

  lemma FirstEnqueue(payload: Payload, limit: int) returns (steps: seq<Step>)
    ensures Orderly(steps, limit) && Clocked(steps, 0) == 0
    ensures Run(EMPTY, steps) == Queue(map[0 := Job(payload, 0, SECOND, 0)], map[], map[], {}, [], 1)
  {
    steps := [];
    Extend(steps, Enqueue(payload, 0, 0), limit);
    steps := steps + [Enqueue(payload, 0, 0)];
  }

  /** The only job after worker 1 has read it n times. */
  function ReadTimes(payload: Payload, n: nat): Queue {
    if n == 0 then Queue(map[0 := Job(payload, 0, SECOND, 0)], map[], map[], {}, [], 1)
    else
      Queue(map[0 := Job(payload, 0, n * MINUTE + SECOND, n)],
            map[(1, 0) := Hand(payload, 0, n, (n - 1) * MINUTE + SECOND, Fresh)], map[], {}, [], 1)
  }

  lemma ReadOnce(payload: Payload, n: nat)
    ensures Next(ReadTimes(payload, n), Read(1, 0, n * MINUTE + SECOND)) == ReadTimes(payload, n + 1)
  {
  }

  /** Worker 1 reads the only job n times, each time dropping the copy it held. */
  lemma {:induction false} ReadAgain(payload: Payload, n: nat, limit: int) returns (steps: seq<Step>)
    ensures Orderly(steps, limit) && Run(EMPTY, steps) == ReadTimes(payload, n)
    ensures Clocked(steps, 0) <= n * MINUTE
  {
    hide Next, ReadTimes, Run, Orderly, Clocked;
    if n == 0 {
      steps := FirstEnqueue(payload, limit);
      assert ReadTimes(payload, n) == Run(EMPTY, steps) by { NotReadYet(payload); }
    } else {
      steps := ReadAgain(payload, n - 1, limit);
      ReadOnce(payload, n - 1);
      Extend(steps, Read(1, 0, (n - 1) * MINUTE + SECOND), limit);
      steps := steps + [Read(1, 0, (n - 1) * MINUTE + SECOND)];
    }
  }

  lemma NotReadYet(payload: Payload)
    ensures ReadTimes(payload, 0) == Queue(map[0 := Job(payload, 0, SECOND, 0)], map[], map[], {}, [], 1)
  {
  }

  /** The moment at which the minute of worker 1's eighth copy is over. */
  const OVER: Instant := 8 * MINUTE + SECOND

  lemma StaleHandle(limit: int) returns (steps: seq<Step>)
    ensures Orderly(steps, limit) && Clocked(steps, 0) == OVER
    ensures var q := Run(EMPTY, steps);
            q.hands == map[(1, 0) := Hand(Unrecognised, 0, 8, OVER - MINUTE, Fresh),
                           (2, 0) := Hand(Unrecognised, 0, 9, OVER, Succeeded)] &&
            0 in q.live && q.failed == []
  {
    hide Orderly, Clocked;
    steps := ReadAgain(Unrecognised, 8, limit);
    Extend(steps, Read(2, 0, OVER), limit);
    steps := steps + [Read(2, 0, OVER)];
    assert Run(EMPTY, steps).hands[(2, 0)].readAt == OVER;
    Extend(steps, Handle(2, 0, OVER, true), limit);
    steps := steps + [Handle(2, 0, OVER, true)];
  }

  lemma StaleArchive(limit: int) returns (steps: seq<Step>)
    requires limit > 0
    ensures Orderly(steps, limit) && Clocked(steps, 0) == OVER
    ensures var q := Run(EMPTY, steps);
            q.hands == map[(1, 0) := Hand(Unrecognised, 0, 8, OVER - MINUTE, Fresh)] &&
            0 in q.archive && q.failed == []
  {
    hide Orderly, Clocked;
    steps := StaleHandle(limit);
    Extend(steps, Settle(2, 0, OVER), limit);
    steps := steps + [Settle(2, 0, OVER)];
  }

  /** With any longer limit it fails: the eighth copy of a job is settled at the very moment its minute is
      over, just after another worker has handled and archived the ninth, and the job is both archived and
      failed. */
  lemma StaleCopyDuplicates(limit: int)
    requires limit > HIDDEN
    ensures exists steps :: TimelyRun(EMPTY, steps) && WithinRun(EMPTY, steps, 0, limit) && !Apart(Run(EMPTY, steps))
  {
    var steps := StaleArchive(limit);
    hide Clocked;
    Extend(steps, Handle(1, 0, OVER, false), limit);
    steps := steps + [Handle(1, 0, OVER, false)];
    Extend(steps, Settle(1, 0, OVER), limit);
    steps := steps + [Settle(1, 0, OVER)];
    assert Run(EMPTY, steps).failed[0].origin == 0;
  }

  // ----- Retries are bounded -----

  /** The step returns a failed copy of job j to the queue. */
  predicate Retries(q: Queue, s: Step, j: Id) {
    s.Settle? && s.id == j && (s.worker, j) in q.hands && q.hands[(s.worker, j)].phase.Failed? &&
    q.hands[(s.worker, j)].readCount < LAST_READ
  }

  function RetryCount(steps: seq<Step>, j: Id): nat {
    if steps == [] then 0
    else
      var before := steps[..|steps| - 1];
      RetryCount(before, j) + (if Retries(Run(EMPTY, before), steps[|steps| - 1], j) then 1 else 0)
  }

  /** Held copies of job j that could still be retried. */
  function Pending(q: Queue, j: Id): set<(Worker, Id)> {
    set k | k in q.hands && k.1 == j && q.hands[k].readCount < LAST_READ
  }

  function Bound(q: Queue, j: Id): int {
    if j !in q.live then if j < q.next then LAST_READ - 1 else 0
    else if q.live[j].readCount < LAST_READ then q.live[j].readCount
    else LAST_READ - 1
  }

  lemma SubsetSize<T>(a: set<T>, b: set<T>)
    requires a <= b
    ensures |a| <= |b|
  {
    assert b == a + (b - a);
  }

  lemma StepKeepsRetryBudget(q: Queue, s: Step, j: Id, spent: nat)
    requires Conserved(q)
    requires spent + |Pending(q, j)| <= Bound(q, j)
    ensures spent + (if Retries(q, s, j) then 1 else 0) + |Pending(Next(q, s), j)| <= Bound(Next(q, s), j)
  {
    match s
    case Read(w, id, at) => ReadKeepsRetryBudget(q, w, id, at, j);
    case Settle(w, id, at) => SettleKeepsRetryBudget(q, w, id, at, j);
    case _ => SubsetSize(Pending(Next(q, s), j), Pending(q, j));
  }

  lemma ReadKeepsRetryBudget(q: Queue, w: Worker, id: Id, at: Instant, j: Id)
    ensures |Pending(Take(q, w, id, at), j)| - |Pending(q, j)| <= Bound(Take(q, w, id, at), j) - Bound(q, j)
  {
    var r := Take(q, w, id, at);
    if id == j && id in q.live && q.live[id].visibleAt <= at && q.live[id].readCount + 1 < LAST_READ {
      SubsetSize(Pending(r, j), Pending(q, j) + {(w, j)});
    } else {
      SubsetSize(Pending(r, j), Pending(q, j));
    }
  }

  lemma SettleKeepsRetryBudget(q: Queue, w: Worker, id: Id, at: Instant, j: Id)
    requires Conserved(q)
    requires |Pending(q, j)| <= Bound(q, j)
    ensures var r := Settled(q, w, id, at);
            |Pending(r, j)| + (if Retries(q, Settle(w, id, at), j) then 1 else 0) <= |Pending(q, j)| &&
            Bound(r, j) >= Bound(q, j)
  {
    var r := Settled(q, w, id, at);
    SettleOnlyDrops(q, w, id, at);
    if Retries(q, Settle(w, id, at), j) {
      assert Pending(q, j) == Pending(r, j) + {(w, j)};
    } else {
      SubsetSize(Pending(r, j), Pending(q, j));
    }
  }

  lemma SettleOnlyDrops(q: Queue, w: Worker, id: Id, at: Instant)
    ensures var r := Settled(q, w, id, at);
            && (forall k :: k in r.hands ==> k in q.hands && r.hands[k] == q.hands[k])
            && ((w, id) in q.hands && !q.hands[(w, id)].phase.Fresh? ==> r.hands == q.hands - {(w, id)})
            && (forall j :: j in r.live ==> j in q.live && r.live[j].readCount == q.live[j].readCount)
            && r.next == q.next
  {
  }

  lemma {:induction false} RetryBudget(steps: seq<Step>, j: Id)
    ensures RetryCount(steps, j) + |Pending(Run(EMPTY, steps), j)| <= Bound(Run(EMPTY, steps), j)
  {
    if steps == [] {
      assert Pending(EMPTY, j) == {};
    } else {
      var before := steps[..|steps| - 1];
      RetryBudget(before, j);
      RunConserves(before);
      StepKeepsRetryBudget(Run(EMPTY, before), steps[|steps| - 1], j, RetryCount(before, j));
    }
  }

  /** Main result: with any number of workers, crashes and redeliveries a job is returned to the queue
      at most seven times, and settling a failed copy from its eighth or a later read removes it. */
  lemma RetriesAreBounded(steps: seq<Step>, j: Id, w: Worker, at: Instant)
    ensures RetryCount(steps, j) <= 7
    ensures var q := Run(EMPTY, steps);
            (w, j) in q.hands && q.hands[(w, j)].phase.Failed? && q.hands[(w, j)].readCount >= 8 ==>
            j !in Settled(q, w, j, at).live && InFailed(Settled(q, w, j, at), j)
  {
    RetryBudget(steps, j);
    var q := Run(EMPTY, steps);
    if (w, j) in q.hands && q.hands[(w, j)].phase.Failed? && q.hands[(w, j)].readCount >= LAST_READ {
      assert Settled(q, w, j, at).failed[|q.failed|].origin == j;
    }
  }

  /** The step settles a failed copy of job j. */
  predicate Fails(q: Queue, s: Step, j: Id) {
    s.Settle? && s.id == j && (s.worker, j) in q.hands && q.hands[(s.worker, j)].phase.Failed?
  }

  function FailureCount(steps: seq<Step>, j: Id): nat {
    if steps == [] then 0
    else
      var before := steps[..|steps| - 1];
      FailureCount(before, j) + (if Fails(Run(EMPTY, before), steps[|steps| - 1], j) then 1 else 0)
  }

  /** A given-up job never returns to the live queue. */
  lemma {:induction false} FailedStaysGone(steps: seq<Step>, j: Id)
    ensures var q := Run(EMPTY, steps); InFailed(q, j) ==> j !in q.live
    ensures FailureCount(steps, j) > RetryCount(steps, j) ==> InFailed(Run(EMPTY, steps), j)
  {
    if steps != [] {
      var before, s := steps[..|steps| - 1], steps[|steps| - 1];
      FailedStaysGone(before, j);
      RunConserves(before);
      StepTellsOutcome(Run(EMPTY, before), s, j);
      GoneStaysGone(Run(EMPTY, before), s, j);
      hide Next, InFailed, Conserved;
    }
  }

  lemma GoneStaysGone(q: Queue, s: Step, j: Id)
    requires Conserved(q)
    ensures j in Next(q, s).live ==> j in q.live || !InFailed(q, j)
    ensures GivesUp(q, s, j) ==> j !in Next(q, s).live
    ensures !InFailed(q, j) && !GivesUp(q, s, j) ==> !InFailed(Next(q, s), j)
  {
    StepTellsOutcome(q, s, j);
  }

  lemma {:induction false} FailuresStay(steps: seq<Step>, more: seq<Step>, j: Id)
    ensures FailureCount(steps + more, j) >= FailureCount(steps, j)
  {
    if more == [] {
      assert steps + more == steps;
    } else {
      assert (steps + more)[..|steps + more| - 1] == steps + more[..|more| - 1];
      FailuresStay(steps, more[..|more| - 1], j);
    }
  }

  /** Main result: a job of which eight copies were settled as failed, by whatever workers, is not live at
      that time or at any later one; it has been given up. */
  lemma EightFailuresAreFinal(steps: seq<Step>, more: seq<Step>, j: Id)
    requires FailureCount(steps, j) >= 8
    ensures var q := Run(EMPTY, steps + more); j !in q.live && InFailed(q, j)
  {
    FailuresStay(steps, more, j);
    RetryBudget(steps + more, j);
    FailedStaysGone(steps + more, j);
  }

  /** A read hides a job from everybody for sixty seconds and no longer, and counts. */
  lemma ReadHidesAMinute(q: Queue, w: Worker, j: Id, at: Instant, reader: Worker, later: Instant)
    requires j in q.live && q.live[j].visibleAt <= at
    ensures var r := Take(q, w, j, at);
            && j in r.live && r.live[j].readCount == q.live[j].readCount + 1 && (w, j) in r.hands
            && r.hands[(w, j)] == Hand(q.live[j].payload, q.live[j].due, q.live[j].readCount + 1, at, Fresh)
            && (Take(r, reader, j, later) != r <==> at + 60 * SECOND <= later)
  {
    var r := Take(q, w, j, at);
    if at + 60 * SECOND <= later {
      assert Take(r, reader, j, later).live[j] != r.live[j];
    }
  }

  /** A worker that dies loses the copies it held and nothing else happens to the queue. */
  lemma CrashLosesCopies(q: Queue, w: Worker, k: (Worker, Id))
    ensures var r := Dropped(q, w);
            && (k in r.hands <==> k in q.hands && k.0 != w) && (k in r.hands ==> r.hands[k] == q.hands[k])
            && r == q.(hands := r.hands)
  {
  }

  /** An archived job is kept for seven days and purged after that, when the sweep comes by. */
  lemma ArchiveKeepsAWeek(q: Queue, at: Instant, j: Id)
    requires j in q.archive
    ensures if q.archive[j] + 7 * DAY < at then j !in Cleaned(q, at).archive && j in Cleaned(q, at).purged
            else j in Cleaned(q, at).archive && Cleaned(q, at).archive[j] == q.archive[j]
  {
  }

  /** A job returned to the queue after a failed copy cannot be read again by anybody before the retry delay
      of that copy's read count is over, and can from then on. */
  lemma RetryWaits(q: Queue, w: Worker, j: Id, at: Instant, reader: Worker, later: Instant)
    requires Retries(q, Settle(w, j, at), j) && j in q.live
    ensures var r, h := Settled(q, w, j, at), q.hands[(w, j)];
            && (Take(r, reader, j, later) != r <==> at + RetryDelay(h.readCount) * SECOND <= later)
            && (Take(r, reader, j, later) != r ==>
                Take(r, reader, j, later).live[j].readCount == q.live[j].readCount + 1)
  {
    hide RetryDelay;
  }

  /** Delays double from five seconds; the hour's cap is only reached from the tenth read on, which
      a failed copy that is retried never has. */
  lemma RetryDelays(readCount: nat)
    ensures RetryDelay(0) == 5
    ensures RetryDelay(readCount + 1) == if 2 * RetryDelay(readCount) < 3600 then 2 * RetryDelay(readCount) else 3600
    ensures RetryDelay(readCount) <= 3600
    ensures readCount < LAST_READ ==> RetryDelay(readCount) <= 640
    ensures RetryDelay(readCount) == 3600 <==> readCount >= 10
  {
    assert Power2(0) == 1;
    assert Power2(1) == 2;
    assert Power2(2) == 4;
    assert Power2(3) == 8;
    assert Power2(4) == 16;
    assert Power2(5) == 32;
    assert Power2(6) == 64;
    assert Power2(7) == 128;
    assert Power2(8) == 256;
    assert Power2(9) == 512;
    assert Power2(10) == 1024;
  }
}
