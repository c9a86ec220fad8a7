/** No timer is lost: a stored request always has a job that will call its expiry. */
module Timers {
  import opened Prelude
  import opened Records
  import opened Operations
  import opened Accepted
  import opened Machine
  import Jobs

  /** A live job for this payload and instant that no worker has handled successfully. */
  ghost predicate Unconsumed(q: Jobs.Queue, j: Id, payload: Jobs.Payload, due: Instant) {
    && j in q.live && q.live[j].payload == payload && q.live[j].due == due
    && (forall k :: k in q.hands && k.1 == j ==> !q.hands[k].phase.Succeeded?)
  }

  predicate GivenUp(q: Jobs.Queue, payload: Jobs.Payload, due: Instant) {
    exists i :: 0 <= i < |q.failed| && q.failed[i].payload == payload && q.failed[i].due == due
  }

  ghost predicate Covered(q: Jobs.Queue, payload: Jobs.Payload, due: Instant) {
    (exists j :: Unconsumed(q, j, payload, due)) || GivenUp(q, payload, due)
  }

  ghost predicate TimersCover(st: Store) {
    forall id :: id in st.records && st.records[id].status.Requested? ==>
      Covered(st.queue, Timer(id, st.records[id]), st.records[id].expiresAt)
  }

  lemma PutKeepsCovered(q: Jobs.Queue, p: Jobs.Payload, d: Instant, sentAt: Instant, payload: Jobs.Payload,
                        due: Instant)
    requires Jobs.NeverEarly(q) && Covered(q, payload, due)
    ensures Covered(Jobs.Put(q, p, d, sentAt), payload, due)
  {
    var r := Jobs.Put(q, p, d, sentAt);
    if GivenUp(q, payload, due) {
      assert r.failed == q.failed;
    } else {
      var j :| Unconsumed(q, j, payload, due);
      assert Unconsumed(r, j, payload, due);
    }
  }

  lemma PutCovers(q: Jobs.Queue, payload: Jobs.Payload, due: Instant, sentAt: Instant)
    requires Jobs.NeverEarly(q)
    ensures Covered(Jobs.Put(q, payload, due, sentAt), payload, due)
  {
    assert Unconsumed(Jobs.Put(q, payload, due, sentAt), q.next, payload, due);
  }

  lemma CreateKeepsTimers(st: Store, t: Readings, c: Command, w: Writes)
    requires Jobs.NeverEarly(st.queue) && TimersCover(st) && CreateFacts(st, t, c, w)
    ensures TimersCover(Apply(st, w))
  {
    hide Answer, TooMany, CreatedDetail, Jobs.NeverEarly, Covered, Jobs.Put;
    SentKeepsTimers(st, w);
  }

  /** Writing a row with its timer covers it and uncovers nobody. */
  lemma SentKeepsTimers(st: Store, w: Writes)
    requires Jobs.NeverEarly(st.queue) && TimersCover(st) && w.timer == Some(w.record.expiresAt)
    ensures TimersCover(Apply(st, w))
  {
    hide Jobs.NeverEarly, Covered, Jobs.Put;
    var after := Apply(st, w);
    forall id | id in after.records && after.records[id].status.Requested?
      ensures Covered(after.queue, Timer(id, after.records[id]), after.records[id].expiresAt)
    {
      if id == w.id {
        PutCovers(st.queue, Timer(id, w.record), w.record.expiresAt, w.sentAt);
      } else {
        PutKeepsCovered(st.queue, Timer(w.id, w.record), w.timer.value, w.sentAt, Timer(id, st.records[id]),
                        st.records[id].expiresAt);
      }
    }
  }

  /** Without a timer the row must be as due as before, or settled. */
  lemma QuietKeepsTimers(st: Store, w: Writes)
    requires TimersCover(st) && w.timer.None?
    requires w.record.status.Requested? ==>
               w.id in st.records && st.records[w.id].status.Requested? &&
               st.records[w.id].expiresAt == w.record.expiresAt && ModuleOf(st.records[w.id]) == ModuleOf(w.record)
    ensures TimersCover(Apply(st, w))
  {
    hide Covered;
  }

  lemma ChangeKeepsTimers(st: Store, t: Readings, c: Command, w: Writes)
    requires Jobs.NeverEarly(st.queue) && TimersCover(st) && ChangeFacts(st, t, c, w)
    ensures TimersCover(Apply(st, w))
  {
    hide Answer, Overlaps, Holding, LinesOf, TimersCover, Jobs.NeverEarly;
    if w.timer.Some? {
      SentKeepsTimers(st, w);
    } else {
      QuietKeepsTimers(st, w);
    }
  }

  // ----- Workers -----

  /** A worker may report success on a timer only when the timer's instant is not this one. */
  lemma MarkKeepsCovered(q: Jobs.Queue, w: Jobs.Worker, j: Id, ok: bool, payload: Jobs.Payload, due: Instant)
    requires Jobs.NeverEarly(q) && Covered(q, payload, due)
    requires ok && (w, j) in q.hands ==> q.hands[(w, j)].payload != payload || q.hands[(w, j)].due != due
    ensures Covered(Jobs.Marked(q, w, j, ok), payload, due)
  {
    var r := Jobs.Marked(q, w, j, ok);
    if GivenUp(q, payload, due) {
      assert r.failed == q.failed;
    } else {
      var i :| Unconsumed(q, i, payload, due);
      assert Unconsumed(r, i, payload, due);
    }
  }

  lemma ExpiryKeepsTimers(st: Store, m: Module, id: Id, at: Instant, fault: bool, hand: Option<(Jobs.Worker, Id)>)
    requires Jobs.NeverEarly(st.queue) && TimersCover(st)
    requires hand.Some? ==>
               hand.value in st.queue.hands && var h := st.queue.hands[hand.value];
               h.payload == Jobs.ExpireRequest(id, m.Preorders?) && h.readAt <= at
    ensures TimersCover(AfterExpiry(st, m, id, at, fault, hand))
  {
    LapseKeepsTimers(st, m, id, at, fault);
    if hand.Some? {
      var h := st.queue.hands[hand.value];
      assert h.due <= at;
      hide Jobs.NeverEarly, TimersCover, Lapsed, Jobs.Marked, ExpiryOutcome;
      ReportKeepsTimers(Lapsed(st, m, id, at, fault), m, id, at, hand.value.0, hand.value.1,
                        ExpiryOutcome(st, m, id, at, fault).Ok?);
    }
  }

  /** A worker that was told the expiry succeeded holds the timer of no request that is still waiting. */
  lemma ReportKeepsTimers(st: Store, m: Module, id: Id, at: Instant, w: Jobs.Worker, j: Id, ok: bool)
    requires Jobs.NeverEarly(st.queue) && TimersCover(st)
    requires (w, j) in st.queue.hands && var h := st.queue.hands[(w, j)];
             h.payload == Jobs.ExpireRequest(id, m.Preorders?) && h.due <= at
    requires ok ==> id in st.records && ModuleOf(st.records[id]) == m &&
                    (st.records[id].status.Requested? ==> at < st.records[id].expiresAt)
    ensures TimersCover(st.(queue := Jobs.Marked(st.queue, w, j, ok)))
  {
    hide Jobs.NeverEarly, Covered, Jobs.Marked;
    forall i | i in st.records && st.records[i].status.Requested?
      ensures Covered(Jobs.Marked(st.queue, w, j, ok), Timer(i, st.records[i]), st.records[i].expiresAt)
    {
      MarkKeepsCovered(st.queue, w, j, ok, Timer(i, st.records[i]), st.records[i].expiresAt);
    }
  }

  /** After the expiry transaction the request is settled or not yet due. */
  lemma LapseKeepsTimers(st: Store, m: Module, id: Id, at: Instant, fault: bool)
    requires TimersCover(st)
    ensures var after := Lapsed(st, m, id, at, fault);
            && TimersCover(after) && after.queue == st.queue
            && (ExpiryOutcome(st, m, id, at, fault).Ok? ==>
                  id in after.records && ModuleOf(after.records[id]) == m &&
                  (after.records[id].status.Requested? ==> at < after.records[id].expiresAt))
  {
    hide Covered;
  }

  lemma ReadKeepsCovered(q: Jobs.Queue, w: Jobs.Worker, j: Id, at: Instant, payload: Jobs.Payload, due: Instant)
    requires Covered(q, payload, due)
    ensures Covered(Jobs.Take(q, w, j, at), payload, due)
  {
    var r := Jobs.Take(q, w, j, at);
    if GivenUp(q, payload, due) {
      assert r.failed == q.failed;
    } else {
      var i :| Unconsumed(q, i, payload, due);
      assert Unconsumed(r, i, payload, due);
    }
  }

  lemma SettleKeepsCovered(q: Jobs.Queue, w: Jobs.Worker, j: Id, at: Instant, payload: Jobs.Payload, due: Instant)
    requires Jobs.NeverEarly(q) && Covered(q, payload, due)
    ensures Covered(Jobs.Settled(q, w, j, at), payload, due)
  {
    var r := Jobs.Settled(q, w, j, at);
    if GivenUp(q, payload, due) {
      var i :| 0 <= i < |q.failed| && q.failed[i].payload == payload && q.failed[i].due == due;
      assert r.failed[i] == q.failed[i];
    } else {
      var i :| Unconsumed(q, i, payload, due);
      if i in r.live {
        assert Unconsumed(r, i, payload, due);
      } else {
        assert r.failed[|q.failed|] == Jobs.Failure(i, payload, due);
      }
    }
  }

  lemma DropKeepsCovered(q: Jobs.Queue, w: Jobs.Worker, payload: Jobs.Payload, due: Instant)
    requires Covered(q, payload, due)
    ensures Covered(Jobs.Dropped(q, w), payload, due)
  {
    var r := Jobs.Dropped(q, w);
    if GivenUp(q, payload, due) {
      assert r.failed == q.failed;
    } else {
      var i :| Unconsumed(q, i, payload, due);
      assert Unconsumed(r, i, payload, due);
    }
  }

  lemma CleanKeepsCovered(q: Jobs.Queue, at: Instant, payload: Jobs.Payload, due: Instant)
    requires Covered(q, payload, due)
    ensures Covered(Jobs.Cleaned(q, at), payload, due)
  {
    var r := Jobs.Cleaned(q, at);
    if GivenUp(q, payload, due) {
      assert r.failed == q.failed;
    } else {
      var i :| Unconsumed(q, i, payload, due);
      assert Unconsumed(r, i, payload, due);
    }
  }

  lemma WorkKeepsCovered(q: Jobs.Queue, s: Jobs.Step, payload: Jobs.Payload, due: Instant)
    requires Jobs.NeverEarly(q) && Covered(q, payload, due)
    requires payload.ExpireRequest? && (s.Handle? ==> !CallsExpiry(q, s.worker, s.id))
    ensures Covered(Jobs.Next(q, s), payload, due)
  {
    hide Covered, Jobs.Put, Jobs.Settled, Jobs.Take, Jobs.Dropped, Jobs.Cleaned, Jobs.Marked;
    match s
    case Enqueue(p, d, sentAt) => PutKeepsCovered(q, p, d, sentAt, payload, due);
    case Read(w, j, at) => ReadKeepsCovered(q, w, j, at, payload, due);
    case Handle(w, j, at, ok) => MarkKeepsCovered(q, w, j, ok, payload, due);
    case Settle(w, j, at) => SettleKeepsCovered(q, w, j, at, payload, due);
    case Crash(w) => DropKeepsCovered(q, w, payload, due);
    case Clean(at) => CleanKeepsCovered(q, at, payload, due);
  }

  lemma WorkKeepsTimers(st: Store, s: Jobs.Step)
    requires Jobs.NeverEarly(st.queue) && TimersCover(st)
    requires s.Handle? ==> !CallsExpiry(st.queue, s.worker, s.id)
    ensures TimersCover(st.(queue := Jobs.Next(st.queue, s)))
  {
    hide Covered, Jobs.Next, Jobs.NeverEarly, CallsExpiry;
    forall id | id in st.records && st.records[id].status.Requested?
      ensures Covered(Jobs.Next(st.queue, s), Timer(id, st.records[id]), st.records[id].expiresAt)
    {
      WorkKeepsCovered(st.queue, s, Timer(id, st.records[id]), st.records[id].expiresAt);
    }
  }
}
