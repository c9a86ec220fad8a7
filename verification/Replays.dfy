/** A repeated request is answered from the stored reply and has no second effect. */
module Replays {
  import opened Prelude
  import opened Records
  import opened Operations
  import opened Machine
  import opened Accepted
  import opened Reachable
  import Jobs

  predicate Holds(st: Store, k: ReplayKey, r: Replay) {
    k in st.replays && st.replays[k] == r
  }

  /** The step starts, or cleans, no later than this instant. */
  predicate Within(s: Step, until: Instant) {
    match s
    case Request(_, t) => t.began < until
    case CleanReplays(at) => at <= until
    case _ => true
  }

  /** Main result: two requests share a stored reply exactly when they send the same key, come from the staff, from
      visitors, or from the same customer alike, and both create in one module, or both edit, or both move along,
      the same record of it. */
  lemma KeysApart(c: Command, d: Command)
    ensures ScopeOf(c) == ScopeOf(d) <==>
            && c.key == d.key && c.caller == d.caller
            && (c.Create? <==> d.Create?)
            && (c.Create? ==> (c.body.NewVisit? <==> d.body.NewVisit?))
            && (c.Change? ==> c.module_ == d.module_ && c.id == d.id && (c.body.Edit? <==> d.body.Edit?))
  {
  }

  /** Main result: a stored reply answers until exactly a day after its transaction began; from then on requests
      with its key find none. */
  lemma ReplyLastsADay(zones: Zones, st: Store, t: Readings, c: Command, again: Command, u: Readings)
    requires Configured(st) && Decide(zones, st, t, c).Accept? && ScopeOf(again) == ScopeOf(c)
    ensures Configured(AfterRequest(zones, st, c, t))
    ensures var after := AfterRequest(zones, st, c, t); var k := ScopeOf(c);
            && k in after.replays
            && (Stored(after, again, u.began).Some? <==> u.began < t.began + 24 * 60 * MINUTE)
  {
    AcceptedReply(zones, st, t, c);
    RequestKeepsSettings(zones, st, c, t);
    hide Decide, ScopeOf, Jobs.Put, ValidSettings;
  }

  /** Cleaning deletes exactly the replies that have expired by then. */
  lemma CleaningIsExact(st: Store, at: Instant, k: ReplayKey)
    ensures var after := AfterCleaning(st, at);
            && (k in after.replays <==> k in st.replays && at <= st.replays[k].expiresAt)
            && (k in after.replays ==> after.replays[k] == st.replays[k])
            && after == st.(replays := after.replays)
  {
  }

  lemma AcceptedReply(zones: Zones, st: Store, t: Readings, c: Command)
    requires Configured(st) && Decide(zones, st, t, c).Accept?
    ensures var w := Decide(zones, st, t, c).writes;
            && w.reply.Some? && w.reply.value.0 == ScopeOf(c) && w.reply.value.1.body == c.body
            && w.reply.value.1.expiresAt == t.began + DAY && w.reply.value.1.response.record.version == w.record.version
  {
    hide Created, Changed, ScopeOf;
  }

  /** Main result: an accepted request is answered with the row and the history that it committed, the row
      shown as a reader would see it at that moment. */
  lemma ReplyShowsWhatWasStored(zones: Zones, st: Store, t: Readings, c: Command)
    requires Configured(st) && Decide(zones, st, t, c).Accept?
    ensures var after := AfterRequest(zones, st, c, t);
            && ScopeOf(c) in after.replays && c.id in after.records
            && var reply, stored := after.replays[ScopeOf(c)].response, after.records[c.id];
            && reply.id == c.id && reply.code == (if c.Create? then 201 else 200)
            && reply.record == stored.(status := Shown(stored, t.shown))
            && reply.history == HistoryOf(after, c.id)
  {
    hide ScopeOf, Jobs.Put, Shown;
    var w := Decide(zones, st, t, c).writes;
    if c.Create? {
      hide Created;
      assert w == CreateWrites(st, t, c, w.record);
      hide Decide;
    } else {
      ChangeIsOfStored(zones, st, t, c);
      hide Changed;
      assert w == ChangeWrites(st, t, c, w.record, w.charge);
      hide Decide;
      assert HistoryOf(st, c.id) + [] == HistoryOf(st, c.id);
    }
  }

  lemma ChangeIsOfStored(zones: Zones, st: Store, t: Readings, c: Command)
    requires c.Change? && Changed(zones, st, t, c).Ok?
    ensures c.id in st.records
  {
    hide ChangedVisit, ChangedOrder, Guarded, Consume;
  }

  /** While the reply is unexpired, its key gets it back or is refused; nothing is written either way. */
  lemma UnexpiredReplyAnswers(zones: Zones, st: Store, t: Readings, c: Command, r: Replay)
    requires Configured(st) && Holds(st, ScopeOf(c), r) && t.began < r.expiresAt
    ensures Decide(zones, st, t, c) == if r.body == c.body then Repeat(r.response) else Refuse(VersionConflict)
    ensures AfterRequest(zones, st, c, t) == st
  {
    hide Created, Changed, ScopeOf;
  }

  lemma RequestKeepsReply(zones: Zones, st: Store, c: Command, t: Readings, k: ReplayKey, r: Replay)
    requires Configured(st) && Holds(st, k, r) && t.began < r.expiresAt
    ensures Holds(AfterRequest(zones, st, c, t), k, r)
  {
    if ScopeOf(c) == k {
      UnexpiredReplyAnswers(zones, st, t, c, r);
    } else {
      hide Decide, ScopeOf;
      if Decide(zones, st, t, c).Accept? {
        AcceptedReply(zones, st, t, c);
      }
    }
  }

  lemma StepKeepsReply(zones: Zones, st: Store, s: Step, k: ReplayKey, r: Replay)
    requires Configured(st) && Holds(st, k, r) && Within(s, r.expiresAt)
    ensures Holds(StepStore(zones, st, s), k, r)
  {
    hide AfterRequest, AfterAdmin, AfterOpening, Jobs.Next, Jobs.Marked;
    match s
    case Request(c, t) => RequestKeepsReply(zones, st, c, t, k, r);
    case Administer(a) => AdminCase(st, a); AdminKeepsReplays(st, a);
    case OpenWindow(id, w) => OpeningCase(st, id, w);
    case _ =>
  }

  lemma AdminKeepsReplays(st: Store, a: Admin)
    ensures AfterAdmin(st, a).replays == st.replays
  {
    hide ValidSettings;
  }

  lemma {:induction false} RunKeepsReply(zones: Zones, sys: State, steps: seq<Step>, k: ReplayKey, r: Replay)
    requires Configured(sys.store) && Holds(sys.store, k, r)
    requires forall i :: 0 <= i < |steps| ==> Within(steps[i], r.expiresAt)
    ensures Holds(Run(zones, sys, steps).store, k, r)
  {
    if steps != [] {
      hide Holds, StepStore, Within;
      RunKeepsReply(zones, sys, steps[..|steps| - 1], k, r);
      StepKeepsReply(zones, Run(zones, sys, steps[..|steps| - 1]).store, steps[|steps| - 1], k, r);
    }
  }

  /** Main result: after an accepted request, whatever happens for a day counted from the start of its
      transaction, the same key returns that first response or is refused, and writes nothing. */
  lemma FirstAnswerStands(zones: Zones, sys: State, c: Command, t: Readings, steps: seq<Step>, again: Command,
                          u: Readings)
    requires Configured(sys.store) && Decide(zones, sys.store, t, c).Accept?
    requires forall i :: 0 <= i < |steps| ==> Within(steps[i], t.began + DAY)
    requires ScopeOf(again) == ScopeOf(c) && u.began < t.began + DAY
    ensures var first := Decide(zones, sys.store, t, c).writes.reply.value.1.response;
            Configured(StepOf(zones, sys, Request(c, t)).store) &&
            var st := Run(zones, StepOf(zones, sys, Request(c, t)), steps).store;
            && Decide(zones, st, u, again) == (if again.body == c.body then Repeat(first) else Refuse(VersionConflict))
            && AfterRequest(zones, st, again, u) == st
  {
    hide Decide, ScopeOf, Run, Configured, Within;
    AcceptedReply(zones, sys.store, t, c);
    StepKeepsConfigured(zones, sys.store, Request(c, t));
    var next := StepOf(zones, sys, Request(c, t));
    var r := Decide(zones, sys.store, t, c).writes.reply.value.1;
    assert Holds(next.store, ScopeOf(c), r);
    hide StepOf, AfterRequest, Holds;
    RunKeepsReply(zones, next, steps, ScopeOf(c), r);
    UnexpiredReplyAnswers(zones, Run(zones, next, steps).store, u, again, r);
  }
}
