/** What may be counted: confirmations against the plan, pending requests, and orders in a pickup window. */
module Limits {
  import opened Prelude
  import opened Records
  import opened Operations
  import opened Accepted
  import opened Bookings
  import Jobs

  // ----- Usage events are the confirmed records -----

  ghost predicate UsageMatches(st: Store) {
    && (forall k :: k in st.usage ==>
          k.1 in st.records && ModuleOf(st.records[k.1]) == k.0 && st.records[k.1].confirmedAt.Some?)
    && (forall id :: id in st.records && st.records[id].confirmedAt.Some? ==>
          (ModuleOf(st.records[id]), id) in st.usage)
  }

  lemma CreateKeepsUsage(st: Store, t: Readings, c: Command, w: Writes)
    requires UsageMatches(st) && CreateFacts(st, t, c, w)
    ensures UsageMatches(Apply(st, w)) && Apply(st, w).usage == st.usage
  {
    hide Answer, TooMany, CreatedDetail;
  }

  lemma KeptModule(st: Store, t: Readings, c: Command, w: Writes)
    requires ChangeFacts(st, t, c, w)
    ensures ModuleOf(w.record) == ModuleOf(st.records[w.id]) == c.module_
  {
    hide Answer, Overlaps, Holding, LinesOf;
  }

  lemma ChangeKeepsUsage(st: Store, t: Readings, c: Command, w: Writes)
    requires Rows(st) && UsageMatches(st) && ChangeFacts(st, t, c, w)
    ensures UsageMatches(Apply(st, w))
    ensures w.charge.Some? ==> w.charge.value == st.sub.periodStart && (ModuleOf(w.record), w.id) !in st.usage
  {
    hide UsageMatches, Rows, Apply;
    KeptModule(st, t, c, w);
    FirstConfirmation(st, t, c, w);
    assert w.id in st.records;
    hide ChangeFacts;
    StampedKeepsUsage(st, w);
  }

  lemma StampedKeepsUsage(st: Store, w: Writes)
    requires UsageMatches(st) && w.id in st.records && ModuleOf(w.record) == ModuleOf(st.records[w.id])
    requires w.charge.Some? ==> st.records[w.id].confirmedAt.None? && w.record.confirmedAt.Some?
    requires w.charge.None? ==> w.record.confirmedAt == st.records[w.id].confirmedAt
    ensures UsageMatches(Apply(st, w))
    ensures w.charge.Some? ==> (ModuleOf(w.record), w.id) !in st.usage
  {
  }

  /** A record is charged when it is confirmed, and it is confirmed once. */
  lemma FirstConfirmation(st: Store, t: Readings, c: Command, w: Writes)
    requires Rows(st) && ChangeFacts(st, t, c, w)
    ensures w.charge.Some? ==>
              w.charge.value == st.sub.periodStart && st.records[w.id].confirmedAt.None? && w.record.confirmedAt.Some?
    ensures w.charge.None? ==> w.record.confirmedAt == st.records[w.id].confirmedAt
  {
    hide Answer, PlaceFacts, PlaceOk, Path;
    assert StampOk(st.records[w.id]);
  }

  lemma ExpiryKeepsUsage(st: Store, m: Module, id: Id, at: Instant)
    requires UsageMatches(st) && DecideExpiry(st, m, id, at).Ok? && DecideExpiry(st, m, id, at).value.Some?
    ensures UsageMatches(Apply(st, DecideExpiry(st, m, id, at).value.value))
  {
  }

  /** One more event for this period, or the same ones. */
  lemma ChargeCounts(usage: map<(Module, Id), Instant>, key: (Module, Id), period: Instant, m: Module, p: Instant)
    requires key !in usage
    ensures var after := UsedIn(usage[key := period], m, p);
            if key.0 == m && period == p then |after| == |UsedIn(usage, m, p)| + 1 else after == UsedIn(usage, m, p)
  {
    if key.0 == m && period == p {
      assert UsedIn(usage[key := period], m, p) == UsedIn(usage, m, p) + {key};
    }
  }

  // ----- Pending requests -----

  predicate Few(records: map<Id, Record>, m: Module, phone: string, at: Instant) {
    |Waiting(records, m, Some(phone), at)| <= PHONE_LIMIT && |Waiting(records, m, None, at)| <= TOTAL_LIMIT
  }

  ghost predicate FewWaiting(records: map<Id, Record>, at: Instant) {
    forall m, phone :: Few(records, m, phone, at)
  }

  ghost predicate PendingBound(records: map<Id, Record>, clock: Instant) {
    forall at :: clock <= at ==> FewWaiting(records, at)
  }

  lemma WaitingShrinks(records: map<Id, Record>, m: Module, phone: Option<string>, before: Instant, after: Instant)
    requires before <= after
    ensures Waiting(records, m, phone, after) <= Waiting(records, m, phone, before)
    ensures |Waiting(records, m, phone, after)| <= |Waiting(records, m, phone, before)|
  {
    Jobs.SubsetSize(Waiting(records, m, phone, after), Waiting(records, m, phone, before));
  }

  /** A row that replaces a request pending at `seen`, or that is not pending itself, adds nobody. */
  lemma ReplacingAddsNobody(records: map<Id, Record>, id: Id, r: Record, m: Module, phone: Option<string>,
                            seen: Instant, at: Instant)
    requires seen <= at && id in records
    requires r.status.Requested? ==>
               records[id].status.Requested? && seen < records[id].expiresAt &&
               r.phone == records[id].phone && ModuleOf(r) == ModuleOf(records[id])
    ensures |Waiting(records[id := r], m, phone, at)| <= |Waiting(records, m, phone, seen)|
  {
    Jobs.SubsetSize(Waiting(records[id := r], m, phone, at), Waiting(records, m, phone, seen));
  }

  lemma AddingOne(records: map<Id, Record>, id: Id, r: Record, m: Module, phone: Option<string>, at: Instant)
    requires id !in records
    ensures var before, after := Waiting(records, m, phone, at), Waiting(records[id := r], m, phone, at);
            if ModuleOf(r) == m && (phone.Some? ==> r.phone == phone.value) then |after| <= |before| + 1
            else |after| <= |before|
  {
    var before, after := Waiting(records, m, phone, at), Waiting(records[id := r], m, phone, at);
    if ModuleOf(r) == m && (phone.Some? ==> r.phone == phone.value) {
      Jobs.SubsetSize(after, before + {id});
    } else {
      Jobs.SubsetSize(after, before);
    }
  }

  lemma CreateKeepsFew(st: Store, t: Readings, c: Command, w: Writes, m: Module, phone: string, at: Instant)
    requires CreateFacts(st, t, c, w) && Few(st.records, m, phone, at) && t.began <= at
    ensures Few(st.records[w.id := w.record], m, phone, at)
  {
    hide Answer, CreatedDetail, Waiting;
    var own := ModuleOf(w.record);
    WaitingShrinks(st.records, own, Some(w.record.phone), t.began, at);
    WaitingShrinks(st.records, own, None, t.began, at);
    AddingOne(st.records, w.id, w.record, m, Some(phone), at);
    AddingOne(st.records, w.id, w.record, m, None, at);
  }

  lemma CreateKeepsPending(st: Store, t: Readings, c: Command, w: Writes, clock: Instant)
    requires PendingBound(st.records, clock) && CreateFacts(st, t, c, w) && Ordered(t) && clock <= t.seen
    ensures PendingBound(Apply(st, w).records, t.shown)
  {
    hide CreateFacts, Few;
    var after := st.records[w.id := w.record];
    forall at, m, phone | t.shown <= at
      ensures Few(after, m, phone, at)
    {
      assert FewWaiting(st.records, at);
      CreateKeepsFew(st, t, c, w, m, phone, at);
    }
  }

  lemma ReplacingKeepsPending(records: map<Id, Record>, id: Id, r: Record, clock: Instant, seen: Instant,
                              later: Instant)
    requires PendingBound(records, clock) && clock <= seen <= later && id in records
    requires r.status.Requested? ==>
               records[id].status.Requested? && seen < records[id].expiresAt &&
               r.phone == records[id].phone && ModuleOf(r) == ModuleOf(records[id])
    ensures PendingBound(records[id := r], later)
  {
    hide Waiting;
    assert FewWaiting(records, seen);
    var after := records[id := r];
    forall at, m, phone | later <= at
      ensures Few(after, m, phone, at)
    {
      assert Few(records, m, phone, seen);
      ReplacingAddsNobody(records, id, r, m, Some(phone), seen, at);
      ReplacingAddsNobody(records, id, r, m, None, seen, at);
    }
  }

  lemma ChangeKeepsPending(st: Store, t: Readings, c: Command, w: Writes, clock: Instant)
    requires PendingBound(st.records, clock) && ChangeFacts(st, t, c, w) && Ordered(t) && clock <= t.seen
    ensures PendingBound(Apply(st, w).records, t.shown)
  {
    KeptModule(st, t, c, w);
    hide Answer, PlaceFacts, PendingBound;
    ReplacingKeepsPending(st.records, w.id, w.record, clock, t.seen, t.shown);
  }

  lemma ExpiryKeepsPending(st: Store, m: Module, id: Id, clock: Instant, at: Instant)
    requires PendingBound(st.records, clock) && clock <= at
    requires DecideExpiry(st, m, id, at).Ok? && DecideExpiry(st, m, id, at).value.Some?
    ensures PendingBound(Apply(st, DecideExpiry(st, m, id, at).value.value).records, at)
  {
    hide PendingBound;
    var r := st.records[id];
    ReplacingKeepsPending(st.records, id, r.(status := Expired, version := r.version + 1), clock, at, at);
  }

  // ----- Pickup windows -----

  predicate Fits(records: map<Id, Record>, window: Id, cap: nat) {
    |Holding(records, window, None)| <= cap
  }

  ghost predicate WithinCap(records: map<Id, Record>, cap: nat) {
    forall window :: Fits(records, window, cap)
  }

  lemma IdleKeepsCap(records: map<Id, Record>, id: Id, r: Record, cap: nat)
    requires WithinCap(records, cap)
    requires r.detail.Order? && HoldsPlace(r.status) ==>
               id in records && records[id].detail.Order? && HoldsPlace(records[id].status) &&
               records[id].detail.window == r.detail.window
    ensures WithinCap(records[id := r], cap)
  {
    var after := records[id := r];
    forall window
      ensures Fits(after, window, cap)
    {
      assert Fits(records, window, cap);
      Jobs.SubsetSize(Holding(records[id := r], window, None), Holding(records, window, None));
    }
  }

  lemma SeatedKeepsCap(records: map<Id, Record>, id: Id, r: Record, cap: nat)
    requires WithinCap(records, cap) && r.detail.Order? && |Holding(records, r.detail.window, Some(id))| < cap
    ensures WithinCap(records[id := r], cap)
  {
    var after := records[id := r];
    forall window
      ensures Fits(after, window, cap)
    {
      assert Fits(records, window, cap);
      if window == r.detail.window {
        Jobs.SubsetSize(Holding(records[id := r], window, None), Holding(records, window, Some(id)) + {id});
      } else {
        Jobs.SubsetSize(Holding(records[id := r], window, None), Holding(records, window, None));
      }
    }
  }

  /** Only a confirmation makes an order hold a place. */
  lemma HoldsByConfirming(m: Module, from: Status, to: Status)
    requires from == to || Follows(m, from, to)
    requires HoldsPlace(to) && !(from.Requested? && to.Confirmed?)
    ensures HoldsPlace(from)
  {
  }

  lemma ChangeKeepsCap(st: Store, t: Readings, c: Command, w: Writes, cap: nat)
    requires WithinCap(st.records, cap) && ChangeFacts(st, t, c, w)
    requires cap > 0 && SettingsOf(st, Preorders).maxOrders == cap
    ensures WithinCap(Apply(st, w).records, cap)
  {
    hide Answer, Overlaps, Holding, LinesOf, WithinCap;
    var r := st.records[w.id];
    if r.detail.Order? && |Holding(st.records, w.record.detail.window, Some(w.id))| < cap {
      SeatedKeepsCap(st.records, w.id, w.record, cap);
    } else {
      if HoldsPlace(w.record.status) && !Confirms(r, w.record.status) {
        HoldsByConfirming(c.module_, r.status, w.record.status);
      }
      IdleKeepsCap(st.records, w.id, w.record, cap);
    }
  }
}
