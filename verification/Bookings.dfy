/** Rows, their histories, and the calendar: what every transaction keeps. */
module Bookings {
  import opened Prelude
  import opened Records
  import opened Operations
  import opened Accepted
  import Pricing

  // ----- A record's history is a path of the status machine -----

  predicate Follows(m: Module, from: Status, to: Status) {
    to in NextOf(m, from) || (from.Requested? && to.Expired?)
  }

  predicate Path(m: Module, h: seq<Entry>) {
    && h != [] && h[0].from.Nothing? && h[0].to.Requested?
    && (forall i :: 0 < i < |h| ==> h[i].from == h[i - 1].to && Follows(m, h[i].from, h[i].to))
  }

  function LastStatus(h: seq<Entry>): Status
    requires h != []
  {
    h[|h| - 1].to
  }

  /** The longest path that can end in a status. */
  function Depth(m: Module, s: Status): nat {
    match s
    case Nothing => 0
    case Requested => 1
    case Confirmed => 2
    case Preparing => 3
    case Ready => 4
    case _ => if m.Appointments? then 3 else 5
  }

  lemma FollowsIsDeeper(m: Module, from: Status, to: Status)
    requires Follows(m, from, to)
    ensures Depth(m, from) < Depth(m, to)
    ensures !to.Requested? && NextOf(m, from) != []
  {
  }

  /** Main result: a history has at most three entries for an appointment and five for a preorder. */
  lemma {:induction false} HistoryIsBounded(m: Module, h: seq<Entry>)
    requires Path(m, h)
    ensures |h| <= Depth(m, LastStatus(h)) <= (if m.Appointments? then 3 else 5)
  {
    var n := |h| - 1;
    if n == 0 {
    } else {
      assert Path(m, h[..n]);
      HistoryIsBounded(m, h[..n]);
      assert h[n].from == LastStatus(h[..n]);
      FollowsIsDeeper(m, h[n].from, h[n].to);
      AppointmentStatuses(m, h);
    }
  }

  /** An appointment never reaches a status of the preorder machine. */
  lemma {:induction false} AppointmentStatuses(m: Module, h: seq<Entry>)
    requires Path(m, h)
    ensures m.Appointments? ==> !LastStatus(h).Preparing? && !LastStatus(h).Ready?
  {
    var n := |h| - 1;
    if n > 0 {
      assert Follows(m, h[n].from, h[n].to);
    }
  }

  /** Main result: the step to expired is the last one and is written at most once. */
  lemma ExpiresAtMostOnce(m: Module, h: seq<Entry>, i: nat, j: nat)
    requires Path(m, h) && i < |h| && j < |h| && h[i].to.Expired? && h[j].to.Expired?
    ensures i == j == |h| - 1
  {
    assert i + 1 < |h| ==> Follows(m, h[i + 1].from, h[i + 1].to);
    assert j + 1 < |h| ==> Follows(m, h[j + 1].from, h[j + 1].to);
  }

  // ----- Rows -----

  predicate Confirmable(s: Status) {
    s.Requested? || s.Rejected? || s.Expired?
  }

  ghost predicate PlaceOk(windows: map<Id, Window>, r: Record) {
    match r.detail
    case Visit(_, _, duration, _) => r.endsAt == r.startsAt + duration * MINUTE
    case Order(window, items, estimate, _) =>
      window in windows && windows[window] == Window(r.startsAt, r.endsAt) && ItemsAddUp(items, estimate)
  }

  /** `confirmedAt` is unset before confirmation and in requests that never got one. */
  predicate StampOk(r: Record) {
    && (Confirmable(r.status) ==> r.confirmedAt.None?)
    && (r.confirmedAt.None? ==> Confirmable(r.status) || r.status.Cancelled?)
    && (r.status.Requested? ==> r.expiresAt <= r.startsAt)
    && r.version >= 1
  }

  ghost predicate Rows(st: Store) {
    && st.history.Keys == st.records.Keys
    && (forall id :: id in st.records ==>
          && PlaceOk(st.windows, st.records[id])
          && StampOk(st.records[id])
          && Path(ModuleOf(st.records[id]), st.history[id])
          && LastStatus(st.history[id]) == st.records[id].status)
  }

  lemma Appended(m: Module, h: seq<Entry>, e: Entry)
    requires Path(m, h) && e.from == LastStatus(h) && Follows(m, e.from, e.to)
    ensures Path(m, h + [e]) && LastStatus(h + [e]) == e.to
  {
    hide Follows;
    assert forall i :: 0 <= i < |h| ==> (h + [e])[i] == h[i];
  }

  lemma CreateKeepsRows(st: Store, t: Readings, c: Command, w: Writes)
    requires Rows(st) && CreateFacts(st, t, c, w)
    ensures Rows(Apply(st, w))
  {
    hide Answer, TooMany, ItemsAddUp;
    assert HistoryOf(st, w.id) == [];
    assert Path(ModuleOf(w.record), [w.entry.value]);
  }

  lemma ReplacedRow(st: Store, w: Writes)
    requires Rows(st) && w.id in st.records && ModuleOf(w.record) == ModuleOf(st.records[w.id])
    requires PlaceOk(st.windows, w.record) && StampOk(w.record)
    requires var before := st.records[w.id].status;
             if w.entry.Some? then
               w.entry.value.from == before && w.entry.value.to == w.record.status &&
               Follows(ModuleOf(w.record), before, w.record.status)
             else w.record.status == before
    ensures Rows(Apply(st, w))
  {
    hide PlaceOk, StampOk, Follows;
    if w.entry.Some? {
      Appended(ModuleOf(w.record), st.history[w.id], w.entry.value);
    }
  }

  lemma ChangeKeepsRows(st: Store, t: Readings, c: Command, w: Writes)
    requires Rows(st) && ChangeFacts(st, t, c, w)
    ensures Rows(Apply(st, w))
  {
    ChangeKeepsPlace(st.windows, st, w.id, st.records[w.id], w.record);
    ChangeKeepsStamp(st, t, c, w);
    hide Answer, PlaceFacts, StampFacts, Rows, PlaceOk, StampOk;
    ReplacedRow(st, w);
  }

  lemma ChangeKeepsPlace(windows: map<Id, Window>, st: Store, id: Id, r: Record, after: Record)
    requires windows == st.windows && PlaceOk(windows, r) && PlaceFacts(st, id, r, after)
    ensures PlaceOk(windows, after)
  {
    hide Holding, Overlaps;
    if r.detail.Order? {
      SameLinesAddUp(r.detail.items, after.detail.items, r.detail.estimate);
    }
  }

  lemma SameLinesAddUp(x: seq<Item>, y: seq<Item>, estimate: int)
    requires ItemsAddUp(x, estimate) && LinesOf(x) == LinesOf(y)
    ensures ItemsAddUp(y, estimate)
  {
    assert |x| == |LinesOf(x)| == |y|;
    forall i | 0 <= i < |y|
      ensures y[i].line == x[i].line
    {
      assert LinesOf(x)[i] == LinesOf(y)[i];
    }
    assert forall i :: 0 <= i < |y| ==> Pricing.Rounded(y[i].line) && y[i].line.total <= Pricing.MAX_COLUMN;
    assert forall i, j :: 0 <= i < j < |y| ==> y[i].line.variant != y[j].line.variant;
  }

  lemma ChangeKeepsStamp(st: Store, t: Readings, c: Command, w: Writes)
    requires ChangeFacts(st, t, c, w) && StampOk(st.records[w.id])
    requires PlaceFacts(st, w.id, st.records[w.id], w.record)
    ensures StampOk(w.record)
  {
    hide Answer, Overlaps, Holding, LinesOf;
  }

  lemma ExpiryKeepsRows(st: Store, m: Module, id: Id, at: Instant)
    requires Rows(st) && DecideExpiry(st, m, id, at).Ok? && DecideExpiry(st, m, id, at).value.Some?
    ensures Rows(Apply(st, DecideExpiry(st, m, id, at).value.value))
  {
    hide PlaceOk, StampOk;
    var w := DecideExpiry(st, m, id, at).value.value;
    LapseKeepsRow(st.windows, st.records[id], w.record);
    ReplacedRow(st, w);
  }

  lemma LapseKeepsRow(windows: map<Id, Window>, r: Record, after: Record)
    requires PlaceOk(windows, r) && StampOk(r) && r.status.Requested?
    requires after == r.(status := Expired, version := r.version + 1)
    ensures PlaceOk(windows, after) && StampOk(after)
  {
  }

  // ----- The calendar -----

  /** Half-open occupied intervals [startsAt, endsAt + buffer) that do not meet. */
  predicate Disjoint(a: Record, b: Record) {
    OccupiedEnd(a) <= b.startsAt || OccupiedEnd(b) <= a.startsAt
  }

  ghost predicate NoDoubleBooking(records: map<Id, Record>) {
    forall i, j :: i in records && j in records && i != j && Clashing(records[i], records[j]) ==>
      Disjoint(records[i], records[j])
  }

  predicate Clashing(a: Record, b: Record) {
    && a.detail.Visit? && b.detail.Visit? && a.detail.resource == b.detail.resource
    && Occupying(a.status) && Occupying(b.status)
  }

  lemma ClearIsDisjoint(records: map<Id, Record>, id: Id, r: Record, other: Id)
    requires r.detail.Visit? && !Overlaps(records, r.detail.resource, Some(id), r.startsAt, OccupiedEnd(r))
    requires other in records && other != id && Clashing(r, records[other])
    ensures Disjoint(r, records[other])
  {
    assert !Meets(records[other], r.detail.resource, r.startsAt, OccupiedEnd(r));
  }

  /** Only a confirmation makes a record occupy time. */
  lemma OccupiesByConfirming(m: Module, from: Status, to: Status)
    requires from == to || Follows(m, from, to)
    requires Occupying(to) && !(from.Requested? && to.Confirmed?)
    ensures Occupying(from)
  {
  }

  lemma ChangeKeepsCalendar(st: Store, t: Readings, c: Command, w: Writes)
    requires NoDoubleBooking(st.records) && ChangeFacts(st, t, c, w)
    ensures NoDoubleBooking(Apply(st, w).records)
  {
    hide Answer, Overlaps, Holding, LinesOf;
    var r := st.records[w.id];
    forall j | j in st.records && j != w.id && Clashing(w.record, st.records[j])
      ensures Disjoint(w.record, st.records[j])
    {
      if Overlaps(st.records, w.record.detail.resource, Some(w.id), w.record.startsAt, OccupiedEnd(w.record)) {
        OccupiesByConfirming(c.module_, r.status, w.record.status);
      } else {
        ClearIsDisjoint(st.records, w.id, w.record, j);
      }
    }
  }

  /** A row that does not occupy time cannot clash. */
  lemma IdleKeepsCalendar(records: map<Id, Record>, id: Id, r: Record)
    requires NoDoubleBooking(records) && !Occupying(r.status)
    ensures NoDoubleBooking(records[id := r])
  {
  }
}
