/** What an accepted request implies about the tables it was decided on and the rows it writes.

    The invariants are proved from these facts and never look into the decision functions again. */
module Accepted {
  import opened Prelude
  import opened Records
  import opened Operations
  import Pricing
  import Scheduling

  // ----- Accepted creations -----

  ghost predicate CreatedDetail(st: Store, r: Record) {
    match r.detail
    case Visit(service, resource, duration, buffer) =>
      r.endsAt == r.startsAt + duration * MINUTE
    case Order(window, items, estimate, finalTotal) =>
      && window in st.windows && st.windows[window] == Window(r.startsAt, r.endsAt)
      && ItemsAddUp(items, estimate)
  }

  function LinesOf(items: seq<Item>): (r: seq<Pricing.Line>)
    ensures |r| == |items| && forall i :: 0 <= i < |r| ==> r[i] == items[i].line
  {
    seq(|items|, i requires 0 <= i < |items| => items[i].line)
  }

  /** The stored estimate is the sum of the stored line totals, each rounded to the cent and in range. */
  ghost predicate ItemsAddUp(items: seq<Item>, estimate: int) {
    && estimate == Pricing.Total(LinesOf(items)) && 0 <= estimate <= Pricing.MAX_COLUMN
    && (forall i :: 0 <= i < |items| ==> Pricing.Rounded(items[i].line) && items[i].line.total <= Pricing.MAX_COLUMN)
    && (forall i, j :: 0 <= i < j < |items| ==> items[i].line.variant != items[j].line.variant)
  }

  ghost predicate CreateFacts(st: Store, t: Readings, c: Command, w: Writes) {
    && c.Create? && w.id == c.id && w.id !in st.records
    && w.record.status.Requested? && w.record.version == 1 && w.record.confirmedAt.None? && w.charge.None?
    && w.entry == Some(Entry(Nothing, Requested, ActorOf(c.caller)))
    && w.timer == Some(w.record.expiresAt) && w.sentAt == t.queued
    && w.record.expiresAt <= w.record.startsAt
    && CreatedDetail(st, w.record)
    && !TooMany(st.records, ModuleOf(w.record), w.record.phone, t.began)
    && w.reply == Some(Answer(st, t, c, 201, w.record, w.entry))
  }

  lemma CreateVisitFacts(zones: Zones, st: Store, t: Readings, c: Command, cfg: Settings)
    requires c.Create? && c.body.NewVisit? && CreateVisit(zones, st, t, c, cfg).Ok?
    ensures var r := CreateVisit(zones, st, t, c, cfg).value;
            && r.detail.Visit? && r.status.Requested? && r.version == 1 && r.confirmedAt.None?
            && r.phone == c.body.phone && r.expiresAt <= r.startsAt
            && CreatedDetail(st, r)
  {
    hide VisitSlots;
  }

  lemma CreateOrderFacts(zones: Zones, st: Store, t: Readings, c: Command, cfg: Settings)
    requires c.Create? && c.body.NewOrder? && ValidSettings(cfg) && CreateOrder(zones, st, t, c, cfg).Ok?
    ensures var r := CreateOrder(zones, st, t, c, cfg).value;
            && r.detail.Order? && r.status.Requested? && r.version == 1 && r.confirmedAt.None?
            && r.phone == c.body.phone && r.expiresAt <= r.startsAt
            && CreatedDetail(st, r)
  {
    hide PickupSlots, Pricing.Quote, Catalog, ItemsAddUp, NewItems;
    QuoteAddsUp(Catalog(c.rows, cfg.rules), c.body.wanted);
  }

  lemma QuoteAddsUp(catalog: seq<Pricing.CatalogItem>, wanted: seq<Pricing.Wanted>)
    requires Pricing.ValidCatalog(catalog) && Pricing.Quote(catalog, wanted).Ok?
    ensures var p := Pricing.Quote(catalog, wanted).value; ItemsAddUp(NewItems(p.lines), p.total)
  {
    hide Pricing.Quote, Pricing.ValidCatalog, Pricing.Orderable, Pricing.Rounded, Pricing.LineTotal, Pricing.Exact;
    Pricing.AcceptedTotals(catalog, wanted);
    Pricing.AcceptedExactly(catalog, wanted);
    var lines := Pricing.Quote(catalog, wanted).value.lines;
    assert LinesOf(NewItems(lines)) == lines;
  }

  lemma CreatedFacts(zones: Zones, st: Store, t: Readings, c: Command)
    requires Configured(st) && c.Create? && Created(zones, st, t, c).Ok?
    ensures var r := Created(zones, st, t, c).value;
            && c.id !in st.records
            && r.status.Requested? && r.version == 1 && r.confirmedAt.None? && r.expiresAt <= r.startsAt
            && CreatedDetail(st, r)
            && !TooMany(st.records, ModuleOf(r), r.phone, t.began)
  {
    hide CreateVisit, CreateOrder, TooMany;
    var m := CreatedModule(c.body);
    var cfg := RequireIntake(st, m, t.owned).value;
    assert cfg == SettingsOf(st, m);
    if c.body.NewVisit? {
      CreateVisitFacts(zones, st, t, c, cfg);
    } else {
      CreateOrderFacts(zones, st, t, c, cfg);
    }
  }

  lemma AcceptedCreate(zones: Zones, st: Store, t: Readings, c: Command)
    requires Configured(st) && c.Create? && Decide(zones, st, t, c).Accept?
    ensures CreateFacts(st, t, c, Decide(zones, st, t, c).writes)
  {
    hide Created, TooMany, Answer;
    CreatedFacts(zones, st, t, c);
  }

  // ----- Accepted changes -----

  /** Where the record is afterwards: untouched, or re-checked against everybody else. */
  ghost predicate PlaceFacts(st: Store, id: Id, r: Record, after: Record) {
    match r.detail
    case Visit(service, resource, duration, buffer) =>
      && after.detail.Visit?
      && after.detail == r.detail.(resource := after.detail.resource)
      && ((after.detail == r.detail && after.startsAt == r.startsAt && after.endsAt == r.endsAt &&
           !Confirms(r, after.status)) ||
          (after.endsAt == after.startsAt + duration * MINUTE &&
           !Overlaps(st.records, after.detail.resource, Some(id), after.startsAt, OccupiedEnd(after))))
    case Order(window, items, estimate, finalTotal) =>
      && after.detail.Order?
      && after.detail.estimate == estimate && LinesOf(after.detail.items) == LinesOf(items)
      && ((after.detail.window == window && after.startsAt == r.startsAt && after.endsAt == r.endsAt &&
           !Confirms(r, after.status)) ||
          (after.detail.window in st.windows &&
           st.windows[after.detail.window] == Window(after.startsAt, after.endsAt) &&
           (SettingsOf(st, Preorders).maxOrders > 0 ==>
              |Holding(st.records, after.detail.window, Some(id))| < SettingsOf(st, Preorders).maxOrders)))
  }

  /** What no change touches, and how confirmation and expiry are stamped. */
  ghost predicate StampFacts(t: Readings, r: Record, after: Record, moved: bool) {
    && after.version == r.version + 1 && after.phone == r.phone && after.timezone == r.timezone
    && after.confirmedAt == (if Confirms(r, after.status) then Some(t.stamped) else r.confirmedAt)
    && (if moved && after.status.Requested? then after.expiresAt <= after.startsAt else after.expiresAt == r.expiresAt)
    && (!moved && !Confirms(r, after.status) ==> after.startsAt == r.startsAt)
  }

  /** Edits keep the status, customers cancel, staff get the status they ask for. */
  predicate Asked(c: Command, before: Status, after: Status)
    requires c.Change?
  {
    && (c.body.Edit? ==> after == before)
    && (!c.body.Edit? && c.caller != Owner ==> after == Cancelled)
    && (c.body.Transition? && c.caller == Owner ==> after == c.body.status)
  }

  ghost predicate ChangeFacts(st: Store, t: Readings, c: Command, w: Writes) {
    && c.Change? && w.id == c.id && w.id in st.records
    && var r := st.records[w.id];
       && ModuleOf(r) == c.module_
       && r.version == VersionOf(c.body)
       && Shown(r, t.seen) == r.status && !r.status.Expired?
       && NextOf(c.module_, r.status) != []
       && (w.record.status == r.status || w.record.status in NextOf(c.module_, r.status))
       && Asked(c, r.status, w.record.status)
       && w.entry == (if w.record.status != r.status then Some(Entry(r.status, w.record.status, ActorOf(c.caller)))
                      else None)
       && (if Confirms(r, w.record.status) then
             w.charge == Some(st.sub.periodStart) &&
             |UsedIn(st.usage, c.module_, st.sub.periodStart)| < Limit(st.sub.tier) &&
             Paid(st.sub, t.spent)
           else w.charge.None?)
       && w.timer == (if Moves(r, c.body) then Some(w.record.expiresAt) else None) && w.sentAt == t.queued
       && PlaceFacts(st, w.id, r, w.record)
       && StampFacts(t, r, w.record, Moves(r, c.body))
       && w.reply == Some(Answer(st, t, c, 200, w.record, w.entry))
  }

  lemma ChangedVisitFacts(zones: Zones, st: Store, t: Readings, c: Command, r: Record, status: Status)
    requires c.Change? && r.detail.Visit? && ChangedVisit(zones, st, t, c, r, status).Ok?
    ensures var after := ChangedVisit(zones, st, t, c, r, status).value;
            after.status == status && PlaceFacts(st, c.id, r, after) && StampFacts(t, r, after, Moves(r, c.body))
  {
    hide VisitSlots;
  }

  lemma {:induction false} EditsKeepLines(items: seq<Item>, edits: seq<(Id, int)>)
    requires EditedItems(items, edits).Ok?
    ensures var r := EditedItems(items, edits).value;
            |r| == |items| && LinesOf(r) == LinesOf(items)
  {
    if edits != [] {
      var n := |edits| - 1;
      EditsKeepLines(items, edits[..n]);
      var before, r := EditedItems(items, edits[..n]).value, EditedItems(items, edits).value;
      var (id, quantity) := edits[n];
      assert r == before[id := before[id].(finalQuantity := Some(quantity))];
      assert forall i :: 0 <= i < |r| ==> LinesOf(r)[i] == LinesOf(before)[i];
    }
  }

  lemma ChangedOrderFacts(zones: Zones, st: Store, t: Readings, c: Command, r: Record, status: Status)
    requires c.Change? && r.detail.Order? && ChangedOrder(zones, st, t, c, r, status).Ok?
    ensures var after := ChangedOrder(zones, st, t, c, r, status).value;
            after.status == status && PlaceFacts(st, c.id, r, after) && StampFacts(t, r, after, Moves(r, c.body))
  {
    hide PickupSlots, EditedItems;
    EditsKeepLines(r.detail.items, if c.body.Edit? then c.body.finals else []);
  }

  lemma GuardedFacts(st: Store, t: Readings, c: Command, r: Record)
    requires c.Change? && Guarded(st, t, c, r).Ok?
    ensures var status := Guarded(st, t, c, r).value;
            && r.version == VersionOf(c.body) && Shown(r, t.seen) == r.status && !r.status.Expired?
            && NextOf(c.module_, r.status) != []
            && (status == r.status || status in NextOf(c.module_, r.status)) && Asked(c, r.status, status)
  {
  }

  lemma ChangedFacts(zones: Zones, st: Store, t: Readings, c: Command)
    requires c.Change? && Changed(zones, st, t, c).Ok?
    ensures c.id in st.records
    ensures var (after, charge) := Changed(zones, st, t, c).value; var r := st.records[c.id];
            && ModuleOf(r) == c.module_
            && Guarded(st, t, c, r) == Ok(after.status)
            && PlaceFacts(st, c.id, r, after) && StampFacts(t, r, after, Moves(r, c.body))
            && (if Confirms(r, after.status) then Consume(st, c.module_, t.spent) == Ok(charge.GetOr(0)) && charge.Some?
                else charge.None?)
  {
    hide ChangedVisit, ChangedOrder, PlaceFacts, StampFacts, Guarded, Consume;
    var r := st.records[c.id];
    var status := Guarded(st, t, c, r).value;
    if r.detail.Visit? {
      ChangedVisitFacts(zones, st, t, c, r, status);
    } else {
      ChangedOrderFacts(zones, st, t, c, r, status);
    }
  }

  lemma AcceptedChange(zones: Zones, st: Store, t: Readings, c: Command)
    requires Configured(st) && c.Change? && Decide(zones, st, t, c).Accept?
    ensures ChangeFacts(st, t, c, Decide(zones, st, t, c).writes)
  {
    hide Changed, Answer, PlaceFacts, StampFacts, Guarded, Moves;
    ChangedFacts(zones, st, t, c);
    GuardedFacts(st, t, c, st.records[c.id]);
  }
}
