/** Concrete runs that show where a guarantee ends. */
module Examples {
  import opened Prelude
  import opened Records
  import opened Operations
  import opened Machine
  import opened Accepted
  import opened Acceptance
  import opened Terms
  import opened Bookings
  import opened LazyExpiry
  import Jobs
  import Scheduling
  import SlotFacts

  // ----- A business with up to three requests for eleven o'clock -----

  function Utc(timezone: string): Scheduling.Zone {
    Scheduling.Zone((t: Instant) => Scheduling.Local(t / DAY, t % DAY / MINUTE), (d: int) => d * DAY)
  }

  const EIGHT: Instant := 480 * MINUTE
  const HALF_PAST_EIGHT: Instant := 510 * MINUTE
  const ELEVEN: Instant := 660 * MINUTE

  const PLAN: Subscription := Subscription(Essential, Active, {Appointments}, 0, 10 * DAY, None)
  const OPENING: Scheduling.Hour := Scheduling.Hour(3, "09:00", "18:00", false)
  const CONFIGURED: Settings := DEFAULTS.(enabled := true, hours := [OPENING], lead := 0, ttl := 30)
  const HAIRCUT: Service := Service(true, true, 30, 0)
  const CHAIR: Resource := Resource(true, [], [], [])

  function At(t: Instant): Readings {
    Readings(t, t, t, t, t, t, t, t, t, t)
  }

  function KeyOf(i: nat): string {
    if i == 0 then "first" else if i == 1 then "second" else if i == 2 then "third" else "fourth"
  }

  function Booking(i: nat): Command {
    Create(Visitor, KeyOf(i), i, "UTC", [], NewVisit("+1", "", 0, 0, ELEVEN))
  }

  /** What a booking at eight is stored as; it lapses at half past. */
  function Pending(): Record {
    Record(Visit(0, 0, 30, 0), "+1", "", "UTC", ELEVEN, 690 * MINUTE, Requested, 1, HALF_PAST_EIGHT, None)
  }

  /** The configuration, with no confirmation charged yet. */
  ghost predicate Ready(st: Store) {
    && st.sub == PLAN && st.settings == map[Appointments := CONFIGURED]
    && st.services == map[0 := HAIRCUT] && st.resources == map[0 := CHAIR] && st.usage == map[]
  }

  /** The store after n bookings. */
  ghost predicate Booked(st: Store, n: nat) {
    && Ready(st)
    && (forall i: Id :: i in st.records <==> i < n)
    && (forall i: Id :: i < n ==> st.records[i] == Pending())
    && (forall k :: k in st.replays ==>
          k.scope == Creating(Visitor, Appointments) && exists i: Id :: i < n && k.key == KeyOf(i))
  }

  lemma ReadyIsConfigured(st: Store)
    requires Ready(st)
    ensures Configured(st) && SettingsOf(st, Appointments) == CONFIGURED
  {
    assert Scheduling.Clock("09:00").Some?;
  }

  lemma ElevenIsOffered(now: Instant)
    requires 0 <= now <= ELEVEN
    ensures OpenFor(Utc("UTC"), CONFIGURED, CHAIR, 30, 0, ELEVEN, now)
  {
    var closed: seq<int> := [];
    assert closed + [] == closed;
    assert SlotFacts.FixedOffset(Utc("UTC"), 0);
    assert Scheduling.Clock("09:00") == Some(540) && Scheduling.Clock("18:00") == Some(1080);
    assert SlotFacts.InOpening(0, [OPENING][0], 0, [], 30, 30, ELEVEN);
    assert SlotFacts.DeclaredOn(0, 0, [OPENING], [], 30, 30, now, ELEVEN);
    hide SlotFacts.DeclaredOn, OpenFor;
    OpenForConstant(Utc("UTC"), 0, CONFIGURED, CHAIR, 30, 0, ELEVEN, now);
  }

  lemma PlanIsPaid(now: Instant)
    requires 0 <= now <= ELEVEN
    ensures Paid(PLAN, now)
  {
  }

  lemma PlanTakesRequests(st: Store, now: Instant)
    requires Ready(st) && 0 <= now <= ELEVEN
    ensures TakesRequests(st, Appointments, now) && RequireIntake(st, Appointments, now) == Ok(CONFIGURED)
  {
    ReadyIsConfigured(st);
    PlanIsPaid(now);
    hide Paid;
    assert UsedIn(st.usage, Appointments, 0) == {};
  }

  lemma ChairIsFree(st: Store, exclude: Option<Id>, now: Instant)
    requires Ready(st) && 0 <= now <= ELEVEN
    requires forall id :: id in st.records ==> !Occupying(st.records[id].status)
    ensures VisitFits(Utc("UTC"), st, CONFIGURED, 0, 30, 0, 0, exclude, ELEVEN, now)
  {
    ElevenIsOffered(now);
    hide OpenFor;
  }

  /** While nobody occupies the chair, a booking only depends on the pending limit. */
  lemma MayBookExactly(st: Store, t: Readings, i: nat)
    requires Ready(st) && Configured(st) && Ordered(t) && 0 <= t.began && t.shown <= ELEVEN && i !in st.records
    requires forall id :: id in st.records ==> !Occupying(st.records[id].status)
    ensures MayBook(Utc("UTC"), st, t, Booking(i)) <==> !TooMany(st.records, Appointments, "+1", t.began)
  {
    ReadyIsConfigured(st);
    PlanTakesRequests(st, t.owned);
    PendingIsCounted(st.records, Appointments, "+1", t.began);
    ChairIsFree(st, None, t.offered);
    hide TooMany, MayWait, VisitFits, TakesRequests, RequireIntake;
  }

  lemma FewerThanThree(st: Store, n: nat, began: Instant)
    requires Booked(st, n) && n < 3
    ensures !TooMany(st.records, Appointments, "+1", began)
  {
    Jobs.SubsetSize(Waiting(st.records, Appointments, Some("+1"), began), st.records.Keys);
    Jobs.SubsetSize(Waiting(st.records, Appointments, None, began), st.records.Keys);
    IdsBelow(st.records.Keys, n);
  }

  lemma {:induction false} IdsBelow(ids: set<Id>, n: nat)
    requires forall i: Id :: i in ids <==> i < n
    ensures |ids| == n
  {
    if n > 0 {
      IdsBelow(ids - {n - 1}, n - 1);
    } else {
      assert ids == {};
    }
  }

  lemma NotReplayed(st: Store, n: nat, i: nat, began: Instant)
    requires Booked(st, n) && n <= i <= 3
    ensures Stored(st, Booking(i), began).None?
  {
    assert forall j: Id :: j < n ==> KeyOf(j) != KeyOf(i);
  }

  lemma NextBooking(st: Store, n: nat)
    requires Booked(st, n) && n < 3
    ensures Configured(st) && Decide(Utc, st, At(EIGHT), Booking(n)).Accept?
    ensures Booked(AfterRequest(Utc, st, Booking(n), At(EIGHT)), n + 1)
  {
    ReadyIsConfigured(st);
    var c, t := Booking(n), At(EIGHT);
    NotReplayed(st, n, n, EIGHT);
    FewerThanThree(st, n, EIGHT);
    MayBookExactly(st, t, n);
    BookingAcceptedExactly(Utc, st, t, c);
    AcceptedCreate(Utc, st, t, c);
    var w := Decide(Utc, st, t, c).writes;
    assert w.record == Pending();
    hide Decide, MayBook, TakesRequests, TooMany;
    BookedOneMore(st, n, t, w);
  }

  lemma BookedOneMore(st: Store, n: nat, t: Readings, w: Writes)
    requires Booked(st, n) && n < 3 && CreateFacts(st, t, Booking(n), w) && w.record == Pending()
    ensures Booked(Apply(st, w), n + 1)
  {
    hide TooMany, CreatedDetail, Jobs.Put;
    var after := Apply(st, w);
    assert after.replays == st.replays[ScopeOf(Booking(n)) := w.reply.value.1];
    forall k | k in after.replays
      ensures k.scope == Creating(Visitor, Appointments) && exists i: Id :: i < n + 1 && k.key == KeyOf(i)
    {
      if k == ScopeOf(Booking(n)) {
        assert k.key == KeyOf(n);
      } else {
        assert exists i: Id :: i < n && k.key == KeyOf(i);
      }
    }
  }

  function Start(): State {
    Fresh(PLAN, 0)
  }

  lemma Opened() returns (steps: seq<Step>)
    ensures Configured(Start().store) && LegalRun(Utc, Start(), steps)
    ensures Booked(Run(Utc, Start(), steps).store, 0) && Run(Utc, Start(), steps).clock == 0
  {
    hide AfterRequest, AfterExpiry, ValidSettings;
    assert ValidSettings(CONFIGURED) by { SettingsAreValid(); }
    steps := [];
    Extend(Utc, Start(), steps, Administer(Configure(Appointments, CONFIGURED)));
    steps := steps + [Administer(Configure(Appointments, CONFIGURED))];
    Extend(Utc, Start(), steps, Administer(SaveService(0, HAIRCUT)));
    steps := steps + [Administer(SaveService(0, HAIRCUT))];
    Extend(Utc, Start(), steps, Administer(SaveResource(0, CHAIR)));
    steps := steps + [Administer(SaveResource(0, CHAIR))];
  }

  lemma SettingsAreValid()
    ensures ValidSettings(CONFIGURED)
  {
  }

  /** A legal run that ends, at eight, with n bookings. */
  ghost predicate Reaches(steps: seq<Step>, n: nat) {
    && Configured(Start().store) && LegalRun(Utc, Start(), steps)
    && Booked(Run(Utc, Start(), steps).store, n) && Run(Utc, Start(), steps).clock <= EIGHT
  }

  lemma {:induction false} BookingsAreReached(n: nat) returns (steps: seq<Step>)
    requires n <= 3
    ensures Reaches(steps, n)
  {
    hide Booked;
    if n == 0 {
      steps := Opened();
    } else {
      hide Reaches;
      var before := BookingsAreReached(n - 1);
      OneMoreIsReached(before, n - 1);
      steps := before + [Request(Booking(n - 1), At(EIGHT))];
    }
  }

  lemma OneMoreIsReached(steps: seq<Step>, n: nat)
    requires Reaches(steps, n) && n < 3
    ensures Reaches(steps + [Request(Booking(n), At(EIGHT))], n + 1)
  {
    hide AfterRequest, Booked, Run, LegalRun, Configured;
    NextBooking(Run(Utc, Start(), steps).store, n);
    Extend(Utc, Start(), steps, Request(Booking(n), At(EIGHT)));
  }

  // ----- A creation that starts before the requests lapse and is served after -----

  /** The transaction of a fourth request starts a minute before half past eight and gets the lock a minute after. */
  function Late(): Readings {
    var after := HALF_PAST_EIGHT + MINUTE;
    Readings(HALF_PAST_EIGHT - MINUTE, after, after, after, after, after, after, after, after, after)
  }

  /** Expiring the first request on time or not at all decides whether the fourth is accepted. */
  ghost predicate TimingDecides(lazy: Store) {
    var eager := Lapsed(lazy, Appointments, 0, HALF_PAST_EIGHT, false);
    && Configured(lazy) && Configured(eager) && Alike(eager, lazy, Late().seen) && Ordered(Late())
    && Decide(Utc, lazy, Late(), Booking(3)) == Refuse(RateLimited)
    && Decide(Utc, eager, Late(), Booking(3)).Accept?
  }

  /** A legal run after which expiring a lapsed request on time or late changes the answer to a creation:
      the pending count is taken as of the transaction's start, before the request lapsed. */
  lemma EarlyStartDisagrees()
    ensures exists steps :: Reaches(steps, 3) && TimingDecides(Run(Utc, Start(), steps).store)
  {
    var steps := BookingsAreReached(3);
    TimingMatters(Run(Utc, Start(), steps).store);
  }

  lemma TimingMatters(lazy: Store)
    requires Booked(lazy, 3)
    ensures TimingDecides(lazy)
  {
    LapseIsInvisible(lazy, Appointments, 0, HALF_PAST_EIGHT, false);
    AlikeStays(Lapsed(lazy, Appointments, 0, HALF_PAST_EIGHT, false), lazy, HALF_PAST_EIGHT, Late().seen);
    LateIsRefused(lazy);
    OnTimeIsAccepted(lazy);
    hide Alike, Decide, Lapsed;
  }

  lemma LateIsRefused(st: Store)
    requires Booked(st, 3)
    ensures Configured(st) && Decide(Utc, st, Late(), Booking(3)) == Refuse(RateLimited)
  {
    ReadyIsConfigured(st);
    NotReplayed(st, 3, 3, Late().began);
    PlanTakesRequests(st, Late().owned);
    ThreeWait(st);
    hide Booked, RequireIntake, TakesRequests, TooMany, CreateVisit, CreateOrder, Stored;
  }

  lemma ThreeWait(st: Store)
    requires Booked(st, 3)
    ensures TooMany(st.records, Appointments, "+1", Late().began)
  {
    assert Waiting(st.records, Appointments, Some("+1"), Late().began) == {0, 1, 2};
  }

  lemma OnTimeIsAccepted(lazy: Store)
    requires Booked(lazy, 3)
    ensures var eager := Lapsed(lazy, Appointments, 0, HALF_PAST_EIGHT, false);
            Configured(eager) && Decide(Utc, eager, Late(), Booking(3)).Accept?
  {
    var eager := Lapsed(lazy, Appointments, 0, HALF_PAST_EIGHT, false);
    FirstLapsed(lazy, eager);
    ReadyIsConfigured(eager);
    NotReplayed(lazy, 3, 3, Late().began);
    hide Lapsed, Booked;
    TwoWait(eager);
    MayBookExactly(eager, Late(), 3);
    hide TooMany, Ready, MayBook;
    BookingAcceptedExactly(Utc, eager, Late(), Booking(3));
  }

  lemma FirstLapsed(lazy: Store, eager: Store)
    requires Booked(lazy, 3) && eager == Lapsed(lazy, Appointments, 0, HALF_PAST_EIGHT, false)
    ensures Ready(eager) && eager.replays == lazy.replays
    ensures eager.records == lazy.records[0 := Pending().(status := Expired, version := 2)]
    ensures eager.records.Keys == {0, 1, 2} && eager.records[1] == eager.records[2] == Pending()
  {
  }

  lemma TwoWait(st: Store)
    requires st.records.Keys == {0, 1, 2} && st.records[1] == st.records[2] == Pending() &&
             st.records[0].status.Expired?
    ensures !TooMany(st.records, Appointments, "+1", Late().began)
  {
    assert Waiting(st.records, Appointments, Some("+1"), Late().began) == {1, 2};
    assert Waiting(st.records, Appointments, None, Late().began) == {1, 2};
  }

  // ----- Two confirmations decided without the lock -----

  function Confirmation(id: Id): Command {
    Change(Owner, "key", Appointments, id, Transition(Confirmed, 1))
  }

  const QUARTER_PAST: Readings := At(495 * MINUTE)

  function Taken(): Record {
    Pending().(status := Confirmed, version := 2, confirmedAt := Some(495 * MINUTE))
  }

  lemma RivalIsAccepted(st: Store, id: Id)
    requires Booked(st, 2) && id < 2
    ensures Configured(st)
    ensures var d := Decide(Utc, st, QUARTER_PAST, Confirmation(id));
            d.Accept? && d.writes.id == id && d.writes.record == Taken() && d.writes.charge == Some(0)
  {
    ReadyIsConfigured(st);
    var c := Confirmation(id);
    assert Stored(st, c, QUARTER_PAST.began).None?;
    RivalMayBeConfirmed(st, id);
    ConfirmedExactly(Utc, st, QUARTER_PAST, c);
    ConfirmationStores(Utc, st, QUARTER_PAST, c);
    hide Decide, MayConfirm;
  }

  lemma RivalMayBeConfirmed(st: Store, id: Id)
    requires Booked(st, 2) && id < 2 && Configured(st)
    ensures MayConfirm(Utc, st, QUARTER_PAST, Confirmation(id))
  {
    ReadyIsConfigured(st);
    PlanTakesRequests(st, 495 * MINUTE);
    ChairIsFree(st, Some(id), 495 * MINUTE);
    hide VisitFits, Paid, UsedIn;
  }

  /** Decided on the same tables both confirmations succeed, and committing both books twice. */
  ghost predicate BooksTwice(st: Store) {
    Configured(st) &&
    var first := Decide(Utc, st, QUARTER_PAST, Confirmation(0));
    var second := Decide(Utc, st, QUARTER_PAST, Confirmation(1));
    first.Accept? && second.Accept? && !NoDoubleBooking(Apply(Apply(st, first.writes), second.writes).records)
  }

  /** A legal run after which that happens without the lock. */
  lemma RaceWithoutLock()
    ensures exists steps :: Reaches(steps, 2) && BooksTwice(Run(Utc, Start(), steps).store)
  {
    var steps := BookingsAreReached(2);
    BothCommit(Run(Utc, Start(), steps).store);
  }

  lemma BothCommit(st: Store)
    requires Booked(st, 2)
    ensures BooksTwice(st)
  {
    RivalIsAccepted(st, 0);
    RivalIsAccepted(st, 1);
    hide Decide;
    var first := Decide(Utc, st, QUARTER_PAST, Confirmation(0)).writes;
    var second := Decide(Utc, st, QUARTER_PAST, Confirmation(1)).writes;
    var records := Apply(Apply(st, first), second).records;
    assert records[0] == Taken() && records[1] == Taken() && Clashing(records[0], records[1]);
  }


  /** One after the other, the second finds its slot taken. */
  ghost predicate RefusesSecond(st: Store) {
    Configured(st) &&
    var after := AfterRequest(Utc, st, Confirmation(0), QUARTER_PAST);
    after != st && Configured(after) && Decide(Utc, after, QUARTER_PAST, Confirmation(1)) == Refuse(SlotUnavailable)
  }

  /** After the same run, with the lock the second confirmation is decided on the store that the first
      committed, and is refused. */
  lemma SecondIsRefused()
    ensures exists steps :: Reaches(steps, 2) && RefusesSecond(Run(Utc, Start(), steps).store)
  {
    var steps := BookingsAreReached(2);
    SecondIsTooLate(Run(Utc, Start(), steps).store);
  }

  lemma SecondIsTooLate(st: Store)
    requires Booked(st, 2)
    ensures RefusesSecond(st)
  {
    RivalIsAccepted(st, 0);
    AcceptedChange(Utc, st, QUARTER_PAST, Confirmation(0));
    StepKeepsConfigured(Utc, st, Request(Confirmation(0), QUARTER_PAST));
    hide Decide;
    var w := Decide(Utc, st, QUARTER_PAST, Confirmation(0)).writes;
    FirstIsTaken(st, w);
    var after := Apply(st, w);
    assert after.records[0] != st.records[0];
    hide Apply, ChangeFacts;
    TakenIsRefused(after);
  }

  /** The first confirmation has committed: it occupies the chair, and the second request still waits. */
  ghost predicate OneTaken(st: Store) {
    && st.sub == PLAN && st.settings == map[Appointments := CONFIGURED]
    && st.services == map[0 := HAIRCUT] && st.resources == map[0 := CHAIR] && st.usage == map[(Appointments, 0) := 0]
    && st.records.Keys == {0, 1} && st.records[0] == Taken() && st.records[1] == Pending()
    && ScopeOf(Confirmation(1)) !in st.replays
  }

  lemma FirstIsTaken(st: Store, w: Writes)
    requires Booked(st, 2) && ChangeFacts(st, QUARTER_PAST, Confirmation(0), w)
    requires w.id == 0 && w.record == Taken() && w.charge == Some(0)
    ensures OneTaken(Apply(st, w))
  {
    hide PlaceFacts, StampFacts;
    var after := Apply(st, w);
    assert after.records == st.records[0 := Taken()];
    assert forall k :: k in after.replays ==> k in st.replays || k == ScopeOf(Confirmation(0));
  }

  lemma TakenIsBlocked(st: Store)
    requires OneTaken(st)
    ensures CheckAppointment(Utc("UTC"), st, CONFIGURED, 0, 30, 0, 0, Some(1), ELEVEN, 495 * MINUTE) ==
              Err(SlotUnavailable)
  {
    var zone, slot := Utc("UTC"), Scheduling.Slot(ELEVEN, ELEVEN + 30 * MINUTE);
    ElevenIsOffered(495 * MINUTE);
    VisitSlotsExactly(zone, CONFIGURED, CHAIR, ELEVEN, 30, 0, 495 * MINUTE);
    hide OpenFor, VisitSlots;
    assert Meets(st.records[0], 0, ELEVEN, ELEVEN + 30 * MINUTE + 0 * MINUTE);
  }

  lemma TakenIsUnchanged(st: Store)
    requires OneTaken(st)
    ensures Changed(Utc, st, QUARTER_PAST, Confirmation(1)) == Err(SlotUnavailable)
  {
    TakenIsBlocked(st);
    PlanIsPaid(495 * MINUTE);
    hide CheckAppointment, Paid;
    assert UsedIn(st.usage, Appointments, 0) == {(Appointments, 0)};
    assert NextOf(Appointments, Requested) == [Confirmed, Rejected, Cancelled];
  }

  lemma TakenIsRefused(st: Store)
    requires OneTaken(st) && Configured(st)
    ensures Decide(Utc, st, QUARTER_PAST, Confirmation(1)) == Refuse(SlotUnavailable)
  {
    TakenIsUnchanged(st);
    hide Changed;
  }
}
