/** What the slot generator offers, said without its loops.

    For any zone: exactly the accepted minutes of the date, in increasing order. For a zone with a
    constant offset: exactly the whole minutes whose occupied interval lies inside one opening. */
module SlotFacts {
  import opened Prelude
  import opened Scheduling

  ghost predicate Increasing(slots: seq<Slot>) {
    forall i, j :: 0 <= i < j < |slots| ==> slots[i].startsAt < slots[j].startsAt
  }

  lemma {:induction false} ScanIsExact(q: Query, first: Instant, n: nat, x: Slot)
    requires q.step >= 1
    ensures x in Scan(q, first, n) <==>
            exists k: nat :: k < n && Offered(q, first + k * MINUTE) && x == SlotAt(q, first + k * MINUTE)
  {
    if n > 0 {
      ScanIsExact(q, first, n - 1, x);
      if x in Scan(q, first, n) && x !in Scan(q, first, n - 1) {
        assert Offered(q, first + (n - 1) * MINUTE);
      }
    }
  }

  lemma {:induction false} ScanIncreases(q: Query, first: Instant, n: nat)
    requires q.step >= 1
    ensures Increasing(Scan(q, first, n))
    ensures forall x :: x in Scan(q, first, n) ==> x.startsAt < first + n * MINUTE
  {
    if n > 0 {
      ScanIncreases(q, first, n - 1);
      var before := Scan(q, first, n - 1);
      assert forall i :: 0 <= i < |before| ==> before[i] in before;
    }
  }

  /** A slot ends one duration after it starts, in every zone; overlap checks build on this. */
  lemma SlotLength(zone: Zone, date: int, hours: seq<Hour>, closed: seq<int>, step: int,
                   duration: int, buffer: int, now: Instant, lead: int, horizon: int, x: Slot)
    requires var r := SlotsOf(zone, date, hours, closed, step, duration, buffer, now, lead, horizon);
             r.Ok? && x in r.value
    ensures x.endsAt == x.startsAt + duration * MINUTE && duration >= 1
    ensures now + lead * MINUTE <= x.startsAt
  {
    var q := Query(zone, date, hours, closed, step, duration, buffer, now + lead * MINUTE);
    var first, last := zone.midnight(date), zone.midnight(date + 1);
    ScanIsExact(q, first, Steps(first, last), x);
  }

  // ----- Zones with a constant offset -----

  ghost predicate FixedOffset(zone: Zone, offset: int) {
    && (forall t :: zone.clock(t) == Local((t + offset) / DAY, (t + offset) % DAY / MINUTE))
    && (forall d :: zone.midnight(d) == DayStart(offset, d))
  }

  function DayStart(offset: int, date: int): Instant {
    date * DAY - offset
  }

  function DateOf(offset: int, t: Instant): int {
    (t + offset) / DAY
  }

  /** The occupied interval [s, s + span) lies inside the opening of rule h that begins on day d,
      a whole number of steps after it opened. */
  ghost predicate InOpening(offset: int, h: Hour, d: int, closed: seq<int>, step: int, span: int, s: Instant)
    requires step >= 1
  {
    && !h.isClosed && Clock(h.opensAt).Some? && Clock(h.closesAt).Some?
    && (d + 3) % 7 == h.dayOfWeek
    && d !in closed
    && var from, until := Clock(h.opensAt).value, Clock(h.closesAt).value;
       var opens := DayStart(offset, d) + from * MINUTE;
       var closes := DayStart(offset, d) + (if until < from then until + 1440 else until) * MINUTE;
       opens <= s && s + span * MINUTE <= closes && (s - opens) / MINUTE % step == 0
  }

  ghost predicate TouchesClosed(offset: int, closed: seq<int>, span: int, s: Instant) {
    exists t :: s <= t < s + span * MINUTE && DateOf(offset, t) in closed
  }

  /** The meaning of a start offered on a date: no probe loop, no case for openings past midnight. */
  ghost predicate DeclaredOn(offset: int, date: int, hours: seq<Hour>, closed: seq<int>, step: int,
                             span: int, earliest: Instant, s: Instant)
    requires step >= 1
  {
    && DateOf(offset, s) == date && (s + offset) % MINUTE == 0
    && earliest <= s
    && !TouchesClosed(offset, closed, span, s)
    && exists i, d :: 0 <= i < |hours| && InOpening(offset, hours[i], d, closed, step, span, s)
  }

  ghost predicate Declared(offset: int, date: int, hours: seq<Hour>, closed: seq<int>, step: int,
                           span: int, now: Instant, lead: int, horizon: int, s: Instant)
    requires step >= 1
  {
    && DateOf(offset, now) <= date <= DateOf(offset, now) + horizon
    && date !in closed
    && DeclaredOn(offset, date, hours, closed, step, span, now + lead * MINUTE, s)
  }

  lemma ClockAt(zone: Zone, offset: int, date: int, m: nat)
    requires FixedOffset(zone, offset)
    ensures zone.clock(DayStart(offset, date) + m * MINUTE) == Local(date + m / 1440, m % 1440)
  {
    var t := DayStart(offset, date) + m * MINUTE;
    DayAndMinute(t + offset, date + m / 1440, m % 1440);
  }

  lemma DayAndMinute(x: int, day: int, minute: int)
    requires x == day * DAY + minute * MINUTE && 0 <= minute < 1440
    ensures x / DAY == day && x % DAY / MINUTE == minute
  {
    assert x - day * DAY == minute * MINUTE;
  }

  /** Probing minute by minute cannot jump over a closing time: all probes inside means the
      interval is contained in the opening. `r` is the start in minutes after the opening date. */
  lemma {:induction false} ProbesReachClose(q: Query, offset: int, opening: int, opens: nat, closes: int,
                                            r: nat, n: nat)
    requires FixedOffset(q.zone, offset)
    requires opens < 1440 && closes < 2 * 1440
    requires r < 2 * 1440 && n >= 1
    requires forall k :: 0 <= k < n ==>
               Inside(q, opening, opens, closes, DayStart(offset, opening) + r * MINUTE + k * MINUTE)
    ensures opens <= r && r + n <= closes
  {
    hide Inside, FixedOffset;
    var first := DayStart(offset, opening);
    if n > 1 {
      ProbesReachClose(q, offset, opening, opens, closes, r, n - 1);
    }
    assert Inside(q, opening, opens, closes, first + r * MINUTE + (n - 1) * MINUTE);
    assert first + (r + n - 1) * MINUTE == first + r * MINUTE + (n - 1) * MINUTE;
    WallMinute(q, offset, opening, opens, closes, r + n - 1);
  }

  /** Within two days of the opening's midnight a probe is inside only between opening and closing. */
  lemma WallMinute(q: Query, offset: int, opening: int, opens: nat, closes: int, m: nat)
    requires FixedOffset(q.zone, offset) && m <= 2 * 1440 && closes < 2 * 1440
    requires Inside(q, opening, opens, closes, DayStart(offset, opening) + m * MINUTE)
    ensures m < 2 * 1440 ==> opens <= m < closes
    ensures q.zone.clock(DayStart(offset, opening) + m * MINUTE).date !in q.closed
  {
    ClockAt(q.zone, offset, opening, m);
  }

  lemma ProbeDates(q: Query, offset: int, date: int, m: nat, t: Instant)
    requires FixedOffset(q.zone, offset)
    requires var s := DayStart(offset, date) + m * MINUTE; s <= t < s + MINUTE
    ensures DateOf(offset, t) == q.zone.clock(DayStart(offset, date) + m * MINUTE).date
  {
    ClockAt(q.zone, offset, date, m);
  }

  /** One rule accepts a start exactly when some opening of that rule contains its interval. */
  lemma AcceptsMeansContained(q: Query, offset: int, h: Hour, k: nat)
    requires FixedOffset(q.zone, offset)
    requires q.step >= 1 && q.duration >= 1 && q.buffer >= 0 && k < 1440
    ensures var s := DayStart(offset, q.date) + k * MINUTE; var span := q.duration + q.buffer;
            Accepts(q, h, s) <==>
            !TouchesClosed(offset, q.closed, span, s) &&
            exists d :: InOpening(offset, h, d, q.closed, q.step, span, s)
  {
    var s := DayStart(offset, q.date) + k * MINUTE;
    var span := q.duration + q.buffer;
    ClockAt(q.zone, offset, q.date, k);
    if Accepts(q, h, s) {
      ContainedIfAccepted(q, offset, h, k);
    }
    if !TouchesClosed(offset, q.closed, span, s) && exists d :: InOpening(offset, h, d, q.closed, q.step, span, s) {
      var d :| InOpening(offset, h, d, q.closed, q.step, span, s);
      AcceptedIfContained(q, offset, h, k, d);
    }
  }

  /** The start, in minutes after the midnight that began its opening date. */
  function MinuteOfOpening(q: Query, h: Hour, s: Instant, k: nat): nat
    requires Open(h)
  {
    if Continues(q, h, s) then k + 1440 else k
  }

  lemma ContainedIfAccepted(q: Query, offset: int, h: Hour, k: nat)
    requires FixedOffset(q.zone, offset)
    requires q.step >= 1 && q.duration >= 1 && q.buffer >= 0 && k < 1440
    requires Accepts(q, h, DayStart(offset, q.date) + k * MINUTE)
    ensures var s := DayStart(offset, q.date) + k * MINUTE; var span := q.duration + q.buffer;
            !TouchesClosed(offset, q.closed, span, s) &&
            InOpening(offset, h, OpeningDate(q, h, s), q.closed, q.step, span, s)
  {
    var s := DayStart(offset, q.date) + k * MINUTE;
    forall t | s <= t < s + (q.duration + q.buffer) * MINUTE
      ensures DateOf(offset, t) !in q.closed
    {
      OpenDateAt(q, offset, h, k, t);
    }
    OpeningContains(q, offset, h, k);
  }

  lemma OpeningContains(q: Query, offset: int, h: Hour, k: nat)
    requires FixedOffset(q.zone, offset)
    requires q.step >= 1 && q.duration >= 1 && q.buffer >= 0 && k < 1440
    requires Accepts(q, h, DayStart(offset, q.date) + k * MINUTE)
    ensures var s := DayStart(offset, q.date) + k * MINUTE;
            InOpening(offset, h, OpeningDate(q, h, s), q.closed, q.step, q.duration + q.buffer, s)
  {
    hide Covers, Clock, RightDay, SinceOpening, MinuteOfOpening, OpeningDate, FixedOffset, DayStart;
    var s := DayStart(offset, q.date) + k * MINUTE;
    var d, r := OpeningDate(q, h, s), MinuteOfOpening(q, h, s, k);
    RelativeStart(q, offset, h, k);
    CoveredMinutes(q, offset, h, d, r, s);
    InMinutes(offset, d, Clock(h.opensAt).value, CloseMinute(h), r, q.duration + q.buffer);
  }

  lemma CoveredMinutes(q: Query, offset: int, h: Hour, d: int, r: nat, s: Instant)
    requires FixedOffset(q.zone, offset) && Open(h)
    requires q.duration >= 1 && q.buffer >= 0
    requires Covers(q, h, s) && d == OpeningDate(q, h, s)
    requires s == DayStart(offset, d) + r * MINUTE && r < 2 * 1440
    ensures Clock(h.opensAt).value <= r && r + q.duration + q.buffer <= CloseMinute(h)
  {
    forall j | 0 <= j < q.duration + q.buffer
      ensures Inside(q, d, Clock(h.opensAt).value, CloseMinute(h), DayStart(offset, d) + r * MINUTE + j * MINUTE)
    {
      assert Inside(q, d, Clock(h.opensAt).value, CloseMinute(h), s + j * MINUTE);
    }
    ProbesReachClose(q, offset, d, Clock(h.opensAt).value, CloseMinute(h), r, q.duration + q.buffer);
  }

  lemma DayBefore(date: int)
    ensures (Weekday(date) + 6) % 7 == Weekday(date - 1)
    ensures (Weekday(date) + 0) % 7 == Weekday(date)
  {
  }

  lemma RelativeStart(q: Query, offset: int, h: Hour, k: nat)
    requires FixedOffset(q.zone, offset) && Open(h) && k < 1440
    ensures var s := DayStart(offset, q.date) + k * MINUTE;
            && q.zone.clock(s) == Local(q.date, k)
            && SinceOpening(q, h, s) == MinuteOfOpening(q, h, s, k) - Clock(h.opensAt).value
            && (RightDay(q, h, s) <==> Weekday(OpeningDate(q, h, s)) == h.dayOfWeek)
            && s == DayStart(offset, OpeningDate(q, h, s)) + MinuteOfOpening(q, h, s, k) * MINUTE
            && MinuteOfOpening(q, h, s, k) < 2 * 1440
  {
    ClockAt(q.zone, offset, q.date, k);
    DayBefore(q.date);
  }

  /** Being inside an opening, told in minutes and in instants. */
  lemma InMinutes(offset: int, d: int, opens: int, closes: int, r: int, span: int)
    requires opens <= r && r + span <= closes
    ensures var base := DayStart(offset, d);
            && base + opens * MINUTE <= base + r * MINUTE
            && base + r * MINUTE + span * MINUTE <= base + closes * MINUTE
            && (base + r * MINUTE - (base + opens * MINUTE)) / MINUTE == r - opens
  {
    WholeSteps(offset, d, opens, r);
    hide DayStart;
  }

  lemma WholeSteps(offset: int, d: int, opens: int, r: int)
    ensures (DayStart(offset, d) + r * MINUTE - (DayStart(offset, d) + opens * MINUTE)) / MINUTE == r - opens
  {
  }

  lemma OpenDateAt(q: Query, offset: int, h: Hour, k: nat, t: Instant)
    requires FixedOffset(q.zone, offset) && Open(h)
    requires q.step >= 1 && q.duration >= 1 && q.buffer >= 0 && k < 1440
    requires var s := DayStart(offset, q.date) + k * MINUTE;
             Covers(q, h, s) && s <= t < s + (q.duration + q.buffer) * MINUTE
    ensures DateOf(offset, t) !in q.closed
  {
    var s := DayStart(offset, q.date) + k * MINUTE;
    var j := MinuteBefore(s, t, q.duration + q.buffer);
    assert s + j * MINUTE == DayStart(offset, q.date) + (k + j) * MINUTE;
    InsideIsOpen(q, OpeningDate(q, h, s), Clock(h.opensAt).value, CloseMinute(h), s + j * MINUTE);
    hide Covers, Inside;
    ProbeDates(q, offset, q.date, k + j, t);
  }

  /** The last probe no later than t. */
  lemma MinuteBefore(s: Instant, t: Instant, n: int) returns (j: nat)
    requires s <= t < s + n * MINUTE
    ensures j < n && s + j * MINUTE <= t < s + j * MINUTE + MINUTE
  {
    j := (t - s) / MINUTE;
  }

  lemma InsideIsOpen(q: Query, opening: int, opens: int, closes: int, probe: Instant)
    requires Inside(q, opening, opens, closes, probe)
    ensures q.zone.clock(probe).date !in q.closed
  {
  }

  lemma AcceptedIfContained(q: Query, offset: int, h: Hour, k: nat, d: int)
    requires FixedOffset(q.zone, offset)
    requires q.step >= 1 && q.duration >= 1 && q.buffer >= 0 && k < 1440
    requires var s := DayStart(offset, q.date) + k * MINUTE; var span := q.duration + q.buffer;
             !TouchesClosed(offset, q.closed, span, s) && InOpening(offset, h, d, q.closed, q.step, span, s)
    ensures Accepts(q, h, DayStart(offset, q.date) + k * MINUTE)
  {
    var s := DayStart(offset, q.date) + k * MINUTE;
    var r := (q.date - d) * 1440 + k;
    MinutesInOpening(q, offset, h, k, d);
    WholeSteps(offset, d, Clock(h.opensAt).value, r);
    GridIfContained(q, offset, h, k, d);
    CoversIfContained(q, offset, h, d, r, s);
  }

  lemma MinutesInOpening(q: Query, offset: int, h: Hour, k: nat, d: int)
    requires q.step >= 1 && q.duration >= 1 && q.buffer >= 0 && k < 1440
    requires InOpening(offset, h, d, q.closed, q.step, q.duration + q.buffer, DayStart(offset, q.date) + k * MINUTE)
    ensures var r := (q.date - d) * 1440 + k;
            && DayStart(offset, q.date) + k * MINUTE == DayStart(offset, d) + r * MINUTE
            && Clock(h.opensAt).value <= r && r + q.duration + q.buffer <= CloseMinute(h)
            && (d == q.date || d == q.date - 1)
  {
  }

  lemma CoversIfContained(q: Query, offset: int, h: Hour, d: int, r: nat, s: Instant)
    requires FixedOffset(q.zone, offset) && Open(h)
    requires s == DayStart(offset, d) + r * MINUTE && d == OpeningDate(q, h, s)
    requires Clock(h.opensAt).value <= r && r + q.duration + q.buffer <= CloseMinute(h)
    requires !TouchesClosed(offset, q.closed, q.duration + q.buffer, s)
    ensures Covers(q, h, s)
  {
    forall j | 0 <= j < q.duration + q.buffer
      ensures Inside(q, d, Clock(h.opensAt).value, CloseMinute(h), s + j * MINUTE)
    {
      assert s + j * MINUTE == DayStart(offset, d) + (r + j) * MINUTE;
      assert DateOf(offset, s + j * MINUTE) !in q.closed;
      InsideAt(q, offset, d, Clock(h.opensAt).value, CloseMinute(h), r + j);
    }
  }

  lemma GridIfContained(q: Query, offset: int, h: Hour, k: nat, d: int)
    requires FixedOffset(q.zone, offset) && Open(h)
    requires q.step >= 1 && k < 1440 && (d == q.date || d == q.date - 1)
    requires var r := (q.date - d) * 1440 + k; Clock(h.opensAt).value <= r < CloseMinute(h)
    requires WholeStepsAfter((q.date - d) * 1440 + k - Clock(h.opensAt).value, q.step)
    requires Weekday(d) == h.dayOfWeek && d !in q.closed
    ensures var s := DayStart(offset, q.date) + k * MINUTE; OnGrid(q, h, s) && OpeningDate(q, h, s) == d
  {
    var s := DayStart(offset, q.date) + k * MINUTE;
    RelativeStart(q, offset, h, k);
    assert OpeningDate(q, h, s) == d;
    assert MinuteOfOpening(q, h, s, k) == (q.date - d) * 1440 + k;
  }

  lemma InsideAt(q: Query, offset: int, d: int, opens: int, closes: int, m: nat)
    requires FixedOffset(q.zone, offset)
    requires opens <= m < closes <= 2 * 1440
    requires DateOf(offset, DayStart(offset, d) + m * MINUTE) !in q.closed
    ensures Inside(q, d, opens, closes, DayStart(offset, d) + m * MINUTE)
  {
    ClockAt(q.zone, offset, d, m);
  }

  lemma BookableIsAWindowOfDates(zone: Zone, offset: int, date: int, closed: seq<int>, now: Instant, horizon: int)
    requires FixedOffset(zone, offset)
    ensures Bookable(zone, date, closed, now, horizon) <==>
            DateOf(offset, now) <= date <= DateOf(offset, now) + horizon && date !in closed
  {
  }

  lemma OfferedIsDeclared(q: Query, offset: int, k: nat)
    requires FixedOffset(q.zone, offset)
    requires q.step >= 1 && q.duration >= 1 && q.buffer >= 0 && k < 1440
    ensures var s := DayStart(offset, q.date) + k * MINUTE;
            Offered(q, s) <==> DeclaredOn(offset, q.date, q.hours, q.closed, q.step, q.duration + q.buffer,
                                          q.earliest, s)
  {
    var s := DayStart(offset, q.date) + k * MINUTE;
    var span := q.duration + q.buffer;
    StartOnDate(offset, q.date, k);
    forall i | 0 <= i < |q.hours|
      ensures Accepts(q, q.hours[i], s) <==>
              !TouchesClosed(offset, q.closed, span, s) &&
              exists d :: InOpening(offset, q.hours[i], d, q.closed, q.step, span, s)
    {
      AcceptsMeansContained(q, offset, q.hours[i], k);
    }
  }

  lemma StartOnDate(offset: int, date: int, k: nat)
    requires k < 1440
    ensures var s := DayStart(offset, date) + k * MINUTE; DateOf(offset, s) == date && (s + offset) % MINUTE == 0
  {
    assert DayStart(offset, date) + k * MINUTE + offset == date * DAY + k * MINUTE;
  }

  /** The minutes of a date that are offered are exactly its declared starts. */
  lemma MinutesAreDeclared(q: Query, offset: int, s: Instant)
    requires FixedOffset(q.zone, offset)
    requires q.step >= 1 && q.duration >= 1 && q.buffer >= 0
    ensures (exists k: nat :: k < 1440 && s == DayStart(offset, q.date) + k * MINUTE && Offered(q, s)) <==>
            DeclaredOn(offset, q.date, q.hours, q.closed, q.step, q.duration + q.buffer, q.earliest, s)
  {
    if k: nat :| k < 1440 && s == DayStart(offset, q.date) + k * MINUTE && Offered(q, s) {
      OfferedIsDeclared(q, offset, k);
    }
    if DeclaredOn(offset, q.date, q.hours, q.closed, q.step, q.duration + q.buffer, q.earliest, s) {
      WholeMinute(offset, q.date, s);
      OfferedIsDeclared(q, offset, (s - DayStart(offset, q.date)) / MINUTE);
    }
  }

  lemma ScannedIsDeclared(q: Query, offset: int, n: nat, x: Slot)
    requires FixedOffset(q.zone, offset)
    requires q.step >= 1 && q.duration >= 1 && q.buffer >= 0 && n == 1440
    ensures x in Scan(q, DayStart(offset, q.date), n) <==>
            x == SlotAt(q, x.startsAt) &&
            DeclaredOn(offset, q.date, q.hours, q.closed, q.step, q.duration + q.buffer, q.earliest, x.startsAt)
  {
    hide DeclaredOn, Offered;
    ScanIsExact(q, DayStart(offset, q.date), n, x);
    MinutesAreDeclared(q, offset, x.startsAt);
  }

  /** Main result: with a constant offset the generator returns, strictly increasing and so without
      duplicates, exactly the declared starts. */
  lemma SlotsAreExact(zone: Zone, offset: int, date: int, hours: seq<Hour>, closed: seq<int>, step: int,
                      duration: int, buffer: int, now: Instant, lead: int, horizon: int, x: Slot)
    requires FixedOffset(zone, offset)
    requires step >= 1 && duration >= 1 && buffer >= 0
    ensures var r := SlotsOf(zone, date, hours, closed, step, duration, buffer, now, lead, horizon);
            r.Ok? && Increasing(r.value) &&
            (x in r.value <==>
             x.endsAt == x.startsAt + duration * MINUTE &&
             Declared(offset, date, hours, closed, step, duration + buffer, now, lead, horizon, x.startsAt))
  {
    BookableIsAWindowOfDates(zone, offset, date, closed, now, horizon);
    if Bookable(zone, date, closed, now, horizon) {
      var q := Query(zone, date, hours, closed, step, duration, buffer, now + lead * MINUTE);
      var n := Steps(zone.midnight(date), zone.midnight(date + 1));
      assert n == 1440;
      ScanIncreases(q, zone.midnight(date), n);
      ScannedIsDeclared(q, offset, n, x);
    }
  }

  lemma WholeMinute(offset: int, date: int, s: Instant)
    requires DateOf(offset, s) == date && (s + offset) % MINUTE == 0
    ensures 0 <= (s - DayStart(offset, date)) / MINUTE < 1440
    ensures s == DayStart(offset, date) + (s - DayStart(offset, date)) / MINUTE * MINUTE
  {
    WholeMinuteOfDay(s + offset, date);
  }

  lemma WholeMinuteOfDay(x: int, date: int)
    requires x / DAY == date && x % MINUTE == 0
    ensures 0 <= (x - date * DAY) / MINUTE < 1440
    ensures x == date * DAY + (x - date * DAY) / MINUTE * MINUTE
  {
    var m := x / MINUTE;
    assert x == m * MINUTE;
    assert x - date * DAY == (m - date * 1440) * MINUTE;
  }
}
