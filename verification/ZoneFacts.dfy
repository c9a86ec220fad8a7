/** What the slot generator offers in zones whose offset changes. */
module ZoneFacts {
  import opened Prelude
  import opened Scheduling
  import opened SlotFacts

  // ----- Any zone -----

  function QueryOf(zone: Zone, date: int, hours: seq<Hour>, closed: seq<int>, step: int,
                   duration: int, buffer: int, now: Instant, lead: int): Query
  {
    Query(zone, date, hours, closed, step, duration, buffer, now + lead * MINUTE)
  }

  /** A whole minute between the local midnights that begin and end the date, on a bookable date, that some
      rule accepts: it is on the rule's grid, and every occupied minute, as the wall clock reads it, is inside
      the opening and on an unclosed date. */
  ghost predicate OfferedOn(zone: Zone, date: int, hours: seq<Hour>, closed: seq<int>, step: int,
                            duration: int, buffer: int, now: Instant, lead: int, horizon: int, s: Instant)
    requires step >= 1
  {
    && duration >= 1 && Bookable(zone, date, closed, now, horizon)
    && zone.midnight(date) <= s < zone.midnight(date + 1) && (s - zone.midnight(date)) % MINUTE == 0
    && Offered(QueryOf(zone, date, hours, closed, step, duration, buffer, now, lead), s)
  }

  lemma MinuteCount(first: Instant, last: Instant, s: Instant)
    ensures (exists k: nat :: k < Steps(first, last) && s == first + k * MINUTE) <==>
            first <= s < last && (s - first) % MINUTE == 0
  {
    if first <= s < last && (s - first) % MINUTE == 0 {
      var k := (s - first) / MINUTE;
      assert s == first + k * MINUTE && k < Steps(first, last);
    }
  }

  /** Main result: in any zone, jumps included, the generator returns exactly the offered minutes of the
      date, strictly increasing, or the error for a duration it cannot use. */
  lemma SlotsInAnyZone(zone: Zone, date: int, hours: seq<Hour>, closed: seq<int>, step: int,
                       duration: int, buffer: int, now: Instant, lead: int, horizon: int, x: Slot)
    requires step >= 1
    ensures var r := SlotsOf(zone, date, hours, closed, step, duration, buffer, now, lead, horizon);
            && (r.Ok? ==> Increasing(r.value))
            && ((r.Ok? && x in r.value) <==>
                x.endsAt == x.startsAt + duration * MINUTE &&
                OfferedOn(zone, date, hours, closed, step, duration, buffer, now, lead, horizon, x.startsAt))
            && (duration >= 1 ==> r.Ok?)
  {
    hide Offered, Bookable, Steps;
    if duration >= 1 && Bookable(zone, date, closed, now, horizon) {
      var q := QueryOf(zone, date, hours, closed, step, duration, buffer, now, lead);
      var first, last := zone.midnight(date), zone.midnight(date + 1);
      ScanIncreases(q, first, Steps(first, last));
      ScanIsExact(q, first, Steps(first, last), x);
      MinuteCount(first, last, x.startsAt);
    }
  }

  // ----- Dates away from a jump -----

  function Reading(offset: int, t: Instant): Local {
    Local((t + offset) / DAY, (t + offset) % DAY / MINUTE)
  }

  /** The zone with this offset for ever. */
  function Straight(offset: int): Zone {
    Zone((t: Instant) => Reading(offset, t), (d: int) => DayStart(offset, d))
  }

  lemma StraightIsFixed(offset: int)
    ensures FixedOffset(Straight(offset), offset)
  {
  }

  /** The offset does not change from the start of the date until the last visit begun on it is over. */
  ghost predicate SteadyOn(zone: Zone, offset: int, date: int, span: int) {
    && zone.midnight(date) == DayStart(offset, date) && zone.midnight(date + 1) == DayStart(offset, date + 1)
    && forall t :: DayStart(offset, date) <= t < DayStart(offset, date + 1) + span * MINUTE ==>
         zone.clock(t) == Reading(offset, t)
  }

  lemma FixedIsSteady(zone: Zone, offset: int, date: int, span: int)
    requires FixedOffset(zone, offset)
    ensures SteadyOn(zone, offset, date, span)
  {
  }

  /** Acceptance only depends on what the clock reads during the occupied time. */
  lemma SameReadings(q: Query, h: Hour, start: Instant, other: Zone)
    requires q.step >= 1 && q.duration >= 1 && q.buffer >= 0
    requires forall k :: 0 <= k < q.duration + q.buffer ==>
               q.zone.clock(start + k * MINUTE) == other.clock(start + k * MINUTE)
    ensures Accepts(q, h, start) <==> Accepts(q.(zone := other), h, start)
  {
    assert q.zone.clock(start + 0 * MINUTE) == other.clock(start + 0 * MINUTE);
    if Open(h) {
      SameGrid(q, h, start, other);
      SameCover(q, h, start, other);
      hide OnGrid, Covers, Open;
    }
  }

  lemma SameGrid(q: Query, h: Hour, start: Instant, other: Zone)
    requires q.step >= 1 && Open(h) && q.zone.clock(start) == other.clock(start)
    ensures OpeningDate(q, h, start) == OpeningDate(q.(zone := other), h, start)
    ensures OnGrid(q, h, start) <==> OnGrid(q.(zone := other), h, start)
  {
    hide Open, WholeStepsAfter, Weekday, Clock;
  }

  lemma SameCover(q: Query, h: Hour, start: Instant, other: Zone)
    requires Open(h) && q.zone.clock(start) == other.clock(start)
    requires forall k :: 0 <= k < q.duration + q.buffer ==>
               q.zone.clock(start + k * MINUTE) == other.clock(start + k * MINUTE)
    ensures Covers(q, h, start) <==> Covers(q.(zone := other), h, start)
  {
    var o, opening := q.(zone := other), OpeningDate(q, h, start);
    var opens, closes := Clock(h.opensAt).value, CloseMinute(h);
    assert OpeningDate(o, h, start) == opening;
    hide Inside, OpeningDate, CloseMinute, Clock, Open;
    forall k | 0 <= k < q.duration + q.buffer
      ensures Inside(q, opening, opens, closes, start + k * MINUTE) <==>
                Inside(o, opening, opens, closes, start + k * MINUTE)
    {
      SameInside(q, other, opening, opens, closes, start + k * MINUTE);
    }
  }

  lemma SameInside(q: Query, other: Zone, opening: int, opens: int, closes: int, probe: Instant)
    requires q.zone.clock(probe) == other.clock(probe)
    ensures Inside(q, opening, opens, closes, probe) <==> Inside(q.(zone := other), opening, opens, closes, probe)
  {
  }

  lemma SameOffers(q: Query, start: Instant, other: Zone)
    requires q.step >= 1 && q.duration >= 1 && q.buffer >= 0
    requires forall k :: 0 <= k < q.duration + q.buffer ==>
               q.zone.clock(start + k * MINUTE) == other.clock(start + k * MINUTE)
    ensures Offered(q, start) <==> Offered(q.(zone := other), start)
  {
    hide Accepts;
    forall i | 0 <= i < |q.hours|
      ensures Accepts(q, q.hours[i], start) <==> Accepts(q.(zone := other), q.hours[i], start)
    {
      SameReadings(q, q.hours[i], start, other);
    }
  }

  /** Main result: on a date away from a jump the generator offers exactly the declared starts, whatever the
      zone does on other days. */
  lemma SteadyDatesAreDeclared(zone: Zone, offset: int, date: int, hours: seq<Hour>, closed: seq<int>, step: int,
                               duration: int, buffer: int, now: Instant, lead: int, horizon: int, s: Instant)
    requires step >= 1 && duration >= 1 && buffer >= 0 && SteadyOn(zone, offset, date, duration + buffer)
    ensures OfferedOn(zone, date, hours, closed, step, duration, buffer, now, lead, horizon, s) <==>
            Bookable(zone, date, closed, now, horizon) &&
            DeclaredOn(offset, date, hours, closed, step, duration + buffer, now + lead * MINUTE, s)
  {
    hide Bookable, DeclaredOn, Offered;
    var q := QueryOf(zone, date, hours, closed, step, duration, buffer, now, lead);
    var o := q.(zone := Straight(offset));
    StraightIsFixed(offset);
    MinutesAreDeclared(o, offset, s);
    MinuteOfDate(offset, date, s);
    if zone.midnight(date) <= s < zone.midnight(date + 1) {
      SteadyReadings(zone, offset, date, duration + buffer, s);
      SameOffers(q, s, Straight(offset));
    }
  }

  lemma SteadyReadings(zone: Zone, offset: int, date: int, span: int, s: Instant)
    requires SteadyOn(zone, offset, date, span) && DayStart(offset, date) <= s < DayStart(offset, date + 1)
    ensures forall k :: 0 <= k < span ==> zone.clock(s + k * MINUTE) == Straight(offset).clock(s + k * MINUTE)
  {
  }

  lemma MinuteOfDate(offset: int, date: int, s: Instant)
    ensures (exists k: nat :: k < 1440 && s == DayStart(offset, date) + k * MINUTE) <==>
            DayStart(offset, date) <= s < DayStart(offset, date + 1) && (s - DayStart(offset, date)) % MINUTE == 0
  {
    if DayStart(offset, date) <= s < DayStart(offset, date + 1) && (s - DayStart(offset, date)) % MINUTE == 0 {
      var k := (s - DayStart(offset, date)) / MINUTE;
      assert s == DayStart(offset, date) + k * MINUTE && 0 <= k < 1440;
    }
  }

  // ----- A jump during the occupied time -----

  /** On each of n minutes from s the zone's clock reads as with this offset. */
  ghost predicate ReadsLike(zone: Zone, offset: int, s: Instant, n: nat) {
    forall k :: 0 <= k < n ==> zone.clock(s + k * MINUTE) == Reading(offset, s + k * MINUTE)
  }

  /** Minutes since the first local midnight, with this offset. */
  function LocalMinute(offset: int, t: Instant): int {
    (t + offset) / MINUTE
  }

  /** The minutes of date d, counted from its midnight, at which n minutes from s come onto it and leave it. */
  function Enters(offset: int, d: int, s: Instant): int {
    var m := LocalMinute(offset, s) - d * 1440;
    if m < 0 then 0 else m
  }

  function Leaves(offset: int, d: int, s: Instant, n: nat): int {
    var m := LocalMinute(offset, s) + n - d * 1440;
    if m > 1440 then 1440 else m
  }

  /** Minutes of the opening's own date count as they are, those of any other date a day later. */
  function Shift(opening: int, d: int): int {
    if d == opening then 0 else 1440
  }

  /** On every date that n minutes from s touch, read with this offset, their part of it lies between the
      opening and closing minutes, and the date is not closed. */
  ghost predicate PartsInside(offset: int, opening: int, opens: int, closes: int, closed: seq<int>, s: Instant,
                              n: nat) {
    forall d :: Enters(offset, d, s) < Leaves(offset, d, s, n) ==>
      && opens <= Enters(offset, d, s) + Shift(opening, d)
      && Leaves(offset, d, s, n) + Shift(opening, d) <= closes
      && d !in closed
  }

  lemma ReadingOfMinute(offset: int, s: Instant, k: nat)
    ensures var m := LocalMinute(offset, s) + k;
            Reading(offset, s + k * MINUTE) == Local(m / 1440, m % 1440)
  {
    var x, m := s + k * MINUTE + offset, LocalMinute(offset, s) + k;
    assert x / MINUTE == m;
    var d, r := m / 1440, m % 1440;
    assert d * DAY + r * MINUTE <= x < d * DAY + r * MINUTE + MINUTE;
  }

  lemma ProbesMeanParts(q: Query, offset: int, opening: int, opens: int, closes: int, s: Instant, n: nat)
    requires ReadsLike(q.zone, offset, s, n)
    ensures AllInside(q, opening, opens, closes, s, n) <==>
            PartsInside(offset, opening, opens, closes, q.closed, s, n)
  {
    hide Reading;
    if AllInside(q, opening, opens, closes, s, n) {
      forall d | Enters(offset, d, s) < Leaves(offset, d, s, n)
        ensures opens <= Enters(offset, d, s) + Shift(opening, d)
        ensures Leaves(offset, d, s, n) + Shift(opening, d) <= closes && d !in q.closed
      {
        PartOfProbes(q, offset, opening, opens, closes, s, n, d);
      }
    }
    if PartsInside(offset, opening, opens, closes, q.closed, s, n) {
      forall k | 0 <= k < n
        ensures Inside(q, opening, opens, closes, s + k * MINUTE)
      {
        ReadingOfMinute(offset, s, k);
        var m := LocalMinute(offset, s) + k;
        assert Enters(offset, m / 1440, s) <= m % 1440 < Leaves(offset, m / 1440, s, n);
      }
    }
  }

  lemma PartOfProbes(q: Query, offset: int, opening: int, opens: int, closes: int, s: Instant, n: nat, d: int)
    requires ReadsLike(q.zone, offset, s, n)
    requires AllInside(q, opening, opens, closes, s, n) && Enters(offset, d, s) < Leaves(offset, d, s, n)
    ensures opens <= Enters(offset, d, s) + Shift(opening, d)
    ensures Leaves(offset, d, s, n) + Shift(opening, d) <= closes && d !in q.closed
  {
    hide Reading;
    var base := d * 1440 - LocalMinute(offset, s);
    var first, last := base + Enters(offset, d, s), base + Leaves(offset, d, s, n) - 1;
    ReadingOfMinute(offset, s, first);
    ReadingOfMinute(offset, s, last);
    assert Inside(q, opening, opens, closes, s + first * MINUTE) &&
           Inside(q, opening, opens, closes, s + last * MINUTE);
  }

  /** n minutes from s, read with this offset, lie between the opening and closing minutes of the opening that
      began on this date, and touch no closed date. */
  ghost predicate StretchInOpening(offset: int, opening: int, opens: int, closes: int, closed: seq<int>, s: Instant,
                                n: nat) {
    n == 0 ||
    (DayStart(offset, opening) + opens * MINUTE <= s && s + n * MINUTE <= DayStart(offset, opening) + closes * MINUTE &&
     !TouchesClosed(offset, closed, n, s))
  }

  /** The stretch starts on a whole local minute, on the opening's date or the one after. */
  predicate StretchStarts(offset: int, opening: int, s: Instant) {
    DayStart(offset, opening) <= s < DayStart(offset, opening + 2) && (s + offset) % MINUTE == 0
  }

  /** Each of n minute probes from s is inside. */
  ghost predicate AllInside(q: Query, opening: int, opens: int, closes: int, s: Instant, n: nat) {
    forall k :: 0 <= k < n ==> Inside(q, opening, opens, closes, s + k * MINUTE)
  }

  lemma ProbesMeanStretch(q: Query, offset: int, opening: int, opens: nat, closes: nat, s: Instant, n: nat)
    requires opens < 1440 && closes < 2 * 1440 && StretchStarts(offset, opening, s)
    requires ReadsLike(q.zone, offset, s, n)
    ensures AllInside(q, opening, opens, closes, s, n) <==>
              StretchInOpening(offset, opening, opens, closes, q.closed, s, n)
  {
    var o := q.(zone := Straight(offset));
    StraightIsFixed(offset);
    forall k | 0 <= k < n
      ensures Inside(q, opening, opens, closes, s + k * MINUTE) <==> Inside(o, opening, opens, closes, s + k * MINUTE)
    {
      SameInside(q, Straight(offset), opening, opens, closes, s + k * MINUTE);
    }
    StraightProbes(o, offset, opening, opens, closes, s, n);
  }

  lemma MinutesSince(offset: int, opening: int, s: Instant) returns (r: nat)
    requires StretchStarts(offset, opening, s)
    ensures r < 2 * 1440 && s == DayStart(offset, opening) + r * MINUTE
  {
    r := (s - DayStart(offset, opening)) / MINUTE;
    var m := (s + offset) / MINUTE;
    assert s + offset == m * MINUTE;
    assert s - DayStart(offset, opening) == (m - opening * 1440) * MINUTE;
  }

  lemma StraightProbes(q: Query, offset: int, opening: int, opens: nat, closes: nat, s: Instant, n: nat)
    requires FixedOffset(q.zone, offset) && opens < 1440 && closes < 2 * 1440 && StretchStarts(offset, opening, s)
    ensures AllInside(q, opening, opens, closes, s, n) <==>
              StretchInOpening(offset, opening, opens, closes, q.closed, s, n)
  {
    if n > 0 {
      var r := MinutesSince(offset, opening, s);
      if AllInside(q, opening, opens, closes, s, n) {
        ProbesReachClose(q, offset, opening, opens, closes, r, n);
        ProbedDatesAreOpen(q, offset, opening, opens, closes, r, n);
      }
      if StretchInOpening(offset, opening, opens, closes, q.closed, s, n) {
        StretchProbes(q, offset, opening, opens, closes, r, n);
      }
    }
  }

  lemma ProbedDatesAreOpen(q: Query, offset: int, opening: int, opens: nat, closes: nat, r: nat, n: nat)
    requires FixedOffset(q.zone, offset)
    requires forall k :: 0 <= k < n ==>
               Inside(q, opening, opens, closes, DayStart(offset, opening) + r * MINUTE + k * MINUTE)
    ensures !TouchesClosed(offset, q.closed, n, DayStart(offset, opening) + r * MINUTE)
  {
    var s := DayStart(offset, opening) + r * MINUTE;
    forall t | s <= t < s + n * MINUTE
      ensures DateOf(offset, t) !in q.closed
    {
      var j := (t - s) / MINUTE;
      assert Inside(q, opening, opens, closes, DayStart(offset, opening) + r * MINUTE + j * MINUTE);
      assert s + j * MINUTE == DayStart(offset, opening) + (r + j) * MINUTE;
      ProbeDates(q, offset, opening, r + j, t);
    }
  }

  lemma StretchProbes(q: Query, offset: int, opening: int, opens: nat, closes: nat, r: nat, n: nat)
    requires FixedOffset(q.zone, offset) && closes < 2 * 1440 && n > 0
    requires StretchInOpening(offset, opening, opens, closes, q.closed, DayStart(offset, opening) + r * MINUTE, n)
    ensures forall k :: 0 <= k < n ==>
              Inside(q, opening, opens, closes, DayStart(offset, opening) + r * MINUTE + k * MINUTE)
  {
    var s := DayStart(offset, opening) + r * MINUTE;
    forall k | 0 <= k < n
      ensures Inside(q, opening, opens, closes, s + k * MINUTE)
    {
      assert s + k * MINUTE == DayStart(offset, opening) + (r + k) * MINUTE;
      assert DateOf(offset, s + k * MINUTE) !in q.closed;
      InsideAt(q, offset, opening, opens, closes, r + k);
    }
  }

  /** Main result: when the offset changes once during the occupied time, in whatever direction and across
      whatever dates, a rule covers it exactly when on every date touched both stretches, each read with its own
      offset, keep to the rule's minutes and the date is not closed. */
  lemma CoversAcrossJump(q: Query, h: Hour, start: Instant, before: int, after: int, j: nat)
    requires q.duration >= 0 && q.buffer >= 0 && j <= q.duration + q.buffer && Open(h)
    requires ReadsLike(q.zone, before, start, j)
    requires ReadsLike(q.zone, after, start + j * MINUTE, q.duration + q.buffer - j)
    ensures var opening, opens, closes := OpeningDate(q, h, start), Clock(h.opensAt).value, CloseMinute(h);
            Covers(q, h, start) <==>
            PartsInside(before, opening, opens, closes, q.closed, start, j) &&
            PartsInside(after, opening, opens, closes, q.closed, start + j * MINUTE, q.duration + q.buffer - j)
  {
    var opening, opens, closes := OpeningDate(q, h, start), Clock(h.opensAt).value, CloseMinute(h);
    CoversIsAllInside(q, h, start);
    hide Covers, AllInside, PartsInside, OpeningDate, CloseMinute, ReadsLike, Open;
    ProbesMeanParts(q, before, opening, opens, closes, start, j);
    ProbesMeanParts(q, after, opening, opens, closes, start + j * MINUTE, q.duration + q.buffer - j);
    SplitProbes(q, opening, opens, closes, start, j, q.duration + q.buffer);
  }

  lemma CoversIsAllInside(q: Query, h: Hour, start: Instant)
    requires Open(h) && q.duration + q.buffer >= 0
    ensures Covers(q, h, start) <==>
            AllInside(q, OpeningDate(q, h, start), Clock(h.opensAt).value, CloseMinute(h), start, q.duration + q.buffer)
  {
    hide Inside, OpeningDate, CloseMinute, Clock;
  }

  /** Where both stretches start on the opening's date or the one after, as they do unless the jump goes back
      over its midnight or skips a date, that is containment in the opening: a gap may be skipped over, and a
      repeated hour has to lie inside the opening both times. */
  lemma CoversAcrossUsualJump(q: Query, h: Hour, start: Instant, before: int, after: int, j: nat)
    requires q.duration >= 0 && q.buffer >= 0 && j <= q.duration + q.buffer && Open(h)
    requires ReadsLike(q.zone, before, start, j)
    requires ReadsLike(q.zone, after, start + j * MINUTE, q.duration + q.buffer - j)
    requires StretchStarts(before, OpeningDate(q, h, start), start)
    requires StretchStarts(after, OpeningDate(q, h, start), start + j * MINUTE)
    ensures var opening, opens, closes := OpeningDate(q, h, start), Clock(h.opensAt).value, CloseMinute(h);
            Covers(q, h, start) <==>
            StretchInOpening(before, opening, opens, closes, q.closed, start, j) &&
            StretchInOpening(after, opening, opens, closes, q.closed, start + j * MINUTE, q.duration + q.buffer - j)
  {
    var opening, opens, closes := OpeningDate(q, h, start), Clock(h.opensAt).value, CloseMinute(h);
    ClosesNextDay(h);
    CoversIsAllInside(q, h, start);
    hide Covers, AllInside, StretchInOpening, StretchStarts, OpeningDate, CloseMinute, ReadsLike, Open;
    ProbesMeanStretch(q, before, opening, opens, closes, start, j);
    ProbesMeanStretch(q, after, opening, opens, closes, start + j * MINUTE, q.duration + q.buffer - j);
    SplitProbes(q, opening, opens, closes, start, j, q.duration + q.buffer);
  }

  lemma ClosesNextDay(h: Hour)
    requires Open(h)
    ensures 0 <= CloseMinute(h) < 2 * 1440
  {
  }

  lemma SplitProbes(q: Query, opening: int, opens: int, closes: int, start: Instant, j: nat, n: nat)
    requires j <= n
    ensures AllInside(q, opening, opens, closes, start, n) <==>
            AllInside(q, opening, opens, closes, start, j) &&
            AllInside(q, opening, opens, closes, start + j * MINUTE, n - j)
  {
    hide Inside;
    assert forall k :: start + j * MINUTE + k * MINUTE == start + (j + k) * MINUTE;
    if AllInside(q, opening, opens, closes, start, n) {
      forall k | 0 <= k < n - j
        ensures Inside(q, opening, opens, closes, start + j * MINUTE + k * MINUTE)
      {
        assert Inside(q, opening, opens, closes, start + (j + k) * MINUTE);
      }
    }
    if AllInside(q, opening, opens, closes, start, j) &&
       AllInside(q, opening, opens, closes, start + j * MINUTE, n - j) {
      forall k | 0 <= k < n
        ensures Inside(q, opening, opens, closes, start + k * MINUTE)
      {
        if k >= j {
          var i := k - j;
          assert start + j * MINUTE + i * MINUTE == start + k * MINUTE;
          assert Inside(q, opening, opens, closes, start + j * MINUTE + i * MINUTE);
        }
      }
    }
  }
}
