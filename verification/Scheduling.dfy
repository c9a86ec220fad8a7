/** The slot generator: weekly opening rules, closed dates, lead time and horizon.

    A zone is any local clock together with the instant at which each local date begins.
    Dates are day numbers counted from 1 January 1970, a Thursday. */
module Scheduling {
  import opened Prelude

  datatype Hour = Hour(dayOfWeek: int, opensAt: string, closesAt: string, isClosed: bool)

  datatype Slot = Slot(startsAt: Instant, endsAt: Instant)

  datatype Local = Local(date: int, minute: int)

  datatype Zone = Zone(clock: Instant -> Local, midnight: int -> Instant)

  /** Everything one scan over a date depends on; `earliest` is now plus the lead time. */
  datatype Query = Query(zone: Zone, date: int, hours: seq<Hour>, closed: seq<int>,
                         step: int, duration: int, buffer: int, earliest: Instant)

  /** Monday is 0. */
  function Weekday(date: int): int {
    (date + 3) % 7
  }

  predicate Digit(c: char) {
    '0' <= c <= '9'
  }

  function Value(c: char): int
    requires Digit(c)
  {
    c as int - '0' as int
  }

  function Digits(n: int): string
    requires 0 <= n <= 9
  {
    ['0' + n as char]
  }

  function TwoDigits(n: int): string
    requires 0 <= n <= 99
  {
    Digits(n / 10) + Digits(n % 10)
  }

  /** The text is this time of day; an hour below ten may be written with one digit. */
  predicate Denotes(s: string, hour: int, minute: int) {
    && 0 <= hour < 24 && 0 <= minute < 60
    && (s == TwoDigits(hour) + ":" + TwoDigits(minute) || (hour < 10 && s == Digits(hour) + ":" + TwoDigits(minute)))
  }

  /** Minutes after midnight of an "H:MM" or "HH:MM" text. */
  function Clock(s: string): (r: Option<int>)
    ensures r.Some? ==> 0 <= r.value < MINUTES_A_DAY
  {
    if |s| == 5 && Digit(s[0]) && Digit(s[1]) && s[2] == ':' && Digit(s[3]) && Digit(s[4]) then
      Minutes(10 * Value(s[0]) + Value(s[1]), 10 * Value(s[3]) + Value(s[4]))
    else if |s| == 4 && Digit(s[0]) && s[1] == ':' && Digit(s[2]) && Digit(s[3]) then
      Minutes(Value(s[0]), 10 * Value(s[2]) + Value(s[3]))
    else
      None
  }

  function Minutes(hour: int, minute: int): Option<int> {
    if 0 <= hour < 24 && 0 <= minute < 60 then Some(hour * 60 + minute) else None
  }

  lemma DigitsRead(n: int)
    requires 0 <= n <= 9
    ensures |Digits(n)| == 1 && Digit(Digits(n)[0]) && Value(Digits(n)[0]) == n
  {
  }

  lemma DigitIsRead(c: char)
    requires Digit(c)
    ensures 0 <= Value(c) <= 9 && Digits(Value(c)) == [c]
  {
  }

  /** Every time of day is read from its text. */
  lemma TextIsRead(s: string, hour: int, minute: int)
    requires Denotes(s, hour, minute)
    ensures Clock(s) == Some(60 * hour + minute)
  {
    hide Digits, Value, Digit;
    DigitsRead(hour / 10);
    DigitsRead(hour % 10);
    DigitsRead(minute / 10);
    DigitsRead(minute % 10);
    if hour < 10 {
      DigitsRead(hour);
    }
  }

  /** Whatever is read is the text of a time of day. */
  lemma ReadIsText(s: string)
    requires Clock(s).Some?
    ensures exists hour, minute :: Denotes(s, hour, minute) && Clock(s) == Some(60 * hour + minute)
  {
    hide Digits, Value, Digit;
    if |s| == 5 {
      DigitIsRead(s[0]);
      DigitIsRead(s[1]);
      DigitIsRead(s[3]);
      DigitIsRead(s[4]);
      var hour, minute := 10 * Value(s[0]) + Value(s[1]), 10 * Value(s[3]) + Value(s[4]);
      assert hour / 10 == Value(s[0]) && hour % 10 == Value(s[1]) && minute / 10 == Value(s[3]) &&
             minute % 10 == Value(s[4]);
      assert s == [s[0]] + [s[1]] + ":" + ([s[3]] + [s[4]]);
      assert Denotes(s, hour, minute);
    } else {
      DigitIsRead(s[0]);
      DigitIsRead(s[2]);
      DigitIsRead(s[3]);
      var hour, minute := Value(s[0]), 10 * Value(s[2]) + Value(s[3]);
      assert minute / 10 == Value(s[2]) && minute % 10 == Value(s[3]);
      assert s == [s[0]] + ":" + ([s[2]] + [s[3]]);
      assert Denotes(s, hour, minute);
    }
  }

  /** Main result: a text is read as a minute of the day exactly when it is that time, written with two digits
      each or with one digit for an hour below ten. */
  lemma ClockReads(s: string, hour: int, minute: int)
    requires 0 <= hour < 24 && 0 <= minute < 60
    ensures Clock(s) == Some(60 * hour + minute) <==> Denotes(s, hour, minute)
  {
    hide Clock, Denotes;
    if Denotes(s, hour, minute) {
      TextIsRead(s, hour, minute);
    }
    if Clock(s) == Some(60 * hour + minute) {
      ReadIsText(s);
      var h, m :| Denotes(s, h, m) && Clock(s) == Some(60 * h + m);
      DenotesInRange(s, h, m);
      assert h == hour && m == minute;
    }
  }

  lemma DenotesInRange(s: string, hour: int, minute: int)
    requires Denotes(s, hour, minute)
    ensures 0 <= hour < 24 && 0 <= minute < 60
  {
  }

  // ----- One rule, one start -----

  predicate Open(h: Hour) {
    !h.isClosed && Clock(h.opensAt).Some? && Clock(h.closesAt).Some?
  }

  /** The instant lies inside the opening that began on `opening`, on an unclosed date. */
  predicate Inside(q: Query, opening: int, opens: int, closes: int, probe: Instant) {
    var local := q.zone.clock(probe);
    var wall := local.minute + (if local.date != opening then MINUTES_A_DAY else 0);
    opens <= wall < closes && local.date !in q.closed
  }

  /** After midnight an overnight rule continues the opening of the day before. */
  predicate Continues(q: Query, h: Hour, start: Instant)
    requires Open(h)
  {
    Clock(h.closesAt).value < Clock(h.opensAt).value && q.zone.clock(start).minute < Clock(h.closesAt).value
  }

  function OpeningDate(q: Query, h: Hour, start: Instant): int
    requires Open(h)
  {
    if Continues(q, h, start) then q.date - 1 else q.date
  }

  function CloseMinute(h: Hour): int
    requires Open(h)
  {
    var opens, closes := Clock(h.opensAt).value, Clock(h.closesAt).value;
    if closes < opens then closes + MINUTES_A_DAY else closes
  }

  /** Minutes from the opening of rule h to this start; negative before it opens. */
  function SinceOpening(q: Query, h: Hour, start: Instant): int
    requires Open(h)
  {
    q.zone.clock(start).minute + (if Continues(q, h, start) then MINUTES_A_DAY else 0) - Clock(h.opensAt).value
  }

  predicate WholeStepsAfter(minutes: int, step: int)
    requires step >= 1
  {
    minutes >= 0 && minutes % step == 0
  }

  predicate RightDay(q: Query, h: Hour, start: Instant)
    requires Open(h)
  {
    (Weekday(q.zone.clock(start).date) + (if Continues(q, h, start) then 6 else 0)) % 7 == h.dayOfWeek
  }

  predicate OnGrid(q: Query, h: Hour, start: Instant)
    requires q.step >= 1 && Open(h)
  {
    && RightDay(q, h, start)
    && WholeStepsAfter(SinceOpening(q, h, start), q.step)
    && OpeningDate(q, h, start) !in q.closed
  }

  predicate Covers(q: Query, h: Hour, start: Instant)
    requires Open(h)
  {
    forall k :: 0 <= k < q.duration + q.buffer ==>
      Inside(q, OpeningDate(q, h, start), Clock(h.opensAt).value, CloseMinute(h), start + k * MINUTE)
  }

  predicate Accepts(q: Query, h: Hour, start: Instant)
    requires q.step >= 1
  {
    Open(h) && OnGrid(q, h, start) && Covers(q, h, start)
  }

  predicate Offered(q: Query, start: Instant)
    requires q.step >= 1
  {
    q.earliest <= start && exists i :: 0 <= i < |q.hours| && Accepts(q, q.hours[i], start)
  }

  // ----- The scan over one date -----

  function SlotAt(q: Query, start: Instant): Slot {
    Slot(start, start + q.duration * MINUTE)
  }

  /** The slots among the first n minutes counted from `first`. */
  ghost function Scan(q: Query, first: Instant, n: nat): seq<Slot>
    requires q.step >= 1
  {
    if n == 0 then []
    else
      var start := first + (n - 1) * MINUTE;
      Scan(q, first, n - 1) + (if Offered(q, start) then [SlotAt(q, start)] else [])
  }

  function Steps(first: Instant, last: Instant): nat {
    if last <= first then 0 else (last - first + MINUTE - 1) / MINUTE
  }

  predicate Bookable(zone: Zone, date: int, closed: seq<int>, now: Instant, horizon: int) {
    var today := zone.clock(now).date;
    zone.midnight(today) <= zone.midnight(date) < zone.midnight(today + horizon + 1) && date !in closed
  }

  ghost function SlotsOf(zone: Zone, date: int, hours: seq<Hour>, closed: seq<int>, step: int,
                         duration: int, buffer: int, now: Instant, lead: int, horizon: int): Result<seq<Slot>>
  {
    if !Bookable(zone, date, closed, now, horizon) then Ok([])
    else if step < 1 || duration < 1 then Err(InvalidRequest)
    else
      var q := Query(zone, date, hours, closed, step, duration, buffer, now + lead * MINUTE);
      var first, last := zone.midnight(date), zone.midnight(date + 1);
      Ok(Scan(q, first, Steps(first, last)))
  }

  /** The generator: three nested loops over starts, rules and probed minutes. */
  method Slots(zone: Zone, date: int, hours: seq<Hour>, closed: seq<int>, step: int,
               duration: int, buffer: int, now: Instant, lead: int, horizon: int)
    returns (r: Result<seq<Slot>>)
    ensures r == SlotsOf(zone, date, hours, closed, step, duration, buffer, now, lead, horizon)
  {
    if !Bookable(zone, date, closed, now, horizon) {
      return Ok([]);
    }
    if step < 1 || duration < 1 {
      return Err(InvalidRequest);
    }
    var q := Query(zone, date, hours, closed, step, duration, buffer, now + lead * MINUTE);
    var first, last := zone.midnight(date), zone.midnight(date + 1);
    var out: seq<Slot> := [];
    var start := first;
    ghost var n: nat := 0;
    while start < last
      invariant start == first + n * MINUTE
      invariant n == 0 || start - MINUTE < last
      invariant out == Scan(q, first, n)
    {
      if start >= q.earliest {
        var found := TryRules(q, start);
        if found {
          out := out + [SlotAt(q, start)];
        }
      }
      start, n := start + MINUTE, n + 1;
    }
    StepsExact(first, last, n);
    r := Ok(out);
  }

  lemma StepsExact(first: Instant, last: Instant, n: nat)
    requires first + n * MINUTE >= last
    requires n == 0 || first + n * MINUTE - MINUTE < last
    ensures n == Steps(first, last)
  {
  }

  /** The rules in order, until one accepts the start. */
  method TryRules(q: Query, start: Instant) returns (found: bool)
    requires q.step >= 1
    ensures found <==> exists j :: 0 <= j < |q.hours| && Accepts(q, q.hours[j], start)
  {
    var i := 0;
    found := false;
    while i < |q.hours| && !found
      invariant 0 <= i <= |q.hours|
      invariant found <==> exists j :: 0 <= j < i && Accepts(q, q.hours[j], start)
    {
      found := TryRule(q, q.hours[i], start);
      i := i + 1;
    }
  }

  /** The innermost loop: probe every occupied minute. */
  method TryRule(q: Query, h: Hour, start: Instant) returns (valid: bool)
    requires q.step >= 1
    ensures valid <==> Accepts(q, h, start)
  {
    if !Open(h) || !OnGrid(q, h, start) {
      return false;
    }
    var opening, opens, closes := OpeningDate(q, h, start), Clock(h.opensAt).value, CloseMinute(h);
    var end := start + (q.duration + q.buffer) * MINUTE;
    valid := true;
    var probe := start;
    ghost var k := 0;
    while probe < end && valid
      invariant k >= 0 && probe == start + k * MINUTE
      invariant valid ==> forall j :: 0 <= j < k ==> Inside(q, opening, opens, closes, start + j * MINUTE)
      invariant valid ==> k <= q.duration + q.buffer || k == 0
      invariant !valid ==>
                  exists j :: 0 <= j < q.duration + q.buffer && !Inside(q, opening, opens, closes, start + j * MINUTE)
      decreases end - probe
    {
      if !Inside(q, opening, opens, closes, probe) {
        valid := false;
        assert !Inside(q, opening, opens, closes, start + k * MINUTE);
      }
      probe, k := probe + MINUTE, k + 1;
    }
  }
}
