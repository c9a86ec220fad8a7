/** The check on an owner's settings before they are stored. */
module Configuration {
  import opened Prelude
  import opened Records
  import Pricing
  import Scheduling

  /** At most one rule per weekday; an open rule has two different readable times. */
  predicate ValidSchedule(hours: seq<Scheduling.Hour>, closed: seq<int>) {
    && |hours| <= 7 && |closed| <= 366
    && (forall i :: 0 <= i < |hours| ==> ValidHour(hours[i]))
    && (forall i, j :: 0 <= i < j < |hours| ==> hours[i].dayOfWeek != hours[j].dayOfWeek)
  }

  predicate ValidHour(h: Scheduling.Hour) {
    && 0 <= h.dayOfWeek <= 6
    && (h.isClosed || (Scheduling.Clock(h.opensAt).Some? && Scheduling.Clock(h.closesAt).Some? &&
                       Scheduling.Clock(h.opensAt) != Scheduling.Clock(h.closesAt)))
  }

  method ValidateSchedule(hours: seq<Scheduling.Hour>, closed: seq<int>) returns (ok: bool)
    ensures ok <==> ValidSchedule(hours, closed)
  {
    if |hours| > 7 || |closed| > 366 {
      return false;
    }
    var seen: set<int> := {};
    for i := 0 to |hours|
      invariant forall d :: d in seen <==> exists j :: 0 <= j < i && hours[j].dayOfWeek == d
      invariant forall j :: 0 <= j < i ==> ValidHour(hours[j])
      invariant forall j, k :: 0 <= j < k < i ==> hours[j].dayOfWeek != hours[k].dayOfWeek
    {
      var h := hours[i];
      if h.dayOfWeek < 0 || h.dayOfWeek > 6 || h.dayOfWeek in seen {
        return false;
      }
      seen := seen + {h.dayOfWeek};
      if !h.isClosed {
        var opens, closes := Scheduling.Clock(h.opensAt), Scheduling.Clock(h.closesAt);
        if opens.None? || closes.None? || opens == closes {
          return false;
        }
      }
    }
    return true;
  }

  /** What a plan below Business, and a module, may not configure. */
  predicate Permitted(s: Settings, tier: Tier, m: Module) {
    && (tier.Business? || (s.cutoff == "" && s.maxOrders == 0))
    && (m.Appointments? ==> s.rules == [] && s.maxOrders == 0 && s.cutoff == "")
    && |s.rules| <= 500
    && (s.enabled ==> s.hours != [])
  }

  /** Positive bounds of at most nine digits before the point, in order, and a positive step no larger than the upper
      one. */
  predicate Sensible(r: Pricing.Rule) {
    0 < r.min <= r.max <= 999_999_999_000 && 0 < r.step <= r.max
  }

  method ValidateRules(rules: seq<Pricing.Rule>) returns (ok: bool)
    ensures ok <==> (forall i :: 0 <= i < |rules| ==> Sensible(rules[i])) &&
                    (forall i, j :: 0 <= i < j < |rules| ==> rules[i].variant != rules[j].variant)
  {
    var seen: set<Id> := {};
    for i := 0 to |rules|
      invariant forall v :: v in seen <==> exists j :: 0 <= j < i && rules[j].variant == v
      invariant forall j :: 0 <= j < i ==> Sensible(rules[j])
      invariant forall j, k :: 0 <= j < k < i ==> rules[j].variant != rules[k].variant
    {
      if rules[i].variant in seen {
        return false;
      }
      seen := seen + {rules[i].variant};
      if !Pricing.ValidRule(rules[i]) {
        return false;
      }
    }
    return true;
  }

  /** Settings are accepted exactly when they are valid; what every stored setting satisfies follows. */
  method ValidateSettings(s: Settings, tier: Tier, m: Module) returns (r: Result<()>)
    ensures r.Ok? <==> ValidSettings(s) && ValidSchedule(s.hours, s.closed) && Permitted(s, tier, m)
    ensures r.Ok? ==> forall i :: 0 <= i < |s.rules| ==> Sensible(s.rules[i])
    ensures r.Ok? ==>
              && 0 <= s.lead <= 10080 && 1 <= s.horizon <= 90 && 5 <= s.slot <= 240
              && 0 <= s.cancelBefore <= 10080 && 5 <= s.ttl <= 10080 && 0 <= s.maxOrders <= 1000
    ensures !tier.Business? && (s.cutoff != "" || s.maxOrders != 0) ==> r.Err?
    ensures r.Err? ==> r.error == InvalidRequest || r.error == ModuleUnavailable
  {
    var schedule := ValidateSchedule(s.hours, s.closed);
    if !schedule {
      return Err(InvalidRequest);
    }
    if s.lead < 0 || s.lead > 10080 || s.horizon < 1 || s.horizon > 90 || s.slot < 5 || s.slot > 240 ||
       s.cancelBefore < 0 || s.cancelBefore > 10080 || s.ttl < 5 || s.ttl > 10080 ||
       s.maxOrders < 0 || s.maxOrders > 1000 {
      return Err(InvalidRequest);
    }
    if !tier.Business? && (s.cutoff != "" || s.maxOrders != 0) {
      return Err(ModuleUnavailable);
    }
    if s.cutoff != "" && Scheduling.Clock(s.cutoff).None? {
      return Err(InvalidRequest);
    }
    if m.Appointments? && (|s.rules| > 0 || s.maxOrders != 0 || s.cutoff != "") {
      return Err(InvalidRequest);
    }
    if |s.rules| > 500 {
      return Err(InvalidRequest);
    }
    var rules := ValidateRules(s.rules);
    if !rules {
      return Err(InvalidRequest);
    }
    if s.enabled && |s.hours| == 0 {
      return Err(InvalidRequest);
    }
    return Ok(());
  }
}
