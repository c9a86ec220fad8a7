/** The plan as the payment provider stores it, and the local subscription row derived from it. */
module Billing {
  import opened Prelude

  const APPOINTMENTS: string := "appointments"
  const PREORDERS: string := "preorders"
  const GRACE: int := 7 * DAY

  /** The configured price of each plan and of the second module. */
  datatype Prices = Prices(essential: string, business: string, addon: string)

  datatype Item = Item(id: string, price: string, quantity: int, currency: string, active: bool, start: Instant,
                       end: Instant)

  datatype Metadata = Metadata(baseModule: string, modules: string)

  datatype Choice = Choice(tier: string, modules: seq<string>)

  // ----- Strings -----

  /** Byte order, as the sort uses it. */
  predicate Before(a: string, b: string) {
    if b == "" then false
    else if a == "" then true
    else a[0] < b[0] || (a[0] == b[0] && Before(a[1..], b[1..]))
  }

  function Sorted(modules: seq<string>): (r: seq<string>)
    ensures |r| == |modules| && forall m :: m in r <==> m in modules
    ensures |r| == 2 ==> (r[0] == r[1] <==> modules[0] == modules[1])
  {
    if |modules| == 2 && Before(modules[1], modules[0]) then [modules[1], modules[0]] else modules
  }

  /** The part before the first comma. */
  function FirstPart(s: string): string {
    if s == "" || s[0] == ',' then "" else [s[0]] + FirstPart(s[1..])
  }

  function Joined(parts: seq<string>): string {
    if parts == [] then "" else if |parts| == 1 then parts[0] else parts[0] + "," + Joined(parts[1..])
  }

  // ----- A choice of plan -----

  predicate Known(m: string) {
    m == APPOINTMENTS || m == PREORDERS
  }

  /** Checks a choice and sorts its modules in place. */
  method Validate(choice: Choice) returns (r: Result<Choice>)
    ensures r.Ok? <==>
              && (choice.tier == "essential" || choice.tier == "business")
              && (forall m :: m in choice.modules ==> m == "appointments" || m == "preorders")
              && (|choice.modules| == 1 || (|choice.modules| == 2 && choice.modules[0] != choice.modules[1]))
    ensures r.Ok? ==>
              && r.value.tier == choice.tier && multiset(r.value.modules) == multiset(choice.modules)
              && (|r.value.modules| == 2 ==> r.value.modules == ["appointments", "preorders"])
    ensures r == if ValidChoice(choice) then Ok(choice.(modules := Sorted(choice.modules))) else Err(InvalidRequest)
  {
    hide Before;
    if choice.tier != "essential" && choice.tier != "business" {
      return Err(InvalidRequest);
    }
    if |choice.modules| < 1 || |choice.modules| > 2 {
      return Err(InvalidRequest);
    }
    var modules := Sorted(choice.modules);
    var i := 0;
    while i < |modules|
      invariant 0 <= i <= |modules|
      invariant forall j :: 0 <= j < i ==> Known(modules[j]) && (j > 0 ==> modules[j - 1] != modules[j])
    {
      assert modules[i] in choice.modules;
      if !Known(modules[i]) || (i > 0 && modules[i - 1] == modules[i]) {
        return Err(InvalidRequest);
      }
      i := i + 1;
    }
    SortedChoices(choice.modules);
    return Ok(choice.(modules := modules));
  }

  predicate ValidChoice(choice: Choice) {
    && (choice.tier == "essential" || choice.tier == "business")
    && 1 <= |choice.modules| <= 2
    && (forall m :: m in choice.modules ==> Known(m))
    && (|choice.modules| == 2 ==> choice.modules[0] != choice.modules[1])
  }

  /** What a valid choice looks like once sorted: three lists of modules. */
  lemma SortedChoices(modules: seq<string>)
    requires 1 <= |modules| <= 2 && (forall m :: m in modules ==> Known(m)) &&
             (|modules| == 2 ==> modules[0] != modules[1])
    ensures Sorted(modules) == [APPOINTMENTS] || Sorted(modules) == [PREORDERS] ||
            Sorted(modules) == [APPOINTMENTS, PREORDERS]
    ensures multiset(Sorted(modules)) == multiset(modules)
  {
    AppointmentsFirst();
    hide Before, Sorted;
    assert modules[0] in modules && Known(modules[0]);
    if |modules| == 2 {
      assert modules[1] in modules && Known(modules[1]);
      SortedPair(modules, APPOINTMENTS, PREORDERS);
    } else {
      SortedAlone(modules);
    }
  }

  lemma SortedPair(modules: seq<string>, x: string, y: string)
    requires Before(x, y) && !Before(y, x) && |modules| == 2
    requires (modules[0] == x && modules[1] == y) || (modules[0] == y && modules[1] == x)
    ensures Sorted(modules) == [x, y] && multiset(Sorted(modules)) == multiset(modules)
  {
    hide Before;
    assert modules == [modules[0], modules[1]];
  }

  lemma SortedAlone(modules: seq<string>)
    requires |modules| == 1
    ensures Sorted(modules) == modules == [modules[0]]
  {
  }

  lemma AppointmentsFirst()
    ensures Before(APPOINTMENTS, PREORDERS) && !Before(PREORDERS, APPOINTMENTS)
  {
    assert APPOINTMENTS[0] == 'a' && PREORDERS[0] == 'p';
  }

  // ----- Sending a plan -----

  function PlanPrice(p: Prices, tier: string): string {
    if tier == "business" then p.business else p.essential
  }

  function DesiredPrices(p: Prices, choice: Choice): seq<string> {
    [PlanPrice(p, choice.tier)] + (if |choice.modules| == 2 then [p.addon] else [])
  }

  function MetadataOf(choice: Choice): Metadata
    requires |choice.modules| > 0
  {
    Metadata(choice.modules[0], Joined(choice.modules))
  }

  /** The fields of one indexed form entry. */
  datatype FormEntry = FormEntry(id: Option<string>, price: Option<string>, deleted: bool)

  function EntryFor(current: seq<Item>, desired: seq<string>, i: nat): FormEntry
    requires i < |current| || i < |desired|
  {
    FormEntry(if i < |current| then Some(current[i].id) else None,
              if i < |desired| then Some(desired[i]) else None, i >= |desired|)
  }

  function Larger(a: nat, b: nat): nat {
    if a < b then b else a
  }

  /** The two loops that fill the form: desired prices over current ids, then the leftover ids deleted. */
  method FormItems(current: seq<Item>, desired: seq<string>) returns (form: seq<FormEntry>)
    ensures |form| == Larger(|current|, |desired|)
    ensures forall i :: 0 <= i < |form| ==> form[i] == EntryFor(current, desired, i)
  {
    form := [];
    var i := 0;
    while i < |desired|
      invariant 0 <= i <= |desired| && |form| == i
      invariant forall j :: 0 <= j < i ==> form[j] == EntryFor(current, desired, j)
    {
      var entry := FormEntry(None, Some(desired[i]), false);
      if i < |current| {
        entry := entry.(id := Some(current[i].id));
      }
      form := form + [entry];
      i := i + 1;
    }
    while i < |current|
      invariant |desired| <= i && |form| == i && i <= Larger(|current|, |desired|)
      invariant forall j :: 0 <= j < i ==> form[j] == EntryFor(current, desired, j)
    {
      form := form + [FormEntry(Some(current[i].id), None, true)];
      i := i + 1;
    }
  }

  // ----- What the provider makes of it -----

  /** A price as the provider knows it: MXN and active for every configured one. */
  function Priced(id: string, price: string, start: Instant, end: Instant): Item {
    Item(id, price, 1, "mxn", true, start, end)
  }

  function WithId(items: seq<Item>, id: string): (r: Option<nat>)
    ensures r.Some? ==> r.value < |items| && items[r.value].id == id
    ensures r.None? ==> forall i :: 0 <= i < |items| ==> items[i].id != id
  {
    if items == [] then None
    else if items[|items| - 1].id == id then Some(|items| - 1)
    else WithId(items[..|items| - 1], id)
  }

  /** An id updates that item, no id adds one under a new id, deleted removes; the rest stays. */
  function ApplyEntry(items: seq<Item>, e: FormEntry, newId: string, start: Instant, end: Instant): seq<Item> {
    if e.id.None? then
      if e.price.Some? then items + [Priced(newId, e.price.value, start, end)] else items
    else
      var i := WithId(items, e.id.value);
      if i.None? then items
      else if e.deleted then items[..i.value] + items[i.value + 1..]
      else if e.price.Some?
      then items[i.value := Priced(e.id.value, e.price.value, items[i.value].start, items[i.value].end)]
      else items
  }

  function ApplyForm(items: seq<Item>, form: seq<FormEntry>, newIds: seq<string>, start: Instant,
                     end: Instant): seq<Item>
    requires |newIds| >= |form|
  {
    if form == [] then items
    else
      var n := |form| - 1;
      ApplyEntry(ApplyForm(items, form[..n], newIds[..n], start, end), form[n], newIds[n], start, end)
  }

  predicate DistinctIds(items: seq<Item>) {
    forall i, j :: 0 <= i < j < |items| ==> items[i].id != items[j].id
  }

  function PricesOf(items: seq<Item>): (r: seq<string>)
    ensures |r| == |items| && forall i :: 0 <= i < |r| ==> r[i] == items[i].price
  {
    seq(|items|, i requires 0 <= i < |items| => items[i].price)
  }

  predicate ValidItem(x: Item) {
    x.quantity == 1 && x.currency == "mxn" && x.active
  }

  /** While the first n entries are applied: updated so far, then whatever is left of the current items. */
  ghost predicate Partly(current: seq<Item>, desired: seq<string>, n: nat, items: seq<Item>) {
    if n <= |desired| then
      && |items| == Larger(|current|, n)
      && (forall i :: 0 <= i < n ==> items[i].price == desired[i] && ValidItem(items[i]))
      && (forall i :: n <= i < |current| ==> items[i] == current[i])
      && (forall i :: 0 <= i < |current| ==> items[i].id == current[i].id)
      && (forall i :: |current| <= i < n ==> forall j :: 0 <= j < |current| ==> items[i].id != current[j].id)
    else
      && n <= |current| && |items| == |current| - (n - |desired|)
      && (forall i :: 0 <= i < |desired| ==>
          items[i].price == desired[i] && ValidItem(items[i]) && items[i].id == current[i].id)
      && (forall i :: |desired| <= i < |items| ==> items[i] == current[i + (n - |desired|)])
  }

  predicate NewTo(items: seq<Item>, newIds: seq<string>) {
    forall i, j :: 0 <= i < |items| && 0 <= j < |newIds| ==> items[i].id != newIds[j]
  }

  lemma FoundAt(items: seq<Item>, id: string, n: nat)
    requires n < |items| && items[n].id == id
    requires forall i :: 0 <= i < |items| && i != n ==> items[i].id != id
    ensures WithId(items, id) == Some(n)
  {
  }

  lemma {:induction false} FormIsPartlyApplied(current: seq<Item>, desired: seq<string>, form: seq<FormEntry>,
                                               newIds: seq<string>, start: Instant, end: Instant, n: nat)
    requires DistinctIds(current) && NewTo(current, newIds)
    requires |form| == Larger(|current|, |desired|) && |newIds| >= |form| && n <= |form|
    requires forall i :: 0 <= i < |form| ==> form[i] == EntryFor(current, desired, i)
    ensures Partly(current, desired, n, ApplyForm(current, form[..n], newIds[..n], start, end))
  {
    hide Partly, ApplyEntry, EntryFor, NewTo, DistinctIds;
    var prefix, ids := form[..n], newIds[..n];
    if n == 0 {
      assert ApplyForm(current, prefix, ids, start, end) == current;
      NothingApplied(current, desired);
    } else {
      FormIsPartlyApplied(current, desired, form, newIds, start, end, n - 1);
      assert prefix[..n - 1] == form[..n - 1] && ids[..n - 1] == newIds[..n - 1];
      var items := ApplyForm(current, form[..n - 1], newIds[..n - 1], start, end);
      assert ApplyForm(current, prefix, ids, start, end) == ApplyEntry(items, form[n - 1], newIds[n - 1], start, end);
      NewIdIsNew(current, newIds, n - 1);
      EntryIsApplied(current, desired, items, newIds[n - 1], start, end, n - 1);
    }
  }

  lemma NothingApplied(current: seq<Item>, desired: seq<string>)
    ensures Partly(current, desired, 0, current)
  {
  }

  lemma NewIdIsNew(items: seq<Item>, newIds: seq<string>, j: nat)
    requires NewTo(items, newIds) && j < |newIds|
    ensures forall i :: 0 <= i < |items| ==> items[i].id != newIds[j]
  {
  }

  lemma EntryIsApplied(current: seq<Item>, desired: seq<string>, items: seq<Item>, newId: string, start: Instant,
                       end: Instant, n: nat)
    requires DistinctIds(current) && n < Larger(|current|, |desired|) && Partly(current, desired, n, items)
    requires forall i :: 0 <= i < |current| ==> current[i].id != newId
    ensures Partly(current, desired, n + 1, ApplyEntry(items, EntryFor(current, desired, n), newId, start, end))
  {
    if n < |desired| {
      if n < |current| {
        FoundAt(items, current[n].id, n);
      }
    } else {
      LeftoverIsDeleted(current, desired, items, newId, start, end, n);
    }
  }

  lemma LeftoverIsDeleted(current: seq<Item>, desired: seq<string>, items: seq<Item>, newId: string, start: Instant,
                          end: Instant, n: nat)
    requires DistinctIds(current) && |desired| <= n < |current| && Partly(current, desired, n, items)
    ensures Partly(current, desired, n + 1, ApplyEntry(items, EntryFor(current, desired, n), newId, start, end))
  {
    var d := |desired|;
    ToDeleteIsNext(current, desired, items, n);
    FoundAt(items, current[n].id, d);
    var after := items[..d] + items[d + 1..];
    assert ApplyEntry(items, EntryFor(current, desired, n), newId, start, end) == after;
    hide ApplyEntry, EntryFor, WithId;
    forall i | d <= i < |after|
      ensures after[i] == current[i + (n + 1 - d)]
    {
      assert after[i] == items[i + 1];
    }
    forall i | 0 <= i < d
      ensures after[i] == items[i]
    {
    }
  }

  lemma ToDeleteIsNext(current: seq<Item>, desired: seq<string>, items: seq<Item>, n: nat)
    requires DistinctIds(current) && |desired| <= n < |current| && Partly(current, desired, n, items)
    ensures |desired| < |items| && items[|desired|].id == current[n].id
    ensures forall i :: 0 <= i < |items| && i != |desired| ==> items[i].id != current[n].id
  {
    var gap := n - |desired|;
    assert items[|desired|] == current[n];
    forall i | 0 <= i < |items| && i != |desired|
      ensures items[i].id != current[n].id
    {
      if i > |desired| {
        assert items[i] == current[i + gap];
      }
    }
  }

  /** Main result: whatever the provider's current items are, applying the form leaves exactly the
      desired prices, each once, active and in MXN. */
  lemma FormLeavesDesiredPrices(current: seq<Item>, desired: seq<string>, form: seq<FormEntry>, newIds: seq<string>,
                                start: Instant, end: Instant)
    requires DistinctIds(current) && NewTo(current, newIds)
    requires |form| == Larger(|current|, |desired|) && |newIds| >= |form|
    requires forall i :: 0 <= i < |form| ==> form[i] == EntryFor(current, desired, i)
    ensures var after := ApplyForm(current, form, newIds[..|form|], start, end);
            PricesOf(after) == desired && forall i :: 0 <= i < |after| ==> ValidItem(after[i])
  {
    FormIsPartlyApplied(current, desired, form, newIds, start, end, |form|);
    assert form[..|form|] == form;
    var after := ApplyForm(current, form, newIds[..|form|], start, end);
    assert |after| == |desired|;
  }

  // ----- Reading a plan back -----

  datatype Meaning = EssentialPlan | BusinessPlan | SecondModule | Unknown

  function MeaningOf(p: Prices, x: Item): Meaning {
    if x.price == p.essential then EssentialPlan
    else if x.price == p.business then BusinessPlan
    else if x.price == p.addon then SecondModule
    else Unknown
  }

  function Count(p: Prices, items: seq<Item>, m: Meaning): nat {
    if items == [] then 0
    else Count(p, items[..|items| - 1], m) + (if MeaningOf(p, items[|items| - 1]) == m then 1 else 0)
  }

  predicate Readable(p: Prices, x: Item) {
    ValidItem(x) && !MeaningOf(p, x).Unknown?
  }

  /** One plan and at most one second module, every item valid. */
  predicate Composed(p: Prices, items: seq<Item>) {
    && (forall x :: x in items ==> Readable(p, x))
    && Count(p, items, EssentialPlan) + Count(p, items, BusinessPlan) == 1
    && Count(p, items, SecondModule) <= 1
  }

  function BaseOf(data: Metadata): string {
    if data.baseModule != "" then data.baseModule else FirstPart(data.modules)
  }

  function Other(m: string): string {
    if m == APPOINTMENTS then PREORDERS else APPOINTMENTS
  }

  function Interpretation(p: Prices, items: seq<Item>, data: Metadata): Result<Choice> {
    var base := BaseOf(data);
    if !Composed(p, items) || !Known(base) then Err(BillingUnavailable)
    else
      var modules := if Count(p, items, SecondModule) == 1 then [base, Other(base)] else [base];
      Ok(Choice(if Count(p, items, EssentialPlan) == 1 then "essential" else "business", Sorted(modules)))
  }

  lemma {:induction false} CountsAddUp(p: Prices, items: seq<Item>)
    ensures Count(p, items, EssentialPlan) + Count(p, items, BusinessPlan) + Count(p, items, SecondModule) +
            Count(p, items, Unknown) == |items|
    ensures (forall x :: x in items ==> !MeaningOf(p, x).Unknown?) ==> Count(p, items, Unknown) == 0
  {
    if items != [] {
      CountsAddUp(p, items[..|items| - 1]);
      assert items[|items| - 1] in items;
    }
  }

  /** The loop over the provider's items. */
  method Interpret(p: Prices, items: seq<Item>, data: Metadata) returns (r: Result<Choice>)
    ensures r == Interpretation(p, items, data)
  {
    var tier, addon := "", false;
    var i := 0;
    while i < |items|
      invariant 0 <= i <= |items|
      invariant forall j :: 0 <= j < i ==> Readable(p, items[j])
      invariant addon <==> Count(p, items[..i], SecondModule) > 0
      invariant tier == "" <==> Count(p, items[..i], EssentialPlan) + Count(p, items[..i], BusinessPlan) == 0
      invariant tier == "" || tier == "essential" || tier == "business"
      invariant tier == "essential" ==> Count(p, items[..i], EssentialPlan) > 0
      invariant tier == "business" ==> Count(p, items[..i], BusinessPlan) > 0
    {
      var x := items[i];
      assert items[..i + 1][..i] == items[..i];
      assert x in items;
      if x.quantity != 1 || x.currency != "mxn" || !x.active {
        return Err(BillingUnavailable);
      }
      match MeaningOf(p, x) {
        case EssentialPlan => tier := "essential";
        case BusinessPlan => tier := "business";
        case SecondModule => addon := true;
        case Unknown => return Err(BillingUnavailable);
      }
      i := i + 1;
    }
    assert items[..i] == items;
    assert forall x :: x in items ==> Readable(p, x);
    CountsAddUp(p, items);
    if tier == "" || |items| != 1 + (if addon then 1 else 0) {
      return Err(BillingUnavailable);
    }
    var base := data.baseModule;
    if base == "" {
      base := FirstPart(data.modules);
    }
    if base != APPOINTMENTS && base != PREORDERS {
      return Err(BillingUnavailable);
    }
    var modules := [base];
    if addon {
      modules := modules + [if base == APPOINTMENTS then PREORDERS else APPOINTMENTS];
      assert modules == [base, Other(base)];
    }
    assert Composed(p, items);
    return Ok(Choice(tier, Sorted(modules)));
  }

  predicate IsPlan(p: Prices, x: Item) {
    MeaningOf(p, x).EssentialPlan? || MeaningOf(p, x).BusinessPlan?
  }

  /** Main result: an item list of any length is accepted exactly when it is one plan and at most one
      second module, all valid, and the metadata names a module. */
  lemma AcceptedExactly(p: Prices, items: seq<Item>, data: Metadata)
    ensures Interpretation(p, items, data).Ok? <==>
            && Known(BaseOf(data))
            && (forall x :: x in items ==> ValidItem(x))
            && ((|items| == 1 && IsPlan(p, items[0])) ||
                (|items| == 2 && IsPlan(p, items[0]) && MeaningOf(p, items[1]).SecondModule?) ||
                (|items| == 2 && IsPlan(p, items[1]) && MeaningOf(p, items[0]).SecondModule?))
  {
    CountsAddUp(p, items);
    if |items| == 1 {
      assert items[..0] == [] && items[0] in items;
      assert forall x :: x in items ==> x == items[0];
      OneCount(p, items);
    } else if |items| == 2 {
      assert items[0] in items && items[1] in items;
      assert forall x :: x in items ==> x == items[0] || x == items[1];
      TwoCount(p, items);
    }
  }

  /** The metadata name this module: as the base, or without one as the first of the list. */
  predicate Names(data: Metadata, m: string) {
    if data.baseModule != "" then data.baseModule == m
    else Starts(data.modules, m)
  }

  /** The text is this part alone or followed by a comma. */
  predicate Starts(s: string, m: string) {
    s == m || (|s| > |m| && s[..|m|] == m && s[|m|] == ',')
  }

  lemma {:induction false} FirstPartIs(s: string, m: string)
    requires forall i :: 0 <= i < |m| ==> m[i] != ','
    ensures FirstPart(s) == m <==> Starts(s, m)
  {
    if m == "" {
      assert s != "" ==> s[..0] == "";
    } else if s != "" && s[0] != ',' {
      FirstPartIs(s[1..], m[1..]);
      FirstPartStep(s, m);
      StartsStep(s, m);
      hide FirstPart, Starts;
    } else if s != "" {
      StartsStep(s, m);
    }
  }

  lemma FirstPartStep(s: string, m: string)
    requires s != "" && s[0] != ',' && m != ""
    ensures FirstPart(s) == m <==> s[0] == m[0] && FirstPart(s[1..]) == m[1..]
  {
    assert m == [m[0]] + m[1..];
  }

  lemma StartsStep(s: string, m: string)
    requires s != "" && m != ""
    ensures Starts(s, m) <==> s[0] == m[0] && Starts(s[1..], m[1..])
  {
    assert s == [s[0]] + s[1..] && m == [m[0]] + m[1..];
    if |s| > |m| {
      assert s[..|m|] == [s[0]] + s[1..][..|m| - 1];
      assert s[|m|] == s[1..][|m| - 1];
    }
  }

  predicate Plan(p: Prices, x: Item) {
    x.price == p.essential || x.price == p.business
  }

  predicate AddOn(p: Prices, x: Item) {
    !Plan(p, x) && x.price == p.addon
  }

  /** Main result: the provider's list is read exactly when every item is single, in pesos and active, one is a plan
      and at most another the second module, and the metadata name a module; and it means that plan's tier, with
      that module or with both, in order. */
  lemma ReadingExactly(p: Prices, items: seq<Item>, data: Metadata)
    ensures var r := Interpretation(p, items, data);
            && (r.Ok? <==>
                  && (Names(data, "appointments") || Names(data, "preorders"))
                  && (forall x :: x in items ==> x.quantity == 1 && x.currency == "mxn" && x.active)
                  && ((|items| == 1 && Plan(p, items[0])) ||
                      (|items| == 2 && Plan(p, items[0]) && AddOn(p, items[1])) ||
                      (|items| == 2 && Plan(p, items[1]) && AddOn(p, items[0]))))
            && (r.Ok? ==>
                  && r.value.tier ==
                     (if (exists x :: x in items && x.price == p.essential) then "essential" else "business")
                  && (|items| == 2 ==> r.value.modules == ["appointments", "preorders"])
                  && (|items| == 1 ==> exists m :: r.value.modules == [m] && Names(data, m) &&
                                                   (m == "appointments" || m == "preorders")))
            && (r.Err? ==> r.error == BillingUnavailable)
  {
    AcceptedExactly(p, items, data);
    FirstPartIs(data.modules, "appointments");
    FirstPartIs(data.modules, "preorders");
    hide FirstPart;
    var base := BaseOf(data);
    assert Known(base) <==> Names(data, "appointments") || Names(data, "preorders");
    if Interpretation(p, items, data).Ok? {
      ReadValue(p, items, data);
    }
  }

  lemma ReadValue(p: Prices, items: seq<Item>, data: Metadata)
    requires Interpretation(p, items, data).Ok?
    ensures var r := Interpretation(p, items, data).value; var base := BaseOf(data);
            && (|items| == 1 || |items| == 2)
            && r.tier == (if (exists x :: x in items && x.price == p.essential) then "essential" else "business")
            && r.modules == (if |items| == 1 then [base] else [APPOINTMENTS, PREORDERS])
  {
    AcceptedExactly(p, items, data);
    BothSorted(BaseOf(data));
    hide BaseOf, Sorted, Composed, Other;
    if |items| == 1 {
      OneCount(p, items);
      EssentialItem(p, items, 0);
    } else {
      TwoCount(p, items);
      EssentialItem(p, items, if IsPlan(p, items[0]) then 0 else 1);
    }
    hide Count, MeaningOf;
  }

  lemma BothSorted(base: string)
    requires Known(base)
    ensures Sorted([base]) == [base] && Sorted([base, Other(base)]) == [APPOINTMENTS, PREORDERS]
  {
    AppointmentsFirst();
    SortedAlone([base]);
    hide Before, Sorted;
    SortedPair([base, Other(base)], APPOINTMENTS, PREORDERS);
  }

  /** The plan is the essential one exactly when some item has its price. */
  lemma EssentialItem(p: Prices, items: seq<Item>, i: nat)
    requires i < |items| <= 2 && IsPlan(p, items[i])
    requires forall j :: 0 <= j < |items| && j != i ==> MeaningOf(p, items[j]).SecondModule?
    ensures MeaningOf(p, items[i]).EssentialPlan? <==> exists x :: x in items && x.price == p.essential
  {
    assert items[i] in items;
  }

  lemma OneCount(p: Prices, items: seq<Item>)
    requires |items| == 1
    ensures forall m :: Count(p, items, m) == if MeaningOf(p, items[0]) == m then 1 else 0
  {
  }

  lemma TwoCount(p: Prices, items: seq<Item>)
    requires |items| == 2
    ensures forall m :: Count(p, items, m) ==
                        (if MeaningOf(p, items[0]) == m then 1 else 0) + (if MeaningOf(p, items[1]) == m then 1 else 0)
  {
    OneCount(p, items[..1]);
  }

  // ----- Order does not matter -----

  lemma {:induction false} CountWithout(p: Prices, items: seq<Item>, i: nat, m: Meaning)
    requires i < |items|
    ensures Count(p, items, m) ==
            Count(p, items[..i] + items[i + 1..], m) + (if MeaningOf(p, items[i]) == m then 1 else 0)
  {
    var n := |items| - 1;
    if i < n {
      CountWithout(p, items[..n], i, m);
      var rest := items[..i] + items[i + 1..];
      assert rest[..|rest| - 1] == items[..n][..i] + items[..n][i + 1..];
      assert rest[|rest| - 1] == items[n];
    } else {
      assert items[..i] + items[i + 1..] == items[..n];
    }
  }

  lemma {:induction false} CountPermutes(p: Prices, a: seq<Item>, b: seq<Item>, m: Meaning)
    requires multiset(a) == multiset(b)
    ensures Count(p, a, m) == Count(p, b, m)
  {
    hide Count, MeaningOf;
    if a == [] {
      assert |multiset(b)| == 0;
    } else {
      var n := |a| - 1;
      assert a[n] in multiset(a) && a[n] in multiset(b);
      var i :| 0 <= i < |b| && b[i] == a[n];
      WithoutOne(a, n);
      WithoutOne(b, i);
      assert a[..n] + a[n + 1..] == a[..n];
      CountWithout(p, a, n, m);
      CountWithout(p, b, i, m);
      CountPermutes(p, a[..n], b[..i] + b[i + 1..], m);
    }
  }

  lemma WithoutOne(s: seq<Item>, i: nat)
    requires i < |s|
    ensures multiset(s[..i] + s[i + 1..]) == multiset(s) - multiset{s[i]}
  {
    assert s == s[..i] + [s[i]] + s[i + 1..];
  }

  /** Main result: the order in which the provider lists the items is irrelevant. */
  lemma OrderIsIrrelevant(p: Prices, a: seq<Item>, b: seq<Item>, data: Metadata)
    requires multiset(a) == multiset(b)
    ensures Interpretation(p, a, data) == Interpretation(p, b, data)
  {
    CountPermutes(p, a, b, EssentialPlan);
    CountPermutes(p, a, b, BusinessPlan);
    CountPermutes(p, a, b, SecondModule);
    assert forall x :: x in a <==> x in multiset(a);
    assert forall x :: x in b <==> x in multiset(b);
  }

  // ----- The round trip -----

  predicate DistinctPrices(p: Prices) {
    p.essential != p.business && p.essential != p.addon && p.business != p.addon
  }

  /** Main result: any item list, changed to any valid choice and read back with the metadata written for
      it, means that choice again. */
  lemma PlanRoundTrip(p: Prices, current: seq<Item>, choice: Choice, form: seq<FormEntry>, newIds: seq<string>,
                      start: Instant, end: Instant)
    requires DistinctPrices(p) && ValidChoice(choice) && choice.modules == Sorted(choice.modules)
    requires DistinctIds(current) && NewTo(current, newIds)
    requires var desired := DesiredPrices(p, choice);
             |form| == Larger(|current|, |desired|) && |newIds| >= |form| &&
             forall i :: 0 <= i < |form| ==> form[i] == EntryFor(current, desired, i)
    ensures Interpretation(p, ApplyForm(current, form, newIds[..|form|], start, end), MetadataOf(choice)) == Ok(choice)
  {
    var desired := DesiredPrices(p, choice);
    var after := ApplyForm(current, form, newIds[..|form|], start, end);
    FormLeavesDesiredPrices(current, desired, form, newIds, start, end);
    hide ApplyForm;
    SortedChoices(choice.modules);
    assert forall i :: 0 <= i < |after| ==> after[i].price == PricesOf(after)[i];
    DesiredIsRead(p, choice, after);
  }

  lemma DesiredIsRead(p: Prices, choice: Choice, items: seq<Item>)
    requires DistinctPrices(p) && (choice.tier == "essential" || choice.tier == "business")
    requires choice.modules == [APPOINTMENTS] || choice.modules == [PREORDERS] ||
             choice.modules == [APPOINTMENTS, PREORDERS]
    requires PricesOf(items) == DesiredPrices(p, choice) && forall i :: 0 <= i < |items| ==> ValidItem(items[i])
    ensures Interpretation(p, items, MetadataOf(choice)) == Ok(choice)
  {
    assert items[0].price == PricesOf(items)[0] == PlanPrice(p, choice.tier);
    AppointmentsFirst();
    if |choice.modules| == 2 {
      assert items[1].price == PricesOf(items)[1] == p.addon;
      TwoCount(p, items);
    } else {
      OneCount(p, items);
    }
  }

  /** Subscriptions created before the base module was written keep their first listed module. */
  lemma LegacyMetadata(p: Prices, items: seq<Item>, choice: Choice)
    requires choice.modules == [APPOINTMENTS] || choice.modules == [PREORDERS] ||
             choice.modules == [APPOINTMENTS, PREORDERS]
    ensures Interpretation(p, items, Metadata("", Joined(choice.modules))) ==
              Interpretation(p, items, MetadataOf(choice))
  {
    FirstOfJoined(choice.modules);
  }

  lemma {:induction false} FirstOfText(a: string, rest: string)
    requires forall i :: 0 <= i < |a| ==> a[i] != ','
    ensures FirstPart(a) == a && FirstPart(a + "," + rest) == a
  {
    if a != "" {
      FirstOfText(a[1..], rest);
      assert (a + "," + rest)[1..] == a[1..] + "," + rest;
    } else {
      assert (a + "," + rest)[0] == ',';
    }
  }

  lemma FirstOfJoined(modules: seq<string>)
    requires modules == [APPOINTMENTS] || modules == [PREORDERS] || modules == [APPOINTMENTS, PREORDERS]
    ensures FirstPart(Joined(modules)) == modules[0]
  {
    FirstOfText(modules[0], Joined(modules[1..]));
  }
}
