/** Deriving the local subscription row from the provider's list of subscriptions. */
module Reconciliation {
  import opened Prelude
  import opened Billing

  /** `invoiceCreated` is zero when the provider sent no invoice time. */
  datatype Remote = Remote(id: string, customer: string, status: string, items: seq<Item>, data: Metadata,
                           cancelAtEnd: bool, invoiceCreated: Instant)

  /** A change waiting for the end of the period, if its stored form can be read. */
  datatype Scheduled = Unreadable | Planned(choice: Choice, retained: Option<Id>)

  datatype Row = Row(tier: string, status: string, modules: seq<string>, customer: Option<string>,
                     subscription: Option<string>,
                     periodStart: Instant, periodEnd: Instant, graceUntil: Option<Instant>, cancelAtEnd: bool,
                     scheduled: Option<Scheduled>)

  /** The row, which appointment resources are active, and the customers with unprocessed provider events. */
  datatype Account = Account(row: Row, resources: map<Id, bool>, pending: set<string>)

  datatype Answer = Failed | Listed(subscriptions: seq<Remote>, hasMore: bool)

  predicate Live(s: Remote) {
    s.status != "canceled" && s.status != "incomplete_expired"
  }

  predicate Serving(s: Remote) {
    s.status == "active" || s.status == "past_due"
  }

  /** The live subscription, or an error when there is more than one. */
  function Selected(list: seq<Remote>): Result<Option<Remote>> {
    if list == [] then Ok(None)
    else
      var before :- Selected(list[..|list| - 1]);
      var s := list[|list| - 1];
      if !Live(s) then Ok(before) else if before.Some? then Err(BillingUnavailable) else Ok(Some(s))
  }

  function Grace(row: Row, s: Remote, now: Instant): Option<Instant> {
    if s.status != "past_due" then None
    else if row.status == "past_due" && row.graceUntil.Some? then row.graceUntil
    else if s.invoiceCreated > 0 then Some(s.invoiceCreated + GRACE)
    else Some(now + GRACE)
  }

  function Named(id: string): Option<string> {
    if id == "" then None else Some(id)
  }

  const NO_PLAN: Choice := Choice("free", [])

  /** The row without a subscription. */
  function Cleared(row: Row): Row {
    row.(status := "inactive", tier := "free", modules := [], subscription := None, graceUntil := None,
         cancelAtEnd := false)
  }

  function Derived(p: Prices, row: Row, s: Remote, now: Instant): Result<Row> {
    var choice :- Interpretation(p, s.items, s.data);
    var granted := if Serving(s) then choice else NO_PLAN;
    var first := if s.items != [] then Some(s.items[0]) else None;
    Ok(row.(tier := granted.tier, modules := granted.modules, status := s.status, subscription := Named(s.id),
            cancelAtEnd := s.cancelAtEnd, periodStart := if first.Some? then first.value.start else row.periodStart,
            periodEnd := if first.Some? then first.value.end else row.periodEnd,
            graceUntil := Grace(row, s, now)))
  }

  predicate Arrived(row: Row, next: Row) {
    row.scheduled.Some? && row.scheduled.value.Planned? && row.scheduled.value.choice == Choice(next.tier, next.modules)
  }

  function Retained(resources: map<Id, bool>, id: Id): map<Id, bool> {
    map r | r in resources :: resources[r] && r == id
  }

  /** `found` is what the lookup of the customer said before the row was locked. */
  function Reconciled(p: Prices, a: Account, customer: string, found: bool, answer: Answer,
                      now: Instant): Result<Account> {
    if !found then Ok(a.(pending := a.pending - {customer}))
    else if answer.Failed? || answer.hasMore || a.row.customer != Some(customer) then Err(BillingUnavailable)
    else
      var selected :- Selected(answer.subscriptions);
      if selected.None? then Ok(Account(Cleared(a.row).(scheduled := None), a.resources, a.pending - {customer}))
      else if selected.value.customer != customer then Err(BillingUnavailable)
      else
        var next :- Derived(p, a.row, selected.value, now);
        if Arrived(a.row, next) then
          var keep := a.row.scheduled.value.retained;
          var kept := if keep.Some? then Retained(a.resources, keep.value) else a.resources;
          Ok(Account(next.(scheduled := None), kept, a.pending - {customer}))
        else Ok(Account(next, a.resources, a.pending - {customer}))
  }

  // ----- As executed -----

  method SelectLive(list: seq<Remote>) returns (r: Result<Option<Remote>>)
    ensures r == Selected(list)
  {
    var selected: Option<Remote> := None;
    var i := 0;
    while i < |list|
      invariant 0 <= i <= |list|
      invariant Selected(list[..i]) == Ok(selected)
    {
      assert list[..i + 1][..i] == list[..i];
      if Live(list[i]) {
        if selected.Some? {
          ErrorStays(list, i + 1);
          return Err(BillingUnavailable);
        }
        selected := Some(list[i]);
      }
      i := i + 1;
    }
    assert list[..i] == list;
    return Ok(selected);
  }

  lemma {:induction false} ErrorStays(list: seq<Remote>, n: nat)
    requires n <= |list| && Selected(list[..n]).Err?
    ensures Selected(list) == Selected(list[..n])
  {
    if n == |list| {
      assert list[..n] == list;
    } else {
      var before := list[..|list| - 1];
      assert before[..n] == list[..n];
      ErrorStays(before, n);
    }
  }

  class Business {
    var row: Row
    var resources: map<Id, bool>
    var pending: set<string>

    function Snapshot(): Account
      reads this
    {
      Account(row, resources, pending)
    }

    constructor (start: Row)
      ensures Snapshot() == Account(start, map[], {})
    {
      row, resources, pending := start, map[], {};
    }

    method Rollback(a: Account)
      modifies this
      ensures Snapshot() == a
    {
      row, resources, pending := a.row, a.resources, a.pending;
    }

    /** The parameters of the update for the selected subscription. */
    method Fields(p: Prices, s: Remote, now: Instant) returns (r: Result<Row>)
      ensures r == Derived(p, row, s, now)
    {
      var choice :- Interpret(p, s.items, s.data);
      var next := Cleared(row).(tier := choice.tier, modules := choice.modules, status := s.status,
                                subscription := Named(s.id), cancelAtEnd := s.cancelAtEnd);
      if |s.items| > 0 {
        next := next.(periodStart := s.items[0].start, periodEnd := s.items[0].end);
      }
      if s.status == "past_due" {
        if row.status == "past_due" && row.graceUntil.Some? {
          next := next.(graceUntil := row.graceUntil);
        } else if s.invoiceCreated > 0 {
          next := next.(graceUntil := Some(s.invoiceCreated + GRACE));
        } else {
          next := next.(graceUntil := Some(now + GRACE));
        }
      }
      if s.status != "active" && s.status != "past_due" {
        next := next.(tier := "free", modules := []);
      }
      return Ok(next);
    }

    method Reconcile(p: Prices, customer: string, found: bool, answer: Answer, now: Instant) returns (r: Result<()>)
      modifies this
      ensures var after := Reconciled(p, old(Snapshot()), customer, found, answer, now);
              if after.Err? then r == Err(after.error) && Snapshot() == old(Snapshot())
              else r == Ok(()) && Snapshot() == after.value
    {
      if !found {
        pending := pending - {customer};
        return Ok(());
      }
      if answer.Failed? || answer.hasMore {
        return Err(BillingUnavailable);
      }
      if row.customer != Some(customer) {
        return Err(BillingUnavailable);
      }
      var selected :- SelectLive(answer.subscriptions);
      var next := Cleared(row).(scheduled := None);
      if selected.Some? {
        if selected.value.customer != customer {
          return Err(BillingUnavailable);
        }
        next :- Fields(p, selected.value, now);
        if Arrived(row, next) {
          var keep := row.scheduled.value.retained;
          next := next.(scheduled := None);
          if keep.Some? {
            resources := Retained(resources, keep.value);
          }
        }
      }
      row := next;
      pending := pending - {customer};
      return Ok(());
    }
  }

  // ----- Properties -----

  /** Main result: reconciling again on the same answer, however much later, changes nothing. */
  lemma ReconcileIsIdempotent(p: Prices, a: Account, customer: string, found: bool, answer: Answer, now: Instant,
                              later: Instant)
    requires Reconciled(p, a, customer, found, answer, now).Ok?
    ensures var b := Reconciled(p, a, customer, found, answer, now).value;
            Reconciled(p, b, customer, found, answer, later) == Ok(b)
  {
    hide Interpretation, Selected;
    assert a.pending - {customer} - {customer} == a.pending - {customer};
    if found && Selected(answer.subscriptions).value.Some? {
      var s, b := Selected(answer.subscriptions).value.value, Reconciled(p, a, customer, found, answer, now).value;
      DerivedTwice(p, a.row, s, now, later);
      DerivedKeepsSchedule(p, a.row, b.row.scheduled, s, now, later);
      hide Derived;
    }
  }

  /** Deriving the row from itself changes nothing: a past-due row keeps the deadline it has. */
  lemma DerivedTwice(p: Prices, row: Row, s: Remote, now: Instant, later: Instant)
    requires Derived(p, row, s, now).Ok?
    ensures Derived(p, Derived(p, row, s, now).value, s, later) == Derived(p, row, s, now)
    ensures Derived(p, row, s, now).value.customer == row.customer &&
            Derived(p, row, s, now).value.scheduled == row.scheduled
  {
    hide Interpretation;
  }

  lemma DerivedKeepsSchedule(p: Prices, row: Row, scheduled: Option<Scheduled>, s: Remote, now: Instant, later: Instant)
    requires Derived(p, row, s, now).Ok?
    ensures var next := Derived(p, row, s, now).value;
            Derived(p, next.(scheduled := scheduled), s, later) ==
            Ok(Derived(p, next, s, later).value.(scheduled := scheduled))
  {
    hide Interpretation;
  }

  ghost predicate OnlyLive(list: seq<Remote>, i: int) {
    && 0 <= i < |list| && !Over(list[i])
    && forall j :: 0 <= j < |list| && j != i ==> Over(list[j])
  }

  predicate Over(s: Remote) {
    s.status == "canceled" || s.status == "incomplete_expired"
  }

  lemma {:induction false} NoneSelected(list: seq<Remote>)
    ensures Selected(list) == Ok(None) <==> forall i :: 0 <= i < |list| ==> !Live(list[i])
  {
    if list != [] {
      NoneSelected(list[..|list| - 1]);
    }
  }

  lemma {:induction false} OnlyLiveIsSelected(list: seq<Remote>, i: int)
    requires OnlyLive(list, i)
    ensures Selected(list) == Ok(Some(list[i]))
  {
    var n := |list| - 1;
    if i < n {
      assert OnlyLive(list[..n], i);
      OnlyLiveIsSelected(list[..n], i);
    } else {
      NoneSelected(list[..n]);
    }
  }

  lemma {:induction false} SelectedIsOnlyLive(list: seq<Remote>) returns (i: int)
    requires Selected(list).Ok? && Selected(list).value.Some?
    ensures OnlyLive(list, i)
  {
    var n := |list| - 1;
    if Live(list[n]) {
      NoneSelected(list[..n]);
      i := n;
    } else {
      i := SelectedIsOnlyLive(list[..n]);
    }
  }

  /** The loop finds the one live subscription, none, or reports that there are several. */
  lemma SelectedExactly(list: seq<Remote>)
    ensures Selected(list) == Ok(None) <==> forall i :: 0 <= i < |list| ==> !Live(list[i])
    ensures Selected(list).Ok? && Selected(list).value.Some? <==> exists i :: OnlyLive(list, i)
    ensures forall i :: OnlyLive(list, i) ==> Selected(list) == Ok(Some(list[i]))
  {
    NoneSelected(list);
    forall i | OnlyLive(list, i)
      ensures Selected(list) == Ok(Some(list[i]))
    {
      OnlyLiveIsSelected(list, i);
    }
    if Selected(list).Ok? && Selected(list).value.Some? {
      var i := SelectedIsOnlyLive(list);
    }
  }

  /** Main result: the row has a paid tier exactly when the provider lists one live subscription and it
      is active or past due; the tier and modules are the ones its items mean. */
  lemma PaidExactly(p: Prices, a: Account, customer: string, found: bool, answer: Answer, now: Instant)
    requires found && answer.Listed? && Reconciled(p, a, customer, found, answer, now).Ok?
    ensures var row := Reconciled(p, a, customer, found, answer, now).value.row; var list := answer.subscriptions;
            && (row.tier != "free" <==>
                  exists i :: OnlyLive(list, i) && (list[i].status == "active" || list[i].status == "past_due"))
            && (forall i :: OnlyLive(list, i) && (list[i].status == "active" || list[i].status == "past_due") ==>
                  Interpretation(p, list[i].items, list[i].data) == Ok(Choice(row.tier, row.modules)))
  {
    var list := answer.subscriptions;
    SelectedExactly(list);
    var row := Reconciled(p, a, customer, found, answer, now).value.row;
    if Selected(list).value.Some? {
      var i :| OnlyLive(list, i);
      assert Interpretation(p, list[i].items, list[i].data).Ok?;
      TierIsPaid(p, list[i].items, list[i].data);
      OneOnly(list, i);
    }
  }

  lemma OneOnly(list: seq<Remote>, i: int)
    requires OnlyLive(list, i)
    ensures forall j :: OnlyLive(list, j) ==> j == i
  {
  }

  lemma TierIsPaid(p: Prices, items: seq<Item>, data: Metadata)
    requires Interpretation(p, items, data).Ok?
    ensures Interpretation(p, items, data).value.tier != "free"
  {
  }

  /** Main result: with one live subscription the row carries its status, name and pending cancellation and the
      period of its first item; without a live one it is free and inactive. What the provider does not tell, the
      row keeps. */
  lemma RowFollowsProvider(p: Prices, a: Account, customer: string, found: bool, answer: Answer, now: Instant)
    requires found && answer.Listed? && Reconciled(p, a, customer, found, answer, now).Ok?
    ensures var row, list := Reconciled(p, a, customer, found, answer, now).value.row, answer.subscriptions;
            && row.customer == Some(customer) == a.row.customer
            && (forall i :: OnlyLive(list, i) ==>
                  && list[i].customer == customer
                  && row.status == list[i].status && row.cancelAtEnd == list[i].cancelAtEnd
                  && row.subscription == (if list[i].id == "" then None else Some(list[i].id))
                  && row.periodStart == (if list[i].items == [] then a.row.periodStart else list[i].items[0].start)
                  && row.periodEnd == (if list[i].items == [] then a.row.periodEnd else list[i].items[0].end)
                  && (list[i].status != "past_due" ==> row.graceUntil.None?)
                  && (list[i].status != "active" && list[i].status != "past_due" ==>
                        row.tier == "free" && row.modules == []))
            && ((forall i :: 0 <= i < |list| ==> Over(list[i])) ==>
                  row == Row("free", "inactive", [], a.row.customer, None, a.row.periodStart, a.row.periodEnd,
                             None, false, None))
  {
    var list := answer.subscriptions;
    SelectedExactly(list);
    hide Interpretation, Selected;
  }

  /** Main result: every customer whose answer was processed, or who is unknown, has no unprocessed event left; an
      answer that could not be used changes nothing, and only resources are ever deactivated. */
  lemma EventsAreProcessed(p: Prices, a: Account, customer: string, found: bool, answer: Answer, now: Instant)
    ensures var r := Reconciled(p, a, customer, found, answer, now);
            && (!found ==> r == Ok(Account(a.row, a.resources, a.pending - {customer})))
            && (found && (answer.Failed? || answer.hasMore || a.row.customer != Some(customer)) ==>
                  r == Err(BillingUnavailable))
            && (found && answer.Listed? &&
                (exists i, j :: 0 <= i < j < |answer.subscriptions| &&
                                !Over(answer.subscriptions[i]) && !Over(answer.subscriptions[j])) ==>
                  r == Err(BillingUnavailable))
            && (r.Ok? ==> r.value.pending == a.pending - {customer} && r.value.resources.Keys == a.resources.Keys &&
                          forall x :: x in a.resources && r.value.resources[x] ==> a.resources[x])
  {
    hide Interpretation;
    if answer.Listed? {
      SelectedExactly(answer.subscriptions);
      SelectedErrs(answer.subscriptions);
    }
    hide Selected;
  }

  lemma {:induction false} SelectedErrs(list: seq<Remote>)
    ensures Selected(list).Err? ==> Selected(list).error == BillingUnavailable
  {
    if list != [] {
      SelectedErrs(list[..|list| - 1]);
    }
  }

  // ----- The grace deadline over runs -----

  datatype Step =
    | Reconcile(customer: string, found: bool, answer: Answer, now: Instant)
    | Schedule(change: Option<Scheduled>)
    | Event(customer: string)

  function Next(p: Prices, a: Account, s: Step): Account {
    match s
    case Reconcile(customer, found, answer, now) =>
      var r := Reconciled(p, a, customer, found, answer, now);
      if r.Ok? then r.value else a
    case Schedule(change) => a.(row := a.row.(scheduled := change))
    case Event(customer) => a.(pending := a.pending + {customer})
  }

  function Run(p: Prices, a: Account, steps: seq<Step>): Account {
    if steps == [] then a else Next(p, Run(p, a, steps[..|steps| - 1]), steps[|steps| - 1])
  }

  /** While the provider answers, every live subscription it lists is past due, and there is one. */
  predicate StaysPastDue(s: Step) {
    s.Reconcile? && s.answer.Listed? ==>
      (exists i :: 0 <= i < |s.answer.subscriptions| && !Over(s.answer.subscriptions[i])) &&
      forall i :: 0 <= i < |s.answer.subscriptions| && !Over(s.answer.subscriptions[i]) ==>
        s.answer.subscriptions[i].status == "past_due"
  }

  /** Main result: as long as the provider stays past due, the deadline keeps its first value. */
  lemma {:induction false} GraceIsNeverExtended(p: Prices, a: Account, steps: seq<Step>)
    requires a.row.status == "past_due" && a.row.graceUntil.Some?
    requires forall i :: 0 <= i < |steps| ==> StaysPastDue(steps[i])
    ensures Run(p, a, steps).row.graceUntil == a.row.graceUntil && Run(p, a, steps).row.status == "past_due"
  {
    if steps != [] {
      GraceIsNeverExtended(p, a, steps[..|steps| - 1]);
      StepKeepsGrace(p, Run(p, a, steps[..|steps| - 1]), steps[|steps| - 1]);
    }
  }

  lemma StepKeepsGrace(p: Prices, a: Account, s: Step)
    requires a.row.status == "past_due" && a.row.graceUntil.Some? && StaysPastDue(s)
    ensures Next(p, a, s).row.graceUntil == a.row.graceUntil && Next(p, a, s).row.status == "past_due"
  {
    hide Interpretation;
    if s.Reconcile? && s.answer.Listed? {
      SelectedExactly(s.answer.subscriptions);
    }
  }

  /** The first past-due answer sets the deadline a week after the unpaid invoice, or after the answer. */
  lemma GraceStarts(p: Prices, a: Account, customer: string, found: bool, answer: Answer, now: Instant)
    requires found && a.row.status != "past_due" && answer.Listed? &&
             StaysPastDue(Reconcile(customer, found, answer, now))
    requires Reconciled(p, a, customer, found, answer, now).Ok?
    ensures exists i :: OnlyLive(answer.subscriptions, i) &&
              Reconciled(p, a, customer, found, answer, now).value.row.graceUntil ==
              Some((if answer.subscriptions[i].invoiceCreated > 0 then answer.subscriptions[i].invoiceCreated
                    else now) + 7 * DAY)
  {
    hide Interpretation;
    SelectedExactly(answer.subscriptions);
    var i :| OnlyLive(answer.subscriptions, i);
  }

  /** A planned change is dropped when the provider's plan has become the planned one, and then only the
      retained resource is left active. */
  lemma PlannedChangeArrives(p: Prices, a: Account, customer: string, found: bool, answer: Answer, now: Instant)
    requires found && answer.Listed? && Reconciled(p, a, customer, found, answer, now).Ok?
    requires a.row.scheduled.Some? && a.row.scheduled.value.Planned? && a.row.scheduled.value.choice.tier != "free"
    ensures var b := Reconciled(p, a, customer, found, answer, now).value; var planned := a.row.scheduled.value;
            if Choice(b.row.tier, b.row.modules) == planned.choice then
              b.row.scheduled.None? &&
              (planned.retained.Some? ==>
                 forall r :: r in b.resources && b.resources[r] ==> r == planned.retained.value)
            else
              b.resources == a.resources && (b.row.scheduled == a.row.scheduled || b.row.status == "inactive")
  {
    hide Interpretation, Selected;
  }
}
