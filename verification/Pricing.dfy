/** Pricing a preorder: quantities in thousandths, amounts in cents. */
module Pricing {
  import opened Prelude

  /** The owner's rule for one variant. */
  datatype Rule = Rule(variant: Id, min: int, max: int, step: int)

  /** A variant row that is active and public, with its current price. */
  datatype Variant = Variant(id: Id, price: int, currency: string)

  datatype CatalogItem = CatalogItem(variant: Id, unitPrice: int, min: int, max: int, step: int)

  datatype Wanted = Wanted(variant: Id, quantity: int, unitPrice: int)

  datatype Line = Line(variant: Id, quantity: int, unitPrice: int, total: int)

  datatype Priced = Priced(lines: seq<Line>, total: int)

  const MAX_QUANTITY: int := 999_999_999_000
  const MAX_AMOUNT: int := 999_999_999_900
  const MAX_COLUMN: int := 999_999_999_999
  const MAX_ITEMS: int := 50

  predicate PositiveQuantity(q: int) {
    0 < q <= MAX_QUANTITY
  }

  predicate Money(m: int) {
    0 <= m <= MAX_AMOUNT
  }

  predicate ValidRule(r: Rule) {
    && PositiveQuantity(r.min) && PositiveQuantity(r.max) && PositiveQuantity(r.step)
    && r.min <= r.max && r.step <= r.max
  }

  /** The catalogue pairs each MXN variant with its rule; a later rule for a variant wins. */
  function RuleFor(rules: seq<Rule>, variant: Id): (r: Option<Rule>)
    ensures r.Some? ==> r.value in rules && r.value.variant == variant
    ensures r.None? ==> forall i :: 0 <= i < |rules| ==> rules[i].variant != variant
  {
    if rules == [] then None
    else if rules[|rules| - 1].variant == variant then Some(rules[|rules| - 1])
    else RuleFor(rules[..|rules| - 1], variant)
  }

  function Catalog(rows: seq<Variant>, rules: seq<Rule>): (c: seq<CatalogItem>)
    ensures forall x :: x in c ==> Rule(x.variant, x.min, x.max, x.step) in rules
  {
    if rows == [] then []
    else
      var v, rest := rows[|rows| - 1], Catalog(rows[..|rows| - 1], rules);
      var r := RuleFor(rules, v.id);
      if r.None? || v.currency != "MXN" then rest
      else rest + [CatalogItem(v.id, v.price, r.value.min, r.value.max, r.value.step)]
  }

  /** The loop that builds the catalogue from a map of rules by variant. */
  method BuildCatalog(rows: seq<Variant>, rules: seq<Rule>) returns (c: seq<CatalogItem>)
    ensures c == Catalog(rows, rules)
  {
    var byVariant: map<Id, Rule> := map[];
    var i := 0;
    while i < |rules|
      invariant 0 <= i <= |rules|
      invariant forall v: Id :: RuleFor(rules[..i], v) == if v in byVariant then Some(byVariant[v]) else None
    {
      byVariant := byVariant[rules[i].variant := rules[i]];
      assert rules[..i + 1][..i] == rules[..i];
      i := i + 1;
    }
    assert rules[..i] == rules;
    c := [];
    i := 0;
    while i < |rows|
      invariant 0 <= i <= |rows|
      invariant c == Catalog(rows[..i], rules)
    {
      var v := rows[i];
      assert rows[..i + 1][..i] == rows[..i];
      assert RuleFor(rules, v.id) == if v.id in byVariant then Some(byVariant[v.id]) else None;
      if v.id in byVariant && v.currency == "MXN" {
        var r := byVariant[v.id];
        c := c + [CatalogItem(v.id, v.price, r.min, r.max, r.step)];
      }
      i := i + 1;
    }
    assert rows[..i] == rows;
  }

  predicate ValidCatalog(c: seq<CatalogItem>) {
    forall i :: 0 <= i < |c| ==> c[i].step > 0
  }

  /** The first row for a variant. */
  function Find(c: seq<CatalogItem>, variant: Id): (r: Option<CatalogItem>)
    ensures r.Some? ==> r.value in c && r.value.variant == variant
    ensures r.None? ==> forall i :: 0 <= i < |c| ==> c[i].variant != variant
  {
    if c == [] then None
    else if c[0].variant == variant then Some(c[0])
    else Find(c[1..], variant)
  }

  /** Half a cent rounds away from zero; amounts are never negative here. */
  function LineTotal(unitPrice: int, quantity: int): int {
    (unitPrice * quantity + 500) / 1000
  }

  function LineOf(w: Wanted): Line {
    Line(w.variant, w.quantity, w.unitPrice, LineTotal(w.unitPrice, w.quantity))
  }

  function Lines(wanted: seq<Wanted>): (r: seq<Line>)
    ensures |r| == |wanted|
    ensures forall i :: 0 <= i < |r| ==> r[i] == LineOf(wanted[i])
  {
    if wanted == [] then [] else Lines(wanted[..|wanted| - 1]) + [LineOf(wanted[|wanted| - 1])]
  }

  function Total(lines: seq<Line>): int {
    if lines == [] then 0 else Total(lines[..|lines| - 1]) + lines[|lines| - 1].total
  }

  /** Why one item is refused, if it is. */
  function Fault(c: seq<CatalogItem>, w: Wanted): Option<Error>
    requires ValidCatalog(c)
  {
    var row := Find(c, w.variant);
    if row.None? then Some(InvalidRequest)
    else if !PositiveQuantity(w.quantity) then Some(InvalidRequest)
    else if w.quantity < row.value.min || w.quantity > row.value.max ||
            (w.quantity - row.value.min) % row.value.step != 0
    then Some(InvalidRequest)
    else if !Money(w.unitPrice) then Some(InvalidRequest)
    else if w.unitPrice != row.value.unitPrice then Some(PriceChanged)
    else None
  }

  predicate Repeats(wanted: seq<Wanted>, i: nat)
    requires i < |wanted|
  {
    exists j :: 0 <= j < i && wanted[j].variant == wanted[i].variant
  }

  /** The error of the first refused item, in list order. */
  function FirstFault(c: seq<CatalogItem>, wanted: seq<Wanted>, i: nat): Option<Error>
    requires ValidCatalog(c) && i <= |wanted|
    decreases |wanted| - i
  {
    if i == |wanted| then None
    else if Repeats(wanted, i) then Some(InvalidRequest)
    else if Fault(c, wanted[i]).Some? then Fault(c, wanted[i])
    else FirstFault(c, wanted, i + 1)
  }

  function Quote(c: seq<CatalogItem>, wanted: seq<Wanted>): Result<Priced>
    requires ValidCatalog(c)
  {
    if FirstFault(c, wanted, 0).Some? then Err(FirstFault(c, wanted, 0).value)
    else if Total(Lines(wanted)) > MAX_AMOUNT then Err(InvalidRequest)
    else Ok(Priced(Lines(wanted), Total(Lines(wanted))))
  }

  /** The checks on one item, in order. It is priced exactly when it is orderable, then at its exact price
      rounded to the cent; the answer is that the price changed exactly when only the price is at fault. */
  method PriceItem(c: seq<CatalogItem>, w: Wanted) returns (r: Result<Line>)
    requires ValidCatalog(c)
    ensures r.Ok? <==> Orderable(c, w)
    ensures r.Ok? ==> r.value.(total := 0) == Line(w.variant, w.quantity, w.unitPrice, 0) && Rounded(r.value)
    ensures r == Err(PriceChanged) <==>
            OnGrid(c, w) && Money(w.unitPrice) && w.unitPrice != Find(c, w.variant).value.unitPrice
    ensures r == if Fault(c, w).Some? then Err(Fault(c, w).value) else Ok(LineOf(w))
  {
    FaultMeans(c, w);
    hide OnGrid, Rounded, LineTotal;
    var row := Find(c, w.variant);
    if row.None? {
      return Err(InvalidRequest);
    }
    if !PositiveQuantity(w.quantity) {
      return Err(InvalidRequest);
    }
    if w.quantity < row.value.min || w.quantity > row.value.max || (w.quantity - row.value.min) % row.value.step != 0 {
      return Err(InvalidRequest);
    }
    if !Money(w.unitPrice) {
      return Err(InvalidRequest);
    }
    if w.unitPrice != row.value.unitPrice {
      return Err(PriceChanged);
    }
    return Ok(Line(w.variant, w.quantity, w.unitPrice, LineTotal(w.unitPrice, w.quantity)));
  }

  /** Past an item without a fault, the quote so far grows by its line. */
  lemma NextItem(c: seq<CatalogItem>, wanted: seq<Wanted>, i: nat)
    requires ValidCatalog(c) && i < |wanted| && !Repeats(wanted, i) && Fault(c, wanted[i]).None?
    ensures FirstFault(c, wanted, i) == FirstFault(c, wanted, i + 1)
    ensures Lines(wanted[..i + 1]) == Lines(wanted[..i]) + [LineOf(wanted[i])]
    ensures Total(Lines(wanted[..i + 1])) == Total(Lines(wanted[..i])) + LineOf(wanted[i]).total
  {
    hide Fault, LineOf, Repeats;
    assert wanted[..i + 1][..i] == wanted[..i];
    var lines := Lines(wanted[..i + 1]);
    assert lines[..i] == Lines(wanted[..i]);
  }

  /** A repeated variant or a faulty item is the first fault if none came before it. */
  lemma FaultRefuses(c: seq<CatalogItem>, wanted: seq<Wanted>, i: nat)
    requires ValidCatalog(c) && i < |wanted|
    ensures Repeats(wanted, i) ==> FirstFault(c, wanted, i) == Some(InvalidRequest)
    ensures !Repeats(wanted, i) && Fault(c, wanted[i]).Some? ==> FirstFault(c, wanted, i) == Fault(c, wanted[i])
  {
    hide Fault;
  }

  lemma QuoteEnds(c: seq<CatalogItem>, wanted: seq<Wanted>)
    requires ValidCatalog(c)
    ensures Lines(wanted[..0]) == [] && Total([]) == 0 && FirstFault(c, wanted, |wanted|).None?
    ensures var fault := FirstFault(c, wanted, 0);
            Quote(c, wanted) ==
            if fault.Some? then Err(fault.value)
            else if Total(Lines(wanted)) > MAX_AMOUNT then Err(InvalidRequest)
            else Ok(Priced(Lines(wanted), Total(Lines(wanted))))
  {
    hide Fault, Repeats, LineOf;
  }

  lemma SeenRepeats(wanted: seq<Wanted>, seen: seq<Id>, i: nat)
    requires i < |wanted| && |seen| == i && forall j :: 0 <= j < i ==> seen[j] == wanted[j].variant
    ensures wanted[i].variant in seen <==> Repeats(wanted, i)
  {
  }

  /** The pricing loop: accumulates the lines, the variants seen and the total. */
  method PriceOrder(c: seq<CatalogItem>, wanted: seq<Wanted>) returns (r: Result<Priced>)
    requires ValidCatalog(c)
    ensures r == Quote(c, wanted)
  {
    hide ValidCatalog, Quote, FirstFault, Fault, Repeats, Find, Orderable, OnGrid, Rounded, Lines, LineOf, Total;
    QuoteEnds(c, wanted);
    var seen: seq<Id> := [];
    var lines: seq<Line> := [];
    var total := 0;
    var i := 0;
    while i < |wanted|
      invariant 0 <= i <= |wanted|
      invariant |seen| == i && forall j :: 0 <= j < i ==> seen[j] == wanted[j].variant
      invariant lines == Lines(wanted[..i]) && total == Total(lines)
      invariant FirstFault(c, wanted, 0) == FirstFault(c, wanted, i)
    {
      var w := wanted[i];
      SeenRepeats(wanted, seen, i);
      FaultRefuses(c, wanted, i);
      if w.variant in seen {
        return Err(InvalidRequest);
      }
      seen := seen + [w.variant];
      var line :- PriceItem(c, w);
      NextItem(c, wanted, i);
      total := total + line.total;
      lines := lines + [line];
      i := i + 1;
    }
    assert wanted[..i] == wanted;
    if total > MAX_AMOUNT {
      return Err(InvalidRequest);
    }
    return Ok(Priced(lines, total));
  }

  // ----- What an accepted order is -----

  /** On the grid min, min + step, min + 2 step, ... up to max. */
  ghost predicate OnGrid(c: seq<CatalogItem>, w: Wanted)
    requires ValidCatalog(c)
  {
    && Find(c, w.variant).Some? && PositiveQuantity(w.quantity)
    && var row := Find(c, w.variant).value;
       row.min <= w.quantity <= row.max && exists k: nat :: w.quantity == row.min + k * row.step
  }

  /** On the grid, at the current price. */
  ghost predicate Orderable(c: seq<CatalogItem>, w: Wanted)
    requires ValidCatalog(c)
  {
    OnGrid(c, w) && Money(w.unitPrice) && w.unitPrice == Find(c, w.variant).value.unitPrice
  }

  ghost predicate DistinctVariants(wanted: seq<Wanted>) {
    forall i, j :: 0 <= i < j < |wanted| ==> wanted[i].variant != wanted[j].variant
  }

  /** The last rule for the variant. */
  predicate Rules(rules: seq<Rule>, j: nat, variant: Id) {
    j < |rules| && rules[j].variant == variant && forall h :: j < h < |rules| ==> rules[h].variant != variant
  }

  /** The first row of the variant that is priced in MXN. */
  predicate Offers(rows: seq<Variant>, i: nat, variant: Id) {
    && i < |rows| && rows[i].id == variant && rows[i].currency == "MXN"
    && forall h :: 0 <= h < i ==> rows[h].id != variant || rows[h].currency != "MXN"
  }

  /** A quantity min, min + step, ... up to max by the variant's rule, at the price of its row. */
  ghost predicate OnOffer(rows: seq<Variant>, rules: seq<Rule>, w: Wanted) {
    exists i: nat, j: nat :: Offers(rows, i, w.variant) && Rules(rules, j, w.variant) && Matches(rows[i], rules[j], w)
  }

  ghost predicate Matches(v: Variant, r: Rule, w: Wanted) {
    && r.min <= w.quantity <= r.max && (exists k: nat :: w.quantity == r.min + k * r.step)
    && 0 < w.quantity <= 999_999_999_000 && 0 <= w.unitPrice <= 999_999_999_900 && w.unitPrice == v.price
  }

  lemma {:induction false} RuleForIsLast(rules: seq<Rule>, variant: Id)
    ensures forall j: nat :: Rules(rules, j, variant) ==> RuleFor(rules, variant) == Some(rules[j])
    ensures RuleFor(rules, variant).Some? ==> exists j: nat :: Rules(rules, j, variant)
  {
    if rules != [] {
      var n := |rules| - 1;
      RuleForIsLast(rules[..n], variant);
      if rules[n].variant == variant {
        assert Rules(rules, n, variant);
      } else {
        assert forall j: nat :: Rules(rules, j, variant) ==> Rules(rules[..n], j, variant);
        if RuleFor(rules, variant).Some? {
          var j: nat :| Rules(rules[..n], j, variant);
          assert Rules(rules, j, variant);
        }
      }
    }
  }

  lemma {:induction false} FindAppends(c: seq<CatalogItem>, x: CatalogItem, variant: Id)
    ensures Find(c + [x], variant) ==
            if Find(c, variant).Some? then Find(c, variant) else if x.variant == variant then Some(x) else None
  {
    if c == [] {
      assert c + [x] == [x];
    } else {
      assert (c + [x])[1..] == c[1..] + [x];
      FindAppends(c[1..], x, variant);
    }
  }

  lemma {:induction false} CatalogOffers(rows: seq<Variant>, rules: seq<Rule>, variant: Id)
    ensures var found := Find(Catalog(rows, rules), variant); var rule := RuleFor(rules, variant);
            && (found.Some? <==> rule.Some? && exists i: nat :: Offers(rows, i, variant))
            && (forall i: nat :: Offers(rows, i, variant) && rule.Some? ==>
                  found == Some(CatalogItem(variant, rows[i].price, rule.value.min, rule.value.max, rule.value.step)))
  {
    if rows != [] {
      var n := |rows| - 1;
      var v, rest := rows[n], Catalog(rows[..n], rules);
      CatalogOffers(rows[..n], rules, variant);
      var rule := RuleFor(rules, v.id);
      if rule.Some? && v.currency == "MXN" {
        FindAppends(rest, CatalogItem(v.id, v.price, rule.value.min, rule.value.max, rule.value.step), variant);
      }
      assert forall i: nat :: i < n ==> (Offers(rows, i, variant) <==> Offers(rows[..n], i, variant));
      if v.id == variant && v.currency == "MXN" && !exists i: nat :: Offers(rows[..n], i, variant) {
        NoneOffered(rows[..n], variant);
        assert Offers(rows, n, variant);
      }
    }
  }

  lemma {:induction false} NoneOffered(rows: seq<Variant>, variant: Id)
    requires !exists i: nat :: Offers(rows, i, variant)
    ensures forall h :: 0 <= h < |rows| ==> rows[h].id != variant || rows[h].currency != "MXN"
  {
    if rows != [] {
      var n := |rows| - 1;
      assert forall i: nat :: Offers(rows[..n], i, variant) ==> Offers(rows, i, variant);
      NoneOffered(rows[..n], variant);
      assert !Offers(rows, n, variant);
    }
  }

  /** Main result: an item of the catalogue is orderable exactly when the rows and rules offer it like that. */
  lemma OrderableExactly(rows: seq<Variant>, rules: seq<Rule>, w: Wanted)
    requires ValidCatalog(Catalog(rows, rules))
    ensures Orderable(Catalog(rows, rules), w) <==> OnOffer(rows, rules, w)
  {
    RuleForIsLast(rules, w.variant);
    CatalogOffers(rows, rules, w.variant);
    hide Catalog, Find, RuleFor, Offers, Rules;
  }

  lemma GridMeansMultiple(q: int, min: int, step: int)
    requires step > 0 && q >= min
    ensures (q - min) % step == 0 <==> exists k: nat :: q == min + k * step
  {
    if (q - min) % step == 0 {
      var k := (q - min) / step;
      assert q == min + k * step;
    }
    if k: nat :| q == min + k * step {
      MultipleHasNoRemainder(k, step);
    }
  }

  lemma MultipleHasNoRemainder(k: nat, step: int)
    requires step > 0
    ensures k * step % step == 0
  {
    var d, r := k * step / step, k * step % step;
    var n := k - d;
    assert n * step == r by {
      assert k * step == d * step + r;
      assert (k - d) * step == k * step - d * step;
    }
    SmallMultipleIsZero(n, step);
  }

  lemma SmallMultipleIsZero(n: int, step: int)
    requires 0 <= n * step < step
    ensures n * step == 0
  {
    NonnegativeProduct(if n >= 1 then n - 1 else 0, step);
  }

  lemma FaultMeans(c: seq<CatalogItem>, w: Wanted)
    requires ValidCatalog(c)
    ensures Fault(c, w).None? <==> Orderable(c, w)
    ensures Orderable(c, w) ==> Rounded(LineOf(w))
    ensures Fault(c, w) == Some(PriceChanged) <==>
            OnGrid(c, w) && Money(w.unitPrice) && w.unitPrice != Find(c, w.variant).value.unitPrice
  {
    if Find(c, w.variant).Some? && w.quantity >= Find(c, w.variant).value.min {
      var row := Find(c, w.variant).value;
      GridMeansMultiple(w.quantity, row.min, row.step);
    }
    if Orderable(c, w) {
      NonnegativeProduct(w.unitPrice, w.quantity);
    }
  }

  lemma {:induction false} FaultlessPrefix(c: seq<CatalogItem>, wanted: seq<Wanted>, i: nat)
    requires ValidCatalog(c) && i <= |wanted|
    ensures FirstFault(c, wanted, i).None? <==>
            forall j :: i <= j < |wanted| ==> !Repeats(wanted, j) && Fault(c, wanted[j]).None?
    decreases |wanted| - i
  {
    if i < |wanted| {
      FaultlessPrefix(c, wanted, i + 1);
    }
  }

  /** Main result: an order is accepted exactly when its variants are distinct, each item is on its
      variant's grid at the current price, and the rounded lines sum to an amount that fits. */
  lemma AcceptedExactly(c: seq<CatalogItem>, wanted: seq<Wanted>)
    requires ValidCatalog(c)
    ensures Quote(c, wanted).Ok? <==>
            && DistinctVariants(wanted)
            && (forall i :: 0 <= i < |wanted| ==> Orderable(c, wanted[i]))
            && Total(Lines(wanted)) <= MAX_AMOUNT
  {
    FaultlessPrefix(c, wanted, 0);
    forall i | 0 <= i < |wanted|
      ensures Fault(c, wanted[i]).None? <==> Orderable(c, wanted[i])
    {
      FaultMeans(c, wanted[i]);
    }
    assert DistinctVariants(wanted) <==> forall j :: 0 <= j < |wanted| ==> !Repeats(wanted, j) by {
      if forall j :: 0 <= j < |wanted| ==> !Repeats(wanted, j) {
        forall i, j | 0 <= i < j < |wanted|
          ensures wanted[i].variant != wanted[j].variant
        {
          assert !Repeats(wanted, j);
        }
      }
    }
  }

  /** Main result: a refusal is that of the first item, in list order, that repeats a variant or has a fault of its
      own. */
  lemma RefusedByFirst(c: seq<CatalogItem>, wanted: seq<Wanted>, i: nat)
    requires ValidCatalog(c) && i < |wanted|
    requires forall j :: 0 <= j < i ==> Orderable(c, wanted[j])
    requires forall j, k :: 0 <= j < k < i ==> wanted[j].variant != wanted[k].variant
    ensures (exists j :: 0 <= j < i && wanted[j].variant == wanted[i].variant) ==>
              Quote(c, wanted) == Err(InvalidRequest)
    ensures (forall j :: 0 <= j < i ==> wanted[j].variant != wanted[i].variant) ==>
              && (!OnGrid(c, wanted[i]) || !Money(wanted[i].unitPrice) ==> Quote(c, wanted) == Err(InvalidRequest))
              && (OnGrid(c, wanted[i]) && Money(wanted[i].unitPrice) && !Orderable(c, wanted[i]) ==>
                    Quote(c, wanted) == Err(PriceChanged))
  {
    forall j | 0 <= j < i
      ensures !Repeats(wanted, j) && Fault(c, wanted[j]).None?
    {
      FaultMeans(c, wanted[j]);
    }
    FaultMeans(c, wanted[i]);
    FaultIsAnError(c, wanted[i]);
    PrefixIsPassed(c, wanted, 0, i);
    hide Fault, OnGrid;
  }

  lemma FaultIsAnError(c: seq<CatalogItem>, w: Wanted)
    requires ValidCatalog(c)
    ensures Fault(c, w).None? || Fault(c, w) == Some(InvalidRequest) || Fault(c, w) == Some(PriceChanged)
  {
  }

  lemma {:induction false} PrefixIsPassed(c: seq<CatalogItem>, wanted: seq<Wanted>, from: nat, i: nat)
    requires ValidCatalog(c) && from <= i < |wanted|
    requires forall j :: from <= j < i ==> !Repeats(wanted, j) && Fault(c, wanted[j]).None?
    ensures FirstFault(c, wanted, from) == FirstFault(c, wanted, i)
    decreases i - from
  {
    if from < i {
      PrefixIsPassed(c, wanted, from + 1, i);
    }
  }

  /** The exact price of a line, in thousandths of a cent. */
  function ExactLine(l: Line): int {
    l.unitPrice * l.quantity
  }

  function Exact(lines: seq<Line>): int {
    if lines == [] then 0
    else Exact(lines[..|lines| - 1]) + ExactLine(lines[|lines| - 1])
  }

  /** Rounded to the nearest cent, half a cent up. */
  ghost predicate Rounded(l: Line) {
    l.total >= 0 && -500 < 1000 * l.total - l.unitPrice * l.quantity <= 500
  }

  lemma {:induction false} RoundingDrift(lines: seq<Line>)
    requires forall i :: 0 <= i < |lines| ==> Rounded(lines[i])
    ensures Exact(lines) - 500 * |lines| <= 1000 * Total(lines) <= Exact(lines) + 500 * |lines|
  {
    if lines != [] {
      RoundingDrift(lines[..|lines| - 1]);
    }
  }

  lemma {:induction false} LineFits(lines: seq<Line>, i: nat)
    requires i < |lines|
    requires forall j :: 0 <= j < |lines| ==> lines[j].total >= 0
    ensures 0 <= lines[i].total <= Total(lines)
  {
    TotalNonnegative(lines[..|lines| - 1]);
    if i < |lines| - 1 {
      LineFits(lines[..|lines| - 1], i);
    }
  }

  lemma {:induction false} TotalNonnegative(lines: seq<Line>)
    requires forall j :: 0 <= j < |lines| ==> lines[j].total >= 0
    ensures Total(lines) >= 0
  {
    if lines != [] {
      TotalNonnegative(lines[..|lines| - 1]);
    }
  }

  lemma AcceptedLine(c: seq<CatalogItem>, wanted: seq<Wanted>, i: nat)
    requires ValidCatalog(c) && Quote(c, wanted).Ok? && i < |wanted|
    ensures Rounded(LineOf(wanted[i]))
  {
    AcceptedExactly(c, wanted);
    assert Orderable(c, wanted[i]);
    NonnegativeProduct(wanted[i].unitPrice, wanted[i].quantity);
  }

  /** Main result: the stored total is the sum of the stored lines, it is within half a cent a line of
      the exact price, and every line and the total fit twelve digits with two decimals. */
  lemma AcceptedTotals(c: seq<CatalogItem>, wanted: seq<Wanted>)
    requires ValidCatalog(c) && Quote(c, wanted).Ok?
    ensures var p := Quote(c, wanted).value;
            && |p.lines| == |wanted| && p.total == Total(p.lines)
            && Exact(p.lines) - 500 * |p.lines| <= 1000 * p.total <= Exact(p.lines) + 500 * |p.lines|
            && 0 <= p.total <= MAX_COLUMN
            && forall i :: 0 <= i < |p.lines| ==>
                 p.lines[i] == LineOf(wanted[i]) && Rounded(p.lines[i]) && p.lines[i].total <= MAX_COLUMN
  {
    var lines := Lines(wanted);
    forall i | 0 <= i < |lines|
      ensures Rounded(lines[i])
    {
      AcceptedLine(c, wanted, i);
    }
    RoundingDrift(lines);
    TotalNonnegative(lines);
    forall i | 0 <= i < |lines|
      ensures lines[i].total <= MAX_COLUMN
    {
      LineFits(lines, i);
    }
  }

  lemma NonnegativeProduct(a: int, b: int)
    requires a >= 0 && b >= 0
    ensures a * b >= 0
  {
  }
}
