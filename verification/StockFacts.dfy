/** The cached level is the ledger: proofs over every run of requests. */
module StockFacts {
  import opened Prelude
  import opened Inventory

  // ----- The sum of a movement log at one place -----

  function Weight(m: Movement, s: Spot): int {
    if m.spot == s then Signed(m) else 0
  }

  /** What the movements of the log stored at `s` add up to. */
  ghost function Stock(log: map<Id, Movement>, s: Spot): int {
    if log == map[] then 0
    else
      var id :| id in log;
      Weight(log[id], s) + Stock(log - {id}, s)
  }

  lemma {:induction false} StockWithout(log: map<Id, Movement>, s: Spot, id: Id)
    requires id in log
    ensures Stock(log, s) == Weight(log[id], s) + Stock(log - {id}, s)
    decreases |log|
  {
    var first :| first in log && Stock(log, s) == Weight(log[first], s) + Stock(log - {first}, s);
    if first != id {
      StockWithout(log - {first}, s, id);
      StockWithout(log - {id}, s, first);
      assert log - {first} - {id} == log - {id} - {first};
    }
  }

  lemma StockInserted(log: map<Id, Movement>, s: Spot, id: Id, m: Movement)
    requires id !in log
    ensures Stock(log[id := m], s) == Stock(log, s) + Weight(m, s)
  {
    StockWithout(log[id := m], s, id);
    assert log[id := m] - {id} == log;
  }

  lemma StockReplaced(log: map<Id, Movement>, s: Spot, id: Id, m: Movement)
    requires id in log
    ensures Stock(log[id := m], s) == Stock(log, s) - Weight(log[id], s) + Weight(m, s)
  {
    StockWithout(log, s, id);
    StockWithout(log[id := m], s, id);
    assert log[id := m] - {id} == log - {id};
  }

  // ----- The invariant -----

  /** Every level row is the sum of its movements, and a place without a row has no movement. */
  ghost predicate Balanced(t: Tables) {
    && (forall s :: s in t.levels ==> t.levels[s] == Stock(t.movements, s))
    && (forall id :: id in t.movements ==> t.movements[id].spot in t.levels)
  }

  /** The index on keys points at exactly the movements that carry them. */
  ghost predicate Indexed(t: Tables) {
    && (forall id :: id in t.movements ==>
          var k := (t.movements[id].spot.business, t.movements[id].key); k in t.keys && t.keys[k] == id)
    && (forall k :: k in t.keys ==>
          t.keys[k] in t.movements && t.movements[t.keys[k]].spot.business == k.0 && t.movements[t.keys[k]].key == k.1)
  }

  ghost predicate Positive(t: Tables) {
    forall id :: id in t.movements ==> ValidQuantity(t.movements[id].quantity)
  }

  /** The foreign key of movements on locations. */
  ghost predicate Located(t: Tables) {
    forall id :: id in t.movements ==> t.movements[id].spot.location in t.locations
  }

  ghost predicate Sound(t: Tables) {
    Balanced(t) && Indexed(t) && Positive(t) && Located(t)
  }

  lemma AddDeltaAdds(levels: map<Spot, int>, s: Spot, delta: int)
    requires AddDelta(levels, s, delta).Ok?
    ensures var r := AddDelta(levels, s, delta).value;
            r == levels[s := (if s in levels then levels[s] else 0) + delta]
  {
  }

  /** A success moves exactly one level by exactly the delta, and leaves it at zero or above if it moved it. */
  lemma AddNonnegativeAdds(levels: map<Spot, int>, s: Spot, delta: int)
    requires AddNonnegative(levels, s, delta).Ok?
    ensures var r := AddNonnegative(levels, s, delta).value;
            && r == levels[s := (if s in levels then levels[s] else 0) + delta]
            && (delta != 0 ==> r[s] >= 0)
            && (s !in levels ==> delta > 0)
  {
    if delta == 0 {
      assert levels == levels[s := levels[s] + delta];
    }
  }

  /** A place without movements sums to zero, so a missing row counts as zero. */
  lemma {:induction false} NoRowNoStock(log: map<Id, Movement>, s: Spot)
    requires forall id :: id in log ==> log[id].spot != s
    ensures Stock(log, s) == 0
    decreases |log|
  {
    if log != map[] {
      var id :| id in log;
      StockWithout(log, s, id);
      NoRowNoStock(log - {id}, s);
    }
  }

  lemma LevelIsStock(t: Tables, s: Spot)
    requires Balanced(t)
    ensures (if s in t.levels then t.levels[s] else 0) == Stock(t.movements, s)
  {
    if s !in t.levels {
      NoRowNoStock(t.movements, s);
    }
  }

  lemma InsertedIsSound(t: Tables, id: Id, m: Movement)
    requires Sound(t) && (m.spot.business, m.key) !in t.keys && ValidQuantity(m.quantity)
    requires Inserted(t, id, m).Ok?
    ensures Sound(Inserted(t, id, m).value)
  {
    hide Balanced, Indexed, AddDelta;
    var after := Inserted(t, id, m).value;
    InsertedIsBalanced(t, id, m, after);
    InsertedIsIndexed(t, id, m, after);
  }

  lemma InsertedIsIndexed(t: Tables, id: Id, m: Movement, after: Tables)
    requires Indexed(t) && id !in t.movements && (m.spot.business, m.key) !in t.keys
    requires after.movements == t.movements[id := m] && after.keys == t.keys[(m.spot.business, m.key) := id]
    ensures Indexed(after)
  {
  }

  lemma InsertedIsBalanced(t: Tables, id: Id, m: Movement, after: Tables)
    requires Balanced(t) && Inserted(t, id, m) == Ok(after)
    ensures Balanced(after)
  {
    AddDeltaAdds(t.levels, m.spot, Signed(m));
    LevelIsStock(t, m.spot);
    forall s | s in after.levels
      ensures after.levels[s] == Stock(after.movements, s)
    {
      StockInserted(t.movements, s, id, m);
    }
  }

  lemma RemovedIsSound(t: Tables, id: Id, business: Id)
    requires Sound(t) && Removed(t, id, business).1.Ok?
    ensures Sound(Removed(t, id, business).0)
  {
    var m, after := t.movements[id], Removed(t, id, business).0;
    AddNonnegativeAdds(t.levels, m.spot, -Signed(m));
    forall s | s in after.levels
      ensures after.levels[s] == Stock(after.movements, s)
    {
      StockWithout(t.movements, s, id);
    }
  }

  lemma EditDeltaMoves(levels: map<Spot, int>, current: Movement, edited: Movement)
    requires EditDelta(levels, current, edited).Ok? && current.spot in levels
    ensures var r := EditDelta(levels, current, edited).value;
            && r.Keys == levels.Keys + {edited.spot}
            && forall s :: s in r ==>
                 r[s] == (if s in levels then levels[s] else 0) - Weight(current, s) + Weight(edited, s)
  {
    if current.spot == edited.spot {
      AddNonnegativeAdds(levels, current.spot, Signed(edited) - Signed(current));
    } else {
      AddNonnegativeAdds(levels, current.spot, -Signed(current));
      AddNonnegativeAdds(AddNonnegative(levels, current.spot, -Signed(current)).value, edited.spot, Signed(edited));
    }
  }

  lemma UpdatedIsSound(t: Tables, id: Id, edited: Movement)
    requires Sound(t) && id in t.movements && ValidQuantity(edited.quantity)
    requires edited.spot.business == t.movements[id].spot.business && edited.spot.location in t.locations
    requires Updated(t, id, t.movements[id], edited).Ok?
    ensures Sound(Updated(t, id, t.movements[id], edited).value)
  {
    var current := t.movements[id];
    var after := Updated(t, id, current, edited).value;
    EditDeltaMoves(t.levels, current, edited);
    LevelIsStock(t, edited.spot);
    forall s | s in after.levels
      ensures after.levels[s] == Stock(after.movements, s)
    {
      StockReplaced(t.movements, s, id, edited);
    }
    assert Balanced(after);
    UpdateKeepsIndex(t, id, edited, after);
  }

  lemma UpdateKeepsIndex(t: Tables, id: Id, edited: Movement, after: Tables)
    requires Indexed(t) && id in t.movements && edited.spot.business == t.movements[id].spot.business
    requires (edited.spot.business, edited.key) !in t.keys
    requires after.movements == t.movements[id := edited]
    requires var current := t.movements[id];
             after.keys ==
             (t.keys - {(current.spot.business, current.key)})[(edited.spot.business, edited.key) := id]
    ensures Indexed(after)
  {
  }

  // ----- Runs -----

  datatype Step =
    | Post(entry: Entry, id: Id, spare: Id)
    | Patch(target: Id, entry: Entry)
    | Remove(target: Id, business: Id)
    | AddVariant(variant: Id, owner: Id)
    | AddLocation(location: Id, owner: Id)

  function Next(t: Tables, s: Step): Tables {
    match s
    case Post(e, id, spare) => Posted(t, e, id, spare).0
    case Patch(id, e) => Patched(t, id, e).0
    case Remove(id, business) => Removed(t, id, business).0
    case AddVariant(v, owner) => if v in t.variants then t else t.(variants := t.variants[v := owner])
    case AddLocation(l, owner) => if l in t.locations then t else t.(locations := t.locations[l := owner])
  }

  function Run(t: Tables, steps: seq<Step>): Tables {
    if steps == [] then t else Next(Run(t, steps[..|steps| - 1]), steps[|steps| - 1])
  }

  lemma PostKeepsSound(t: Tables, e: Entry, id: Id, spare: Id)
    requires Sound(t)
    ensures Sound(Posted(t, e, id, spare).0)
  {
    hide Sound, Inserted, Replayed, ValidQuantity;
    var place := Resolved(t, e.business, e.location, spare);
    if Posted(t, e, id, spare).1.Ok? && place.Ok? {
      var (u, location) := place.value;
      var m := Recorded(e, location);
      if (e.business, e.key) !in t.keys {
        SameLedger(t, u);
        InsertedIsSound(u, id, m);
      }
    }
  }

  lemma SameLedger(t: Tables, u: Tables)
    requires Sound(t) && u.movements == t.movements && u.keys == t.keys && u.levels == t.levels
    requires t.locations.Keys <= u.locations.Keys
    ensures Sound(u)
  {
  }

  lemma PatchKeepsSound(t: Tables, id: Id, e: Entry)
    requires Sound(t)
    ensures Sound(Patched(t, id, e).0)
  {
    hide Balanced, Indexed, Positive, Updated, Replayed;
    if Patched(t, id, e).0 != t {
      UpdatedIsSound(t, id, Edited(e, t.movements[id]));
    }
  }

  lemma StepKeepsSound(t: Tables, s: Step)
    requires Sound(t)
    ensures Sound(Next(t, s))
  {
    hide Posted, Patched, Removed, Sound;
    match s
    case Post(e, id, spare) => PostKeepsSound(t, e, id, spare);
    case Patch(id, e) => PatchKeepsSound(t, id, e);
    case Remove(id, business) =>
      if Removed(t, id, business).1.Ok? {
        RemovedIsSound(t, id, business);
      } else {
        FailedRemoval(t, id, business);
      }
    case _ => SameLedger(t, Next(t, s));
  }

  lemma FailedRemoval(t: Tables, id: Id, business: Id)
    requires Removed(t, id, business).1.Err?
    ensures Removed(t, id, business).0 == t
  {
  }

  /** Main result: after any sequence of creates, edits, moves, deletes, replays and refusals every
      level is the sum of the movements stored at its place, and every movement's place has a row. */
  lemma {:induction false} LevelsAreTheLedger(steps: seq<Step>)
    ensures Sound(Run(EMPTY, steps))
  {
    if steps != [] {
      LevelsAreTheLedger(steps[..|steps| - 1]);
      StepKeepsSound(Run(EMPTY, steps[..|steps| - 1]), steps[|steps| - 1]);
    }
  }

  // ----- The ledger by kinds -----

  /** What the movements of these kinds stored at `s` add up to. */
  ghost function Quantity(log: map<Id, Movement>, s: Spot, kinds: set<Kind>): int {
    if log == map[] then 0
    else
      var id :| id in log;
      (if log[id].spot == s && log[id].kind in kinds then log[id].quantity else 0) + Quantity(log - {id}, s, kinds)
  }

  lemma {:induction false} QuantityWithout(log: map<Id, Movement>, s: Spot, kinds: set<Kind>, id: Id)
    requires id in log
    ensures Quantity(log, s, kinds) ==
            (if log[id].spot == s && log[id].kind in kinds then log[id].quantity else 0) +
            Quantity(log - {id}, s, kinds)
    decreases |log|
  {
    var first :| first in log && Quantity(log, s, kinds) ==
                                 (if log[first].spot == s && log[first].kind in kinds then log[first].quantity else 0) +
                                 Quantity(log - {first}, s, kinds);
    if first != id {
      QuantityWithout(log - {first}, s, kinds, id);
      QuantityWithout(log - {id}, s, kinds, first);
      assert log - {first} - {id} == log - {id} - {first};
    }
  }

  /** What came in less what went out. */
  ghost function Net(log: map<Id, Movement>, s: Spot): int {
    Quantity(log, s, {InPurchase, InProduction, InAdjustment}) - Quantity(log, s, {OutSale, OutAdjustment, OutLoss})
  }

  lemma {:induction false} StockIsNet(log: map<Id, Movement>, s: Spot)
    ensures Stock(log, s) == Net(log, s)
    decreases |log|
  {
    if log != map[] {
      var id :| id in log;
      StockIsNet(log - {id}, s);
      StockWithout(log, s, id);
      NetWithout(log, s, id);
      hide Stock, Net;
    }
  }

  lemma NetWithout(log: map<Id, Movement>, s: Spot, id: Id)
    requires id in log
    ensures Net(log, s) == Weight(log[id], s) + Net(log - {id}, s)
  {
    QuantityWithout(log, s, {InPurchase, InProduction, InAdjustment}, id);
    QuantityWithout(log, s, {OutSale, OutAdjustment, OutLoss}, id);
    hide Quantity;
  }

  /** Main result: after any sequence of requests every level is what was purchased, produced and adjusted upward at
      its place, less what was sold, lost and adjusted downward; a place without a level has no movement. */
  lemma LevelsAreNet(steps: seq<Step>, s: Spot)
    ensures var t := Run(EMPTY, steps); (if s in t.levels then t.levels[s] else 0) == Net(t.movements, s)
  {
    LevelsAreTheLedger(steps);
    LevelIsStock(Run(EMPTY, steps), s);
    StockIsNet(Run(EMPTY, steps).movements, s);
  }

  /** Main result: recording a movement raises the level of its place by the quantity, or lowers it, by its kind. */
  lemma PostMovesLevel(t: Tables, e: Entry, id: Id, spare: Id)
    requires Posted(t, e, id, spare).1.Ok? && !Posted(t, e, id, spare).1.value.replayed
    ensures var (u, r) := Posted(t, e, id, spare); var m, s := r.value.movement, r.value.movement.spot;
            var before := if s in t.levels then t.levels[s] else 0;
            && s == Spot(e.business, e.variant, s.location) && (e.location.Some? ==> s.location == e.location.value)
            && m == Movement(s, e.kind, e.quantity, e.details, e.user, e.key)
            && id !in t.movements && u.movements == t.movements[id := m] && r.value.id == id
            && u.keys == t.keys[(e.business, e.key) := id] && s.location in u.locations
            && u.levels == t.levels[s := r.value.level]
            && r.value.level ==
               match e.kind
               case InPurchase => before + e.quantity
               case InProduction => before + e.quantity
               case InAdjustment => before + e.quantity
               case OutSale => before - e.quantity
               case OutAdjustment => before - e.quantity
               case OutLoss => before - e.quantity
  {
    var (u, location) := Resolved(t, e.business, e.location, spare).value;
    var m := Recorded(e, location);
    InsertedMoves(u, id, m);
    SignedByKind(m);
    hide Inserted, Replayed, Signed;
  }

  lemma InsertedMoves(t: Tables, id: Id, m: Movement)
    requires Inserted(t, id, m).Ok?
    ensures var level := (if m.spot in t.levels then t.levels[m.spot] else 0) + Signed(m);
            && id !in t.movements && m.spot.location in t.locations
            && Inserted(t, id, m).value ==
               t.(movements := t.movements[id := m], keys := t.keys[(m.spot.business, m.key) := id],
                  levels := t.levels[m.spot := level])
  {
  }

  lemma SignedByKind(m: Movement)
    ensures Signed(m) ==
            match m.kind
            case InPurchase => m.quantity
            case InProduction => m.quantity
            case InAdjustment => m.quantity
            case OutSale => -m.quantity
            case OutAdjustment => -m.quantity
            case OutLoss => -m.quantity
  {
  }

  /** What a movement of this kind does to the level. */
  function Effect(k: Kind, quantity: int): int {
    if k in {InPurchase, InProduction, InAdjustment} then quantity else -quantity
  }

  /** A request without a location goes to the business's default one, made on the way if there is none. */
  predicate HasPlace(t: Tables, e: Entry, spare: Id) {
    match e.location
    case Some(l) => l in t.locations
    case None => if e.business in t.defaults then t.defaults[e.business] in t.locations else spare !in t.locations
  }

  function PlaceOf(t: Tables, e: Entry, spare: Id): Id {
    e.location.GetOr(if e.business in t.defaults then t.defaults[e.business] else spare)
  }

  /** Main result: which movements are recorded. */
  lemma PostAcceptedExactly(t: Tables, e: Entry, id: Id, spare: Id)
    ensures var r := Posted(t, e, id, spare).1; var s := Spot(e.business, e.variant, PlaceOf(t, e, spare));
            (r.Ok? && !r.value.replayed) <==>
            && 1 <= e.quantity <= 999_999_999_999
            && e.variant in t.variants && t.variants[e.variant] == e.business
            && (e.business, e.key) !in t.keys && id !in t.movements && HasPlace(t, e, spare)
            && var level := (if s in t.levels then t.levels[s] else 0) + Effect(e.kind, e.quantity);
               -999_999_999_999 <= level <= 999_999_999_999
  {
  }

  /** A create is refused for its quantity, then its variant, then a key that recorded something else. */
  lemma PostRefused(t: Tables, e: Entry, id: Id, spare: Id)
    ensures e.quantity < 1 || e.quantity > 999_999_999_999 ==> Posted(t, e, id, spare).1 == Err(InvalidRequest)
    ensures 1 <= e.quantity <= 999_999_999_999 && !OwnVariant(t, e) ==> Posted(t, e, id, spare).1 == Err(NotFound)
    ensures Sensible(t, e) && (e.location.Some? || e.business in t.defaults) && KeyRecords(t, e, spare, false) ==>
              Posted(t, e, id, spare).1 == Err(Conflict)
    ensures Sensible(t, e) && (e.business, e.key) !in t.keys && Posted(t, e, id, spare).1.Err? ==>
              Posted(t, e, id, spare).1 == Err(Internal)
  {
  }

  predicate Sensible(t: Tables, e: Entry) {
    1 <= e.quantity <= 999_999_999_999 && OwnVariant(t, e)
  }

  predicate OwnVariant(t: Tables, e: Entry) {
    e.variant in t.variants && t.variants[e.variant] == e.business
  }

  /** The key of the request has recorded this movement, or another one. */
  predicate KeyRecords(t: Tables, e: Entry, spare: Id, same: bool) {
    && (e.business, e.key) in t.keys && t.keys[(e.business, e.key)] in t.movements
    && var m := Movement(Spot(e.business, e.variant, PlaceOf(t, e, spare)), e.kind, e.quantity, e.details,
                         e.user, e.key);
       same == (t.movements[t.keys[(e.business, e.key)]] == m)
  }

  /** An edit under the key its movement has is a conflict if it says anything else; an unknown movement is not
      found. */
  lemma PatchRefused(t: Tables, id: Id, e: Entry)
    ensures id !in t.movements || t.movements[id].spot.business != e.business ==> Patched(t, id, e).1 == Err(NotFound)
    ensures id in t.movements && SaysElse(t.movements[id], e) ==> Patched(t, id, e).1 == Err(Conflict)
    ensures Patched(t, id, e).1.Err? ==> Patched(t, id, e).0 == t
  {
  }

  predicate SaysElse(m: Movement, e: Entry) {
    && m.spot.business == e.business && m.key == e.key && m.spot.variant == e.variant && e.location.None?
    && 1 <= e.quantity <= 999_999_999_999
    && (e.kind != m.kind || e.quantity != m.quantity || e.details != m.details)
  }

  /** Main result: which movements of a sound ledger are deleted, and what that leaves. */
  lemma RemoveExactly(t: Tables, id: Id, business: Id)
    requires Sound(t)
    ensures var (u, r) := Removed(t, id, business);
            if id !in t.movements || t.movements[id].spot.business != business then r == Err(NotFound)
            else
              var m := t.movements[id];
              var level := t.levels[m.spot] - Effect(m.kind, m.quantity);
              && (r.Ok? <==> 0 <= level <= 999_999_999_999) && (level < 0 ==> r == Err(Conflict))
              && (r.Ok? ==> u == t.(movements := t.movements - {id}, keys := t.keys - {(m.spot.business, m.key)},
                                    levels := t.levels[m.spot := level]))
  {
  }

  /** Main result: which edits of a sound ledger change a movement, and what they then store. An edit in place needs
      its level afterwards not to be negative, or to be as before; a move also needs the place it leaves not to
      be. */
  lemma PatchExactly(t: Tables, id: Id, e: Entry)
    requires Sound(t) && id in t.movements && t.movements[id].spot.business == e.business
    requires e.key != t.movements[id].key
    ensures var (u, r) := Patched(t, id, e); var m := t.movements[id];
            var s := Spot(e.business, e.variant, e.location.GetOr(m.spot.location));
            var out, in_ := Effect(m.kind, m.quantity), Effect(e.kind, e.quantity);
            && (r.Ok? <==>
                  && 1 <= e.quantity <= 999_999_999_999 && e.variant == m.spot.variant
                  && (e.location.Some? ==>
                        e.location.value in t.locations && t.locations[e.location.value] == e.business)
                  && (e.business, e.key) !in t.keys
                  && (if s == m.spot then in_ == out || 0 <= t.levels[s] - out + in_ <= 999_999_999_999
                      else
                        && 0 <= t.levels[m.spot] - out <= 999_999_999_999
                        && 0 <= (if s in t.levels then t.levels[s] else 0) + in_ <= 999_999_999_999))
            && (r.Ok? ==>
                  && u.movements == t.movements[id := Movement(s, e.kind, e.quantity, e.details, m.createdBy, e.key)]
                  && u.keys == (t.keys - {(e.business, m.key)})[(e.business, e.key) := id]
                  && (s == m.spot ==> u.levels == t.levels[s := t.levels[s] - out + in_])
                  && (s != m.spot ==>
                        u.levels == t.levels[m.spot := t.levels[m.spot] - out]
                                            [s := (if s in t.levels then t.levels[s] else 0) + in_])
                  && u.locations == t.locations && u.defaults == t.defaults && u.variants == t.variants
                  && r == Ok(Reply(id, u.movements[id], u.levels[s], false)))
            && (e.quantity < 1 || e.variant != m.spot.variant ==> r == Err(InvalidRequest))
            && (1 <= e.quantity <= 999_999_999_999 && e.variant == m.spot.variant && e.location.None? ==>
                  && (in_ != out && t.levels[s] - out + in_ < 0 ==> r == Err(Conflict))
                  && (0 <= t.levels[s] - out + in_ <= 999_999_999_999 && (e.business, e.key) in t.keys ==>
                        r == Err(Conflict)))
  {
    var m := t.movements[id];
    var edited := Edited(e, m);
    SpotHasLevel(t, id);
    hide Sound;
    if ValidQuantity(e.quantity) {
      DeltaExactly(t.levels, m, edited);
    }
    hide EditDelta, Effect, Replayed;
  }

  lemma SpotHasLevel(t: Tables, id: Id)
    requires Sound(t) && id in t.movements
    ensures t.movements[id].spot in t.levels && ValidQuantity(t.movements[id].quantity)
  {
  }

  lemma DeltaExactly(levels: map<Spot, int>, m: Movement, edited: Movement)
    requires m.spot in levels && ValidQuantity(m.quantity) && ValidQuantity(edited.quantity)
    ensures var r := EditDelta(levels, m, edited); var s := edited.spot;
            var out, in_ := Effect(m.kind, m.quantity), Effect(edited.kind, edited.quantity);
            var before := if s in levels then levels[s] else 0;
            && (r.Ok? <==>
                  if s == m.spot then in_ == out || 0 <= before - out + in_ <= 999_999_999_999
                  else 0 <= levels[m.spot] - out <= 999_999_999_999 && 0 <= before + in_ <= 999_999_999_999)
            && (r.Ok? ==> r.value == (if s == m.spot then levels[s := before - out + in_]
                                      else levels[m.spot := levels[m.spot] - out][s := before + in_]))
  {
    if edited.spot == m.spot && Effect(m.kind, m.quantity) == Effect(edited.kind, edited.quantity) {
      assert levels[m.spot := levels[m.spot]] == levels;
    }
  }

  // ----- Refusals, replays and stock that stays nonnegative -----

  /** An error or a replay leaves every table as it was. */
  lemma RefusalsChangeNothing(t: Tables, s: Step)
    requires s.Post? ==> var r := Posted(t, s.entry, s.id, s.spare).1; r.Err? || r.value.replayed
    requires s.Patch? ==> var r := Patched(t, s.target, s.entry).1; r.Err? || r.value.replayed
    requires s.Remove? ==> Removed(t, s.target, s.business).1.Err?
    requires !s.AddVariant? && !s.AddLocation?
    ensures Next(t, s) == t
  {
  }

  /** After a successful create its key points at the recorded movement. */
  lemma PostedIsStored(t: Tables, e: Entry, id: Id, spare: Id)
    requires Sound(t) && Posted(t, e, id, spare).1.Ok?
    ensures var (u, r) := Posted(t, e, id, spare); var reply := r.value;
            && (e.business, e.key) in u.keys && u.keys[(e.business, e.key)] == reply.id
            && reply.id in u.movements && u.movements[reply.id] == reply.movement
            && reply.movement == Recorded(e, reply.movement.spot.location)
            && reply.movement.spot in u.levels && u.levels[reply.movement.spot] == reply.level
            && u.variants == t.variants && ValidQuantity(e.quantity) && e.variant in u.variants &&
               u.variants[e.variant] == e.business
            && Resolved(u, e.business, e.location, spare) == Ok((u, reply.movement.spot.location))
  {
    hide AddDelta, Balanced, Indexed, Positive, ValidQuantity;
  }

  /** Sending a create again returns the same movement and level, and records nothing. */
  lemma CreateIsIdempotent(t: Tables, e: Entry, id: Id, spare: Id, id2: Id, spare2: Id)
    requires Sound(t) && Posted(t, e, id, spare).1.Ok?
    ensures var (u, r) := Posted(t, e, id, spare);
            Posted(u, e, id2, spare2) == (u, Ok(r.value.(replayed := true)))
  {
    PostedIsStored(t, e, id, spare);
    var (u, r) := Posted(t, e, id, spare);
    assert Resolved(u, e.business, e.location, spare2) == Resolved(u, e.business, e.location, spare);
    SameKeyReplays(u, e, id2, spare2, r.value);
  }

  lemma SameKeyReplays(u: Tables, e: Entry, id: Id, spare: Id, first: Reply)
    requires ValidQuantity(e.quantity) && e.variant in u.variants && u.variants[e.variant] == e.business
    requires (e.business, e.key) in u.keys && u.keys[(e.business, e.key)] == first.id
    requires first.id in u.movements && u.movements[first.id] == first.movement
    requires first.movement.spot in u.levels && u.levels[first.movement.spot] == first.level
    requires Resolved(u, e.business, e.location, spare) == Ok((u, first.movement.spot.location))
    requires first.movement == Recorded(e, first.movement.spot.location)
    ensures Posted(u, e, id, spare) == (u, Ok(first.(replayed := true)))
  {
  }

  /** The same key with anything different in the movement is refused. */
  lemma ReusedKeyIsRefused(t: Tables, e: Entry, id: Id, spare: Id, other: Entry, id2: Id, spare2: Id)
    requires Sound(t) && Posted(t, e, id, spare).1.Ok?
    requires other.business == e.business && other.key == e.key
    requires other.kind != e.kind || other.quantity != e.quantity || other.variant != e.variant ||
             other.details != e.details || other.user != e.user
    ensures var u := Posted(t, e, id, spare).0;
            Posted(u, other, id2, spare2).0 == u && Posted(u, other, id2, spare2).1.Err?
  {
    PostedIsStored(t, e, id, spare);
    var (u, r) := Posted(t, e, id, spare);
    OtherMovementConflicts(u, other, id2, spare2, r.value);
  }

  lemma OtherMovementConflicts(u: Tables, e: Entry, id: Id, spare: Id, first: Reply)
    requires (e.business, e.key) in u.keys && u.keys[(e.business, e.key)] == first.id
    requires first.id in u.movements && u.movements[first.id] == first.movement
    requires first.movement != Recorded(e, first.movement.spot.location)
    ensures Posted(u, e, id, spare).0 == u && Posted(u, e, id, spare).1.Err?
  {
    var place := Resolved(u, e.business, e.location, spare);
    if place.Ok? {
      assert Recorded(e, place.value.1) != first.movement;
    }
  }

  /** Main result: a successful delete leaves the level it touched at zero or above. */
  lemma DeleteLeavesNonnegative(t: Tables, id: Id, business: Id)
    requires Sound(t) && Removed(t, id, business).1.Ok?
    ensures id in t.movements && t.movements[id].spot in t.levels
    ensures var s := t.movements[id].spot;
            s in Removed(t, id, business).0.levels && Removed(t, id, business).0.levels[s] >= 0
  {
    AddNonnegativeAdds(t.levels, t.movements[id].spot, -Signed(t.movements[id]));
  }

  /** Main result: so does a successful edit that changes stock, at both ends of a move. */
  lemma EditLeavesNonnegative(t: Tables, id: Id, e: Entry)
    requires Sound(t) && Patched(t, id, e).1.Ok? && id in t.movements
    requires var m, edited := t.movements[id], Edited(e, t.movements[id]);
             m.spot != edited.spot || Signed(m) != Signed(edited)
    ensures var after := Patched(t, id, e).0; var m, edited := t.movements[id], Edited(e, t.movements[id]);
            m.spot in after.levels && after.levels[m.spot] >= 0 && edited.spot in after.levels &&
            after.levels[edited.spot] >= 0
  {
    var current, edited := t.movements[id], Edited(e, t.movements[id]);
    if current.spot == edited.spot {
      AddNonnegativeAdds(t.levels, current.spot, Signed(edited) - Signed(current));
    } else {
      AddNonnegativeAdds(t.levels, current.spot, -Signed(current));
      var without := AddNonnegative(t.levels, current.spot, -Signed(current)).value;
      AddNonnegativeAdds(without, edited.spot, Signed(edited));
    }
  }

  /** A create does no such check: taking stock that is not there is recorded as a negative level. */
  lemma CreateMayGoNegative()
    ensures exists steps, s :: s in Run(EMPTY, steps).levels && Run(EMPTY, steps).levels[s] < 0
  {
    var e := Entry(1, 2, None, OutSale, 5, Details(None, None, None, ""), 3, "sale");
    var steps := [AddVariant(2, 1), Post(e, 4, 6)];
    assert steps[..1] == [AddVariant(2, 1)] && steps[..1][..0] == [];
    assert Run(EMPTY, steps[..1]) == EMPTY.(variants := map[2 := 1]);
    assert Spot(1, 2, 6) in Run(EMPTY, steps).levels;
  }

  // ----- An edit against a delete and a create -----

  /** The create that a client would send instead: the edited data, at the place and by the author that the
      edit keeps. */
  function Reentered(e: Entry, current: Movement): Entry {
    e.(location := Some(e.location.GetOr(current.spot.location)), user := current.createdBy)
  }

  /** The same tables with one movement under another id. */
  function Retold(t: Tables, from: Id, to: Id): Tables
    requires from in t.movements
  {
    var m := t.movements[from];
    t.(movements := (t.movements - {from})[to := m], keys := t.keys[(m.spot.business, m.key) := to])
  }

  /** What an edit asks beyond a delete and a create: the variant stays, a new location is the business's own,
      the request key is new or nothing changes, and the level ends at zero or above or is left alone. */
  predicate EditTakes(t: Tables, current: Movement, e: Entry, level: int) {
    var edited := Edited(e, current);
    && e.variant == current.spot.variant
    && (e.location.Some? ==> e.location.value in t.locations && t.locations[e.location.value] == e.business)
    && (if e.key == current.key then edited == current
        else level >= 0 || (edited.spot == current.spot && Signed(edited) == Signed(current)))
  }

  /** Main result: when a client can delete a movement and record the edited one, the edit succeeds exactly under
      these conditions, and then leaves the same tables, the movement keeping its id. */
  lemma EditIsDeleteThenCreate(t: Tables, id: Id, e: Entry, id2: Id, spare: Id)
    requires Sound(t) && Removed(t, id, e.business).1.Ok?
    requires var r := Posted(Removed(t, id, e.business).0, Reentered(e, t.movements[id]), id2, spare).1;
             r.Ok? && !r.value.replayed
    ensures var (v, r) := Posted(Removed(t, id, e.business).0, Reentered(e, t.movements[id]), id2, spare);
            && id2 in v.movements
            && (Patched(t, id, e).1.Ok? <==> EditTakes(t, t.movements[id], e, r.value.level))
            && (Patched(t, id, e).1.Ok? ==> Patched(t, id, e).0 == Retold(v, id2, id))
  {
    var current, edited := t.movements[id], Edited(e, t.movements[id]);
    RemovedThenRecorded(t, id, e, id2, spare);
    var levels := Unchecked(t.levels, current, edited).value;
    hide Posted, Removed, Unchecked, Patched, Retold;
    if EditTakes(t, current, e, levels[edited.spot]) && e.key == current.key {
      UnchangedIsRetold(t, id, e, id2);
    } else {
      EditOutcome(t, id, e);
      RenamedIsRetold(t, id, e, id2, levels);
    }
  }

  /** An edit that repeats the movement changes nothing, nor do the two requests. */
  lemma UnchangedIsRetold(t: Tables, id: Id, e: Entry, id2: Id)
    requires Sound(t) && id in t.movements && ValidQuantity(e.quantity) && id2 !in t.movements - {id}
    requires var current := t.movements[id];
             current.spot.business == e.business && EditTakes(t, current, e, 0) && e.key == current.key
    requires Unchecked(t.levels, t.movements[id], Edited(e, t.movements[id])).Ok?
    ensures var current := t.movements[id];
            var v := WithMovement(t, id, id2, current, Unchecked(t.levels, current, current).value);
            Edited(e, current) == current && Patched(t, id, e).1.Ok? && Patched(t, id, e).0 == t == Retold(v, id2, id)
  {
    var current := t.movements[id];
    CheckedAgainstUnchecked(t.levels, current, current);
    RestoredTables(t, id, id2);
    hide Unchecked, Retold, WithMovement;
  }

  lemma RestoredTables(t: Tables, id: Id, id2: Id)
    requires Indexed(t) && id in t.movements && id2 !in t.movements - {id}
    ensures Retold(WithMovement(t, id, id2, t.movements[id], t.levels), id2, id) == t
  {
    var v := WithMovement(t, id, id2, t.movements[id], t.levels);
    assert Retold(v, id2, id).movements == t.movements;
    assert Retold(v, id2, id).keys == t.keys;
  }

  /** The tables with one movement replaced by another, perhaps under another id. */
  function WithMovement(t: Tables, id: Id, id2: Id, m: Movement, levels: map<Spot, int>): Tables
    requires id in t.movements
  {
    var current := t.movements[id];
    t.(movements := (t.movements - {id})[id2 := m],
       keys := (t.keys - {(current.spot.business, current.key)})[(m.spot.business, m.key) := id2],
       levels := levels)
  }

  lemma EditOutcome(t: Tables, id: Id, e: Entry)
    requires Sound(t) && id in t.movements && ValidQuantity(e.quantity) && t.movements[id].spot.business == e.business
    requires var current := t.movements[id];
             (e.business, e.key) !in t.keys - {(current.spot.business, current.key)} &&
             Unchecked(t.levels, current, Edited(e, current)).Ok?
    ensures var current, edited := t.movements[id], Edited(e, t.movements[id]);
            var levels := Unchecked(t.levels, current, edited).value;
            if !EditTakes(t, current, e, levels[edited.spot]) then Patched(t, id, e).1.Err?
            else e.key != current.key ==>
                   Patched(t, id, e).1.Ok? && Patched(t, id, e).0 == WithMovement(t, id, id, edited, levels)
  {
    var current, edited := t.movements[id], Edited(e, t.movements[id]);
    CheckedAgainstUnchecked(t.levels, current, edited);
    hide EditDelta, Unchecked, AddDelta, AddNonnegative;
    assert t.movements[id := edited] == (t.movements - {id})[id := edited];
  }

  lemma RenamedIsRetold(t: Tables, id: Id, e: Entry, id2: Id, levels: map<Spot, int>)
    requires id in t.movements && id2 !in t.movements - {id}
    ensures var edited := Edited(e, t.movements[id]);
            Retold(WithMovement(t, id, id2, edited, levels), id2, id) == WithMovement(t, id, id, edited, levels)
  {
    var edited := Edited(e, t.movements[id]);
    assert (t.movements - {id})[id2 := edited] - {id2} == t.movements - {id};
  }

  /** The two requests, table by table. */
  lemma RemovedThenRecorded(t: Tables, id: Id, e: Entry, id2: Id, spare: Id)
    requires Sound(t) && Removed(t, id, e.business).1.Ok?
    requires var r := Posted(Removed(t, id, e.business).0, Reentered(e, t.movements[id]), id2, spare).1;
             r.Ok? && !r.value.replayed
    ensures var current, edited := t.movements[id], Edited(e, t.movements[id]);
            var (v, r) := Posted(Removed(t, id, e.business).0, Reentered(e, current), id2, spare);
            && id in t.movements && ValidQuantity(e.quantity) && edited.spot.location in t.locations
            && id2 !in t.movements - {id}
            && (e.business, e.key) !in t.keys - {(current.spot.business, current.key)}
            && Unchecked(t.levels, current, edited).Ok?
            && current.spot.business == e.business
            && v == WithMovement(t, id, id2, edited, Unchecked(t.levels, current, edited).value)
            && r.value.level == v.levels[edited.spot]
  {
    hide AddDelta, AddNonnegative;
  }

  /** A delete's statement on the levels, then a create's. */
  function Unchecked(levels: map<Spot, int>, current: Movement, edited: Movement): (r: Result<map<Spot, int>>)
    ensures r.Ok? ==> edited.spot in r.value
  {
    var without :- AddNonnegative(levels, current.spot, -Signed(current));
    AddDelta(without, edited.spot, Signed(edited))
  }

  /** On the levels the edit does the same unless a level would end below zero. */
  lemma CheckedAgainstUnchecked(levels: map<Spot, int>, current: Movement, edited: Movement)
    requires ValidQuantity(current.quantity) && ValidQuantity(edited.quantity) && current.spot in levels
    requires Unchecked(levels, current, edited).Ok?
    ensures var r := Unchecked(levels, current, edited).value;
            if r[edited.spot] >= 0 || (current.spot == edited.spot && Signed(edited) == Signed(current))
            then EditDelta(levels, current, edited) == Ok(r)
            else EditDelta(levels, current, edited) == Err(Conflict)
  {
    AddNonnegativeAdds(levels, current.spot, -Signed(current));
    var without := AddNonnegative(levels, current.spot, -Signed(current)).value;
    AddDeltaAdds(without, edited.spot, Signed(edited));
    if current.spot == edited.spot {
      var s, delta := current.spot, Signed(edited) - Signed(current);
      assert without[s := without[s] + Signed(edited)] == levels[s := levels[s] + delta];
      assert delta == 0 ==> levels == levels[s := levels[s] + delta];
    }
  }

  ghost predicate TellsApart(t: Tables, id: Id, e: Entry, id2: Id, spare: Id) {
    && Removed(t, id, e.business).1.Ok? && id in t.movements
    && (var r := Posted(Removed(t, id, e.business).0, Reentered(e, t.movements[id]), id2, spare).1;
        r.Ok? && !r.value.replayed && r.value.level < 0)
    && Patched(t, id, e) == (t, Err(Conflict))
  }

  /** A delete and a create may leave a level below zero, where the edit is refused: of five arrived three are
      sold, and the sale is corrected to ten. */
  lemma EditRefusesWhatCreateAllows()
    ensures exists steps, id, e, id2, spare :: TellsApart(Run(EMPTY, steps), id, e, id2, spare)
  {
    hide TellsApart, Next;
    var steps := [AddVariant(2, 1), Post(ARRIVAL, 4, 6), Post(SALE, 7, 6)];
    assert steps[..2] == [AddVariant(2, 1), Post(ARRIVAL, 4, 6)] && steps[..2][..1] == [AddVariant(2, 1)];
    assert steps[..2][..1][..0] == [] && Run(EMPTY, steps[..2][..1]) == Next(EMPTY, AddVariant(2, 1));
    assert Run(EMPTY, steps[..2]) == Next(Next(EMPTY, AddVariant(2, 1)), Post(ARRIVAL, 4, 6));
    assert Run(EMPTY, steps) == Next(Run(EMPTY, steps[..2]), Post(SALE, 7, 6));
    Arrived();
    Sold();
    Corrected();
  }

  const ARRIVAL: Entry := Entry(1, 2, None, InPurchase, 5, Details(None, None, None, ""), 3, "in")
  const SALE: Entry := Entry(1, 2, None, OutSale, 3, Details(None, None, None, ""), 3, "out")
  const CORRECTION: Entry := SALE.(quantity := 10, key := "more")

  /** A variant, one movement in the default location, and the level. */
  function Stocked(log: map<Id, Movement>, keys: map<(Id, string), Id>, level: int): Tables {
    Tables(map[2 := 1], map[6 := 1], map[1 := 6], log, keys, map[Spot(1, 2, 6) := level])
  }

  lemma Arrived()
    ensures Next(Next(EMPTY, AddVariant(2, 1)), Post(ARRIVAL, 4, 6)) ==
            Stocked(map[4 := Recorded(ARRIVAL, 6)], map[(1, "in") := 4], 5)
  {
  }

  lemma Sold()
    ensures Next(Stocked(map[4 := Recorded(ARRIVAL, 6)], map[(1, "in") := 4], 5), Post(SALE, 7, 6)) ==
            Stocked(map[4 := Recorded(ARRIVAL, 6), 7 := Recorded(SALE, 6)], map[(1, "in") := 4, (1, "out") := 7], 2)
  {
    var t := Stocked(map[4 := Recorded(ARRIVAL, 6)], map[(1, "in") := 4], 5);
    assert SALE.key[0] == 'o' && "in"[0] == 'i';
    assert (1, SALE.key) !in t.keys && Signed(Recorded(SALE, 6)) == -3;
    assert AddDelta(t.levels, Spot(1, 2, 6), -3).value == map[Spot(1, 2, 6) := 2];
    assert Resolved(t, 1, None, 6) == Ok((t, 6));
    hide Resolved, AddDelta;
  }

  lemma Corrected()
    ensures var t := Stocked(map[4 := Recorded(ARRIVAL, 6), 7 := Recorded(SALE, 6)],
                             map[(1, "in") := 4, (1, "out") := 7], 2);
            TellsApart(t, 7, CORRECTION, 8, 9)
  {
    var t := Stocked(map[4 := Recorded(ARRIVAL, 6), 7 := Recorded(SALE, 6)],
                     map[(1, "in") := 4, (1, "out") := 7], 2);
    assert Removed(t, 7, 1).0.levels == map[Spot(1, 2, 6) := 5];
    assert "more" != "out";
  }

  // ----- The edit's statements on the levels -----

  /** The two checked statements of a move: take the old movement out, then put the new one in. */
  function OutThenIn(levels: map<Spot, int>, current: Movement, edited: Movement): Result<map<Spot, int>> {
    var without :- AddNonnegative(levels, current.spot, -Signed(current));
    AddNonnegative(without, edited.spot, Signed(edited))
  }

  /** When these two succeed, the fused statement of an edit in place succeeds with the same levels, unless it
      leaves place and signed quantity alone at a place that has no level row; then it fails. */
  lemma FusedEditRefinesExactly(levels: map<Spot, int>, current: Movement, edited: Movement)
    requires OutThenIn(levels, current, edited).Ok?
    ensures EditDelta(levels, current, edited) == OutThenIn(levels, current, edited) <==>
            current.spot in levels || current.spot != edited.spot || Signed(edited) != Signed(current)
    ensures EditDelta(levels, current, edited) == OutThenIn(levels, current, edited) ||
            EditDelta(levels, current, edited) == Err(NotFound)
  {
    var s := current.spot;
    if s == edited.spot {
      AddNonnegativeAdds(levels, s, -Signed(current));
      var without := AddNonnegative(levels, s, -Signed(current)).value;
      AddNonnegativeAdds(without, s, Signed(edited));
      var before := if s in levels then levels[s] else 0;
      var after := levels[s := before + (Signed(edited) - Signed(current))];
      assert OutThenIn(levels, current, edited).value == after;
      if Signed(edited) == Signed(current) {
        assert s in levels ==> levels == after;
      } else {
        assert 0 <= before + (Signed(edited) - Signed(current));
      }
    }
  }

  /** In particular for every movement of a sound ledger, whose row is always there. */
  lemma FusedEditRefines(t: Tables, id: Id, edited: Movement)
    requires Sound(t) && id in t.movements && OutThenIn(t.levels, t.movements[id], edited).Ok?
    ensures EditDelta(t.levels, t.movements[id], edited) == OutThenIn(t.levels, t.movements[id], edited)
  {
    FusedEditRefinesExactly(t.levels, t.movements[id], edited);
  }

  /** Exactly when the edit in place succeeds; the two steps also need the level in between not to be negative. */
  lemma FusedEditSucceeds(levels: map<Spot, int>, current: Movement, edited: Movement)
    requires current.spot == edited.spot && current.spot in levels && Fits(levels[current.spot])
    requires ValidQuantity(current.quantity) && ValidQuantity(edited.quantity)
    ensures var level, delta := levels[current.spot], Signed(edited) - Signed(current);
            && (EditDelta(levels, current, edited).Ok? <==> delta == 0 || 0 <= level + delta <= MAX_LEVEL)
            && (OutThenIn(levels, current, edited).Ok? <==>
                  0 <= level - Signed(current) <= MAX_LEVEL && 0 <= level + delta <= MAX_LEVEL)
  {
    var s, level := current.spot, levels[current.spot];
    SucceedsWithRow(levels, s, Signed(edited) - Signed(current));
    SucceedsWithRow(levels, s, -Signed(current));
    if 0 <= level - Signed(current) <= MAX_LEVEL {
      AddNonnegativeAdds(levels, s, -Signed(current));
      SucceedsWithRow(levels[s := level - Signed(current)], s, Signed(edited));
    }
  }

  lemma SucceedsWithRow(levels: map<Spot, int>, s: Spot, delta: int)
    requires s in levels
    ensures AddNonnegative(levels, s, delta).Ok? <==> delta == 0 || 0 <= levels[s] + delta <= MAX_LEVEL
  {
  }

  /** Without a level row the two differ: undoing an outgoing movement creates the row that redoing it needs. */
  lemma FusedEditNeedsTheRow()
    ensures var m := Movement(Spot(1, 2, 3), OutSale, 5, Details(None, None, None, ""), 4, "sale");
            OutThenIn(map[], m, m).Ok? && EditDelta(map[], m, m) == Err(NotFound)
  {
  }
}
