/** The stock ledger: movements, the level cached per location, and the unique index on request keys.

    Quantities are thousandths. A level is a numeric(12,3) column, so a sum outside it fails the statement. */
module Inventory {
  import opened Prelude

  datatype Kind = InPurchase | InProduction | InAdjustment | OutSale | OutAdjustment | OutLoss

  datatype Spot = Spot(business: Id, variant: Id, location: Id)

  datatype Details = Details(unitCost: Option<int>, referenceType: Option<string>, referenceId: Option<string>,
                             notes: string)

  datatype Movement = Movement(spot: Spot, kind: Kind, quantity: int, details: Details, createdBy: Id, key: string)

  /** What a client sends to record or edit a movement. */
  datatype Entry = Entry(business: Id, variant: Id, location: Option<Id>, kind: Kind, quantity: int, details: Details,
                         user: Id, key: string)

  /** `locations` and `variants` give the owner of each row; `keys` is the unique index on request keys. */
  datatype Tables = Tables(variants: map<Id, Id>, locations: map<Id, Id>, defaults: map<Id, Id>,
                           movements: map<Id, Movement>, keys: map<(Id, string), Id>, levels: map<Spot, int>)

  datatype Reply = Reply(id: Id, movement: Movement, level: int, replayed: bool)

  const MAX_LEVEL: int := 999_999_999_999

  predicate Fits(x: int) {
    -MAX_LEVEL <= x <= MAX_LEVEL
  }

  predicate ValidQuantity(q: int) {
    1 <= q <= MAX_LEVEL
  }

  predicate Outgoing(k: Kind) {
    k.OutSale? || k.OutAdjustment? || k.OutLoss?
  }

  function SignedQuantity(k: Kind, quantity: int): int {
    if Outgoing(k) then -quantity else quantity
  }

  function Signed(m: Movement): int {
    SignedQuantity(m.kind, m.quantity)
  }

  // ----- Statements on the level table -----

  /** Insert the row or add to it. */
  function AddDelta(levels: map<Spot, int>, s: Spot, delta: int): (r: Result<map<Spot, int>>)
    ensures r.Ok? ==> s in r.value
  {
    var sum := (if s in levels then levels[s] else 0) + delta;
    if Fits(sum) then Ok(levels[s := sum]) else Err(Internal)
  }

  /** Change the level unless it would end below zero; a first arrival inserts the row. */
  function AddNonnegative(levels: map<Spot, int>, s: Spot, delta: int): (r: Result<map<Spot, int>>)
    ensures r.Ok? ==> s in r.value
  {
    if delta == 0 then if s in levels then Ok(levels) else Err(NotFound)
    else if s in levels && levels[s] + delta >= 0 then AddDelta(levels, s, delta)
    else if s !in levels && delta > 0 then AddDelta(levels, s, delta)
    else Err(Conflict)
  }

  /** One fused delta where the location stays; otherwise out of the old place, then into the new one. */
  function EditDelta(levels: map<Spot, int>, current: Movement, edited: Movement): (r: Result<map<Spot, int>>)
    ensures r.Ok? ==> edited.spot in r.value
  {
    if current.spot == edited.spot then AddNonnegative(levels, current.spot, Signed(edited) - Signed(current))
    else
      var without :- AddNonnegative(levels, current.spot, -Signed(current));
      AddNonnegative(without, edited.spot, Signed(edited))
  }

  // ----- The requests, on the tables -----

  function Resolved(t: Tables, business: Id, requested: Option<Id>, spare: Id): Result<(Tables, Id)> {
    if requested.Some? then Ok((t, requested.value))
    else if business in t.defaults then Ok((t, t.defaults[business]))
    else if spare in t.locations then Err(Internal)
    else Ok((t.(locations := t.locations[spare := business], defaults := t.defaults[business := spare]), spare))
  }

  function Recorded(e: Entry, location: Id): Movement {
    Movement(Spot(e.business, e.variant, location), e.kind, e.quantity, e.details, e.user, e.key)
  }

  function Inserted(t: Tables, id: Id, m: Movement): (r: Result<Tables>)
    ensures r.Ok? ==> m.spot in r.value.levels
  {
    if m.spot.location !in t.locations || id in t.movements then Err(Internal)
    else
      var levels :- AddDelta(t.levels, m.spot, Signed(m));
      Ok(t.(movements := t.movements[id := m], keys := t.keys[(m.spot.business, m.key) := id], levels := levels))
  }

  function Replayed(t: Tables, id: Id, m: Movement): Result<Reply> {
    if id !in t.movements || t.movements[id] != m then Err(Conflict)
    else if m.spot !in t.levels then Err(NotFound)
    else Ok(Reply(id, m, t.levels[m.spot], true))
  }

  /** Record a movement under a new id, or find the one its key already recorded. */
  function Posted(t: Tables, e: Entry, id: Id, spare: Id): (Tables, Result<Reply>) {
    if !ValidQuantity(e.quantity) then (t, Err(InvalidRequest))
    else if e.variant !in t.variants || t.variants[e.variant] != e.business then (t, Err(NotFound))
    else
      var place := Resolved(t, e.business, e.location, spare);
      if place.Err? then (t, Err(place.error))
      else
        var (u, location) := place.value;
        var m := Recorded(e, location);
        if (e.business, e.key) in t.keys then (t, Replayed(t, t.keys[(e.business, e.key)], m))
        else
          match Inserted(u, id, m)
          case Err(x) => (t, Err(x))
          case Ok(after) => (after, Ok(Reply(id, m, after.levels[m.spot], false)))
  }

  function Edited(e: Entry, current: Movement): Movement {
    Movement(Spot(e.business, e.variant, e.location.GetOr(current.spot.location)), e.kind, e.quantity, e.details,
             current.createdBy, e.key)
  }

  function Updated(t: Tables, id: Id, current: Movement, edited: Movement): (r: Result<Tables>)
    ensures r.Ok? ==> edited.spot in r.value.levels
  {
    var levels :- EditDelta(t.levels, current, edited);
    if (edited.spot.business, edited.key) in t.keys then Err(Conflict)
    else
      Ok(t.(movements := t.movements[id := edited],
            keys := (t.keys - {(current.spot.business, current.key)})[(edited.spot.business, edited.key) := id],
            levels := levels))
  }

  function Patched(t: Tables, id: Id, e: Entry): (Tables, Result<Reply>) {
    if id !in t.movements || t.movements[id].spot.business != e.business then (t, Err(NotFound))
    else
      var current := t.movements[id];
      var edited := Edited(e, current);
      if !ValidQuantity(e.quantity) || e.variant != current.spot.variant then (t, Err(InvalidRequest))
      else if e.location.Some? && (e.location.value !in t.locations || t.locations[e.location.value] != e.business)
      then (t, Err(NotFound))
      else if e.key == current.key then (t, Replayed(t, id, edited))
      else
        match Updated(t, id, current, edited)
        case Err(x) => (t, Err(x))
        case Ok(after) => (after, Ok(Reply(id, edited, after.levels[edited.spot], false)))
  }

  function Removed(t: Tables, id: Id, business: Id): (Tables, Result<()>) {
    if id !in t.movements || t.movements[id].spot.business != business then (t, Err(NotFound))
    else
      var m := t.movements[id];
      match AddNonnegative(t.levels, m.spot, -Signed(m))
      case Err(x) => (t, Err(x))
      case Ok(levels) =>
        (t.(movements := t.movements - {id}, keys := t.keys - {(m.spot.business, m.key)}, levels := levels), Ok(()))
  }

  // ----- The requests, as executed -----

  class Ledger {
    var variants: map<Id, Id>
    var locations: map<Id, Id>
    var defaults: map<Id, Id>
    var movements: map<Id, Movement>
    var keys: map<(Id, string), Id>
    var levels: map<Spot, int>

    function Snapshot(): Tables
      reads this
    {
      Tables(variants, locations, defaults, movements, keys, levels)
    }

    constructor ()
      ensures Snapshot() == EMPTY
    {
      variants, locations, defaults, movements, keys, levels := map[], map[], map[], map[], map[], map[];
    }

    method Rollback(t: Tables)
      modifies this
      ensures Snapshot() == t
    {
      variants, locations, defaults := t.variants, t.locations, t.defaults;
      movements, keys, levels := t.movements, t.keys, t.levels;
    }

    /** A requested location is taken as it is. Otherwise the business ends with a default location, which
        a later call without a request finds again; no default is ever replaced. */
    method ResolveLocation(business: Id, requested: Option<Id>, spare: Id) returns (r: Result<Id>)
      modifies this`locations, this`defaults
      ensures requested.Some? ==> r == Ok(requested.value) && Snapshot() == old(Snapshot())
      ensures requested.None? && r.Ok? ==> business in defaults && r.value == defaults[business]
      ensures r.Ok? ==> forall other :: Resolved(Snapshot(), business, requested, other) == Ok((Snapshot(), r.value))
      ensures r.Err? ==> r.error == Internal
      ensures r.Err? <==> requested.None? && business !in old(defaults) && spare in old(locations)
      ensures forall b :: b in old(defaults) ==> b in defaults && defaults[b] == old(defaults)[b]
      ensures forall l :: l in old(locations) ==> l in locations && locations[l] == old(locations)[l]
      ensures requested.None? && r.Ok? && business !in old(defaults) ==>
                r.value in locations && r.value !in old(locations) && locations[r.value] == business
      ensures var place := Resolved(old(Snapshot()), business, requested, spare);
              if place.Err? then r == Err(place.error) && Snapshot() == old(Snapshot())
              else r == Ok(place.value.1) && Snapshot() == place.value.0
    {
      if requested.Some? {
        return Ok(requested.value);
      }
      if business in defaults {
        return Ok(defaults[business]);
      }
      if spare in locations {
        return Err(Internal);
      }
      locations := locations[spare := business];
      defaults := defaults[business := spare];
      return Ok(spare);
    }

    method ApplyStockDelta(s: Spot, delta: int) returns (r: Result<int>)
      modifies this`levels
      ensures var after := AddDelta(old(levels), s, delta);
              if after.Err? then r == Err(after.error) && levels == old(levels)
              else levels == after.value && s in levels && r == Ok(levels[s])
    {
      var sum := delta;
      if s in levels {
        sum := levels[s] + delta;
      }
      if !Fits(sum) {
        return Err(Internal);
      }
      levels := levels[s := sum];
      return Ok(sum);
    }

    method ApplyNonnegativeStockDelta(s: Spot, delta: int) returns (r: Result<int>)
      modifies this`levels
      ensures var after := AddNonnegative(old(levels), s, delta);
              if after.Err? then r == Err(after.error) && levels == old(levels)
              else levels == after.value && s in levels && r == Ok(levels[s])
    {
      if delta == 0 {
        if s !in levels {
          return Err(NotFound);
        }
        return Ok(levels[s]);
      }
      if s in levels && levels[s] + delta >= 0 {
        r := ApplyStockDelta(s, delta);
        return;
      }
      if delta > 0 {
        if s in levels {
          return Err(Conflict);
        }
        r := ApplyStockDelta(s, delta);
        return;
      }
      return Err(Conflict);
    }

    method ApplyMovementEditDelta(current: Movement, edited: Movement) returns (r: Result<int>)
      modifies this`levels
      ensures var after := EditDelta(old(levels), current, edited);
              if after.Err? then r == Err(after.error)
              else levels == after.value && edited.spot in levels && r == Ok(levels[edited.spot])
    {
      if current.spot == edited.spot {
        r := ApplyNonnegativeStockDelta(current.spot, Signed(edited) - Signed(current));
      } else {
        var _ :- ApplyNonnegativeStockDelta(current.spot, -Signed(current));
        r := ApplyNonnegativeStockDelta(edited.spot, Signed(edited));
      }
    }

    /** The statements of a create, after which an error rolls everything back. */
    method Insert(e: Entry, id: Id, m: Movement) returns (r: Result<Reply>)
      requires m.key == e.key && m.spot.business == e.business
      modifies this
      ensures var after := Inserted(old(Snapshot()), id, m);
              if after.Err? then r == Err(after.error)
              else Snapshot() == after.value && m.spot in levels && r == Ok(Reply(id, m, levels[m.spot], false))
    {
      if m.spot.location !in locations || id in movements {
        return Err(Internal);
      }
      movements := movements[id := m];
      keys := keys[(e.business, e.key) := id];
      var level :- ApplyStockDelta(m.spot, Signed(m));
      return Ok(Reply(id, m, level, false));
    }

    method Create(e: Entry, id: Id, spare: Id) returns (r: Result<Reply>)
      modifies this
      ensures (Snapshot(), r) == Posted(old(Snapshot()), e, id, spare)
    {
      if !ValidQuantity(e.quantity) {
        return Err(InvalidRequest);
      }
      if e.variant !in variants || variants[e.variant] != e.business {
        return Err(NotFound);
      }
      var saved := Snapshot();
      var location :- ResolveLocation(e.business, e.location, spare);
      var m := Recorded(e, location);
      if (e.business, e.key) in keys {
        Rollback(saved);
        return Replayed(saved, saved.keys[(e.business, e.key)], m);
      }
      r := Insert(e, id, m);
      if r.Err? {
        Rollback(saved);
      }
    }

    method Overwrite(id: Id, current: Movement, edited: Movement) returns (r: Result<Reply>)
      modifies this
      ensures var after := Updated(old(Snapshot()), id, current, edited);
              if after.Err? then r == Err(after.error)
              else Snapshot() == after.value && edited.spot in levels &&
                   r == Ok(Reply(id, edited, levels[edited.spot], false))
    {
      var level :- ApplyMovementEditDelta(current, edited);
      if (edited.spot.business, edited.key) in keys {
        return Err(Conflict);
      }
      movements := movements[id := edited];
      keys := (keys - {(current.spot.business, current.key)})[(edited.spot.business, edited.key) := id];
      return Ok(Reply(id, edited, level, false));
    }

    method Update(id: Id, e: Entry) returns (r: Result<Reply>)
      modifies this
      ensures (Snapshot(), r) == Patched(old(Snapshot()), id, e)
    {
      if id !in movements || movements[id].spot.business != e.business {
        return Err(NotFound);
      }
      var current := movements[id];
      if !ValidQuantity(e.quantity) || e.variant != current.spot.variant {
        return Err(InvalidRequest);
      }
      if e.location.Some? && (e.location.value !in locations || locations[e.location.value] != e.business) {
        return Err(NotFound);
      }
      var edited := Edited(e, current);
      if e.key == current.key {
        return Replayed(Snapshot(), id, edited);
      }
      var saved := Snapshot();
      r := Overwrite(id, current, edited);
      if r.Err? {
        Rollback(saved);
      }
    }

    method Delete(id: Id, business: Id) returns (r: Result<()>)
      modifies this
      ensures (Snapshot(), r) == Removed(old(Snapshot()), id, business)
    {
      if id !in movements || movements[id].spot.business != business {
        return Err(NotFound);
      }
      var m := movements[id];
      var _ :- ApplyNonnegativeStockDelta(m.spot, -Signed(m));
      movements := movements - {id};
      keys := keys - {(m.spot.business, m.key)};
      return Ok(());
    }
  }

  const EMPTY: Tables := Tables(map[], map[], map[], map[], map[], map[])
}
