/** Keyset pages over a table that changes between requests: saved businesses and personal activity. */
module Keyset {
  import opened Prelude
  import opened Records

  /** A row's position: creation instant, then identifier, then module (appointments before preorders). */
  datatype Key = Key(at: Instant, id: Id, module_: nat)

  datatype Page = Page(keys: seq<Key>, next: Option<Key>)

  const MAX_LIMIT: int := 100

  predicate Less(a: Key, b: Key) {
    a.at < b.at || (a.at == b.at && (a.id < b.id || (a.id == b.id && a.module_ < b.module_)))
  }

  predicate Under(k: Key, cursor: Option<Key>) {
    cursor.None? || Less(k, cursor.value)
  }

  predicate Descending(s: seq<Key>) {
    forall i, j :: 0 <= i < j < |s| ==> Less(s[j], s[i])
  }

  /** The answer of the query: the first n keys under the cursor, newest first. */
  ghost predicate IsTop(rows: seq<Key>, table: set<Key>, cursor: Option<Key>, n: int) {
    && Descending(rows) && |rows| <= n
    && (forall i :: 0 <= i < |rows| ==> rows[i] in table && Under(rows[i], cursor))
    && (forall k :: k in table && Under(k, cursor) ==>
          k in rows || (|rows| == n && forall i :: 0 <= i < |rows| ==> Less(k, rows[i])))
  }

  /** One more row than asked for tells whether there is a next page. */
  function PageOf(rows: seq<Key>, limit: int): Page
    requires limit >= 1
  {
    if |rows| > limit then Page(rows[..limit], Some(rows[limit - 1])) else Page(rows, None)
  }

  /** Truncates the rows and appends them to the page one by one. */
  method List(rows: seq<Key>, limit: int) returns (r: Result<Page>)
    ensures limit < 1 || 100 < limit <==> r == Err(InvalidRequest)
    ensures 1 <= limit <= 100 ==>
              r.Ok? && r.value.keys == (if |rows| > limit then rows[..limit] else rows) &&
              r.value.next == (if |rows| > limit then Some(rows[limit - 1]) else None) && r.value == PageOf(rows, limit)
  {
    if limit < 1 || limit > MAX_LIMIT {
      return Err(InvalidRequest);
    }
    var kept, next := rows, None;
    if |rows| > limit {
      next := Some(rows[limit - 1]);
      kept := rows[..limit];
    }
    var keys: seq<Key> := [];
    for i := 0 to |kept|
      invariant keys == kept[..i]
    {
      keys := keys + [kept[i]];
    }
    assert kept[..|kept|] == kept;
    return Ok(Page(keys, next));
  }

  /** Personal activity projects each row's status as of now, as a single record's page does. */
  method Activity(rows: seq<(Key, Record)>, limit: int, now: Instant) returns (r: Result<seq<(Key, Status)>>)
    ensures r.Ok? <==> 1 <= limit <= 100
    ensures r.Ok? ==>
              && |r.value| == (if |rows| > limit then limit else |rows|)
              && forall i :: 0 <= i < |r.value| ==> r.value[i] == (rows[i].0, Shown(rows[i].1, now))
  {
    if limit < 1 || limit > MAX_LIMIT {
      return Err(InvalidRequest);
    }
    var kept := if |rows| > limit then rows[..limit] else rows;
    var items: seq<(Key, Status)> := [];
    for i := 0 to |kept|
      invariant |items| == i
      invariant forall j :: 0 <= j < i ==> items[j] == (kept[j].0, Shown(kept[j].1, now))
    {
      var status := kept[i].1.status;
      if status.Requested? && !(now < kept[i].1.expiresAt) {
        status := Expired;
      }
      items := items + [(kept[i].0, status)];
    }
    return Ok(items);
  }

  // ----- The saved businesses of one user -----

  ghost function KeysOf(rows: map<Id, Instant>): set<Key> {
    set id | id in rows :: Key(rows[id], id, 0)
  }

  lemma KeysAfterSave(rows: map<Id, Instant>, business: Id, now: Instant)
    requires business !in rows
    ensures KeysOf(rows[business := now]) == KeysOf(rows) + {Key(now, business, 0)}
  {
    var after := rows[business := now];
    forall k | k in KeysOf(rows) + {Key(now, business, 0)}
      ensures k in KeysOf(after)
    {
      assert k.id in after && Key(after[k.id], k.id, 0) == k;
    }
  }

  lemma KeysAfterRemove(rows: map<Id, Instant>, business: Id)
    ensures KeysOf(rows - {business}) == set k | k in KeysOf(rows) && k.id != business
  {
    var after := rows - {business};
    forall k | k in KeysOf(rows) && k.id != business
      ensures k in KeysOf(after)
    {
      assert k.id in after && Key(after[k.id], k.id, 0) == k;
    }
  }

  class Saved {
    var rows: map<Id, Instant>

    ghost function Table(): set<Key>
      reads this
    {
      KeysOf(rows)
    }

    constructor ()
      ensures Table() == {}
    {
      rows := map[];
    }

    /** Saving an active business; one that is saved already keeps its place in the list. */
    method Save(business: Id, active: bool, now: Instant) returns (r: Result<()>)
      modifies this
      ensures r.Ok? <==> active
      ensures rows == if active && business !in old(rows) then old(rows)[business := now] else old(rows)
      ensures Table() == old(Table()) + (if active && business !in old(rows) then {Key(now, business, 0)} else {})
    {
      if !active {
        return Err(NotFound);
      }
      if business !in rows {
        KeysAfterSave(rows, business, now);
        rows := rows[business := now];
      }
      return Ok(());
    }

    method Remove(business: Id)
      modifies this
      ensures rows == old(rows) - {business}
      ensures Table() == set k | k in old(Table()) && k.id != business
    {
      KeysAfterRemove(rows, business);
      rows := rows - {business};
    }
  }

  // ----- One page -----

  lemma LessIsTotal(a: Key, b: Key, c: Key)
    ensures a == b || Less(a, b) || Less(b, a)
    ensures !(Less(a, b) && Less(b, a)) && !Less(a, a)
    ensures Less(a, b) && Less(b, c) ==> Less(a, c)
  {
  }

  /** Main result: the cursor is null exactly when nothing is left below the page. */
  lemma NullCursorExactly(rows: seq<Key>, table: set<Key>, cursor: Option<Key>, limit: int)
    requires limit >= 1 && IsTop(rows, table, cursor, limit + 1)
    ensures var page := PageOf(rows, limit);
            page.next.None? <==> forall k :: k in table && Under(k, cursor) ==> k in page.keys
  {
    if |rows| > limit {
      var left := rows[limit];
      assert left in table && Under(left, cursor);
      forall i | 0 <= i < limit
        ensures rows[i] != left
      {
        assert Less(left, rows[i]);
      }
    }
  }

  lemma PageCovers(rows: seq<Key>, table: set<Key>, cursor: Option<Key>, limit: int, k: Key)
    requires limit >= 1 && IsTop(rows, table, cursor, limit + 1) && k in table && Under(k, cursor)
    ensures var page := PageOf(rows, limit);
            k in page.keys || (page.next.Some? && Less(k, page.next.value))
  {
    if k in rows {
      var i :| 0 <= i < |rows| && rows[i] == k;
      if i < limit {
        assert |rows| > limit ==> rows[..limit][i] == k;
      } else {
        assert Less(rows[i], rows[limit - 1]);
      }
    }
  }

  // ----- A walk over many pages -----

  /** One request of the walk: the table it met, the limit it asked for, and the rows it got. */
  datatype Visit = Visit(table: set<Key>, limit: int, rows: seq<Key>)

  function Got(v: Visit): Page
    requires v.limit >= 1
  {
    PageOf(v.rows, v.limit)
  }

  /** Each request follows the cursor of the one before; between requests the table may change freely. */
  ghost predicate Walk(visits: seq<Visit>) {
    visits == [] ||
    (var n := |visits| - 1;
     && Walk(visits[..n]) && 1 <= visits[n].limit <= MAX_LIMIT
     && (n > 0 ==> visits[n - 1].limit >= 1 && Got(visits[n - 1]).next.Some?)
     && IsTop(visits[n].rows, visits[n].table, if n > 0 then Got(visits[n - 1]).next else None, visits[n].limit + 1))
  }

  ghost function Seen(visits: seq<Visit>): seq<Key>
    requires Walk(visits)
  {
    if visits == [] then [] else Seen(visits[..|visits| - 1]) + Got(visits[|visits| - 1]).keys
  }

  /** The next cursor is the last key seen. */
  lemma CursorIsLast(visits: seq<Visit>)
    requires Walk(visits) && visits != [] && Got(visits[|visits| - 1]).next.Some?
    ensures var seen := Seen(visits);
            seen != [] && seen[|seen| - 1] == Got(visits[|visits| - 1]).next.value
  {
    hide IsTop;
    var before, v := Seen(visits[..|visits| - 1]), visits[|visits| - 1];
    var page := v.rows[..v.limit];
    assert Seen(visits) == before + page;
    assert (before + page)[|before| + v.limit - 1] == page[v.limit - 1];
  }

  /** Main result: across all pages rows come newest first, ties by the higher identifier, then preorders before
      appointments; so no row is listed twice. */
  lemma WalkIsNewestFirst(visits: seq<Visit>, i: nat, j: nat)
    requires Walk(visits) && i < j < |Seen(visits)|
    ensures var x, y := Seen(visits)[i], Seen(visits)[j];
            && y.at <= x.at && (y.at == x.at ==> y.id <= x.id) &&
               (y.at == x.at && y.id == x.id ==> y.module_ < x.module_)
            && x != y
  {
    WalkDescends(visits);
  }

  /** The keys strictly descend. */
  lemma {:induction false} WalkDescends(visits: seq<Visit>)
    requires Walk(visits)
    ensures Descending(Seen(visits))
  {
    if visits != [] {
      var n := |visits| - 1;
      WalkDescends(visits[..n]);
      var before, page := Seen(visits[..n]), Got(visits[n]).keys;
      assert Descending(page);
      if n > 0 {
        assert visits[..n][n - 1] == visits[n - 1];
        CursorIsLast(visits[..n]);
        Chained(before, page);
      }
    }
  }

  lemma Chained(before: seq<Key>, page: seq<Key>)
    requires Descending(before) && Descending(page) && before != []
    requires forall i :: 0 <= i < |page| ==> Less(page[i], before[|before| - 1])
    ensures Descending(before + page)
  {
    var all, last := before + page, before[|before| - 1];
    forall i, j | 0 <= i < j < |all|
      ensures Less(all[j], all[i])
    {
      if i < |before| <= j {
        assert i == |before| - 1 || Less(last, before[i]);
        LessIsTotal(all[j], last, all[i]);
      }
    }
  }

  /** Whatever stayed in the table all along has been seen or lies below the cursor. */
  lemma {:induction false} NothingIsSkipped(visits: seq<Visit>, k: Key)
    requires Walk(visits) && visits != [] && forall i :: 0 <= i < |visits| ==> k in visits[i].table
    ensures var next := Got(visits[|visits| - 1]).next;
            k in Seen(visits) || (next.Some? && Less(k, next.value))
  {
    var n := |visits| - 1;
    if n > 0 {
      NothingIsSkipped(visits[..n], k);
      assert visits[..n][n - 1] == visits[n - 1];
    }
    if n == 0 || k !in Seen(visits[..n]) {
      PageCovers(visits[n].rows, visits[n].table, if n > 0 then Got(visits[n - 1]).next else None, visits[n].limit, k);
    }
  }

  /** Main result: a walk followed to its end lists every row that was there throughout exactly once,
      whatever else was inserted or deleted meanwhile, and whatever limits were asked for. */
  lemma WalkIsComplete(visits: seq<Visit>, k: Key)
    requires Walk(visits) && visits != [] && Got(visits[|visits| - 1]).next.None?
    requires forall i :: 0 <= i < |visits| ==> k in visits[i].table
    ensures exists i :: 0 <= i < |Seen(visits)| && Seen(visits)[i] == k
    ensures forall i, j ::
              0 <= i < |Seen(visits)| && 0 <= j < |Seen(visits)| && Seen(visits)[i] == k == Seen(visits)[j] ==> i == j
  {
    NothingIsSkipped(visits, k);
    WalkDescends(visits);
  }

  // ----- Walks end -----

  lemma {:induction false} DescendingFits(s: seq<Key>, table: set<Key>)
    requires Descending(s) && forall i :: 0 <= i < |s| ==> s[i] in table
    ensures |s| <= |table|
  {
    if s != [] {
      var n := |s| - 1;
      assert forall i :: 0 <= i < n ==> s[i] != s[n] by {
        forall i | 0 <= i < n
          ensures s[i] != s[n]
        {
          LessIsTotal(s[n], s[i], s[i]);
        }
      }
      DescendingFits(s[..n], table - {s[n]});
    }
  }

  /** The pool holds every row, of whichever table the walk met, that is not above the first key it listed. */
  ghost predicate Pools(visits: seq<Visit>, pool: set<Key>)
    requires visits != [] && visits[0].rows != []
  {
    forall i, k :: 0 <= i < |visits| && k in visits[i].table && !Less(visits[0].rows[0], k) ==> k in pool
  }

  lemma {:induction false} SeenWasThere(visits: seq<Visit>, j: nat) returns (i: nat)
    requires Walk(visits) && j < |Seen(visits)|
    ensures i < |visits| && Seen(visits)[j] in visits[i].table
  {
    var n := |visits| - 1;
    var before := Seen(visits[..n]);
    if j < |before| {
      i := SeenWasThere(visits[..n], j);
    } else {
      i := n;
      assert Seen(visits)[j] == Got(visits[n]).keys[j - |before|];
    }
  }

  lemma {:induction false} FirstSeen(visits: seq<Visit>)
    requires Walk(visits) && visits != [] && visits[0].rows != []
    ensures Seen(visits) != [] && Seen(visits)[0] == visits[0].rows[0]
  {
    hide IsTop;
    var n := |visits| - 1;
    if n > 0 {
      FirstSeen(visits[..n]);
    } else {
      assert Seen(visits[..0]) == [];
    }
  }

  lemma SeenFromPool(visits: seq<Visit>, pool: set<Key>)
    requires Walk(visits) && visits != [] && visits[0].rows != [] && Pools(visits, pool)
    ensures forall j :: 0 <= j < |Seen(visits)| ==> Seen(visits)[j] in pool
  {
    hide Walk, Seen;
    WalkDescends(visits);
    FirstSeen(visits);
    forall j | 0 <= j < |Seen(visits)|
      ensures Seen(visits)[j] in pool
    {
      var i := SeenWasThere(visits, j);
      LessIsTotal(Seen(visits)[j], Seen(visits)[0], Seen(visits)[0]);
    }
  }

  /** Every page but the last has at least one key. */
  lemma {:induction false} PagesAreFull(visits: seq<Visit>)
    requires Walk(visits)
    ensures |Seen(visits)| >= |visits| - 1
    ensures visits != [] && Got(visits[|visits| - 1]).next.Some? ==> |Seen(visits)| >= |visits|
  {
    hide IsTop;
    if visits != [] {
      var n := |visits| - 1;
      PagesAreFull(visits[..n]);
      assert n > 0 ==> visits[..n][n - 1] == visits[n - 1];
    }
  }

  /** Main result: a walk of more than one page has at most one page per row of any pool of the rows it could
      still reach. Rows may be deleted meanwhile, and any rows inserted above the first listed key. */
  lemma WalkEnds(visits: seq<Visit>, pool: set<Key>)
    requires Walk(visits) && visits != [] && (visits[0].rows != [] ==> Pools(visits, pool))
    ensures |visits| <= 1 || |visits| <= |pool|
  {
    hide Walk, IsTop, Seen, Got, Less;
    if |visits| > 1 {
      var before := visits[..|visits| - 1];
      FirstPageIsFull(visits);
      assert Pools(before, pool);
      var left := MoreToCome(visits);
      PagesAreFull(before);
      WalkDescends(before);
      SeenFromPool(before, pool);
      CursorIsLast(before);
      Chained(Seen(before), [left]);
      LeftIsReachable(before, left);
      assert left in before[|before| - 1].table;
      DescendingFits(Seen(before) + [left], pool);
    }
  }

  lemma FirstPageIsFull(visits: seq<Visit>)
    requires Walk(visits) && |visits| > 1
    ensures visits[0].rows != []
    decreases |visits|
  {
    var n := |visits| - 1;
    if n > 1 {
      FirstPageIsFull(visits[..n]);
    }
  }

  lemma LeftIsReachable(visits: seq<Visit>, left: Key)
    requires Walk(visits) && visits != [] && visits[0].rows != [] && Seen(visits) != []
    requires Descending(Seen(visits) + [left])
    ensures !Less(visits[0].rows[0], left)
  {
    hide Walk, Seen;
    FirstSeen(visits);
    var all := Seen(visits) + [left];
    assert Less(all[|all| - 1], all[0]);
    LessIsTotal(left, all[0], left);
  }

  /** So on a table in which nothing is inserted below the first listed key it ends within one page per row
      of the table it started from. */
  lemma WalkEndsOnShrinkingTable(visits: seq<Visit>)
    requires Walk(visits) && visits != []
    requires forall i, k :: 0 <= i < |visits| && k in visits[i].table && visits[0].rows != [] &&
                            !Less(visits[0].rows[0], k) ==>
                            k in visits[0].table
    ensures |visits| <= 1 || |visits| <= |visits[0].table|
  {
    WalkEnds(visits, visits[0].table);
  }

  /** A walk that goes on after its last-but-one page has a row of that page's table left below the cursor. */
  lemma MoreToCome(visits: seq<Visit>) returns (left: Key)
    requires Walk(visits) && |visits| > 1
    ensures var before := visits[..|visits| - 1]; var last := before[|before| - 1];
            && Walk(before) && last.limit >= 1 && Got(last).next.Some?
            && left in last.table && Less(left, Got(last).next.value)
  {
    var n := |visits| - 1;
    var before, last := visits[..n], visits[n - 1];
    assert before[n - 1] == last;
    left := last.rows[last.limit];
    OneIsLeft(last.rows, last.table, if n > 1 then Got(before[..n - 1][n - 2]).next else None, last.limit);
  }

  lemma OneIsLeft(rows: seq<Key>, table: set<Key>, cursor: Option<Key>, limit: int)
    requires limit >= 1 && IsTop(rows, table, cursor, limit + 1) && PageOf(rows, limit).next.Some?
    ensures |rows| > limit && rows[limit] in table && Less(rows[limit], rows[limit - 1])
  {
  }
}
