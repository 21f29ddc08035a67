/** Walking through the items without a photo while photos are being added
    (backend/internal/catalog/menu_nophoto.go). The rank of an item is its place in the database's order of
    section name, item name and id; no two items share one. */
module NoPhoto {
  import opened Common

  /** A uuid, as text. */
  type Id = string

  datatype ItemRow = ItemRow(rank: int, photo: bool)

  type Rows = map<Id, ItemRow>

  /** The rows of a page's query: without a photo, and behind the cursor. A cursor that is not a row compares
      with nothing, so nothing is behind it. */
  function Behind(rows: Rows, after: Option<Id>): (ids: set<Id>)
    ensures ids <= rows.Keys
  {
    set id | id in rows && !rows[id].photo &&
             (after.None? || (after.value in rows && rows[id].rank > rows[after.value].rank))
  }

  function PageLimit(limit: int): (n: int)
    ensures 1 <= n <= 200
  {
    if limit <= 0 || limit > 200 then 50 else limit
  }

  /** The answer of the query: the first `limit` rows behind the cursor, in order. */
  ghost predicate IsPage(rows: Rows, after: Option<Id>, limit: int, page: seq<Id>) {
    && |page| <= limit
    && (forall i :: 0 <= i < |page| ==> page[i] in Behind(rows, after))
    && (forall i, j :: 0 <= i < j < |page| ==> rows[page[i]].rank < rows[page[j]].rank)
    && (forall id :: id in Behind(rows, after) && id !in page ==>
          |page| == limit && forall i :: 0 <= i < |page| ==> rows[page[i]].rank < rows[id].rank)
  }

  /** The cursor of the next page; none when the page is not full. */
  function NextAfter(page: seq<Id>, limit: int): Option<Id> {
    if |page| > 0 && |page| == limit then Some(page[|page| - 1]) else None
  }

  /** No two items have the same place in the order. */
  predicate DistinctRanks(rows: Rows) {
    forall x, y :: x in rows && y in rows && x != y ==> rows[x].rank != rows[y].rank
  }

  /** The first of some rows in the order. */
  method First(rows: Rows, ids: set<Id>) returns (id: Id)
    requires ids <= rows.Keys && |ids| > 0
    ensures id in ids && forall x :: x in ids ==> rows[id].rank <= rows[x].rank
  {
    id :| id in ids;
    var rest := ids - {id};
    while |rest| > 0
      invariant id in ids && rest <= ids
      invariant forall x :: x in ids && x !in rest ==> rows[id].rank <= rows[x].rank
      decreases |rest|
    {
      var x :| x in rest;
      if rows[x].rank < rows[id].rank {
        id := x;
      }
      rest := rest - {x};
    }
  }

  /** The rows behind the cursor are the items taken, in order, and the rest, all behind them. */
  ghost predicate Taken(rows: Rows, after: Option<Id>, items: seq<Id>, rest: set<Id>) {
    && rest <= Behind(rows, after)
    && (forall i :: 0 <= i < |items| ==> items[i] in Behind(rows, after) && items[i] !in rest)
    && (forall i, j :: 0 <= i < j < |items| ==> rows[items[i]].rank < rows[items[j]].rank)
    && (forall id :: id in Behind(rows, after) && id !in items ==> id in rest)
    && (forall i, id :: 0 <= i < |items| && id in rest ==> rows[items[i]].rank < rows[id].rank)
  }

  lemma TakeFirst(rows: Rows, after: Option<Id>, items: seq<Id>, rest: set<Id>, id: Id)
    requires DistinctRanks(rows) && Taken(rows, after, items, rest)
    requires id in rest && forall x :: x in rest ==> rows[id].rank <= rows[x].rank
    ensures Taken(rows, after, items + [id], rest - {id})
  {
    hide Behind;
  }

  /** The page's query. */
  method FirstRows(rows: Rows, after: Option<Id>, limit: int) returns (items: seq<Id>)
    requires DistinctRanks(rows) && limit >= 1
    ensures IsPage(rows, after, limit, items)
  {
    hide Taken, Behind, DistinctRanks;
    items := [];
    var rest := Behind(rows, after);
    assert Taken(rows, after, [], rest) by {
      NothingTaken(rows, after);
    }
    while |rest| > 0 && |items| < limit
      invariant |items| <= limit && Taken(rows, after, items, rest)
      decreases |rest|
    {
      RestIsThere(rows, after, items, rest);
      var id := First(rows, rest);
      TakeFirst(rows, after, items, rest, id);
      items := items + [id];
      rest := rest - {id};
    }
    TakenIsPage(rows, after, limit, items, rest);
  }

  lemma NothingTaken(rows: Rows, after: Option<Id>)
    ensures Taken(rows, after, [], Behind(rows, after))
  {
  }

  lemma RestIsThere(rows: Rows, after: Option<Id>, items: seq<Id>, rest: set<Id>)
    requires Taken(rows, after, items, rest)
    ensures rest <= rows.Keys
  {
  }

  lemma TakenIsPage(rows: Rows, after: Option<Id>, limit: int, items: seq<Id>, rest: set<Id>)
    requires Taken(rows, after, items, rest) && |items| <= limit && (rest == {} || |items| == limit)
    ensures IsPage(rows, after, limit, items)
  {
    hide Behind;
  }

  /** A page is no longer than the whole list. */
  lemma ItemsAreFew(rows: Rows, after: Option<Id>, limit: int, items: seq<Id>)
    requires IsPage(rows, after, limit, items)
    ensures |items| <= |Behind(rows, None)|
  {
    var all := Behind(rows, None);
    assert forall i :: 0 <= i < |items| ==> items[i] in Behind(rows, after) && items[i] in all;
    for i := 0 to |items|
      invariant |all| == |Behind(rows, None)| - i && forall j :: i <= j < |items| ==> items[j] in all
    {
      all := all - {items[i]};
    }
  }

  /** The page and its next cursor, row by row: the items without a photo after the cursor and up to the next one, in
      order, at most `most` of them, and just so many when there is a next one. */
  ghost predicate PageShows(rows: Rows, after: Option<Id>, most: int, items: seq<Id>, nextAfter: Option<Id>)
    requires most >= 1
  {
    && (forall x :: x in rows ==> (x in items <==>
          && !rows[x].photo
          && (after.Some? ==> after.value in rows && rows[after.value].rank < rows[x].rank)
          && (nextAfter.Some? ==> nextAfter.value in rows && rows[x].rank <= rows[nextAfter.value].rank)))
    && (forall i :: 0 <= i < |items| ==> items[i] in rows)
    && (forall i, j :: 0 <= i < j < |items| ==> rows[items[i]].rank < rows[items[j]].rank)
    && |items| <= most
    && (nextAfter.Some? <==> |items| == most)
    && (nextAfter.Some? ==> items[most - 1] == nextAfter.value)
  }

  lemma PageIsShown(rows: Rows, after: Option<Id>, most: int, items: seq<Id>)
    requires IsPage(rows, after, most, items) && most >= 1
    ensures PageShows(rows, after, most, items, NextAfter(items, most))
  {
    assert forall i :: 0 <= i < |items| ==> items[i] in Behind(rows, after);
    forall x | x in items
      ensures x in Behind(rows, after) && (|items| == most ==> rows[x].rank <= rows[items[most - 1]].rank)
    {
      var i :| 0 <= i < |items| && items[i] == x;
      if |items| == most && i < most - 1 {
        assert rows[items[i]].rank < rows[items[most - 1]].rank;
      }
    }
    forall x | x in Behind(rows, after) && x !in items
      ensures |items| == most && rows[items[most - 1]].rank < rows[x].rank
    {
    }
  }

  /** ListNoPhotoItems: 50 items unless the limit is one from 1 to 200. */
  method ListNoPhotoItems(rows: Rows, after: Option<Id>, limit: int)
    returns (items: seq<Id>, total: nat, nextAfter: Option<Id>)
    requires DistinctRanks(rows)
    ensures IsPage(rows, after, PageLimit(limit), items) && nextAfter == NextAfter(items, PageLimit(limit))
    ensures PageShows(rows, after, if 1 <= limit <= 200 then limit else 50, items, nextAfter)
    ensures |items| <= total && total == |set x | x in rows && !rows[x].photo|
  {
    hide IsPage, Behind, DistinctRanks;
    var most := limit;
    if most <= 0 || most > 200 {
      most := 50;
    }
    total := |Behind(rows, None)|;
    items := FirstRows(rows, after, most);
    var n := |items|;
    nextAfter := None;
    if n > 0 && n == most {
      nextAfter := Some(items[n - 1]);
    }
    ItemsAreFew(rows, after, most, items);
    PageIsShown(rows, after, most, items);
    AllWithoutPhoto(rows);
  }

  lemma AllWithoutPhoto(rows: Rows)
    ensures Behind(rows, None) == set x | x in rows && !rows[x].photo
  {
  }

  // ---------------------------------------------------------------------------------------
  // A whole walk
  // ---------------------------------------------------------------------------------------

  /** The cursor page k is asked from. */
  function Cursor(first: Option<Id>, pages: seq<seq<Id>>, limit: int, k: nat): Option<Id>
    requires k <= |pages|
  {
    if k == 0 then first else NextAfter(pages[k - 1], limit)
  }

  /** Page k is asked of the rows as they are then, from the cursor of page k - 1. */
  ghost predicate Started(first: Option<Id>, worlds: seq<Rows>, pages: seq<seq<Id>>, limit: int) {
    && 1 <= |pages| == |worlds| && limit >= 1
    && (forall k :: 0 <= k < |pages| ==> IsPage(worlds[k], Cursor(first, pages, limit, k), limit, pages[k]))
    && (forall k :: 1 <= k < |pages| ==> Cursor(first, pages, limit, k).Some?)
  }

  /** A walk to the end: the last page has no cursor. */
  ghost predicate Walk(first: Option<Id>, worlds: seq<Rows>, pages: seq<seq<Id>>, limit: int) {
    Started(first, worlds, pages, limit) && Cursor(first, pages, limit, |pages|).None?
  }

  /** The cursor of page k is still a row with the same name and section when the page is asked for. */
  ghost predicate CursorStays(first: Option<Id>, worlds: seq<Rows>, pages: seq<seq<Id>>, limit: int, k: int)
    requires 1 <= k < |pages| == |worlds|
  {
    var c := Cursor(first, pages, limit, k);
    c.Some? ==>
      && c.value in worlds[k - 1] && c.value in worlds[k]
      && worlds[k][c.value].rank == worlds[k - 1][c.value].rank
  }

  ghost predicate CursorsStay(first: Option<Id>, worlds: seq<Rows>, pages: seq<seq<Id>>, limit: int)
    requires |pages| == |worlds|
  {
    forall k :: 1 <= k < |pages| ==> CursorStays(first, worlds, pages, limit, k)
  }

  /** The item is there, without a photo and with the same name and section, at every page. */
  ghost predicate Steady(worlds: seq<Rows>, x: Id, rank: int) {
    forall k :: 0 <= k < |worlds| ==> x in worlds[k] && worlds[k][x] == ItemRow(rank, false)
  }

  /** The last item of a full page is the next cursor. */
  lemma CursorIsLast(first: Option<Id>, worlds: seq<Rows>, pages: seq<seq<Id>>, limit: int, k: nat)
    requires Started(first, worlds, pages, limit) && k + 1 < |pages|
    ensures |pages[k]| == limit && Cursor(first, pages, limit, k + 1) == Some(pages[k][limit - 1])
    ensures pages[k][limit - 1] in worlds[k]
    ensures CursorStays(first, worlds, pages, limit, k + 1) ==>
              var c := pages[k][limit - 1];
              c in worlds[k + 1] && worlds[k + 1][c].rank == worlds[k][c].rank
  {
    hide IsPage;
    assert Cursor(first, pages, limit, k + 1).Some?;
    PageItem(first, worlds, pages, limit, k, limit - 1);
  }

  lemma PageItem(first: Option<Id>, worlds: seq<Rows>, pages: seq<seq<Id>>, limit: int, k: nat, i: nat)
    requires Started(first, worlds, pages, limit) && k < |pages| && i < |pages[k]|
    ensures pages[k][i] in worlds[k] && pages[k][i] in Behind(worlds[k], Cursor(first, pages, limit, k))
    ensures |pages[k]| == limit ==>
              pages[k][limit - 1] in worlds[k] && worlds[k][pages[k][i]].rank <= worlds[k][pages[k][limit - 1]].rank
  {
    hide NextAfter;
    assert IsPage(worlds[k], Cursor(first, pages, limit, k), limit, pages[k]);
    if |pages[k]| == limit {
      assert pages[k][limit - 1] in Behind(worlds[k], Cursor(first, pages, limit, k));
    }
  }

  /** Items come in order: within a page and from page to page. */
  lemma {:induction false} PagesAscend(
    first: Option<Id>, worlds: seq<Rows>, pages: seq<seq<Id>>, limit: int, k: nat, i: nat, l: nat, j: nat)
    requires Started(first, worlds, pages, limit) && CursorsStay(first, worlds, pages, limit)
    requires k < l < |pages| && i < |pages[k]| && j < |pages[l]|
    ensures pages[k][i] in worlds[k] && pages[l][j] in worlds[l]
    ensures worlds[k][pages[k][i]].rank < worlds[l][pages[l][j]].rank
    decreases l
  {
    hide NextAfter, IsPage, CursorStays;
    assert CursorStays(first, worlds, pages, limit, l);
    CursorIsLast(first, worlds, pages, limit, l - 1);
    PageItem(first, worlds, pages, limit, l, j);
    PageItem(first, worlds, pages, limit, k, i);
    PageItem(first, worlds, pages, limit, l - 1, limit - 1);
    if k < l - 1 {
      PagesAscend(first, worlds, pages, limit, k, i, l - 1, limit - 1);
    }
  }

  /** What a page shows and what it leaves for the next: a steady item behind its cursor is on it or behind its
      last item. */
  lemma OnPageOrBehind(first: Option<Id>, worlds: seq<Rows>, pages: seq<seq<Id>>, limit: int, x: Id, k: nat)
    requires Started(first, worlds, pages, limit) && k < |pages|
    requires x in Behind(worlds[k], Cursor(first, pages, limit, k)) && x !in pages[k]
    ensures |pages[k]| == limit && pages[k][limit - 1] in worlds[k]
    ensures worlds[k][pages[k][limit - 1]].rank < worlds[k][x].rank
  {
    hide NextAfter;
    assert IsPage(worlds[k], Cursor(first, pages, limit, k), limit, pages[k]);
    PageItem(first, worlds, pages, limit, k, limit - 1);
  }

  /** A steady item behind the first cursor and not shown so far is behind the next cursor. */
  lemma {:induction false} StillBehind(
    first: Option<Id>, worlds: seq<Rows>, pages: seq<seq<Id>>, limit: int, x: Id, rank: int, k: nat)
    requires Started(first, worlds, pages, limit) && CursorsStay(first, worlds, pages, limit) && Steady(worlds, x, rank)
    requires x in Behind(worlds[0], first)
    requires k < |pages| && forall m :: 0 <= m < k ==> x !in pages[m]
    ensures x in Behind(worlds[k], Cursor(first, pages, limit, k))
  {
    hide NextAfter, IsPage, CursorStays;
    if k > 0 {
      StillBehind(first, worlds, pages, limit, x, rank, k - 1);
      assert CursorStays(first, worlds, pages, limit, k);
      CursorIsLast(first, worlds, pages, limit, k - 1);
      OnPageOrBehind(first, worlds, pages, limit, x, k - 1);
    }
  }

  ghost predicate Shows(pages: seq<seq<Id>>, x: Id) {
    exists k :: 0 <= k < |pages| && x in pages[k]
  }

  /** What is shown was behind the first cursor when the walk began. */
  lemma ShownIsBehind(
    first: Option<Id>, worlds: seq<Rows>, pages: seq<seq<Id>>, limit: int, x: Id, rank: int, k: nat, i: nat)
    requires Started(first, worlds, pages, limit) && CursorsStay(first, worlds, pages, limit) && Steady(worlds, x, rank)
    requires IsShown(pages, x, k, i)
    ensures x in Behind(worlds[0], first)
  {
    hide NextAfter, IsPage;
    PageItem(first, worlds, pages, limit, k, i);
    if k > 0 {
      CursorIsLast(first, worlds, pages, limit, 0);
      PagesAscend(first, worlds, pages, limit, 0, 0, k, i);
      PageItem(first, worlds, pages, limit, 0, 0);
    }
  }

  /** A walk from any cursor, to its end, shows the steady items behind the cursor and no other steady item. */
  lemma WalkShows(first: Option<Id>, worlds: seq<Rows>, pages: seq<seq<Id>>, limit: int, x: Id, rank: int)
    requires Walk(first, worlds, pages, limit) && CursorsStay(first, worlds, pages, limit) && Steady(worlds, x, rank)
    ensures Shows(pages, x) <==> x in Behind(worlds[0], first)
  {
    hide IsPage, Behind, CursorsStay, Steady;
    if k, i :| IsShown(pages, x, k, i) {
      ShownIsBehind(first, worlds, pages, limit, x, rank, k, i);
      assert x in pages[k];
    } else {
      NotShown(pages, x);
      if x in Behind(worlds[0], first) {
        StillBehind(first, worlds, pages, limit, x, rank, |pages| - 1);
        OnPageOrBehind(first, worlds, pages, limit, x, |pages| - 1);
      }
    }
  }

  /** What a page before the last shows is not behind the last page's last item. */
  lemma ShownIsBefore(
    first: Option<Id>, worlds: seq<Rows>, pages: seq<seq<Id>>, limit: int, k: nat, i: nat, last: nat)
    requires k <= last && last + 1 == |pages| == |worlds| && i < |pages[k]| && |pages[last]| == limit >= 1
    requires Started(first, worlds, pages, limit) && CursorsStay(first, worlds, pages, limit)
    ensures pages[k][i] in worlds[k]
    ensures pages[last][limit - 1] in worlds[last]
    ensures worlds[k][pages[k][i]].rank <= worlds[last][pages[last][limit - 1]].rank
  {
    hide IsPage, CursorsStay;
    PageItem(first, worlds, pages, limit, last, limit - 1);
    if k < last {
      PagesAscend(first, worlds, pages, limit, k, i, last, limit - 1);
    } else {
      PageItem(first, worlds, pages, limit, k, i);
    }
  }

  lemma NextIsLastItem(first: Option<Id>, worlds: seq<Rows>, pages: seq<seq<Id>>, limit: int)
    requires Started(first, worlds, pages, limit) && Cursor(first, pages, limit, |pages|).Some?
    ensures |pages| > 0 && |pages[|pages| - 1]| == limit >= 1 && |worlds| == |pages|
    ensures Cursor(first, pages, limit, |pages|).value == pages[|pages| - 1][limit - 1]
  {
    hide IsPage;
  }

  lemma SteadyAt(worlds: seq<Rows>, x: Id, rank: int, k: nat)
    requires Steady(worlds, x, rank) && k < |worlds|
    ensures x in worlds[k] && worlds[k][x].rank == rank
  {
  }

  /** The pages up to a cursor show the steady items behind the first cursor as far as the cursor. */
  lemma StartShows(first: Option<Id>, worlds: seq<Rows>, pages: seq<seq<Id>>, limit: int, x: Id, rank: int)
    requires Started(first, worlds, pages, limit) && CursorsStay(first, worlds, pages, limit) && Steady(worlds, x, rank)
    requires Cursor(first, pages, limit, |pages|).Some?
    ensures |worlds| == |pages| > 0 && Cursor(first, pages, limit, |pages|).value in worlds[|pages| - 1]
    ensures Shows(pages, x) <==>
            x in Behind(worlds[0], first) &&
                rank <= worlds[|pages| - 1][Cursor(first, pages, limit, |pages|).value].rank
  {
    hide Started, IsPage, Behind, CursorsStay, Steady, Cursor;
    NextIsLastItem(first, worlds, pages, limit);
    var last := |pages| - 1;
    ShownIsBefore(first, worlds, pages, limit, last, limit - 1, last);
    if k, i :| IsShown(pages, x, k, i) {
      ShownIsBehind(first, worlds, pages, limit, x, rank, k, i);
      assert x in pages[k];
      ShownIsBefore(first, worlds, pages, limit, k, i, last);
      SteadyAt(worlds, x, rank, k);
    } else {
      NotShown(pages, x);
      if x in Behind(worlds[0], first) {
        StillBehind(first, worlds, pages, limit, x, rank, last);
        OnPageOrBehind(first, worlds, pages, limit, x, last);
        SteadyAt(worlds, x, rank, last);
      }
    }
  }

  lemma NotShown(pages: seq<seq<Id>>, x: Id)
    requires !exists k, i :: IsShown(pages, x, k, i)
    ensures !Shows(pages, x) && forall k :: 0 <= k < |pages| ==> x !in pages[k]
  {
    forall k, i | 0 <= k < |pages| && 0 <= i < |pages[k]|
      ensures pages[k][i] != x
    {
      assert !IsShown(pages, x, k, i);
    }
  }

  /** Following the cursors from the start to the end shows every item that stays without a photo exactly once,
      whatever happens to the others, as long as each cursor's row keeps its name and section. */
  lemma SteadyIsShownOnce(worlds: seq<Rows>, pages: seq<seq<Id>>, limit: int, x: Id, rank: int)
    requires Walk(None, worlds, pages, limit) && CursorsStay(None, worlds, pages, limit) && Steady(worlds, x, rank)
    ensures exists k, i :: IsShown(pages, x, k, i)
    ensures forall k, i, l, j :: IsShown(pages, x, k, i) && IsShown(pages, x, l, j) ==> k == l && i == j
  {
    hide Walk, CursorsStay, IsPage;
    WalkShows(None, worlds, pages, limit, x, rank);
    WalkStarts(None, worlds, pages, limit);
    var m :| 0 <= m < |pages| && x in pages[m];
    var i :| 0 <= i < |pages[m]| && pages[m][i] == x;
    assert IsShown(pages, x, m, i);
    forall k, i, l, j | IsShown(pages, x, k, i) && IsShown(pages, x, l, j)
      ensures k == l && i == j
    {
      ShownOnce(None, worlds, pages, limit, x, rank, k, i, l, j);
    }
  }

  lemma WalkStarts(first: Option<Id>, worlds: seq<Rows>, pages: seq<seq<Id>>, limit: int)
    requires Walk(first, worlds, pages, limit)
    ensures Started(first, worlds, pages, limit)
  {
  }

  ghost predicate IsShown(pages: seq<seq<Id>>, x: Id, k: int, i: int) {
    0 <= k < |pages| && 0 <= i < |pages[k]| && pages[k][i] == x
  }

  lemma ShownOnce(
    first: Option<Id>, worlds: seq<Rows>, pages: seq<seq<Id>>, limit: int, x: Id, rank: int, k: nat, i: nat,
    l: nat, j: nat)
    requires Started(first, worlds, pages, limit) && CursorsStay(first, worlds, pages, limit) && Steady(worlds, x, rank)
    requires IsShown(pages, x, k, i) && IsShown(pages, x, l, j)
    ensures k == l && i == j
  {
    hide IsPage, CursorsStay;
    if k < l {
      PagesAscend(first, worlds, pages, limit, k, i, l, j);
    } else if l < k {
      PagesAscend(first, worlds, pages, limit, l, j, k, i);
    } else {
      OncePerPage(first, worlds, pages, limit, k, i, j);
    }
  }

  lemma OncePerPage(first: Option<Id>, worlds: seq<Rows>, pages: seq<seq<Id>>, limit: int, k: nat, i: nat, j: nat)
    requires Started(first, worlds, pages, limit) && k < |pages| && i < |pages[k]| && j < |pages[k]|
    ensures pages[k][i] in worlds[k] && pages[k][j] in worlds[k]
    ensures i < j ==> worlds[k][pages[k][i]].rank < worlds[k][pages[k][j]].rank
    ensures pages[k][i] == pages[k][j] ==> i == j
  {
    hide NextAfter;
    assert IsPage(worlds[k], Cursor(first, pages, limit, k), limit, pages[k]);
    PageItem(first, worlds, pages, limit, k, i);
    PageItem(first, worlds, pages, limit, k, j);
  }

  /** Two steady items are shown in their order. */
  lemma SteadyInOrder(
    worlds: seq<Rows>, pages: seq<seq<Id>>, limit: int, x: Id, a: int, y: Id, b: int, k: nat, i: nat, l: nat, j: nat)
    requires Walk(None, worlds, pages, limit) && CursorsStay(None, worlds, pages, limit)
    requires Steady(worlds, x, a) && Steady(worlds, y, b) && a < b
    requires IsShown(pages, x, k, i) && IsShown(pages, y, l, j)
    ensures k < l || (k == l && i < j)
  {
    if l < k {
      PagesAscend(None, worlds, pages, limit, l, j, k, i);
    } else if k == l {
      OncePerPage(None, worlds, pages, limit, k, j, i);
    }
  }

  // ---------------------------------------------------------------------------------------
  // A cursor that is lost or moves
  // ---------------------------------------------------------------------------------------

  /** The pages i to j - 1 are a walk of their own, from the cursor of page i. */
  lemma PartOf(first: Option<Id>, worlds: seq<Rows>, pages: seq<seq<Id>>, limit: int, i: nat, j: nat)
    requires Started(first, worlds, pages, limit) && i < j <= |pages|
    ensures Started(Cursor(first, pages, limit, i), worlds[i..j], pages[i..j], limit)
  {
    hide IsPage;
    var c, some := Cursor(first, pages, limit, i), pages[i..j];
    forall m | 0 <= m <= j - i
      ensures Cursor(c, some, limit, m) == Cursor(first, pages, limit, i + m)
    {
      CursorOfPart(first, pages, limit, i, j, m);
    }
    hide NextAfter, Cursor;
    forall m | 0 <= m < |some|
      ensures IsPage(worlds[i..j][m], Cursor(c, some, limit, m), limit, some[m])
    {
      assert IsPage(worlds[i + m], Cursor(first, pages, limit, i + m), limit, pages[i + m]);
    }
    assert forall m :: 1 <= m < |some| ==> Cursor(c, some, limit, m) == Cursor(first, pages, limit, i + m);
  }

  lemma CursorOfPart(first: Option<Id>, pages: seq<seq<Id>>, limit: int, i: nat, j: nat, m: nat)
    requires i + m <= j <= |pages|
    ensures Cursor(Cursor(first, pages, limit, i), pages[i..j], limit, m) == Cursor(first, pages, limit, i + m)
  {
    hide NextAfter;
    if m > 0 {
      assert pages[i..j][m - 1] == pages[i + m - 1];
    }
  }

  /** The cursors of the pages strictly between i and j stay. */
  ghost predicate StayBetween(worlds: seq<Rows>, pages: seq<seq<Id>>, limit: int, i: int, j: int)
    requires |pages| == |worlds| && 0 <= i && j <= |pages|
  {
    forall m :: i < m < j ==> CursorStays(None, worlds, pages, limit, m)
  }

  lemma PartStays(worlds: seq<Rows>, pages: seq<seq<Id>>, limit: int, i: nat, j: nat)
    requires |pages| == |worlds| && i < j <= |pages| && StayBetween(worlds, pages, limit, i, j)
    ensures CursorsStay(Cursor(None, pages, limit, i), worlds[i..j], pages[i..j], limit)
  {
    forall m | 1 <= m < j - i
      ensures CursorStays(Cursor(None, pages, limit, i), worlds[i..j], pages[i..j], limit, m)
    {
      CursorOfPart(None, pages, limit, i, j, m);
      assert CursorStays(None, worlds, pages, limit, i + m);
    }
  }

  lemma SteadyPart(worlds: seq<Rows>, x: Id, rank: int, i: nat, j: nat)
    requires Steady(worlds, x, rank) && i < j <= |worlds|
    ensures Steady(worlds[i..j], x, rank) && x in Behind(worlds[i], None)
    ensures worlds[i..j][0] == worlds[i] && worlds[i..j][j - i - 1] == worlds[j - 1]
    ensures forall c: Id :: x in Behind(worlds[i], Some(c)) <==> c in worlds[i] && worlds[i][c].rank < rank
  {
  }

  lemma CursorIsThere(worlds: seq<Rows>, pages: seq<seq<Id>>, limit: int, k: nat)
    requires Walk(None, worlds, pages, limit) && k <= |pages|
    ensures Started(None, worlds, pages, limit) && |worlds| == |pages| && limit >= 1
    ensures 0 < k < |pages| <==> Cursor(None, pages, limit, k).Some?
  {
    hide IsPage;
  }

  /** The item is behind the cursor that page i is asked from, as the rows are then. */
  ghost predicate After(worlds: seq<Rows>, pages: seq<seq<Id>>, limit: int, i: nat, rank: int)
    requires i < |pages| == |worlds|
  {
    var c := Cursor(None, pages, limit, i);
    c.Some? ==> c.value in worlds[i] && worlds[i][c.value].rank < rank
  }

  /** The item is not behind the cursor of page j, as it was when it was shown. */
  ghost predicate UpTo(worlds: seq<Rows>, pages: seq<seq<Id>>, limit: int, j: nat, rank: int)
    requires 0 < j <= |pages| == |worlds|
  {
    var c := Cursor(None, pages, limit, j);
    c.Some? ==> c.value in worlds[j - 1] && rank <= worlds[j - 1][c.value].rank
  }

  /** Whatever becomes of the cursors: the pages from one cursor to another, with the cursors between them staying,
      show a steady item exactly when it is behind the first as it is when asked from, and not behind the second
      as it was when shown. So every move of a cursor is a gap or an overlap between two such parts. */
  lemma BetweenCursors(worlds: seq<Rows>, pages: seq<seq<Id>>, limit: int, i: nat, j: nat, x: Id, rank: int)
    requires Walk(None, worlds, pages, limit) && i < j <= |pages| == |worlds|
    requires StayBetween(worlds, pages, limit, i, j) && Steady(worlds, x, rank)
    ensures Shows(pages[i..j], x) <==> After(worlds, pages, limit, i, rank) && UpTo(worlds, pages, limit, j, rank)
  {
    hide *;
    var c := Cursor(None, pages, limit, i);
    var ws, ps := worlds[i..j], pages[i..j];
    CursorIsThere(worlds, pages, limit, j);
    SteadyPart(worlds, x, rank, i, j);
    BehindIffAfter(worlds, pages, limit, i, x, rank);
    PartOf(None, worlds, pages, limit, i, j);
    PartStays(worlds, pages, limit, i, j);
    CursorOfPart(None, pages, limit, i, j, j - i);
    assert |ps| == j - i;
    if j < |pages| {
      StartShows(c, ws, ps, limit, x, rank);
      UpToSome(worlds, pages, limit, j, rank);
    } else {
      PartEnds(c, ws, ps, limit);
      WalkShows(c, ws, ps, limit, x, rank);
      UpToNone(worlds, pages, limit, j, rank);
    }
  }

  lemma BehindIffAfter(worlds: seq<Rows>, pages: seq<seq<Id>>, limit: int, i: nat, x: Id, rank: int)
    requires i < |pages| == |worlds| && Steady(worlds, x, rank)
    ensures x in Behind(worlds[i], Cursor(None, pages, limit, i)) <==> After(worlds, pages, limit, i, rank)
  {
    hide Cursor;
  }

  lemma UpToSome(worlds: seq<Rows>, pages: seq<seq<Id>>, limit: int, j: nat, rank: int)
    requires 0 < j <= |pages| == |worlds| && Cursor(None, pages, limit, j).Some?
    requires Cursor(None, pages, limit, j).value in worlds[j - 1]
    ensures UpTo(worlds, pages, limit, j, rank) <==>
            rank <= worlds[j - 1][Cursor(None, pages, limit, j).value].rank
  {
    hide Cursor;
  }

  lemma UpToNone(worlds: seq<Rows>, pages: seq<seq<Id>>, limit: int, j: nat, rank: int)
    requires 0 < j <= |pages| == |worlds| && Cursor(None, pages, limit, j).None?
    ensures UpTo(worlds, pages, limit, j, rank)
  {
    hide Cursor;
  }

  lemma PartEnds(first: Option<Id>, worlds: seq<Rows>, pages: seq<seq<Id>>, limit: int)
    requires Started(first, worlds, pages, limit) && Cursor(first, pages, limit, |pages|).None?
    ensures Walk(first, worlds, pages, limit)
  {
    hide Started, Cursor;
  }

  lemma LostIsLast(rows: Rows, c: Option<Id>, limit: int, page: seq<Id>)
    requires IsPage(rows, c, limit, page) && c.Some?
    ensures c.value !in rows ==> page == [] && NextAfter(page, limit).None?
  {
    assert page != [] ==> page[0] in Behind(rows, c);
  }

  lemma LostCursorEnds(worlds: seq<Rows>, pages: seq<seq<Id>>, limit: int, k: nat)
    requires Walk(None, worlds, pages, limit) && 1 <= k < |pages|
    ensures var c := Cursor(None, pages, limit, k);
            c.Some? && (c.value !in worlds[k] ==> |pages| == k + 1 && pages[k] == [])
  {
    hide IsPage;
    var c := Cursor(None, pages, limit, k);
    LostIsLast(worlds[k], c, limit, pages[k]);
    assert k + 1 < |pages| ==> Cursor(None, pages, limit, k + 1).Some?;
  }

  /** A lost cursor ends the walk: with the cursors before it staying, a steady item is shown exactly when it is not
      behind the cursor as the cursor was. */
  lemma LostCursor(worlds: seq<Rows>, pages: seq<seq<Id>>, limit: int, k: nat, x: Id, rank: int)
    requires Walk(None, worlds, pages, limit) && 1 <= k < |pages| == |worlds|
    requires StayBetween(worlds, pages, limit, 0, k) && Steady(worlds, x, rank)
    requires var c := Cursor(None, pages, limit, k); c.Some? ==> c.value !in worlds[k]
    ensures |pages| == k + 1 && Cursor(None, pages, limit, k).Some?
    ensures var c := Cursor(None, pages, limit, k).value;
            && c in worlds[k - 1]
            && (Shows(pages, x) <==> rank <= worlds[k - 1][c].rank)
  {
    hide *;
    LostCursorEnds(worlds, pages, limit, k);
    LastItemIsThere(worlds, pages, limit, k);
    assert pages == pages[0..k] + [[]];
    BetweenCursors(worlds, pages, limit, 0, k, x, rank);
    UpToSome(worlds, pages, limit, k, rank);
    AtStart(worlds, pages, limit, rank);
    AddsNothing(pages[0..k], x);
  }

  lemma AtStart(worlds: seq<Rows>, pages: seq<seq<Id>>, limit: int, rank: int)
    requires 0 < |pages| == |worlds|
    ensures After(worlds, pages, limit, 0, rank)
  {
  }

  lemma AddsNothing(pages: seq<seq<Id>>, x: Id)
    ensures Shows(pages + [[]], x) <==> Shows(pages, x)
  {
    if k :| 0 <= k < |pages| && x in pages[k] {
      assert (pages + [[]])[k] == pages[k];
    }
  }

  lemma LastItemIsThere(worlds: seq<Rows>, pages: seq<seq<Id>>, limit: int, k: nat)
    requires Walk(None, worlds, pages, limit) && 1 <= k < |pages|
    ensures Cursor(None, pages, limit, k).Some? && Cursor(None, pages, limit, k).value in worlds[k - 1]
  {
    hide IsPage;
    CursorIsLast(None, worlds, pages, limit, k - 1);
  }

  lemma PageOfOne(rows: Rows, after: Option<Id>, x: Id)
    requires x in Behind(rows, after) && forall y :: y in Behind(rows, after) && y != x ==> rows[x].rank < rows[y].rank
    ensures IsPage(rows, after, 1, [x])
  {
  }

  lemma EmptyPage(rows: Rows, after: Option<Id>)
    requires Behind(rows, after) == {}
    ensures IsPage(rows, after, 1, [])
  {
  }

  /** The first of two items is deleted after the first page: the second is not shown. */
  lemma LostCursorSkips() returns (worlds: seq<Rows>, pages: seq<seq<Id>>)
    ensures Walk(None, worlds, pages, 1) && Steady(worlds, "b", 20) && !Shows(pages, "b")
  {
    hide IsPage;
    var one: Rows := map["b" := ItemRow(20, false)];
    var two := one["a" := ItemRow(10, false)];
    worlds, pages := [two, one], [["a"], []];
    PageOfOne(two, None, "a");
    EmptyPage(one, Some("a"));
  }

  /** The second of two items is renamed to the front after it was shown: the first is shown twice. */
  lemma MovedCursorRepeats() returns (worlds: seq<Rows>, pages: seq<seq<Id>>)
    ensures Walk(None, worlds, pages, 1) && Steady(worlds, "a", 10)
    ensures |pages| == 4 && "a" in pages[0] && "a" in pages[2]
  {
    hide IsPage;
    var one: Rows := map["a" := ItemRow(10, false)];
    var before, after := one["b" := ItemRow(20, false)], one["b" := ItemRow(5, false)];
    worlds, pages := [before, before, after, after], [["a"], ["b"], ["a"], []];
    PageOfOne(before, None, "a");
    PageOfOne(before, Some("a"), "b");
    PageOfOne(after, Some("b"), "a");
    EmptyPage(after, Some("a"));
  }
}
