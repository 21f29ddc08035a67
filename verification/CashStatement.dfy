/** A driver's statement, page by page (StatementPage in backend/internal/cashbox/cashbox.go). */
module CashStatement {
  import opened Common
  import opened Cashbox
  import opened CashDesk

  datatype Statement = Statement(
    held: int, limit: int, limitIsOverride: bool, entries: seq<Entry>, total: nat, page: int, perPage: int,
    openCash: int)

  /** A driver's entries, newest first. */
  function Newest(entries: seq<Entry>, d: Driver): seq<Entry> {
    if entries == [] then []
    else
      var e := entries[|entries| - 1];
      (if e.driver == d then [e] else []) + Newest(entries[..|entries| - 1], d)
  }

  function AtMost(a: nat, b: nat): nat {
    if a < b then a else b
  }

  /** LIMIT and OFFSET. */
  function Page(all: seq<Entry>, perPage: nat, page: nat): seq<Entry>
    requires page >= 1
  {
    all[AtMost((page - 1) * perPage, |all|)..AtMost((page - 1) * perPage + perPage, |all|)]
  }

  /** Those are a driver's entries, from the last of the ledger to the first. */
  ghost predicate LastFirst(entries: seq<Entry>, d: Driver, shown: seq<Entry>, at: seq<nat>) {
    && |at| == |shown| && (forall i, j :: 0 <= i < j < |at| ==> at[j] < at[i])
    && (forall i :: 0 <= i < |at| ==> at[i] < |entries| && shown[i] == entries[at[i]] && entries[at[i]].driver == d)
    && (forall k: nat :: k < |entries| && entries[k].driver == d ==> k in at)
  }

  lemma OneLater(entries: seq<Entry>, e: Entry, d: Driver, shown: seq<Entry>, at: seq<nat>)
    requires LastFirst(entries, d, shown, at) && e.driver == d
    ensures LastFirst(entries + [e], d, [e] + shown, [|entries|] + at)
  {
    var later := [|entries|] + at;
    forall k: nat | k < |entries + [e]| && (entries + [e])[k].driver == d
      ensures k in later
    {
      if k < |entries| {
        assert k in at;
      } else {
        assert later[0] == k;
      }
    }
  }

  lemma OneOfAnother(entries: seq<Entry>, e: Entry, d: Driver, shown: seq<Entry>, at: seq<nat>)
    requires LastFirst(entries, d, shown, at) && e.driver != d
    ensures LastFirst(entries + [e], d, shown, at)
  {
    assert forall k: nat :: k < |entries| ==> (entries + [e])[k] == entries[k];
  }

  lemma {:induction false} NewestIsLastFirst(entries: seq<Entry>, d: Driver) returns (at: seq<nat>)
    ensures LastFirst(entries, d, Newest(entries, d), at)
  {
    at := [];
    if entries != [] {
      hide LastFirst;
      var n := |entries| - 1;
      var before, shown := entries[..n], Newest(entries[..n], d);
      at := NewestIsLastFirst(before, d);
      assert entries == before + [entries[n]];
      if entries[n].driver == d {
        OneLater(before, entries[n], d, shown, at);
        at := [n] + at;
      } else {
        OneOfAnother(before, entries[n], d, shown, at);
        assert [] + shown == shown;
      }
    }
  }

  /** What is shown is one page of them. */
  ghost predicate PageShown(entries: seq<Entry>, d: Driver, st: Statement) {
    exists all, at ::
      && LastFirst(entries, d, all, at) && st.total == |all|
      && (forall i :: 0 <= i < |st.entries| ==>
            && (st.page - 1) * st.perPage + i < |all| && 0 <= (st.page - 1) * st.perPage + i
            && st.entries[i] == all[(st.page - 1) * st.perPage + i])
      && |st.entries| <= st.perPage
      && (|st.entries| < st.perPage ==> (st.page - 1) * st.perPage + |st.entries| >= |all|)
  }

  lemma PageIsShown(entries: seq<Entry>, d: Driver, st: Statement)
    requires st.total == |Newest(entries, d)| && st.page >= 1 && st.perPage >= 1
    requires st.entries == Page(Newest(entries, d), st.perPage, st.page)
    ensures PageShown(entries, d, st)
  {
    hide Newest, LastFirst;
    var at := NewestIsLastFirst(entries, d);
    Skipped(st.page - 1, st.perPage);
  }

  lemma Skipped(pages: int, perPage: int)
    requires pages >= 0 && perPage >= 1
    ensures pages * perPage >= 0
  {
  }

  /** The statement's two halves are the exposure the guard compares. */
  method StatementPage(db: CashDb, d: Driver, limit: int, page: int, generalLimit: int) returns (st: Statement)
    ensures st.held == Held(db.State(), d)
    ensures st.held + st.openCash == Exposure(db.State(), d)
    ensures st.limit == LimitFor(db.State(), d, generalLimit) && st.limitIsOverride == (d in db.overrides)
    ensures st.page == (if page >= 1 then page else 1)
    ensures st.perPage == (if 1 <= limit <= 200 then limit else 50)
    ensures st.limit == (if d in db.overrides then db.overrides[d] else generalLimit)
    ensures PageShown(db.entries, d, st)
    ensures st.total == |Newest(db.entries, d)|
    ensures st.entries == Page(Newest(db.entries, d), st.perPage, st.page)
  {
    hide PageShown, LastFirst;
    var perPage, number := limit, page;
    if perPage < 1 || perPage > 200 {
      perPage := 50;
    }
    if number < 1 {
      number := 1;
    }
    var all := Newest(db.entries, d);
    var open := 0;
    var ids := db.orders.Keys;
    while ids != {}
      invariant ids <= db.orders.Keys
      invariant open + Due(db.orders, d, ids) == Due(db.orders, d, db.orders.Keys)
      decreases |ids|
    {
      var o := Least(ids);
      open := open + DueOf(db.orders[o], d);
      ids := ids - {o};
    }
    var most, own := generalLimit, false;
    if d in db.overrides {
      most, own := db.overrides[d], true;
    }
    st := Statement(Held(db.State(), d), most, own, Page(all, perPage, number), |all|, number, perPage, open);
    PageIsShown(db.entries, d, st);
  }

  function Pages(all: seq<Entry>, perPage: nat, count: nat): seq<Entry> {
    if count == 0 then [] else Pages(all, perPage, count - 1) + Page(all, perPage, count)
  }

  /** Turning the pages shows every entry once, newest first. */
  lemma {:induction false} PagesInOrder(all: seq<Entry>, perPage: nat, count: nat)
    ensures Pages(all, perPage, count) == all[..AtMost(count * perPage, |all|)]
  {
    if count > 0 {
      PagesInOrder(all, perPage, count - 1);
      assert count * perPage == (count - 1) * perPage + perPage;
    }
  }

  /** As many pages as it takes are the whole statement, and their amounts are the driver's sum. */
  lemma PagesAreTheLedger(entries: seq<Entry>, d: Driver, perPage: nat, count: nat)
    requires count * perPage >= |Newest(entries, d)|
    ensures Pages(Newest(entries, d), perPage, count) == Newest(entries, d)
    ensures Sum(Newest(entries, d), d) == Sum(entries, d)
  {
    PagesInOrder(Newest(entries, d), perPage, count);
    NewestSum(entries, d);
  }

  lemma {:induction false} SumPrepends(e: Entry, s: seq<Entry>, d: Driver)
    ensures Sum([e] + s, d) == Sum([e], d) + Sum(s, d)
  {
    if s == [] {
      assert [e] + s == [e];
    } else {
      var n := |s| - 1;
      SumPrepends(e, s[..n], d);
      assert ([e] + s)[..n + 1] == [e] + s[..n];
    }
  }

  lemma {:induction false} NewestSum(entries: seq<Entry>, d: Driver)
    ensures Sum(Newest(entries, d), d) == Sum(entries, d)
  {
    if entries != [] {
      var n := |entries| - 1;
      NewestSum(entries[..n], d);
      if entries[n].driver == d {
        SumPrepends(entries[n], Newest(entries[..n], d), d);
      } else {
        assert [] + Newest(entries[..n], d) == Newest(entries[..n], d);
      }
    }
  }
}
