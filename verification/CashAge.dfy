/** The oldest cash a driver has not handed over: the running totals of the database function, in the order of
    time, agree with paying the oldest receipt first (migration 0330). */
module CashAge {
  import opened Common
  import opened Cashbox

  /** A receipt, or what is left of it. */
  datatype Lot = Lot(at: int, amount: int)

  function Total(q: seq<Lot>): int {
    if q == [] then 0 else q[0].amount + Total(q[1..])
  }

  predicate Positive(q: seq<Lot>) {
    forall i :: 0 <= i < |q| ==> q[i].amount > 0
  }

  /** Money handed over pays the oldest receipts first. */
  function Pay(q: seq<Lot>, n: int): seq<Lot> {
    if q == [] then []
    else if n >= q[0].amount then Pay(q[1..], n - q[0].amount)
    else [Lot(q[0].at, q[0].amount - n)] + q[1..]
  }

  /** What is left of a driver's receipts, paid off entry by entry. */
  function Left(entries: seq<Entry>, d: Driver): seq<Lot> {
    if entries == [] then []
    else
      var before := Left(entries[..|entries| - 1], d);
      var e := entries[|entries| - 1];
      if e.driver != d || e.amount == 0 then before
      else if e.amount > 0 then before + [Lot(e.at, e.amount)]
      else Pay(before, -e.amount)
  }

  /** All receipts of a driver. */
  function Lots(entries: seq<Entry>, d: Driver): (q: seq<Lot>)
    ensures Positive(q)
  {
    if entries == [] then []
    else
      var e := entries[0];
      if e.driver == d && e.amount > 0 then [Lot(e.at, e.amount)] + Lots(entries[1..], d) else Lots(entries[1..], d)
  }

  /** A driver's box is never overdrawn. */
  ghost predicate NeverOverdrawn(entries: seq<Entry>, d: Driver) {
    forall n :: 0 <= n <= |entries| ==> Sum(entries[..n], d) >= 0
  }

  lemma {:induction false} LotsAppend(entries: seq<Entry>, e: Entry, d: Driver)
    ensures Lots(entries + [e], d) ==
              Lots(entries, d) + if e.driver == d && e.amount > 0 then [Lot(e.at, e.amount)] else []
  {
    if entries == [] {
      assert [e][1..] == [];
    } else {
      LotsAppend(entries[1..], e, d);
      assert (entries + [e])[1..] == entries[1..] + [e];
    }
  }

  lemma {:induction false} TotalAppends(q: seq<Lot>, l: Lot)
    ensures Total(q + [l]) == Total(q) + l.amount
  {
    if q == [] {
      assert [l][1..] == [];
    } else {
      TotalAppends(q[1..], l);
      assert (q + [l])[1..] == q[1..] + [l];
    }
  }

  lemma {:induction false} PayThenReceive(q: seq<Lot>, l: Lot, n: int)
    requires Positive(q) && 0 <= n <= Total(q) && l.amount > 0
    ensures Pay(q + [l], n) == Pay(q, n) + [l]
  {
    if q == [] {
    } else {
      assert (q + [l])[1..] == q[1..] + [l];
      if n >= q[0].amount {
        PayThenReceive(q[1..], l, n - q[0].amount);
      }
    }
  }

  lemma {:induction false} PayTwice(q: seq<Lot>, a: int, b: int)
    requires Positive(q) && a >= 0 && b >= 0
    ensures Pay(Pay(q, a), b) == Pay(q, a + b)
  {
    if q != [] {
      if a >= q[0].amount {
        PayTwice(q[1..], a - q[0].amount, b);
      } else {
        var rest := [Lot(q[0].at, q[0].amount - a)] + q[1..];
        assert rest[1..] == q[1..];
      }
    }
  }

  /** The totals: receipts less payments. */
  lemma {:induction false} ReceiptsLessPayments(entries: seq<Entry>, d: Driver)
    ensures Total(Lots(entries, d)) - Paid(entries, d) == Sum(entries, d)
  {
    if entries != [] {
      var n := |entries| - 1;
      ReceiptsLessPayments(entries[..n], d);
      assert entries == entries[..n] + [entries[n]];
      LotsAppend(entries[..n], entries[n], d);
      if entries[n].driver == d && entries[n].amount > 0 {
        TotalAppends(Lots(entries[..n], d), Lot(entries[n].at, entries[n].amount));
      } else {
        assert Lots(entries[..n], d) + [] == Lots(entries[..n], d);
      }
    }
  }

  /** Paying off entry by entry leaves what paying everything at once leaves. */
  lemma {:induction false} LeftIsPaidOff(entries: seq<Entry>, d: Driver)
    requires NeverOverdrawn(entries, d)
    ensures Left(entries, d) == Pay(Lots(entries, d), Paid(entries, d))
  {
    if entries != [] {
      var n := |entries| - 1;
      var before, e := entries[..n], entries[n];
      assert NeverOverdrawn(before, d) by {
        assert forall k :: 0 <= k <= n ==> before[..k] == entries[..k];
      }
      LeftIsPaidOff(before, d);
      assert entries == before + [e];
      LotsAppend(before, e, d);
      OneMore(before, e, d);
    }
  }

  lemma OneMore(before: seq<Entry>, e: Entry, d: Driver)
    requires Sum(before, d) >= 0 && Left(before, d) == Pay(Lots(before, d), Paid(before, d))
    ensures Left(before + [e], d) == Pay(Lots(before + [e], d), Paid(before + [e], d))
  {
    hide Pay, Sum, Total, Lots;
    assert (before + [e])[..|before|] == before;
    LotsAppend(before, e, d);
    ReceiptsLessPayments(before, d);
    var lots, paid := Lots(before, d), Paid(before, d);
    if e.driver == d && e.amount > 0 {
      PayThenReceive(lots, Lot(e.at, e.amount), paid);
    } else {
      assert lots + [] == lots;
      if e.driver == d && e.amount < 0 {
        PayTwice(lots, paid, -e.amount);
      }
    }
  }

  lemma {:induction false} PayLeaves(q: seq<Lot>, n: int)
    requires Positive(q) && 0 <= n <= Total(q)
    ensures Total(Pay(q, n)) == Total(q) - n && Positive(Pay(q, n))
  {
    if q != [] {
      if n >= q[0].amount {
        PayLeaves(q[1..], n - q[0].amount);
      } else {
        var rest := [Lot(q[0].at, q[0].amount - n)] + q[1..];
        assert rest[1..] == q[1..];
      }
    }
  }

  lemma {:induction false} PositiveTotal(q: seq<Lot>)
    requires Positive(q)
    ensures Total(q) >= 0 && (Total(q) == 0 <==> q == [])
  {
    if q != [] {
      PositiveTotal(q[1..]);
    }
  }

  // ---------------------------------------------------------------------------------------
  // In the order of time
  // ---------------------------------------------------------------------------------------

  predicate Timed(q: seq<Lot>) {
    forall i, j :: 0 <= i < j < |q| ==> q[i].at <= q[j].at
  }

  function Insert(q: seq<Lot>, l: Lot): (r: seq<Lot>)
    ensures forall x :: x in r <==> x == l || x in q
  {
    if q == [] || l.at < q[0].at then [l] + q else [q[0]] + Insert(q[1..], l)
  }

  /** Receipts in the order of time, those of one time in the order of the ledger. */
  function ByTime(q: seq<Lot>): (r: seq<Lot>)
    ensures forall x :: x in r <==> x in q
  {
    if q == [] then [] else Insert(ByTime(q[..|q| - 1]), q[|q| - 1])
  }

  /** The receipts up to a time. */
  function Upto(q: seq<Lot>, t: int): int {
    if q == [] then 0 else (if q[0].at <= t then q[0].amount else 0) + Upto(q[1..], t)
  }

  lemma {:induction false} InsertInOrder(q: seq<Lot>, l: Lot)
    requires Timed(q)
    ensures Timed(Insert(q, l))
  {
    if q != [] && q[0].at <= l.at {
      InsertInOrder(q[1..], l);
      var r := Insert(q[1..], l);
      forall i | 0 <= i < |r|
        ensures q[0].at <= r[i].at
      {
        assert r[i] in r;
      }
    }
  }

  lemma {:induction false} InsertTotals(q: seq<Lot>, l: Lot, t: int)
    ensures Upto(Insert(q, l), t) == Upto(q, t) + if l.at <= t then l.amount else 0
    ensures Total(Insert(q, l)) == Total(q) + l.amount
  {
    if q == [] || l.at < q[0].at {
      assert ([l] + q)[1..] == q;
    } else {
      InsertTotals(q[1..], l, t);
      assert ([q[0]] + Insert(q[1..], l))[1..] == Insert(q[1..], l);
    }
  }

  lemma {:induction false} InsertAtEnd(q: seq<Lot>, l: Lot)
    requires Timed(q + [l])
    ensures Insert(q, l) == q + [l]
  {
    if q != [] {
      assert (q + [l])[0] == q[0] && (q + [l])[|q|] == l;
      assert (q + [l])[1..] == q[1..] + [l];
      InsertAtEnd(q[1..], l);
    }
  }

  lemma {:induction false} ByTimeInOrder(q: seq<Lot>)
    ensures Timed(ByTime(q))
  {
    if q != [] {
      ByTimeInOrder(q[..|q| - 1]);
      InsertInOrder(ByTime(q[..|q| - 1]), q[|q| - 1]);
    }
  }

  /** Receipts that come in the order of time stay as they are. */
  lemma {:induction false} ByTimeStays(q: seq<Lot>)
    requires Timed(q)
    ensures ByTime(q) == q
  {
    if q != [] {
      var n := |q| - 1;
      ByTimeStays(q[..n]);
      assert q == q[..n] + [q[n]];
      InsertAtEnd(q[..n], q[n]);
    }
  }

  lemma ByTimeAppends(q: seq<Lot>, l: Lot, t: int)
    ensures Upto(ByTime(q + [l]), t) == Upto(ByTime(q), t) + if l.at <= t then l.amount else 0
    ensures Total(ByTime(q + [l])) == Total(ByTime(q)) + l.amount
  {
    assert (q + [l])[..|q|] == q;
    InsertTotals(ByTime(q), l, t);
  }

  lemma ReceivedAppends(entries: seq<Entry>, e: Entry, d: Driver, t: int)
    ensures Received(entries + [e], d, t) ==
              Received(entries, d, t) + if IsReceipt(e, d) && e.at <= t then e.amount else 0
  {
    assert (entries + [e])[..|entries|] == entries;
  }

  lemma NothingInTime(d: Driver, t: int)
    ensures Upto(ByTime(Lots([], d)), t) == Received([], d, t) && Total(ByTime(Lots([], d))) == Total(Lots([], d))
  {
  }

  /** Sorting changes no total. */
  lemma {:induction false} ByTimeTotals(entries: seq<Entry>, d: Driver, t: int)
    ensures Upto(ByTime(Lots(entries, d)), t) == Received(entries, d, t)
    ensures Total(ByTime(Lots(entries, d))) == Total(Lots(entries, d))
  {
    hide Upto, ByTime, Lots, Received, Total;
    if entries == [] {
      NothingInTime(d, t);
    } else {
      var n := |entries| - 1;
      var before, e := entries[..n], entries[n];
      ByTimeTotals(before, d, t);
      assert entries == before + [e];
      LotsAppend(before, e, d);
      ReceivedAppends(before, e, d, t);
      var q, l := Lots(before, d), Lot(e.at, e.amount);
      if IsReceipt(e, d) {
        ByTimeAppends(q, l, t);
        TotalAppends(q, l);
      } else {
        assert q + [] == q;
      }
    }
  }

  lemma {:induction false} LotsAre(entries: seq<Entry>, d: Driver, l: Lot)
    ensures l in Lots(entries, d) <==> exists e :: e in entries && IsReceipt(e, d) && l == Lot(e.at, e.amount)
  {
    if entries != [] {
      LotsAre(entries[1..], d, l);
      assert forall e :: e in entries <==> e == entries[0] || e in entries[1..];
    }
  }

  /** The first time at which the running total passes n. */
  ghost predicate FirstTime(q: seq<Lot>, n: int, t: Option<int>) {
    if t.None? then forall l :: l in q ==> Upto(q, l.at) <= n
    else (exists l :: l in q && l.at == t.value) && Upto(q, t.value) > n
         && forall l :: l in q && l.at < t.value ==> Upto(q, l.at) <= n
  }

  function HeadTime(q: seq<Lot>): Option<int> {
    if q == [] then None else Some(q[0].at)
  }

  lemma {:induction false} UptoEarly(q: seq<Lot>, t: int)
    requires Positive(q)
    ensures Upto(q, t) >= 0 && ((forall l :: l in q ==> l.at > t) ==> Upto(q, t) == 0)
  {
    if q != [] {
      assert forall l :: l in q[1..] ==> l in q;
      UptoEarly(q[1..], t);
    }
  }

  lemma PaidPast(q: seq<Lot>, n: int)
    requires q != [] && Timed(q) && Positive(q) && n >= q[0].amount
    requires FirstTime(q[1..], n - q[0].amount, HeadTime(Pay(q, n)))
    ensures FirstTime(q, n, HeadTime(Pay(q, n)))
  {
    hide Pay, Timed, Positive;
    var rest, t := q[1..], HeadTime(Pay(q, n));
    forall l | l in rest
      ensures l in q && Upto(q, l.at) == q[0].amount + Upto(rest, l.at)
    {
      LaterOf(q, l);
    }
    assert forall l :: l in q <==> l == q[0] || l in rest;
    if l :| l in rest && l.at == q[0].at {
    } else {
      assert Upto(rest, q[0].at) == 0 by {
        NoneAtFirst(q);
      }
    }
  }

  lemma LaterOf(q: seq<Lot>, l: Lot)
    requires q != [] && Timed(q) && l in q[1..]
    ensures l in q && q[0].at <= l.at
  {
    var i :| 0 <= i < |q[1..]| && q[1..][i] == l;
    assert q[i + 1] == l;
  }

  lemma NoneAtFirst(q: seq<Lot>)
    requires q != [] && Timed(q) && Positive(q) && forall l :: l in q[1..] ==> l.at != q[0].at
    ensures Upto(q[1..], q[0].at) == 0
  {
    forall l | l in q[1..]
      ensures l.at > q[0].at
    {
      LaterOf(q, l);
    }
    UptoEarly(q[1..], q[0].at);
  }

  lemma PaidWithin(q: seq<Lot>, n: int)
    requires q != [] && Timed(q) && Positive(q) && 0 <= n < q[0].amount
    ensures FirstTime(q, n, HeadTime(Pay(q, n)))
  {
    UptoEarly(q[1..], q[0].at);
    forall l | l in q
      ensures l.at >= q[0].at
    {
      var i :| 0 <= i < |q| && q[i] == l;
    }
    assert q[0] in q;
  }

  /** Of receipts in the order of time, the first one left is the first at which the running total passes what
      was paid. */
  lemma {:induction false} HeadIsFirstTime(q: seq<Lot>, n: int)
    requires Timed(q) && Positive(q) && n >= 0
    ensures FirstTime(q, n, HeadTime(Pay(q, n)))
  {
    hide FirstTime;
    if q == [] {
      NoReceipts(n);
    } else if n >= q[0].amount {
      HeadIsFirstTime(q[1..], n - q[0].amount);
      PaidPast(q, n);
    } else {
      PaidWithin(q, n);
    }
  }

  lemma NoReceipts(n: int)
    ensures FirstTime([], n, HeadTime(Pay([], n)))
  {
  }

  lemma {:induction false} EarliestIs(entries: seq<Entry>, all: seq<Entry>, d: Driver, paid: int)
    ensures var t := EarliestPast(entries, all, d, paid);
            && (t.Some? ==> exists e :: e in entries && IsReceipt(e, d) && e.at == t.value)
            && (t.Some? ==> Received(all, d, t.value) > paid)
            && forall e :: e in entries && IsReceipt(e, d) && Received(all, d, e.at) > paid ==>
                             t.Some? && t.value <= e.at
  {
    hide Received;
    if entries != [] {
      var n := |entries| - 1;
      EarliestIs(entries[..n], all, d, paid);
      assert forall e :: e in entries <==> e == entries[n] || e in entries[..n];
    }
  }

  lemma OldestIsFirstTime(entries: seq<Entry>, d: Driver)
    ensures FirstTime(ByTime(Lots(entries, d)), Paid(entries, d), OldestUnpaid(entries, d))
  {
    hide Received, Upto, EarliestPast, Paid, ByTime, Lots;
    var q, n, t := ByTime(Lots(entries, d)), Paid(entries, d), OldestUnpaid(entries, d);
    EarliestIs(entries, entries, d, n);
    forall l
      ensures l in q <==> exists e :: e in entries && IsReceipt(e, d) && l == Lot(e.at, e.amount)
    {
      LotsAre(entries, d, l);
    }
    forall u
      ensures Upto(q, u) == Received(entries, d, u)
    {
      ByTimeTotals(entries, d, u);
    }
    if t.Some? {
      var e :| e in entries && IsReceipt(e, d) && e.at == t.value;
      assert Lot(e.at, e.amount) in q;
    }
  }

  lemma FirstTimeIsOne(q: seq<Lot>, n: int, t: Option<int>, u: Option<int>)
    requires FirstTime(q, n, t) && FirstTime(q, n, u)
    ensures t == u
  {
    hide Upto;
  }

  /** What is left of a driver's receipts when everything he handed over pays the oldest first. */
  function Unsettled(entries: seq<Entry>, d: Driver): seq<Lot> {
    Pay(ByTime(Lots(entries, d)), Paid(entries, d))
  }

  /** Something is left of a receipt of before a time. */
  ghost predicate LeftFromBefore(entries: seq<Entry>, d: Driver, t: int) {
    exists l :: l in Unsettled(entries, d) && l.at < t
  }

  lemma OldestIsHead(entries: seq<Entry>, d: Driver)
    ensures OldestUnpaid(entries, d) == HeadTime(Unsettled(entries, d)) && Timed(Unsettled(entries, d))
  {
    hide OldestUnpaid, Timed, Positive, ByTime, Lots, Paid, HeadTime, Pay;
    var q, n := ByTime(Lots(entries, d)), Paid(entries, d);
    ByTimeInOrder(Lots(entries, d));
    ByTimeIsPositive(entries, d);
    HeadIsFirstTime(q, n);
    OldestIsFirstTime(entries, d);
    FirstTimeIsOne(q, n, OldestUnpaid(entries, d), HeadTime(Pay(q, n)));
    PayStaysTimed(q, n);
  }

  lemma {:induction false} PayStaysTimed(q: seq<Lot>, n: int)
    requires Timed(q)
    ensures Timed(Pay(q, n))
  {
    if q != [] && n >= q[0].amount {
      PayStaysTimed(q[1..], n - q[0].amount);
    }
  }

  /** The age passes a cutoff exactly when something is left of a receipt of before it. */
  lemma OverdueMeans(entries: seq<Entry>, d: Driver, t: int)
    ensures LeftFromBefore(entries, d, t) <==>
            OldestUnpaid(entries, d).Some? && OldestUnpaid(entries, d).value < t
  {
    hide OldestUnpaid, Unsettled;
    OldestIsHead(entries, d);
    var left := Unsettled(entries, d);
    if left != [] {
      assert left[0] in left;
    }
  }

  /** The age of a driver's cash is the age of the oldest receipt, by time, that everything he paid, oldest receipt
      first, has left something of; and what is left is what he holds. */
  lemma OldestUnpaidIsFirstLeft(entries: seq<Entry>, d: Driver)
    requires Sum(entries, d) >= 0
    ensures var left := Unsettled(entries, d);
            && OldestUnpaid(entries, d) == HeadTime(left)
            && Total(left) == Sum(entries, d) && Positive(left)
            && (OldestUnpaid(entries, d).None? <==> Sum(entries, d) == 0)
  {
    hide OldestUnpaid, Total, Positive, ByTime, Lots, Paid, HeadTime, Pay, Sum;
    var q, n := ByTime(Lots(entries, d)), Paid(entries, d);
    OldestIsHead(entries, d);
    ByTimeIsPositive(entries, d);
    ByTimeTotals(entries, d, 0);
    ReceiptsLessPayments(entries, d);
    PayLeaves(q, n);
    PositiveTotal(Pay(q, n));
    NoHead(Pay(q, n));
  }

  lemma NoHead(q: seq<Lot>)
    ensures HeadTime(q).None? <==> q == []
  {
  }

  lemma ByTimeIsPositive(entries: seq<Entry>, d: Driver)
    ensures Positive(ByTime(Lots(entries, d)))
  {
    hide Lots;
    var q := Lots(entries, d);
    forall i | 0 <= i < |ByTime(q)|
      ensures ByTime(q)[i].amount > 0
    {
      assert ByTime(q)[i] in q;
      var j :| 0 <= j < |q| && q[j] == ByTime(q)[i];
    }
  }

  /** Where the receipts come in the order of time, that is the first receipt left when the ledger is paid off entry
      by entry. */
  lemma OldestUnpaidIsFirstUnsettled(entries: seq<Entry>, d: Driver)
    requires NeverOverdrawn(entries, d) && Timed(Lots(entries, d))
    ensures OldestUnpaid(entries, d) == HeadTime(Left(entries, d)) && Total(Left(entries, d)) == Sum(entries, d)
  {
    hide OldestUnpaid, Left, Pay, Lots, Paid, Total, HeadTime, Sum, ByTime;
    assert entries[..|entries|] == entries;
    LeftIsPaidOff(entries, d);
    ByTimeStays(Lots(entries, d));
    OldestUnpaidIsFirstLeft(entries, d);
  }

  /** Otherwise it need not be: a receipt of the first hour that is entered after one of the second. */
  lemma LateEntryIsOlder() returns (entries: seq<Entry>, d: Driver)
    ensures NeverOverdrawn(entries, d)
    ensures OldestUnpaid(entries, d) == Some(1) && HeadTime(Left(entries, d)) == Some(2)
  {
    hide Lots, Left, Pay, Sum, OldestUnpaid, ByTime, Paid;
    d := 0;
    var late, early := Entry(d, 10, OrderCollection, Some(1), 2), Entry(d, 10, OrderCollection, Some(2), 1);
    entries := [late, early];
    assert entries == ([] + [late]) + [early] && entries[..0] == [] && entries[..1] == [] + [late] &&
        entries[..2] == entries;
    TwoReceipts(late, early, d);
    OldestUnpaidIsFirstLeft(entries, d);
  }

  lemma TwoReceipts(late: Entry, early: Entry, d: Driver)
    requires late.driver == d && early.driver == d && late.amount == early.amount == 10 && late.at == 2 && early.at == 1
    ensures var entries := ([] + [late]) + [early];
            && Sum([], d) == 0 && Sum([] + [late], d) == 10 && Sum(entries, d) == 20 && Paid(entries, d) == 0
            && HeadTime(Left(entries, d)) == Some(2)
            && HeadTime(Pay(ByTime(Lots(entries, d)), 0)) == Some(1)
  {
    hide Lots, Left, Sum, ByTime;
    var one, entries := [] + [late], ([] + [late]) + [early];
    SumAppends([], late, d);
    SumAppends(one, early, d);
    NothingYet(d);
    LotsAppend([], late, d);
    LotsAppend(one, early, d);
    LeftAppends([], late, d);
    LeftAppends(one, early, d);
    assert one[..0] == [] && entries[..1] == one;
    assert Lots(entries, d) == [Lot(2, 10), Lot(1, 10)];
    SortsTwo(Lot(2, 10), Lot(1, 10));
  }

  lemma NothingYet(d: Driver)
    ensures Sum([], d) == 0 && Lots([], d) == [] && Left([], d) == [] && Paid([], d) == 0
  {
  }

  lemma LeftAppends(entries: seq<Entry>, e: Entry, d: Driver)
    requires IsReceipt(e, d)
    ensures Left(entries + [e], d) == Left(entries, d) + [Lot(e.at, e.amount)]
  {
    assert (entries + [e])[..|entries|] == entries;
  }

  lemma SortsTwo(l: Lot, m: Lot)
    requires m.at < l.at && m.amount > 0
    ensures ByTime([l, m]) == [m, l] && HeadTime(Pay([m, l], 0)) == Some(m.at)
  {
    assert [l, m][..1] == [l] && [l][..0] == [];
    assert ByTime([l]) == [l];
  }
}
