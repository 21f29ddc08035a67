/** The cash a driver holds for the platform: a ledger of entries, a box with their sum, and the guard on
    what a driver may be given (backend/internal/cashbox/cashbox.go and exposure.go, with the constraints of
    migrations 0012, 0330, 0475, 0476, 0477 and 0481). */
module Cashbox {
  import opened Common

  type Driver = int
  type OrderId = int

  datatype Kind = OrderCollection | Settlement | CommissionWaived | RecipientCashReturned | CollectionReversed

  /** A row of driver_cash_entries; rows are in the order of their ids. */
  datatype Entry = Entry(driver: Driver, amount: int, kind: Kind, ref: Option<OrderId>, at: int)

  /** The part of an order the guard reads; `driver` is the one it is with. */
  datatype Order = Order(driver: Option<Driver>, cashDue: nat, open: bool)

  datatype CashError = OverSettle | Repeated | LimitExceeded | CashOverdue

  /** The rows: boxes, entries, orders, and the limits set for single drivers. */
  datatype Cash = Cash(
    boxes: map<Driver, int>, entries: seq<Entry>, orders: map<OrderId, Order>, overrides: map<Driver, int>)

  // ---------------------------------------------------------------------------------------
  // Sums
  // ---------------------------------------------------------------------------------------

  function Held(c: Cash, d: Driver): int {
    if d in c.boxes then c.boxes[d] else 0
  }

  function Sum(entries: seq<Entry>, d: Driver): int {
    if entries == [] then 0
    else
      var e := entries[|entries| - 1];
      (if e.driver == d then e.amount else 0) + Sum(entries[..|entries| - 1], d)
  }

  /** The sum of a driver's entries of one kind for one order. */
  function SumFor(entries: seq<Entry>, d: Driver, kind: Kind, o: OrderId): int {
    if entries == [] then 0
    else
      var e := entries[|entries| - 1];
      (if e.driver == d && e.kind == kind && e.ref == Some(o) then e.amount else 0) +
      SumFor(entries[..|entries| - 1], d, kind, o)
  }

  /** The cash of the orders of a set that are open and with the driver. */
  function Due(orders: map<OrderId, Order>, d: Driver, ids: set<OrderId>): nat
    requires ids <= orders.Keys
  {
    if ids == {} then 0
    else
      var o := Least(ids);
      DueOf(orders[o], d) + Due(orders, d, ids - {o})
  }

  function DueOf(o: Order, d: Driver): nat {
    if o.open && o.driver == Some(d) then o.cashDue else 0
  }

  ghost predicate IsLeast(m: int, ids: set<int>) {
    m in ids && forall x :: x in ids ==> m <= x
  }

  function Least(ids: set<int>): (m: int)
    requires ids != {}
    ensures IsLeast(m, ids)
  {
    HasLeast(ids);
    var m :| m in ids && forall x :: x in ids ==> m <= x;
    m
  }

  lemma Member<T>(s: set<T>) returns (x: T)
    requires s != {}
    ensures x in s
  {
    x :| x in s;
  }

  lemma {:induction false} HasLeast(ids: set<int>)
    requires ids != {}
    ensures exists m :: m in ids && forall x :: x in ids ==> m <= x
  {
    var y := Member(ids);
    var rest := ids - {y};
    if rest == {} {
      assert ids == {y};
    } else {
      HasLeast(rest);
      var m: int :| m in rest && forall x :: x in rest ==> m <= x;
      var n := if m <= y then m else y;
      forall x | x in ids
        ensures n <= x
      {
        assert x == y || x in rest;
      }
    }
  }

  /** Exposure: what the driver holds and what he is yet to collect. */
  function Exposure(c: Cash, d: Driver): int {
    Held(c, d) + Due(c.orders, d, c.orders.Keys)
  }

  lemma {:induction false} SumAppends(entries: seq<Entry>, e: Entry, d: Driver)
    ensures Sum(entries + [e], d) == Sum(entries, d) + if e.driver == d then e.amount else 0
  {
    assert (entries + [e])[..|entries|] == entries;
  }

  lemma SumForAppends(entries: seq<Entry>, e: Entry, d: Driver, kind: Kind, o: OrderId)
    ensures SumFor(entries + [e], d, kind, o) ==
              SumFor(entries, d, kind, o) + if e.driver == d && e.kind == kind && e.ref == Some(o) then e.amount else 0
  {
    assert (entries + [e])[..|entries|] == entries;
  }

  /** One order more in the sum. */
  lemma {:induction false} DueWith(orders: map<OrderId, Order>, d: Driver, ids: set<OrderId>, o: OrderId)
    requires ids <= orders.Keys && o in ids
    ensures Due(orders, d, ids) == DueOf(orders[o], d) + Due(orders, d, ids - {o})
    decreases |ids|
  {
    var m := Least(ids);
    if m != o {
      DueWith(orders, d, ids - {m}, o);
      var rest := ids - {o};
      assert m in rest && Least(rest) in ids;
      assert Least(rest) == m;
      assert ids - {m} - {o} == rest - {m};
    }
  }

  lemma {:induction false} DueSame(
    orders: map<OrderId, Order>, orders': map<OrderId, Order>, d: Driver, ids: set<OrderId>)
    requires ids <= orders.Keys && ids <= orders'.Keys
    requires forall o :: o in ids ==> DueOf(orders'[o], d) == DueOf(orders[o], d)
    ensures Due(orders', d, ids) == Due(orders, d, ids)
    decreases |ids|
  {
    if ids != {} {
      DueSame(orders, orders', d, ids - {Least(ids)});
    }
  }

  /** An order changes, or is new; the driver's open cash changes by what it is to him. */
  lemma DueChanges(orders: map<OrderId, Order>, o: OrderId, row: Order, d: Driver)
    ensures var after := orders[o := row];
            Due(after, d, after.Keys) ==
              Due(orders, d, orders.Keys) - (if o in orders then DueOf(orders[o], d) else 0) + DueOf(row, d)
  {
    var after := orders[o := row];
    var rest := orders.Keys - {o};
    assert after.Keys - {o} == rest;
    DueWith(after, d, after.Keys, o);
    DueSame(orders, after, d, rest);
    if o in orders {
      DueWith(orders, d, orders.Keys, o);
    } else {
      assert orders.Keys == rest;
    }
  }

  // ---------------------------------------------------------------------------------------
  // Movements
  // ---------------------------------------------------------------------------------------

  /** The unique indexes: a waiver and a return once per order, a reversal once per order and driver. */
  predicate Repeats(entries: seq<Entry>, e: Entry) {
    && (e.kind == CommissionWaived || e.kind == RecipientCashReturned || e.kind == CollectionReversed)
    && exists i :: 0 <= i < |entries| && entries[i].kind == e.kind && entries[i].ref == e.ref
                   && (e.kind == CollectionReversed ==> entries[i].driver == e.driver)
  }

  /** A movement, or why it is refused. */
  function Moved(c: Cash, e: Entry): Result<Cash, CashError> {
    if Held(c, e.driver) + e.amount < 0 then Err(OverSettle)
    else if Repeats(c.entries, e) then Err(Repeated)
    else Ok(c.(boxes := c.boxes[e.driver := Held(c, e.driver) + e.amount], entries := c.entries + [e]))
  }

  function Collected(c: Cash, d: Driver, amount: int, o: OrderId, now: int): Result<Cash, CashError> {
    if amount <= 0 then Ok(c) else Moved(c, Entry(d, amount, OrderCollection, Some(o), now))
  }

  function Taken(c: Cash, d: Driver, amount: int, kind: Kind, ref: Option<OrderId>, now: int): Result<Cash, CashError> {
    if amount <= 0 then Err(OverSettle) else Moved(c, Entry(d, -amount, kind, ref, now))
  }

  // ---------------------------------------------------------------------------------------
  // The guard
  // ---------------------------------------------------------------------------------------

  /** The limit in force for a driver: his own, or the general one. */
  function LimitFor(c: Cash, d: Driver, limit: int): int {
    if d in c.overrides then c.overrides[d] else limit
  }

  /** driver_cash_overdue_stopped: no cutoff when the stop is switched off. */
  predicate Stopped(c: Cash, d: Driver, cutoff: Option<int>) {
    cutoff.Some? && OldestUnpaid(c.entries, d).Some? && OldestUnpaid(c.entries, d).value < cutoff.value
  }

  function Guarded(c: Cash, d: Driver, incoming: int, limit: int, cutoff: Option<int>): Result<(), CashError> {
    if incoming <= 0 then Ok(())
    else if Exposure(c, d) + incoming > LimitFor(c, d, limit) then Err(LimitExceeded)
    else if Stopped(c, d, cutoff) then Err(CashOverdue)
    else Ok(())
  }

  // ---------------------------------------------------------------------------------------
  // The oldest cash not handed over (driver_cash_oldest_unpaid)
  // ---------------------------------------------------------------------------------------

  /** What went out of a driver's box. */
  function Paid(entries: seq<Entry>, d: Driver): nat {
    if entries == [] then 0
    else
      var e := entries[|entries| - 1];
      (if e.driver == d && e.amount < 0 then -e.amount else 0) + Paid(entries[..|entries| - 1], d)
  }

  /** What came into a driver's box up to a time: the running total at the last receipt of that time, in whatever
      order the receipts of one time are. */
  function Received(entries: seq<Entry>, d: Driver, t: int): nat {
    if entries == [] then 0
    else
      var e := entries[|entries| - 1];
      (if IsReceipt(e, d) && e.at <= t then e.amount else 0) + Received(entries[..|entries| - 1], d, t)
  }

  predicate IsReceipt(e: Entry, d: Driver) {
    e.driver == d && e.amount > 0
  }

  /** The earliest of some receipts at which the running total of all receipts passes `paid`. */
  function EarliestPast(entries: seq<Entry>, all: seq<Entry>, d: Driver, paid: int): Option<int> {
    if entries == [] then None
    else
      var before := EarliestPast(entries[..|entries| - 1], all, d, paid);
      var e := entries[|entries| - 1];
      if IsReceipt(e, d) && Received(all, d, e.at) > paid && (before.None? || e.at < before.value) then Some(e.at)
      else before
  }

  function OldestUnpaid(entries: seq<Entry>, d: Driver): Option<int> {
    EarliestPast(entries, entries, d, Paid(entries, d))
  }
}
