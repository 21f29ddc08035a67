/** Every run of admissions, deliveries, settlements, waivers and reversals, with admissions that read under a
    driver's lock and write later (AdmitDriverTx in backend/internal/orders/admission.go). */
module CashRuns {
  import opened Common
  import opened Cashbox
  import opened CashAge
  import CashDesk

  /** An admission that has passed the guard and holds the driver's lock and the order's row. */
  datatype Lock = Lock(order: OrderId, limit: int)

  datatype World = World(cash: Cash, locks: map<Driver, Lock>)

  datatype Step =
    | NewOrder(o: OrderId, cashDue: nat)
    /** The guard passes: the lock is taken and held. */
    | Admit(d: Driver, o: OrderId, limit: int, cutoff: Option<int>)
    /** The order is written to the driver and the lock falls. */
    | Assign(d: Driver)
    | GiveUp(d: Driver)
    /** The order leaves its driver. */
    | Unassign(o: OrderId)
    /** The order closes; a delivered one puts its cash, less what its driver paid out for it, into his box. */
    | Close(o: OrderId, delivered: bool, paidOut: nat, now: int)
    | Settle(d: Driver, amount: int, now: int)
    | Waive(d: Driver, amount: int, o: OrderId, now: int)
    | GiveBack(d: Driver, amount: int, o: OrderId, now: int)
    /** A delivery written by mistake: what the box still holds of its collection goes out again. */
    | Reverse(d: Driver, o: OrderId, now: int)
    | SetLimit(d: Driver, own: Option<int>)

  predicate RowLocked(locks: map<Driver, Lock>, o: OrderId) {
    exists d :: d in locks && locks[d].order == o
  }

  function WithCash(w: World, r: Result<Cash, CashError>): World {
    if r.Ok? then w.(cash := r.value) else w
  }

  function WithRow(c: Cash, o: OrderId, row: Order): Cash {
    c.(orders := c.orders[o := row])
  }

  /** The driver's share of an order's cash: what he collected less what he paid out, never below zero. */
  function Collectable(cashDue: nat, paidOut: nat): nat {
    if cashDue > paidOut then cashDue - paidOut else 0
  }

  function Closed(w: World, o: OrderId, delivered: bool, paidOut: nat, now: int): World {
    if o !in w.cash.orders || !w.cash.orders[o].open || RowLocked(w.locks, o) then w
    else
      var row := w.cash.orders[o];
      var c := WithRow(w.cash, o, row.(open := false));
      if !delivered || row.driver.None? then w.(cash := c)
      else WithCash(w, Collected(c, row.driver.value, Collectable(row.cashDue, paidOut), o, now))
  }

  function Reversed(c: Cash, d: Driver, o: OrderId, now: int): Result<Cash, CashError> {
    var collected := SumFor(c.entries, d, OrderCollection, o);
    Taken(c, d, if Held(c, d) < collected then Held(c, d) else collected, CollectionReversed, Some(o), now)
  }

  function Do(w: World, s: Step): World {
    match s
    case NewOrder(o, cashDue) =>
      if o in w.cash.orders then w else w.(cash := WithRow(w.cash, o, Order(None, cashDue, true)))
    case Admit(d, o, limit, cutoff) =>
      if d in w.locks || o !in w.cash.orders || !w.cash.orders[o].open || w.cash.orders[o].driver.Some?
         || RowLocked(w.locks, o) || Guarded(w.cash, d, w.cash.orders[o].cashDue, limit, cutoff).Err? then w
      else w.(locks := w.locks[d := Lock(o, LimitFor(w.cash, d, limit))])
    case Assign(d) =>
      if d in w.locks && w.locks[d].order in w.cash.orders then
        var o := w.locks[d].order;
        World(WithRow(w.cash, o, w.cash.orders[o].(driver := Some(d))), w.locks - {d})
      else w
    case GiveUp(d) => w.(locks := w.locks - {d})
    case Unassign(o) =>
      if o !in w.cash.orders || RowLocked(w.locks, o) then w
      else w.(cash := WithRow(w.cash, o, w.cash.orders[o].(driver := None)))
    case Close(o, delivered, paidOut, now) => Closed(w, o, delivered, paidOut, now)
    case Settle(d, amount, now) => WithCash(w, Taken(w.cash, d, amount, Settlement, None, now))
    case Waive(d, amount, o, now) => WithCash(w, Taken(w.cash, d, amount, CommissionWaived, Some(o), now))
    case GiveBack(d, amount, o, now) => WithCash(w, Taken(w.cash, d, amount, RecipientCashReturned, Some(o), now))
    case Reverse(d, o, now) => WithCash(w, Reversed(w.cash, d, o, now))
    case SetLimit(d, limit) =>
      var overrides := w.cash.overrides;
      w.(cash := w.cash.(overrides := if limit.Some? then overrides[d := limit.value] else overrides - {d}))
  }

  // ---------------------------------------------------------------------------------------
  // What a step changes: each lock, order, limit and box, after any step
  // ---------------------------------------------------------------------------------------

  /** The order can be written to the driver: open, with nobody, its row and he both unlocked, and its cash, where it
      brings any, within his limit and not stopped by a receipt left from before the cutoff. */
  ghost predicate Admissible(w: World, d: Driver, o: OrderId, limit: int, cutoff: Option<int>) {
    && d !in w.locks && (forall k :: k in w.locks ==> w.locks[k].order != o)
    && o in w.cash.orders && w.cash.orders[o].open && w.cash.orders[o].driver == None
    && var due := w.cash.orders[o].cashDue;
       (due > 0 ==>
          && Exposure(w.cash, d) + due <= (if d in w.cash.overrides then w.cash.overrides[d] else limit)
          && (cutoff.Some? ==> !LeftFromBefore(w.cash.entries, d, cutoff.value)))
  }

  /** An admission takes a driver's lock with his limit of the moment; writing the order or giving up drops it. */
  lemma LockAfter(w: World, s: Step, d: Driver)
    ensures var v := Do(w, s);
            if s.Admit? && s.d == d && Admissible(w, d, s.o, s.limit, s.cutoff) then
              d in v.locks && v.locks[d].order == s.o
              && v.locks[d].limit == (if d in w.cash.overrides then w.cash.overrides[d] else s.limit)
            else if s == GiveUp(d) || (s == Assign(d) && d in w.locks && w.locks[d].order in w.cash.orders) then
              d !in v.locks
            else (d in v.locks <==> d in w.locks) && (d in w.locks ==> v.locks[d] == w.locks[d])
  {
    hide Exposure, OldestUnpaid, LeftFromBefore, Taken, Collected, SumFor, Held;
    if s.Admit? && s.cutoff.Some? {
      OverdueMeans(w.cash.entries, s.d, s.cutoff.value);
    }
  }

  /** An order appears with nobody; it is with a driver once the holder of its lock writes it to him, until it leaves
      him; it is open until it closes; its cash stays. */
  lemma OrderAfter(w: World, s: Step, o: OrderId)
    requires forall d :: Held(w.cash, d) >= 0
    ensures var was, now := w.cash.orders, Do(w, s).cash.orders;
            var locked := exists k :: k in w.locks && w.locks[k].order == o;
            && (o !in was ==> if s.NewOrder? && s.o == o then o in now && now[o] == Order(None, s.cashDue, true)
                              else o !in now)
            && (o in was ==>
                  && o in now && now[o].cashDue == was[o].cashDue
                  && (now[o].open <==> was[o].open && !(s.Close? && s.o == o && !locked))
                  && now[o].driver ==
                       if s.Assign? && s.d in w.locks && w.locks[s.d].order == o then Some(s.d)
                       else if s == Unassign(o) && !locked then None
                       else was[o].driver)
  {
    hide Exposure, OldestUnpaid, SumFor, Guarded;
    if s.Close? && s.o in w.cash.orders && w.cash.orders[s.o].driver.Some? {
      assert Held(w.cash, w.cash.orders[s.o].driver.value) >= 0;
    }
  }

  /** A driver's own limit is what was last set. */
  lemma LimitAfter(w: World, s: Step, d: Driver)
    ensures var was, now := w.cash.overrides, Do(w, s).cash.overrides;
            if s.SetLimit? && s.d == d then
              (d in now <==> s.own.Some?) && (s.own.Some? ==> now[d] == s.own.value)
            else (d in now <==> d in was) && (d in was ==> now[d] == was[d])
  {
    hide Exposure, OldestUnpaid, SumFor, Held, Repeats, Guarded;
  }

  /** A movement asked for in a step, accepted or not. */
  ghost predicate Asked(c: Cash, c': Cash, d: Driver, amount: int, kind: Kind, ref: Option<OrderId>, now: int) {
    exists error :: CashDesk.Movement(c, c', d, amount, kind, ref, now, error)
  }

  ghost predicate SameMoney(c: Cash, c': Cash) {
    c'.boxes == c.boxes && c'.entries == c.entries
  }

  lemma TakenIsAsked(c: Cash, d: Driver, amount: int, kind: Kind, ref: Option<OrderId>, now: int)
    ensures var r := Taken(c, d, amount, kind, ref, now); var c' := if r.Ok? then r.value else c;
            if amount > 0 then Asked(c, c', d, -amount, kind, ref, now) else c' == c
  {
    hide Moved, CashDesk.Movement;
    if amount > 0 {
      CashDesk.MovedMeans(c, Entry(d, -amount, kind, ref, now));
    }
  }

  /** Cash moves when it is settled, waived, given back or reversed, and when an order with a driver is delivered. */
  lemma MoneyAfter(w: World, s: Step)
    ensures var c, c' := w.cash, Do(w, s).cash;
            match s
            case Settle(d, amount, now) =>
              if amount > 0 then Asked(c, c', d, -amount, Settlement, None, now) else c' == c
            case Waive(d, amount, o, now) =>
              if amount > 0 then Asked(c, c', d, -amount, CommissionWaived, Some(o), now) else c' == c
            case GiveBack(d, amount, o, now) =>
              if amount > 0 then Asked(c, c', d, -amount, RecipientCashReturned, Some(o), now) else c' == c
            case Reverse(d, o, now) =>
              var held, collected := Held(c, d), SumFor(c.entries, d, OrderCollection, o);
              if held > 0 && collected > 0 then
                Asked(c, c', d, if held <= collected then -held else -collected, CollectionReversed, Some(o), now)
              else c' == c
            case Close(o, delivered, _, _) =>
              (delivered && o in c.orders && c.orders[o].driver.Some?) || SameMoney(c, c')
            case _ => SameMoney(c, c')
  {
    hide Taken, Collected, Asked, Guarded, RowLocked, Held, SumFor;
    match s
    case Settle(d, amount, now) => TakenIsAsked(w.cash, d, amount, Settlement, None, now);
    case Waive(d, amount, o, now) => TakenIsAsked(w.cash, d, amount, CommissionWaived, Some(o), now);
    case GiveBack(d, amount, o, now) => TakenIsAsked(w.cash, d, amount, RecipientCashReturned, Some(o), now);
    case Reverse(d, o, now) =>
      var held, collected := Held(w.cash, d), SumFor(w.cash.entries, d, OrderCollection, o);
      TakenIsAsked(w.cash, d, if held < collected then held else collected, CollectionReversed, Some(o), now);
    case _ =>
  }

  // ---------------------------------------------------------------------------------------
  // The ledger
  // ---------------------------------------------------------------------------------------

  ghost predicate BoxOk(c: Cash, d: Driver) {
    Held(c, d) == Sum(c.entries, d) && NeverOverdrawn(c.entries, d)
  }

  ghost predicate ReversalOk(c: Cash, d: Driver, o: OrderId) {
    0 <= -SumFor(c.entries, d, CollectionReversed, o) <= SumFor(c.entries, d, OrderCollection, o)
    && (SumFor(c.entries, d, CollectionReversed, o) != 0 ==>
          exists e :: e in c.entries && e.kind == CollectionReversed && e.driver == d && e.ref == Some(o))
  }

  /** The sign of an entry is that of its kind. */
  predicate SignOk(e: Entry) {
    if e.kind == OrderCollection then e.amount > 0 else e.amount < 0
  }

  /** No order is waived or returned twice, nor reversed twice for one driver. */
  predicate OnceOk(entries: seq<Entry>) {
    forall i, j :: 0 <= i < j < |entries| && entries[i].kind == entries[j].kind && entries[i].ref == entries[j].ref ==>
                     match entries[i].kind
                     case OrderCollection => true
                     case Settlement => true
                     case CollectionReversed => entries[i].driver != entries[j].driver
                     case _ => false
  }

  /** Every box is the sum of its driver's entries and was never below zero; every entry has its sign; what is
      reversed of an order was collected for it; and nothing is waived, returned or reversed twice. */
  ghost predicate LedgerOk(c: Cash) {
    && (forall d :: BoxOk(c, d)) && (forall d, o :: ReversalOk(c, d, o))
    && (forall e :: e in c.entries ==> SignOk(e)) && OnceOk(c.entries)
  }

  /** One movement more. */
  ghost predicate IsMoved(c: Cash, c': Cash, e: Entry) {
    Moved(c, e) == Ok(c') && SignOk(e)
    && (e.kind == CollectionReversed ==>
          e.ref.Some? && -e.amount <= SumFor(c.entries, e.driver, OrderCollection, e.ref.value))
  }

  lemma MovedBox(c: Cash, c': Cash, e: Entry, d: Driver)
    requires BoxOk(c, d) && Moved(c, e) == Ok(c')
    ensures BoxOk(c', d)
  {
    hide Repeats;
    SumAppends(c.entries, e, d);
    forall n | 0 <= n <= |c'.entries|
      ensures Sum(c'.entries[..n], d) >= 0
    {
      if n <= |c.entries| {
        assert c'.entries[..n] == c.entries[..n];
      } else {
        assert c'.entries[..n] == c'.entries;
        assert c.entries[..|c.entries|] == c.entries;
      }
    }
  }

  lemma MovedReversal(c: Cash, c': Cash, e: Entry, d: Driver, o: OrderId)
    requires ReversalOk(c, d, o) && IsMoved(c, c', e)
    ensures ReversalOk(c', d, o)
  {
    SumForAppends(c.entries, e, d, CollectionReversed, o);
    SumForAppends(c.entries, e, d, OrderCollection, o);
    assert e in c'.entries;
  }

  lemma MovedOnce(c: Cash, c': Cash, e: Entry)
    requires OnceOk(c.entries) && Moved(c, e) == Ok(c')
    ensures OnceOk(c'.entries)
  {
    var n := |c.entries|;
    assert c'.entries[n] == e && forall i :: 0 <= i < n ==> c'.entries[i] == c.entries[i];
    assert !Repeats(c.entries, e);
  }

  lemma MovedKeeps(c: Cash, c': Cash, e: Entry)
    requires LedgerOk(c) && IsMoved(c, c', e)
    ensures LedgerOk(c')
  {
    MovedOnce(c, c', e);
    hide BoxOk, ReversalOk, Repeats, OnceOk;
    forall d ensures BoxOk(c', d) { MovedBox(c, c', e, d); }
    forall d, o ensures ReversalOk(c', d, o) { MovedReversal(c, c', e, d, o); }
  }

  /** Steps that leave boxes and entries alone. */
  lemma SameLedger(c: Cash, c': Cash)
    requires LedgerOk(c) && c'.boxes == c.boxes && c'.entries == c.entries
    ensures LedgerOk(c')
  {
    assert forall d :: BoxOk(c, d) ==> BoxOk(c', d);
    assert forall d, o :: ReversalOk(c, d, o) ==> ReversalOk(c', d, o);
  }

  lemma TakenKeeps(c: Cash, d: Driver, amount: int, kind: Kind, ref: Option<OrderId>, now: int)
    requires LedgerOk(c) && kind != OrderCollection && Taken(c, d, amount, kind, ref, now).Ok?
    requires kind == CollectionReversed ==> ref.Some? && amount <= SumFor(c.entries, d, OrderCollection, ref.value)
    ensures LedgerOk(Taken(c, d, amount, kind, ref, now).value)
  {
    hide LedgerOk, Moved;
    MovedKeeps(c, Taken(c, d, amount, kind, ref, now).value, Entry(d, -amount, kind, ref, now));
  }

  lemma CollectedKeeps(c: Cash, d: Driver, amount: int, o: OrderId, now: int)
    requires LedgerOk(c) && Collected(c, d, amount, o, now).Ok?
    ensures LedgerOk(Collected(c, d, amount, o, now).value)
  {
    hide LedgerOk, Moved;
    if amount > 0 {
      MovedKeeps(c, Collected(c, d, amount, o, now).value, Entry(d, amount, OrderCollection, Some(o), now));
    }
  }

  lemma StepKeepsLedger(w: World, s: Step)
    requires LedgerOk(w.cash)
    ensures LedgerOk(Do(w, s).cash)
  {
    hide LedgerOk, Taken, Collected, Guarded, RowLocked, Held, SumFor;
    var c, c' := w.cash, Do(w, s).cash;
    if s.Settle? {
      if c' != c {
        TakenKeeps(c, s.d, s.amount, Settlement, None, s.now);
      }
    } else if s.Waive? {
      if c' != c {
        TakenKeeps(c, s.d, s.amount, CommissionWaived, Some(s.o), s.now);
      }
    } else if s.GiveBack? {
      if c' != c {
        TakenKeeps(c, s.d, s.amount, RecipientCashReturned, Some(s.o), s.now);
      }
    } else if s.Reverse? {
      if c' != c {
        var collected := SumFor(c.entries, s.d, OrderCollection, s.o);
        var amount := if Held(c, s.d) < collected then Held(c, s.d) else collected;
        TakenKeeps(c, s.d, amount, CollectionReversed, Some(s.o), s.now);
      }
    } else if s.Close? {
      CloseKeepsLedger(w, s);
    } else {
      SameLedger(c, c');
    }
  }

  lemma CloseKeepsLedger(w: World, s: Step)
    requires LedgerOk(w.cash) && s.Close?
    ensures LedgerOk(Do(w, s).cash)
  {
    hide LedgerOk, Collected, RowLocked;
    if s.o in w.cash.orders {
      var row := w.cash.orders[s.o];
      var c := WithRow(w.cash, s.o, row.(open := false));
      SameLedger(w.cash, c);
      if row.driver.Some? && Collected(c, row.driver.value, Collectable(row.cashDue, s.paidOut), s.o, s.now).Ok? {
        CollectedKeeps(c, row.driver.value, Collectable(row.cashDue, s.paidOut), s.o, s.now);
      }
    }
  }

  // ---------------------------------------------------------------------------------------
  // Exposure
  // ---------------------------------------------------------------------------------------

  lemma RowExposure(c: Cash, o: OrderId, row: Order, d: Driver)
    ensures Exposure(WithRow(c, o, row), d) ==
        Exposure(c, d) - (if o in c.orders then DueOf(c.orders[o], d) else 0) + DueOf(row, d)
  {
    DueChanges(c.orders, o, row, d);
  }

  lemma MovedExposure(c: Cash, e: Entry, d: Driver)
    requires Moved(c, e).Ok?
    ensures Exposure(Moved(c, e).value, d) == Exposure(c, d) + if d == e.driver then e.amount else 0
  {
    hide Repeats, Due;
  }

  lemma CollectedExposure(c: Cash, d: Driver, amount: nat, o: OrderId, now: int, k: Driver)
    requires Collected(c, d, amount, o, now).Ok?
    ensures Exposure(Collected(c, d, amount, o, now).value, k) == Exposure(c, k) + if k == d then amount else 0
  {
    hide Moved, Exposure;
    if amount > 0 {
      MovedExposure(c, Entry(d, amount, OrderCollection, Some(o), now), k);
    }
  }

  lemma TakenExposure(c: Cash, d: Driver, amount: int, kind: Kind, ref: Option<OrderId>, now: int, k: Driver)
    requires Taken(c, d, amount, kind, ref, now).Ok?
    ensures Exposure(Taken(c, d, amount, kind, ref, now).value, k) <= Exposure(c, k)
  {
    hide Moved, Exposure;
    MovedExposure(c, Entry(d, -amount, kind, ref, now), k);
  }

  lemma CloseExposure(w: World, s: Step, d: Driver)
    requires s.Close?
    ensures Exposure(Do(w, s).cash, d) <= Exposure(w.cash, d)
  {
    hide Collected, RowLocked, Exposure;
    if s.o in w.cash.orders {
      var row := w.cash.orders[s.o];
      var c := WithRow(w.cash, s.o, row.(open := false));
      RowExposure(w.cash, s.o, row.(open := false), d);
      if row.driver.Some? && Collected(c, row.driver.value, Collectable(row.cashDue, s.paidOut), s.o, s.now).Ok? {
        CollectedExposure(c, row.driver.value, Collectable(row.cashDue, s.paidOut), s.o, s.now, d);
      }
    }
  }

  /** A delivery turns what is due of the order into what its driver holds, less what he paid out for it and never
      more than that; nobody else's cash moves, and it is never refused. */
  lemma DeliveryConserves(w: World, o: OrderId, paidOut: nat, now: int, k: Driver)
    requires o in w.cash.orders && w.cash.orders[o].open && !RowLocked(w.locks, o)
    requires w.cash.orders[o].driver.Some? && (forall d :: Held(w.cash, d) >= 0)
    ensures var c, c', row := w.cash, Do(w, Close(o, true, paidOut, now)).cash, w.cash.orders[o];
            && c'.orders == c.orders[o := row.(open := false)]
            && (k != row.driver.value ==> Held(c', k) == Held(c, k) && Exposure(c', k) == Exposure(c, k))
            && (k == row.driver.value ==>
                  if paidOut < row.cashDue then
                    Held(c', k) == Held(c, k) + row.cashDue - paidOut && Exposure(c', k) == Exposure(c, k) - paidOut
                  else
                    Held(c', k) == Held(c, k) && Exposure(c', k) == Exposure(c, k) - row.cashDue)
  {
    hide RowLocked, Due;
    var row := w.cash.orders[o];
    RowExposure(w.cash, o, row.(open := false), k);
    var c := WithRow(w.cash, o, row.(open := false));
    var amount := Collectable(row.cashDue, paidOut);
    assert Held(w.cash, row.driver.value) >= 0;
    if amount > 0 {
      MovedExposure(c, Entry(row.driver.value, amount, OrderCollection, Some(o), now), k);
    }
  }

  /** A reversal leaves the driver nothing of what was collected for the order, or nothing at all. */
  lemma ReversalTakesAll(c: Cash, d: Driver, o: OrderId, now: int)
    requires Reversed(c, d, o, now).Ok?
    requires !exists i :: 0 <= i < |c.entries| && c.entries[i].kind == CollectionReversed && c.entries[i].ref == Some(o)
                          && c.entries[i].driver == d
    ensures var c' := Reversed(c, d, o, now).value;
            && (Held(c', d) == 0
                || SumFor(c'.entries, d, OrderCollection, o) + SumFor(c'.entries, d, CollectionReversed, o) == 0)
            && Held(c', d) >= 0 && |c'.entries| == |c.entries| + 1
            && forall k :: k != d ==> Held(c', k) == Held(c, k)
  {
    var collected := SumFor(c.entries, d, OrderCollection, o);
    var e := Entry(d, -(if Held(c, d) < collected then Held(c, d) else collected), CollectionReversed, Some(o), now);
    SumForAppends(c.entries, e, d, OrderCollection, o);
    SumForAppends(c.entries, e, d, CollectionReversed, o);
    NoneReversed(c.entries, d, o);
  }

  lemma {:induction false} NoneReversed(entries: seq<Entry>, d: Driver, o: OrderId)
    requires !exists i :: 0 <= i < |entries| && entries[i].kind == CollectionReversed && entries[i].ref == Some(o)
                          && entries[i].driver == d
    ensures SumFor(entries, d, CollectionReversed, o) == 0
  {
    if entries != [] {
      var before := entries[..|entries| - 1];
      assert forall i :: 0 <= i < |before| ==> before[i] == entries[i];
      NoneReversed(before, d, o);
    }
  }

  /** Only writing an admitted order to its driver raises anybody's exposure: a delivery that collects no more
      than the order's cash, a settlement, a waiver, a return or a reversal never does. */
  lemma OnlyAssignRaises(w: World, s: Step, d: Driver)
    requires !s.Assign?
    ensures Exposure(Do(w, s).cash, d) <= Exposure(w.cash, d)
  {
    hide Taken, Collected, Guarded, RowLocked, Held, SumFor, Due, Closed;
    if s.NewOrder? {
      RowExposure(w.cash, s.o, Order(None, s.cashDue, true), d);
    } else if s.Unassign? {
      if s.o in w.cash.orders {
        RowExposure(w.cash, s.o, w.cash.orders[s.o].(driver := None), d);
      }
    } else if s.Close? {
      CloseExposure(w, s, d);
    } else {
      MovementExposure(w, s, d);
    }
  }

  lemma MovementExposure(w: World, s: Step, d: Driver)
    requires !s.Assign? && !s.NewOrder? && !s.Unassign? && !s.Close?
    ensures Exposure(Do(w, s).cash, d) <= Exposure(w.cash, d)
  {
    hide Taken, Guarded, RowLocked, SumFor, Due;
    if s.Settle? {
      if Taken(w.cash, s.d, s.amount, Settlement, None, s.now).Ok? {
        TakenExposure(w.cash, s.d, s.amount, Settlement, None, s.now, d);
      }
    } else if s.Waive? {
      if Taken(w.cash, s.d, s.amount, CommissionWaived, Some(s.o), s.now).Ok? {
        TakenExposure(w.cash, s.d, s.amount, CommissionWaived, Some(s.o), s.now, d);
      }
    } else if s.GiveBack? {
      if Taken(w.cash, s.d, s.amount, RecipientCashReturned, Some(s.o), s.now).Ok? {
        TakenExposure(w.cash, s.d, s.amount, RecipientCashReturned, Some(s.o), s.now, d);
      }
    } else if s.Reverse? {
      var collected := SumFor(w.cash.entries, s.d, OrderCollection, s.o);
      var take := if Held(w.cash, s.d) < collected then Held(w.cash, s.d) else collected;
      if Taken(w.cash, s.d, take, CollectionReversed, Some(s.o), s.now).Ok? {
        TakenExposure(w.cash, s.d, take, CollectionReversed, Some(s.o), s.now, d);
      }
    }
  }

  // ---------------------------------------------------------------------------------------
  // Admissions
  // ---------------------------------------------------------------------------------------

  /** A held lock: its order is open and with nobody, and fits under the limit. */
  ghost predicate LockOk(w: World, d: Driver)
    requires d in w.locks
  {
    var l := w.locks[d];
    && l.order in w.cash.orders && w.cash.orders[l.order].open && w.cash.orders[l.order].driver.None?
    && (w.cash.orders[l.order].cashDue > 0 ==> Exposure(w.cash, d) + w.cash.orders[l.order].cashDue <= l.limit)
  }

  ghost predicate LocksOk(w: World) {
    && (forall d :: d in w.locks ==> LockOk(w, d))
    && forall d, e :: d in w.locks && e in w.locks && w.locks[d].order == w.locks[e].order ==> d == e
  }

  lemma LockStays(w: World, s: Step, d: Driver)
    requires d in w.locks && LockOk(w, d) && !s.Assign? && d in Do(w, s).locks
    ensures Do(w, s).locks[d] == w.locks[d] && LockOk(Do(w, s), d)
  {
    hide Exposure, Taken, Guarded, SumFor, Held, Collected;
    OnlyAssignRaises(w, s, d);
    assert RowLocked(w.locks, w.locks[d].order);
    LockedRowStays(w, s, w.locks[d].order);
  }

  /** Nobody but the holder touches a locked row. */
  lemma LockedRowStays(w: World, s: Step, o: OrderId)
    requires RowLocked(w.locks, o) && o in w.cash.orders && !s.Assign?
    ensures var c := Do(w, s).cash; o in c.orders && c.orders[o] == w.cash.orders[o]
  {
    hide RowLocked, Guarded, SumFor, Held, Repeats;
  }

  lemma AdmitKeepsLocks(w: World, s: Step)
    requires LocksOk(w) && s.Admit?
    ensures LocksOk(Do(w, s))
  {
    hide Exposure, Stopped;
    var w' := Do(w, s);
    assert forall d :: d in w.locks ==> RowLocked(w.locks, w.locks[d].order);
    forall d | d in w'.locks
      ensures LockOk(w', d)
    {
      assert d in w.locks ==> LockOk(w, d);
    }
  }

  lemma StepKeepsLocks(w: World, s: Step)
    requires LocksOk(w)
    ensures LocksOk(Do(w, s))
  {
    hide LockOk, Guarded, RowLocked, Taken, Collected, Held, SumFor;
    if s.Admit? {
      AdmitKeepsLocks(w, s);
    } else if s.Assign? {
      AssignKeepsLocks(w, s.d);
    } else {
      forall d | d in Do(w, s).locks
        ensures LockOk(Do(w, s), d)
      {
        LockStays(w, s, d);
      }
    }
  }

  /** Another driver's exposure stays when an order is written to one driver. */
  lemma AssignKeepsLocks(w: World, d: Driver)
    requires LocksOk(w)
    ensures LocksOk(Do(w, Assign(d)))
  {
    hide Exposure, Guarded;
    var w' := Do(w, Assign(d));
    forall k | k in w'.locks
      ensures LockOk(w', k)
    {
      assert LockOk(w, k);
      if d in w.locks && w.locks[d].order in w.cash.orders {
        var o := w.locks[d].order;
        RowExposure(w.cash, o, w.cash.orders[o].(driver := Some(d)), k);
        assert k != d && LockOk(w, d);
      }
    }
  }

  // ---------------------------------------------------------------------------------------
  // Runs
  // ---------------------------------------------------------------------------------------

  ghost predicate CashRun(worlds: seq<World>, steps: seq<Step>) {
    && |worlds| == |steps| + 1
    && worlds[0] == World(Cash(map[], [], map[], map[]), map[])
    && forall i :: 0 <= i < |steps| ==> worlds[i + 1] == Do(worlds[i], steps[i])
  }

  lemma EmptyLedger(c: Cash)
    requires c == Cash(map[], [], map[], map[])
    ensures LedgerOk(c)
  {
    assert forall d :: BoxOk(c, d);
    assert forall d, o :: ReversalOk(c, d, o);
  }

  /** In every run each box is the sum of its driver's entries and never below zero, and no more of an order
      is reversed than was collected for it. */
  lemma {:induction false} RunKeepsLedger(worlds: seq<World>, steps: seq<Step>, n: nat)
    requires CashRun(worlds, steps) && n < |worlds|
    ensures LedgerOk(worlds[n].cash) && LocksOk(worlds[n])
  {
    hide Do, BoxOk, ReversalOk, LockOk, SignOk, OnceOk;
    if n > 0 {
      RunKeepsLedger(worlds, steps, n - 1);
      StepKeepsLedger(worlds[n - 1], steps[n - 1]);
      StepKeepsLocks(worlds[n - 1], steps[n - 1]);
    } else {
      EmptyLedger(worlds[0].cash);
    }
  }

  /** However the steps of others interleave with it, an admission that read under the driver's lock leaves him
      within the limit in force when it read. */
  lemma AdmissionsAreWithinLimit(worlds: seq<World>, steps: seq<Step>, n: nat)
    requires CashRun(worlds, steps) && n < |steps| && steps[n].Assign? && steps[n].d in worlds[n].locks
    ensures var d, l := steps[n].d, worlds[n].locks[steps[n].d];
            && l.order in worlds[n].cash.orders
            && worlds[n + 1].cash.orders[l.order].driver == Some(d)
            && (worlds[n].cash.orders[l.order].cashDue > 0 ==> Exposure(worlds[n + 1].cash, d) <= l.limit)
  {
    hide Exposure, LedgerOk;
    RunKeepsLedger(worlds, steps, n);
    var w, d := worlds[n], steps[n].d;
    assert LockOk(w, d);
    RowExposure(w.cash, w.locks[d].order, w.cash.orders[w.locks[d].order].(driver := Some(d)), d);
  }

  /** The age of the cash of every reachable ledger is that of its oldest receipt, by time, not paid off; and where a
      driver's receipts are entered in the order of time, of the first one left when they are paid off entry by
      entry. */
  lemma AgeOverRuns(worlds: seq<World>, steps: seq<Step>, n: nat, d: Driver)
    requires CashRun(worlds, steps) && n < |worlds|
    ensures var es := worlds[n].cash.entries;
            var left := Pay(ByTime(Lots(es, d)), Paid(es, d));
            && OldestUnpaid(es, d) == HeadTime(left) && Total(left) == Held(worlds[n].cash, d)
            && (Timed(Lots(es, d)) ==> OldestUnpaid(es, d) == HeadTime(Left(es, d)))
  {
    hide Do, OldestUnpaid, Left, Lots, ByTime, Pay, Paid, Total, HeadTime, Timed, CashRun;
    RunKeepsLedger(worlds, steps, n);
    var es := worlds[n].cash.entries;
    assert BoxOk(worlds[n].cash, d);
    assert es[..|es|] == es;
    OldestUnpaidIsFirstLeft(es, d);
    if Timed(Lots(es, d)) {
      OldestUnpaidIsFirstUnsettled(es, d);
    }
  }

  /** What two admissions leave when both read the guard before either writes. */
  function BothAdmitted(c: Cash, d: Driver, a: OrderId, b: OrderId): Cash
    requires a in c.orders && b in c.orders
  {
    WithRow(WithRow(c, a, c.orders[a].(driver := Some(d))), b, c.orders[b].(driver := Some(d)))
  }

  /** Without the driver's lock two admissions can read the same exposure. Two free orders that pass the guard one
      by one leave the driver above the limit exactly when they do not fit under it together. */
  lemma LockIsNeeded(c: Cash, d: Driver, a: OrderId, b: OrderId, limit: int, cutoff: Option<int>)
    requires a in c.orders && b in c.orders && a != b
    requires c.orders[a].open && c.orders[a].driver.None? && c.orders[b].open && c.orders[b].driver.None?
    requires Guarded(c, d, c.orders[a].cashDue, limit, cutoff).Ok? &&
        Guarded(c, d, c.orders[b].cashDue, limit, cutoff).Ok?
    ensures var both := BothAdmitted(c, d, a, b);
            Exposure(both, d) > LimitFor(both, d, limit) <==>
            Exposure(c, d) + c.orders[a].cashDue + c.orders[b].cashDue > LimitFor(c, d, limit)
  {
    hide Exposure, Guarded;
    var one := WithRow(c, a, c.orders[a].(driver := Some(d)));
    RowExposure(c, a, c.orders[a].(driver := Some(d)), d);
    RowExposure(one, b, c.orders[b].(driver := Some(d)), d);
  }

  /** It happens: two orders of 60 pass under a limit of 100 and leave 120. */
  lemma TwoOrdersOfSixty() returns (c: Cash, d: Driver, a: OrderId, b: OrderId)
    ensures a in c.orders && b in c.orders && a != b
    ensures Guarded(c, d, c.orders[a].cashDue, 100, None).Ok? && Guarded(c, d, c.orders[b].cashDue, 100, None).Ok?
    ensures Exposure(BothAdmitted(c, d, a, b), d) == 120
  {
    hide Due;
    d, a, b := 0, 1, 2;
    var row := Order(None, 60, true);
    var empty := Cash(map[], [], map[], map[]);
    var one := WithRow(empty, a, row);
    c := WithRow(one, b, row);
    NothingDue(empty, d);
    RowExposure(empty, a, row, d);
    RowExposure(one, b, row, d);
    RowExposure(c, a, row.(driver := Some(d)), d);
    RowExposure(WithRow(c, a, row.(driver := Some(d))), b, row.(driver := Some(d)), d);
  }

  lemma NothingDue(c: Cash, d: Driver)
    requires c == Cash(map[], [], map[], map[])
    ensures Exposure(c, d) == 0
  {
  }
}
