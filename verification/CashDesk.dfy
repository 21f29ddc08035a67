/** What the service does at the desk: movements of a driver's cash, and the guard
    (backend/internal/cashbox/cashbox.go and exposure.go). */
module CashDesk {
  import opened Common
  import opened Cashbox
  import opened CashAge

  /** Such a movement was booked before: a waiver or a return for the order, a reversal of it for the driver. */
  predicate BookedOnce(entries: seq<Entry>, driver: Driver, kind: Kind, ref: Option<OrderId>) {
    match kind
    case OrderCollection => false
    case Settlement => false
    case CollectionReversed =>
      exists i :: 0 <= i < |entries| && entries[i].kind == kind && entries[i].ref == ref && entries[i].driver == driver
    case _ => exists i :: 0 <= i < |entries| && entries[i].kind == kind && entries[i].ref == ref
  }

  /** A movement of a driver's cash: refused when it would overdraw his box or is booked once already, and otherwise
      in his box and at the end of the ledger, with nothing else changed. */
  predicate Movement(
    was: Cash, now: Cash, driver: Driver, amount: int, kind: Kind, ref: Option<OrderId>, at: int,
    error: Option<CashError>)
  {
    var held := if driver in was.boxes then was.boxes[driver] else 0;
    && (error == Some(OverSettle) <==> held + amount < 0)
    && (error == Some(Repeated) <==> held + amount >= 0 && BookedOnce(was.entries, driver, kind, ref))
    && (error.Some? ==> (error.value == OverSettle || error.value == Repeated) && now == was)
    && (error.None? ==>
          && now.boxes == was.boxes[driver := held + amount]
          && now.entries == was.entries + [Entry(driver, amount, kind, ref, at)]
          && now.orders == was.orders && now.overrides == was.overrides)
  }

  function ErrorOf<T>(r: Result<T, CashError>): Option<CashError> {
    if r.Ok? then None else Some(r.error)
  }

  lemma MovedMeans(c: Cash, e: Entry)
    ensures var out := Moved(c, e);
            Movement(c, if out.Ok? then out.value else c, e.driver, e.amount, e.kind, e.ref, e.at, ErrorOf(out))
  {
  }

  class CashDb {
    var boxes: map<Driver, int>
    var entries: seq<Entry>
    var orders: map<OrderId, Order>
    var overrides: map<Driver, int>

    function State(): Cash
      reads this
    {
      Cash(boxes, entries, orders, overrides)
    }

    constructor ()
      ensures State() == Cash(map[], [], map[], map[])
    {
      boxes, entries, orders, overrides := map[], [], map[], map[];
    }

    /** applyTx, and the rollback of its transaction when a constraint is violated. */
    method ApplyTx(driver: Driver, amount: int, kind: Kind, ref: Option<OrderId>, now: int)
      returns (r: Result<int, CashError>)
      requires amount != 0
      modifies this`boxes, this`entries
      ensures var out := Moved(old(State()), Entry(driver, amount, kind, ref, now));
              if out.Ok? then r == Ok(Held(out.value, driver)) && State() == out.value
              else r == Err(out.error) && State() == old(State())
      ensures Movement(old(State()), State(), driver, amount, kind, ref, now, ErrorOf(r))
      ensures r.Ok? ==> driver in boxes && r.value == boxes[driver]
    {
      MovedMeans(State(), Entry(driver, amount, kind, ref, now));
      hide BookedOnce;
      var before := boxes;
      if driver !in boxes {
        boxes := boxes[driver := 0];
      }
      boxes := boxes[driver := boxes[driver] + amount];
      var held := boxes[driver];
      if held < 0 {
        boxes := before;
        return Err(OverSettle);
      }
      var e := Entry(driver, amount, kind, ref, now);
      if Repeats(entries, e) {
        boxes := before;
        return Err(Repeated);
      }
      entries := entries + [e];
      assert boxes == before[driver := held];
      return Ok(held);
    }

    /** CollectTx: what was collected for the order comes in; nothing for an amount of zero or less. */
    method CollectTx(driver: Driver, amount: int, order: OrderId, now: int) returns (r: Result<(), CashError>)
      modifies this`boxes, this`entries
      ensures var out := Collected(old(State()), driver, amount, order, now);
              if out.Ok? then r == Ok(()) && State() == out.value else r == Err(out.error) && State() == old(State())
      ensures if amount <= 0 then r == Ok(()) && State() == old(State())
              else Movement(old(State()), State(), driver, amount, OrderCollection, Some(order), now, ErrorOf(r))
    {
      hide BookedOnce;
      if amount <= 0 {
        return Ok(());
      }
      var held := ApplyTx(driver, amount, OrderCollection, Some(order), now);
      return if held.Ok? then Ok(()) else Err(held.error);
    }

    /** WaiveCommissionTx, ReverseCollectionTx, SettleTx: a positive amount out of the box. */
    method TakeTx(driver: Driver, amount: int, kind: Kind, ref: Option<OrderId>, now: int)
      returns (r: Result<int, CashError>)
      modifies this`boxes, this`entries
      ensures var out := Taken(old(State()), driver, amount, kind, ref, now);
              if out.Ok? then r == Ok(Held(out.value, driver)) && State() == out.value
              else r == Err(out.error) && State() == old(State())
      ensures if amount <= 0 then r == Err(OverSettle) && State() == old(State())
              else Movement(old(State()), State(), driver, -amount, kind, ref, now, ErrorOf(r))
      ensures r.Ok? ==> driver in boxes && r.value == boxes[driver]
    {
      hide BookedOnce;
      if amount <= 0 {
        return Err(OverSettle);
      }
      r := ApplyTx(driver, -amount, kind, ref, now);
    }

    /** ReturnRecipientCashTx: nothing for an amount of zero or less. */
    method ReturnRecipientCashTx(driver: Driver, amount: int, order: OrderId, now: int)
      returns (r: Result<(), CashError>)
      modifies this`boxes, this`entries
      ensures var out :=
                if amount <= 0 then Ok(old(State()))
                else Taken(old(State()), driver, amount, RecipientCashReturned, Some(order), now);
              if out.Ok? then r == Ok(()) && State() == out.value else r == Err(out.error) && State() == old(State())
      ensures if amount <= 0 then r == Ok(()) && State() == old(State())
              else Movement(old(State()), State(), driver, -amount, RecipientCashReturned, Some(order), now, ErrorOf(r))
    {
      hide BookedOnce;
      if amount <= 0 {
        return Ok(());
      }
      var held := ApplyTx(driver, -amount, RecipientCashReturned, Some(order), now);
      return if held.Ok? then Ok(()) else Err(held.error);
    }

    /** GuardTx. */
    method GuardTx(driver: Driver, incoming: int, limit: int, cutoff: Option<int>) returns (r: Result<(), CashError>)
      ensures r == Guarded(State(), driver, incoming, limit, cutoff)
      ensures incoming <= 0 ==> r == Ok(())
      ensures incoming > 0 ==>
                var most := if driver in overrides then overrides[driver] else limit;
                var fits := Exposure(State(), driver) + incoming <= most;
                var overdue := cutoff.Some? && LeftFromBefore(entries, driver, cutoff.value);
                && (r == Ok(()) <==> fits && !overdue)
                && (r == Err(CashOverdue) <==> fits && overdue)
                && (r == Err(LimitExceeded) <==> !fits)
    {
      hide Exposure, OldestUnpaid, LeftFromBefore;
      if cutoff.Some? {
        OverdueMeans(entries, driver, cutoff.value);
      }
      if incoming <= 0 {
        return Ok(());
      }
      var current := Exposure(State(), driver);
      var most := limit;
      if driver in overrides {
        most := overrides[driver];
      }
      if current + incoming > most {
        return Err(LimitExceeded);
      }
      if cutoff.Some? {
        var oldest := OldestUnpaid(entries, driver);
        if oldest.Some? && oldest.value < cutoff.value {
          return Err(CashOverdue);
        }
      }
      return Ok(());
    }
  }
}
