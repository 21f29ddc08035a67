/** Changing many prices at once: the exchange rate (SetExchangeRate in backend/internal/catalog/usd.go)
    and the bulk change (BulkPrice in backend/internal/catalog/menu_tools.go). */
module Repricing {
  import opened Common
  import opened Money
  import opened Text
  import opened Menu
  import opened Dollars

  // ---------------------------------------------------------------------------------------
  // The exchange rate
  // ---------------------------------------------------------------------------------------

  const MAX_RATE := 1_000_000.0

  /** The value a numeric(14, 4) column keeps (migration 0429). */
  function Stored4(rate: real): real {
    Round(rate * 10_000.0) as real / 10_000.0
  }

  function RepricedChoice(rate: real, c: Choice): Choice {
    if c.cents.Some? then c.(delta := UsdToSyp(c.cents.value, rate)) else c
  }

  function RepricedGroup(rate: real, g: Group): (r: Group)
    ensures |r.choices| == |g.choices|
  {
    g.(choices := seq(|g.choices|, j requires 0 <= j < |g.choices| => RepricedChoice(rate, g.choices[j])))
  }

  function RepricedGroups(rate: real, groups: seq<Group>): (r: seq<Group>)
    ensures |r| == |groups|
    ensures forall i :: 0 <= i < |r| ==> r[i] == RepricedGroup(rate, groups[i])
  {
    seq(|groups|, i requires 0 <= i < |groups| => RepricedGroup(rate, groups[i]))
  }

  /** An item's own price, then its options, own and copied. */
  function RepricedPrice(rate: real, it: Item): Item {
    if it.cents.Some? then it.(price := UsdToSyp(it.cents.value, rate)) else it
  }

  function RepricedOptions(rate: real, it: Item): Item {
    it.(own := RepricedGroups(rate, it.own), copies := RepricedGroups(rate, it.copies))
  }

  function RepricedDrink(rate: real, d: Drink): Drink {
    if d.cents.Some? then d.(price := UsdToSyp(d.cents.value, rate)) else d
  }

  function RepricedItems(rate: real, items: seq<Item>): (r: seq<Item>)
    ensures |r| == |items|
    ensures forall i :: 0 <= i < |r| ==> r[i] == RepricedOptions(rate, RepricedPrice(rate, items[i]))
  {
    seq(|items|, i requires 0 <= i < |items| => RepricedOptions(rate, RepricedPrice(rate, items[i])))
  }

  function RepricedDrinks(rate: real, drinks: seq<Drink>): (r: seq<Drink>)
    ensures |r| == |drinks|
    ensures forall i :: 0 <= i < |r| ==> r[i] == RepricedDrink(rate, drinks[i])
  {
    seq(|drinks|, i requires 0 <= i < |drinks| => RepricedDrink(rate, drinks[i]))
  }

  predicate ValidRate(rate: Number) {
    rate.Finite? && 0.0 < rate.v <= MAX_RATE
  }

  function Gap(a: real, b: real): real {
    if b >= a then b - a else a - b
  }

  /** More than a tenth up or down. */
  predicate Jump(before: real, rate: real)
    requires before > 0.0
  {
    Gap(before, rate) / before > 0.1
  }

  /** What a change of the rate leaves: all dollar prices at the new rate, and the rate as its column keeps it. */
  function RateChanged(m: MenuState, rate: Number, confirm: bool): Result<MenuState, MenuError> {
    if !ValidRate(rate) then Err(RateInvalid)
    else if m.Rate() > 0.0 && !confirm && Jump(m.Rate(), rate.v) then Err(RateJump)
    else if Stored4(rate.v) <= 0.0 then Err(CheckViolated)
    else
      Ok(m.(rate := Some(Stored4(rate.v)), items := RepricedItems(rate.v, m.items),
            drinks := RepricedDrinks(rate.v, m.drinks)))
  }

  function DollarItems(items: seq<Item>): nat {
    if items == [] then 0 else (if items[|items| - 1].cents.Some? then 1 else 0) + DollarItems(items[..|items| - 1])
  }

  // ----- what a change of the rate leaves, field by field -----

  /** The price follows the cents, where there are any. */
  predicate Follows(rate: real, cents: Option<int>, was: int, now: int) {
    now == if cents.Some? then UsdToSyp(cents.value, rate) else was
  }

  predicate ChoiceFollows(rate: real, was: Choice, now: Choice) {
    && Follows(rate, was.cents, was.delta, now.delta)
    && now.name == was.name && now.cents == was.cents && now.available == was.available && now.grams == was.grams
    && now.image == was.image
  }

  predicate GroupFollows(rate: real, was: Group, now: Group) {
    && now.name == was.name && now.minSelect == was.minSelect && now.maxSelect == was.maxSelect
    && now.mode == was.mode && now.base == was.base && |now.choices| == |was.choices|
    && forall j :: 0 <= j < |was.choices| ==> ChoiceFollows(rate, was.choices[j], now.choices[j])
  }

  predicate GroupsFollow(rate: real, was: seq<Group>, now: seq<Group>) {
    |now| == |was| && forall g :: 0 <= g < |was| ==> GroupFollows(rate, was[g], now[g])
  }

  predicate ItemFollows(rate: real, was: Item, now: Item) {
    && Follows(rate, was.cents, was.price, now.price)
    && GroupsFollow(rate, was.own, now.own) && GroupsFollow(rate, was.copies, now.copies)
    && now.id == was.id && now.name == was.name && now.cents == was.cents && now.available == was.available
    && now.code == was.code && now.barcode == was.barcode && now.section == was.section
    && now.drinksOff == was.drinksOff
  }

  predicate DrinkFollows(rate: real, was: Drink, now: Drink) {
    Follows(rate, was.cents, was.price, now.price) && now.name == was.name && now.cents == was.cents
    && now.image == was.image
  }

  /** The rate in the column: to the nearest ten-thousandth. */
  ghost predicate KeptAs(rate: real, stored: Option<real>) {
    stored.Some? && exists k :: InTenThousandths(k, rate, stored.value)
  }

  predicate InTenThousandths(k: int, rate: real, stored: real) {
    Nearest(k, rate * 10_000.0) && stored == k as real / 10_000.0
  }

  ghost predicate RateDone(rate: real, was: MenuState, now: MenuState) {
    && KeptAs(rate, now.rate) && |now.items| == |was.items| && |now.drinks| == |was.drinks|
    && (forall i :: 0 <= i < |was.items| ==> ItemFollows(rate, was.items[i], now.items[i]))
    && (forall d :: 0 <= d < |was.drinks| ==> DrinkFollows(rate, was.drinks[d], now.drinks[d]))
    && now.nextId == was.nextId && now.hasDrinks == was.hasDrinks && now.maxPrice == was.maxPrice
  }

  function DollarPlaces(items: seq<Item>): set<nat> {
    set i: nat | i < |items| && items[i].cents.Some?
  }

  predicate RateOutOfRange(rate: Number) {
    !rate.Finite? || rate.v <= 0.0 || rate.v > 1_000_000.0
  }

  /** More than a tenth of the stored rate above or below it. */
  predicate RateJumps(before: real, rate: real) {
    before > 0.0 && (rate > before + before / 10.0 || rate < before - before / 10.0)
  }

  lemma JumpMeans(before: real, rate: real)
    requires before > 0.0
    ensures Jump(before, rate) <==> RateJumps(before, rate)
  {
    QuotientExceeds(Gap(before, rate), before, Gap(before, rate) / before);
  }

  lemma QuotientExceeds(gap: real, before: real, q: real)
    requires before > 0.0 && q == gap / before
    ensures q > 0.1 <==> gap > before / 10.0
  {
    Quotient(gap, before, q);
    if q > 0.1 {
      ScalesStrictly(0.1, q, before);
    } else {
      Scales(q, 0.1, before);
    }
  }

  lemma ScalesStrictly(a: real, b: real, c: real)
    requires a < b && c > 0.0
    ensures a * c < b * c
  {
  }

  lemma GroupsFollowTheRate(rate: real, groups: seq<Group>)
    ensures GroupsFollow(rate, groups, RepricedGroups(rate, groups))
  {
    hide UsdToSyp;
  }

  lemma ItemFollowsTheRate(rate: real, it: Item)
    ensures ItemFollows(rate, it, RepricedOptions(rate, RepricedPrice(rate, it)))
  {
    hide UsdToSyp, GroupsFollow, RepricedGroups;
    GroupsFollowTheRate(rate, it.own);
    GroupsFollowTheRate(rate, it.copies);
  }

  lemma {:induction false} DollarItemsAreCounted(items: seq<Item>)
    ensures DollarItems(items) == |DollarPlaces(items)|
  {
    if items == [] {
      assert DollarPlaces(items) == {};
    } else {
      var n := |items| - 1;
      DollarItemsAreCounted(items[..n]);
      var before, after := DollarPlaces(items[..n]), DollarPlaces(items);
      assert after == if items[n].cents.Some? then before + {n} else before;
    }
  }

  lemma StoredIsKept(rate: real)
    ensures KeptAs(rate, Some(Stored4(rate)))
    ensures rate > 0.0 ==> (Stored4(rate) <= 0.0 <==> rate < 0.000_05)
  {
    var k := Round(rate * 10_000.0);
    assert InTenThousandths(k, rate, Stored4(rate));
  }

  lemma RateMeans(m: MenuState, rate: Number, confirm: bool)
    ensures RateOutOfRange(rate) ==> RateChanged(m, rate, confirm) == Err(RateInvalid)
    ensures !RateOutOfRange(rate) && !confirm && RateJumps(m.Rate(), rate.v) ==>
              RateChanged(m, rate, confirm) == Err(RateJump)
    ensures !RateOutOfRange(rate) && (confirm || !RateJumps(m.Rate(), rate.v)) ==>
              if rate.v < 0.000_05 then RateChanged(m, rate, confirm) == Err(CheckViolated)
              else RateChanged(m, rate, confirm).Ok? && RateDone(rate.v, m, RateChanged(m, rate, confirm).value)
  {
    hide Stored4, KeptAs, Jump, ItemFollows, UsdToSyp, RepricedOptions, RepricedPrice;
    if !RateOutOfRange(rate) {
      StoredIsKept(rate.v);
      if m.Rate() > 0.0 {
        JumpMeans(m.Rate(), rate.v);
      }
      forall i | 0 <= i < |m.items|
        ensures ItemFollows(rate.v, m.items[i], RepricedItems(rate.v, m.items)[i])
      {
        ItemFollowsTheRate(rate.v, m.items[i]);
      }
    }
  }

  method SetExchangeRate(db: MenuDb, rate: Number, confirm: bool) returns (r: Result<nat, MenuError>)
    modifies db`rate, db`items, db`drinks
    ensures RateOutOfRange(rate) ==> r == Err(RateInvalid)
    ensures !RateOutOfRange(rate) && !confirm && RateJumps(old(db.Rate()), rate.v) ==> r == Err(RateJump)
    ensures !RateOutOfRange(rate) && (confirm || !RateJumps(old(db.Rate()), rate.v)) ==>
              if rate.v < 0.000_05 then r == Err(CheckViolated)
              else r == Ok(|DollarPlaces(old(db.items))|) && RateDone(rate.v, old(db.State()), db.State())
    ensures var after := RateChanged(old(db.State()), rate, confirm);
            if after.Ok? then r == Ok(DollarItems(old(db.items))) && db.State() == after.value
            else r == Err(after.error) && db.State() == old(db.State())
  {
    hide UsdToSyp, RepricedPrice, RepricedOptions, RepricedDrink, RateDone, DollarItems, DollarPlaces, RateJumps;
    RateMeans(db.State(), rate, confirm);
    DollarItemsAreCounted(db.items);
    if !(rate.Finite? && 0.0 < rate.v <= MAX_RATE) {
      return Err(RateInvalid);
    }
    var before := db.Rate();
    if before > 0.0 && !confirm && Jump(before, rate.v) {
      return Err(RateJump);
    }
    if Stored4(rate.v) <= 0.0 {
      return Err(CheckViolated);
    }
    db.rate := Some(Stored4(rate.v));
    var items := db.items;
    var priced := seq(|items|, i requires 0 <= i < |items| => RepricedPrice(rate.v, items[i]));
    db.items := seq(|priced|, i requires 0 <= i < |priced| => RepricedOptions(rate.v, priced[i]));
    db.drinks := RepricedDrinks(rate.v, db.drinks);
    assert db.items == RepricedItems(rate.v, items);
    return Ok(DollarItems(items));
  }

  lemma RepricedIsCoherent(rate: real, m: MenuState)
    ensures forall i :: 0 <= i < |m.items| ==> CoherentItem(rate, RepricedItems(rate, m.items)[i])
    ensures CoherentDrinks(rate, RepricedDrinks(rate, m.drinks))
  {
    hide UsdToSyp;
  }

  /** Nothing without cents is touched by a change of the rate. */
  lemma LiraStays(m: MenuState, rate: Number, confirm: bool, i: nat)
    requires RateChanged(m, rate, confirm).Ok? && i < |m.items|
    ensures var after := RateChanged(m, rate, confirm).value.items[i];
            && (m.items[i].cents.None? ==> after.price == m.items[i].price)
            && after == m.items[i].(price := after.price, own := after.own, copies := after.copies)
            && |after.own| == |m.items[i].own|
            && forall g :: 0 <= g < |after.own| ==>
                 LiraChoicesStay(m.items[i].own[g], after.own[g])
  {
    hide UsdToSyp, Stored4, Jump;
  }

  predicate LiraChoicesStay(was: Group, now: Group) {
    && |now.choices| == |was.choices| && now == was.(choices := now.choices)
    && forall j :: 0 <= j < |now.choices| ==>
         now.choices[j] == was.choices[j].(delta := now.choices[j].delta)
         && (was.choices[j].cents.None? ==> now.choices[j] == was.choices[j])
  }

  /** Cents at a rate in lira, before rounding. */
  function Exact(cents: int, rate: real): real {
    cents as real * rate / 100.0
  }

  lemma ExactIsNear(cents: int, rate: real)
    ensures -2.5 <= UsdToSyp(cents, rate) as real - Exact(cents, rate) <= 2.5
  {
  }

  lemma WithinTenth(cents: int, before: real, rate: real)
    requires cents >= 0 && before > 0.0 && !Jump(before, rate)
    ensures var d := cents as real * before / 1000.0;
            Exact(cents, before) - d <= Exact(cents, rate) <= Exact(cents, before) + d
  {
    var gap := Gap(before, rate);
    var q := gap / before;
    Quotient(gap, before, q);
    Scales(q, 0.1, before);
    TenthOfProduct(cents as real, before, rate);
  }

  lemma Quotient(a: real, b: real, q: real)
    requires b > 0.0 && q == a / b
    ensures a == q * b
  {
  }

  lemma TenthOfProduct(c: real, before: real, rate: real)
    requires c >= 0.0 && before - 0.1 * before <= rate <= before + 0.1 * before
    ensures c * before / 100.0 - c * before / 1000.0 <= c * rate / 100.0 <= c * before / 100.0 + c * before / 1000.0
  {
    Scales(rate, before + 0.1 * before, c);
    Scales(before - 0.1 * before, rate, c);
    assert (before + 0.1 * before) * c == c * before + 0.1 * (c * before);
    assert (before - 0.1 * before) * c == c * before - 0.1 * (c * before);
  }

  lemma Scales(a: real, b: real, c: real)
    requires a <= b && c >= 0.0
    ensures a * c <= b * c
  {
  }

  /** A move by at most a tenth of the cents at the old rate, and the rounding of two prices. */
  predicate SmallMove(rate: real, cents: Option<int>, was: int, now: int) {
    cents.Some? && cents.value >= 0 ==>
      var bound := cents.value as real * rate / 1000.0 + 5.0;
      -bound <= (now - was) as real <= bound
  }

  predicate SmallMoves(rate: real, was: Group, now: Group) {
    && |now.choices| == |was.choices|
    && forall j :: 0 <= j < |was.choices| ==>
         SmallMove(rate, was.choices[j].cents, was.choices[j].delta, now.choices[j].delta)
  }

  /** A price derived at one rate, derived anew at another no more than a tenth away. */
  lemma DerivedMove(before: real, rate: real, cents: int)
    requires before > 0.0 && !Jump(before, rate)
    ensures SmallMove(before, Some(cents), UsdToSyp(cents, before), UsdToSyp(cents, rate))
  {
    if cents >= 0 {
      hide UsdToSyp, Jump, Exact;
      WithinTenth(cents, before, rate);
      ExactIsNear(cents, before);
      ExactIsNear(cents, rate);
      Moves(UsdToSyp(cents, before) as real, UsdToSyp(cents, rate) as real,
            Exact(cents, before), Exact(cents, rate), cents as real * before / 1000.0);
    }
  }

  lemma GroupMoves(before: real, rate: real, g: Group)
    requires before > 0.0 && !Jump(before, rate) && CoherentGroup(before, g)
    ensures SmallMoves(before, g, RepricedGroup(rate, g))
  {
    hide UsdToSyp, Jump, SmallMove;
    forall j | 0 <= j < |g.choices|
      ensures SmallMove(before, g.choices[j].cents, g.choices[j].delta, RepricedGroup(rate, g).choices[j].delta)
    {
      var c := g.choices[j];
      if c.cents.Some? {
        DerivedMove(before, rate, c.cents.value);
      } else {
        LiraMove(before, c.delta, c.delta);
      }
    }
  }

  lemma LiraMove(rate: real, was: int, now: int)
    ensures SmallMove(rate, None, was, now)
  {
  }

  lemma NoJump(m: MenuState, rate: Number)
    requires m.Rate() > 0.0 && RateChanged(m, rate, false).Ok?
    ensures !Jump(m.Rate(), rate.v)
    ensures RateChanged(m, rate, false).value.items == RepricedItems(rate.v, m.items)
    ensures RateChanged(m, rate, false).value.drinks == RepricedDrinks(rate.v, m.drinks)
  {
    hide Jump, Stored4, RepricedItems, RepricedDrinks;
  }

  lemma GroupsMove(before: real, rate: real, groups: seq<Group>)
    requires before > 0.0 && !Jump(before, rate) && CoherentGroups(before, groups)
    ensures forall g :: 0 <= g < |groups| ==> SmallMoves(before, groups[g], RepricedGroups(rate, groups)[g])
  {
    hide Jump, SmallMoves, CoherentGroup, RepricedGroup;
    forall g | 0 <= g < |groups|
      ensures SmallMoves(before, groups[g], RepricedGroups(rate, groups)[g])
    {
      GroupMoves(before, rate, groups[g]);
    }
  }

  /** Without a confirmation, the price of an item, of each of its options and of each copied drink moves by at most
      a tenth of its cents at the old rate, and the rounding of two prices. */
  lemma UnconfirmedMove(m: MenuState, rate: Number, i: nat)
    requires Coherent(m) && m.Rate() > 0.0 && RateChanged(m, rate, false).Ok? && i < |m.items|
    ensures var it, after := m.items[i], RateChanged(m, rate, false).value.items[i];
            && SmallMove(m.Rate(), it.cents, it.price, after.price)
            && |after.own| == |it.own| && |after.copies| == |it.copies|
            && (forall g :: 0 <= g < |it.own| ==> SmallMoves(m.Rate(), it.own[g], after.own[g]))
            && (forall g :: 0 <= g < |it.copies| ==> SmallMoves(m.Rate(), it.copies[g], after.copies[g]))
  {
    NoJump(m, rate);
    hide RateChanged, CoherentGroups, UsdToSyp, Jump, CoherentDrinks, SmallMove, SmallMoves;
    var it := m.items[i];
    assert CoherentItem(m.Rate(), it);
    GroupsMove(m.Rate(), rate.v, it.own);
    GroupsMove(m.Rate(), rate.v, it.copies);
    if it.cents.Some? {
      DerivedMove(m.Rate(), rate.v, it.cents.value);
    } else {
      LiraMove(m.Rate(), it.price, it.price);
    }
  }

  /** And so does the price of each drink of the store's list. */
  lemma UnconfirmedDrinkMove(m: MenuState, rate: Number, i: nat)
    requires Coherent(m) && m.Rate() > 0.0 && RateChanged(m, rate, false).Ok? && i < |m.drinks|
    ensures var d, after := m.drinks[i], RateChanged(m, rate, false).value.drinks[i];
            SmallMove(m.Rate(), d.cents, d.price, after.price)
  {
    NoJump(m, rate);
    hide RateChanged, UsdToSyp, Jump, CoherentItem, SmallMove;
    var d := m.drinks[i];
    if d.cents.Some? {
      DerivedMove(m.Rate(), rate.v, d.cents.value);
    } else {
      LiraMove(m.Rate(), d.price, d.price);
    }
  }

  lemma Moves(was: real, now: real, a: real, b: real, d: real)
    requires -2.5 <= was - a <= 2.5 && -2.5 <= now - b <= 2.5 && a - d <= b <= a + d
    ensures -(d + 5.0) <= now - was <= d + 5.0
  {
  }

  // ----- the column keeps four decimals -----

  /** Decimals beyond the fourth change some dollar price. */
  lemma RatesDiffer(a: real, b: real) returns (cents: nat)
    requires a < b
    ensures UsdToSyp(cents, a) < UsdToSyp(cents, b)
  {
    hide RoundTo5, Nearest;
    var d := b - a;
    var x := 600.0 / d;
    Quotient(600.0, d, x);
    cents := x.Floor + 1;
    Scales(x, cents as real, d);
    Distributes(cents as real, a, b);
    Apart(UsdToSyp(cents, a) as real, UsdToSyp(cents, b) as real, cents as real * a / 100.0, cents as real * b / 100.0);
  }

  lemma Distributes(c: real, a: real, b: real)
    ensures c * b / 100.0 == c * a / 100.0 + c * (b - a) / 100.0
  {
    assert c * b == c * a + c * (b - a);
  }

  lemma Apart(was: real, now: real, a: real, b: real)
    requires -2.5 <= was - a <= 2.5 && -2.5 <= now - b <= 2.5 && b >= a + 6.0
    ensures was < now
  {
  }

  /** A rate that is stored as it is sent keeps the menu coherent. */
  lemma StoredRateIsCoherent(m: MenuState, rate: Number, confirm: bool)
    requires RateChanged(m, rate, confirm).Ok? && Stored4(rate.v) == rate.v
    ensures Coherent(RateChanged(m, rate, confirm).value)
  {
    hide CoherentItem, CoherentDrinks, Stored4, Jump;
    RepricedIsCoherent(rate.v, m);
  }

  /** A menu of one dollar item. */
  function OneItem(cents: nat): MenuState {
    MenuState([Item(0, "", 0, Some(cents), true, "", "", "", false, [], [])], 1, None, [], false, 0)
  }

  /** The first rate a merchant sets leaves every menu coherent exactly when it has at most four decimals:
      the prices are computed from the rate that was sent, the column keeps four decimals of it. */
  lemma RateIsExactIff(rate: Number)
    requires ValidRate(rate) && Stored4(rate.v) > 0.0
    ensures (forall m: MenuState, confirm :: RateChanged(m, rate, confirm).Ok? ==>
               Coherent(RateChanged(m, rate, confirm).value))
            <==> Stored4(rate.v) == rate.v
  {
    hide Coherent, Stored4;
    if Stored4(rate.v) == rate.v {
      forall m: MenuState, confirm | RateChanged(m, rate, confirm).Ok?
        ensures Coherent(RateChanged(m, rate, confirm).value)
      {
        StoredRateIsCoherent(m, rate, confirm);
      }
    } else {
      var cents := DifferentCents(rate.v, Stored4(rate.v));
      OneItemBreaks(cents, rate);
      assert RateChanged(OneItem(cents), rate, true).Ok?;
    }
  }

  lemma DifferentCents(a: real, b: real) returns (cents: nat)
    requires a != b
    ensures UsdToSyp(cents, a) != UsdToSyp(cents, b)
  {
    if a < b {
      cents := RatesDiffer(a, b);
    } else {
      cents := RatesDiffer(b, a);
    }
  }

  lemma OneItemBreaks(cents: nat, rate: Number)
    requires ValidRate(rate) && Stored4(rate.v) > 0.0 && UsdToSyp(cents, rate.v) != UsdToSyp(cents, Stored4(rate.v))
    ensures RateChanged(OneItem(cents), rate, true).Ok? && !Coherent(RateChanged(OneItem(cents), rate, true).value)
  {
    hide UsdToSyp, Stored4;
    var after := RateChanged(OneItem(cents), rate, true).value;
    assert !CoherentItem(after.Rate(), after.items[0]);
  }

  // ---------------------------------------------------------------------------------------
  // The bulk change
  // ---------------------------------------------------------------------------------------

  const MAX_AMOUNT := 10_000_000

  /** A change by percent, or by an amount of lira. */
  datatype BulkInput = BulkInput(percent: Number, amount: Option<int>, section: Option<string>, confirm: bool)

  datatype BulkResult = BulkResult(count: nat, applied: bool)

  function AmountOf(b: BulkInput): int {
    if b.amount.Some? then b.amount.value else 0
  }

  function BulkRefused(b: BulkInput): Option<MenuError> {
    if AmountOf(b) != 0 then
      if b.percent != Finite(0.0) || AmountOf(b) < -MAX_AMOUNT || AmountOf(b) > MAX_AMOUNT then Some(BulkAmount)
      else None
    else if !b.percent.Finite? || b.percent.v == 0.0 || b.percent.v < -50.0 || b.percent.v > 100.0 then
        Some(BulkPercent)
    else None
  }

  function AtLeastOne(n: int): int {
    if n < 1 then 1 else n
  }

  /** A price or cents changed by a percentage. */
  function ByPercent(n: int, percent: real): int {
    Round(n as real * (100.0 + percent) / 100.0)
  }

  /** newCentsSQL. */
  function NewCents(rate: real, percent: real, amount: int, cents: int): int
    requires rate > 0.0
  {
    if amount == 0 then ByPercent(cents, percent)
    else AtLeastOne(cents + Round(amount as real * 100.0 / rate))
  }

  /** newPriceSQL, and the cents written with it. */
  function BulkPriced(rate: real, percent: real, amount: int, it: Item): Item
    requires it.cents.Some? ==> rate > 0.0
  {
    if it.cents.None? then
      it.(price := AtLeastOne(if amount == 0 then ByPercent(it.price, percent) else it.price + amount))
    else
      var c := NewCents(rate, percent, amount, it.cents.value);
      it.(price := UsdToSyp(c, rate), cents := Some(c))
  }

  /** The items a bulk change is about: of the section, with a price, and not free. */
  predicate Chosen(rate: real, section: string, it: Item) {
    && (section == "" || it.section == section)
    && if it.cents.None? then it.price > 0 else it.cents.value > 0 && rate > 0.0
  }

  function SectionOf(b: BulkInput): string {
    if b.section.Some? then TrimSpace(b.section.value) else ""
  }

  function PercentOf(b: BulkInput): real {
    if b.percent.Finite? then b.percent.v else 0.0
  }

  /** The item after the change. */
  function Changed(rate: real, b: BulkInput, it: Item): Item {
    if Chosen(rate, SectionOf(b), it) then BulkPriced(rate, PercentOf(b), AmountOf(b), it) else it
  }

  function CountChosen(rate: real, section: string, items: seq<Item>): nat {
    if items == [] then 0
    else (if Chosen(rate, section, items[|items| - 1]) then 1 else 0) + CountChosen(rate, section, items[..|items| - 1])
  }

  predicate Exceeds(m: MenuState, b: BulkInput, it: Item) {
    m.maxPrice > 0 && Chosen(m.Rate(), SectionOf(b), it) && Changed(m.Rate(), b, it).price > m.maxPrice
  }

  function ChangedItems(rate: real, b: BulkInput, items: seq<Item>): (r: seq<Item>)
    ensures |r| == |items|
    ensures forall i :: 0 <= i < |r| ==> r[i] == Changed(rate, b, items[i])
  {
    seq(|items|, i requires 0 <= i < |items| => Changed(rate, b, items[i]))
  }

  /** What is said, and what is left: the same in a preview and in the change it previews. */
  function BulkOutcome(m: MenuState, b: BulkInput): Result<(BulkResult, MenuState), MenuError> {
    if BulkRefused(b).Some? then Err(BulkRefused(b).value)
    else if exists i :: 0 <= i < |m.items| && Exceeds(m, b, m.items[i]) then Err(PriceTooHigh)
    else
      var n := CountChosen(m.Rate(), SectionOf(b), m.items);
      if !b.confirm || n == 0 then Ok((BulkResult(n, false), m))
      else Ok((BulkResult(n, true), m.(items := ChangedItems(m.Rate(), b, m.items))))
  }

  // ----- what a bulk change leaves, field by field -----

  /** The item is of the section sent, if one is, and has a price: a dollar price only when there is a rate. */
  predicate Concerned(rate: real, b: BulkInput, it: Item) {
    && (b.section.Some? && TrimSpace(b.section.value) != "" ==> it.section == TrimSpace(b.section.value))
    && match it.cents
       case None => it.price > 0
       case Some(c) => c > 0 && rate > 0.0
  }

  function ConcernedPlaces(rate: real, b: BulkInput, items: seq<Item>): set<nat> {
    set i: nat | i < |items| && Concerned(rate, b, items[i])
  }

  predicate SaysAmount(b: BulkInput) {
    b.amount.Some? && b.amount.value != 0
  }

  /** n and so many percent of it. */
  function AndPercent(n: int, percent: real): real {
    n as real + n as real * percent / 100.0
  }

  /** Lira in cents at a rate, before rounding. */
  function InCents(amount: int, rate: real): real
    requires rate > 0.0
  {
    amount as real / rate * 100.0
  }

  /** The price so much percent up, in whole lira, or the amount added; one lira at least. */
  predicate LiraPut(b: BulkInput, was: int, now: int) {
    if SaysAmount(b) then now == if was + b.amount.value >= 1 then was + b.amount.value else 1
    else
      && b.percent.Finite?
      && if AndPercent(was, b.percent.v) >= 0.5 then Nearest(now, AndPercent(was, b.percent.v)) else now == 1
  }

  /** d is the amount in whole cents at the rate, and added. */
  predicate CentsAdded(rate: real, amount: int, was: int, d: int, now: int)
    requires rate > 0.0
  {
    Nearest(d, InCents(amount, rate)) && now == if was + d >= 1 then was + d else 1
  }

  /** The cents so much percent up, in whole cents, or the amount at the rate added, one cent at least. */
  ghost predicate CentsPut(rate: real, b: BulkInput, was: int, now: int)
    requires rate > 0.0
  {
    if SaysAmount(b) then
      exists d :: CentsAdded(rate, b.amount.value, was, d, now)
    else
      b.percent.Finite? && Nearest(now, AndPercent(was, b.percent.v))
  }

  /** The item as a confirmed change leaves it. */
  ghost predicate ItemPut(rate: real, b: BulkInput, was: Item, now: Item) {
    if !Concerned(rate, b, was) then now == was
    else
      && now.id == was.id && now.name == was.name && now.available == was.available && now.code == was.code
      && now.barcode == was.barcode && now.section == was.section && now.drinksOff == was.drinksOff
      && now.own == was.own && now.copies == was.copies
      && match was.cents
         case None => now.cents == None && LiraPut(b, was.price, now.price)
         case Some(c) =>
           now.cents.Some? && CentsPut(rate, b, c, now.cents.value) && now.price == UsdToSyp(now.cents.value, rate)
  }

  /** An item would be put above the limit. */
  ghost predicate PutTooHigh(m: MenuState, b: BulkInput) {
    exists i, now ::
      && 0 <= i < |m.items| && Concerned(m.Rate(), b, m.items[i]) && ItemPut(m.Rate(), b, m.items[i], now)
      && 0 < m.maxPrice < now.price
  }

  ghost predicate ItemsPut(rate: real, b: BulkInput, was: seq<Item>, now: seq<Item>) {
    |now| == |was| && forall i :: 0 <= i < |was| ==> ItemPut(rate, b, was[i], now[i])
  }

  lemma ChosenIsConcerned(rate: real, b: BulkInput, it: Item)
    ensures Chosen(rate, SectionOf(b), it) <==> Concerned(rate, b, it)
  {
    hide TrimSpace;
  }

  lemma ByPercentIsNearest(n: int, percent: real)
    ensures Nearest(ByPercent(n, percent), AndPercent(n, percent))
  {
    hide Round, Nearest;
    var x := n as real;
    assert x * (100.0 + percent) == x * 100.0 + x * percent;
  }

  lemma AmountIsNearest(amount: int, rate: real)
    requires rate > 0.0
    ensures Nearest(Round(amount as real * 100.0 / rate), InCents(amount, rate))
  {
    hide Round, Nearest;
    assert amount as real * 100.0 / rate == amount as real / rate * 100.0;
  }

  lemma LiraIsPut(b: BulkInput, price: int)
    requires BulkRefused(b).None? && price > 0
    ensures var now := if AmountOf(b) == 0 then ByPercent(price, PercentOf(b)) else price + AmountOf(b);
            LiraPut(b, price, AtLeastOne(now))
  {
    hide ByPercent, AndPercent;
    if !SaysAmount(b) {
      ByPercentIsNearest(price, b.percent.v);
    }
  }

  lemma CentsArePut(rate: real, b: BulkInput, cents: int)
    requires BulkRefused(b).None? && cents > 0 && rate > 0.0
    ensures CentsPut(rate, b, cents, NewCents(rate, PercentOf(b), AmountOf(b), cents))
  {
    hide ByPercent, AndPercent, InCents, Nearest, Round;
    if SaysAmount(b) {
      AmountIsNearest(b.amount.value, rate);
      var d := Round(b.amount.value as real * 100.0 / rate);
      assert CentsAdded(rate, b.amount.value, cents, d, NewCents(rate, PercentOf(b), AmountOf(b), cents));
    } else {
      ByPercentIsNearest(cents, b.percent.v);
    }
  }

  lemma ChangedIsPut(rate: real, b: BulkInput, it: Item)
    requires BulkRefused(b).None?
    ensures ItemPut(rate, b, it, Changed(rate, b, it))
  {
    hide TrimSpace, UsdToSyp, NewCents, CentsPut, LiraPut, AtLeastOne, Chosen, Concerned, SectionOf, BulkRefused;
    hide AmountOf, PercentOf;
    ChosenIsConcerned(rate, b, it);
    if Concerned(rate, b, it) {
      ConcernedHasPrice(rate, b, it);
      if it.cents.None? {
        LiraIsPut(b, it.price);
      } else {
        CentsArePut(rate, b, it.cents.value);
      }
    }
  }

  lemma ConcernedHasPrice(rate: real, b: BulkInput, it: Item)
    requires Concerned(rate, b, it)
    ensures if it.cents.None? then it.price > 0 else it.cents.value > 0 && rate > 0.0
  {
    hide TrimSpace;
  }

  /** What is put is determined. */
  lemma PutOnce(rate: real, b: BulkInput, was: Item, x: Item, y: Item)
    requires ItemPut(rate, b, was, x) && ItemPut(rate, b, was, y)
    ensures x == y
  {
    hide TrimSpace, UsdToSyp, Concerned;
    if Concerned(rate, b, was) && was.cents.Some? {
      ConcernedHasPrice(rate, b, was);
      assert x.cents.value == y.cents.value;
    }
  }

  lemma {:induction false} ChosenAreCounted(rate: real, b: BulkInput, items: seq<Item>)
    ensures CountChosen(rate, SectionOf(b), items) == |ConcernedPlaces(rate, b, items)|
  {
    hide Chosen, Concerned, TrimSpace;
    if items == [] {
      assert ConcernedPlaces(rate, b, items) == {};
    } else {
      var n := |items| - 1;
      ChosenAreCounted(rate, b, items[..n]);
      ChosenIsConcerned(rate, b, items[n]);
      var before, after := ConcernedPlaces(rate, b, items[..n]), ConcernedPlaces(rate, b, items);
      assert after == if Concerned(rate, b, items[n]) then before + {n} else before;
    }
  }

  lemma ExceedsIsTooHigh(m: MenuState, b: BulkInput)
    requires BulkRefused(b).None?
    ensures (exists i :: 0 <= i < |m.items| && Exceeds(m, b, m.items[i])) <==> PutTooHigh(m, b)
  {
    hide Chosen, Concerned, Changed, ItemPut, BulkRefused, TrimSpace;
    forall i | 0 <= i < |m.items|
      ensures Chosen(m.Rate(), SectionOf(b), m.items[i]) <==> Concerned(m.Rate(), b, m.items[i])
      ensures ItemPut(m.Rate(), b, m.items[i], Changed(m.Rate(), b, m.items[i]))
    {
      ChosenIsConcerned(m.Rate(), b, m.items[i]);
      ChangedIsPut(m.Rate(), b, m.items[i]);
    }
    if PutTooHigh(m, b) {
      var i, now :| && 0 <= i < |m.items| && Concerned(m.Rate(), b, m.items[i])
                    && ItemPut(m.Rate(), b, m.items[i], now) && 0 < m.maxPrice < now.price;
      PutOnce(m.Rate(), b, m.items[i], now, Changed(m.Rate(), b, m.items[i]));
      assert Exceeds(m, b, m.items[i]);
    }
  }

  /** What a bulk change says, refuses and leaves. */
  lemma BulkMeans(m: MenuState, b: BulkInput)
    ensures var out := BulkOutcome(m, b);
            && (BulkRefused(b).None? ==> (out == Err(PriceTooHigh) <==> PutTooHigh(m, b)))
            && (out.Ok? ==>
                  var (said, after) := out.value;
                  && said.count == |ConcernedPlaces(m.Rate(), b, m.items)|
                  && (said.applied <==> b.confirm && said.count > 0)
                  && (if said.applied then ItemsPut(m.Rate(), b, m.items, after.items) else after.items == m.items))
  {
    ChosenAreCounted(m.Rate(), b, m.items);
    if BulkRefused(b).None? {
      ExceedsIsTooHigh(m, b);
      hide PutTooHigh, Exceeds, CountChosen, ConcernedPlaces, BulkRefused, ItemPut, Changed, SectionOf;
      forall i | 0 <= i < |m.items|
        ensures ItemPut(m.Rate(), b, m.items[i], Changed(m.Rate(), b, m.items[i]))
      {
        ChangedIsPut(m.Rate(), b, m.items[i]);
      }
    }
  }

  method CheckBulk(b: BulkInput) returns (e: Option<MenuError>)
    ensures e == BulkRefused(b) && e != Some(PriceTooHigh)
  {
    var amount := 0;
    if b.amount.Some? && b.amount.value != 0 {
      amount := b.amount.value;
      if b.percent != Finite(0.0) || amount < -MAX_AMOUNT || amount > MAX_AMOUNT {
        return Some(BulkAmount);
      }
    } else if !b.percent.Finite? || b.percent.v == 0.0 || b.percent.v < -50.0 || b.percent.v > 100.0 {
      return Some(BulkPercent);
    }
    return None;
  }

  method BulkPrice(db: MenuDb, b: BulkInput) returns (r: Result<BulkResult, MenuError>)
    modifies db`items
    ensures var out := BulkOutcome(old(db.State()), b);
            if out.Ok? then r == Ok(out.value.0) && db.State() == out.value.1
            else r == Err(out.error) && db.State() == old(db.State())
    ensures r == Err(PriceTooHigh) ==> PutTooHigh(old(db.State()), b)
    ensures r.Ok? ==>
              && !PutTooHigh(old(db.State()), b)
              && r.value.count == |ConcernedPlaces(db.Rate(), b, old(db.items))|
              && (r.value.applied <==> b.confirm && r.value.count > 0)
              && (if r.value.applied then ItemsPut(db.Rate(), b, old(db.items), db.items)
                  else db.items == old(db.items))
  {
    hide BulkPriced, Chosen, TrimSpace, ItemPut, PutTooHigh, ConcernedPlaces, ItemsPut, BulkRefused, Changed;
    BulkMeans(db.State(), b);
    var refused := CheckBulk(b);
    if refused.Some? {
      return Err(refused.value);
    }
    var rate, section, items := db.Rate(), SectionOf(b), db.items;
    ghost var m := db.State();
    var count := 0;
    for i := 0 to |items|
      invariant count == CountChosen(rate, section, items[..i])
      invariant forall j :: 0 <= j < i ==> !Exceeds(m, b, items[j])
    {
      assert items[..i + 1][..i] == items[..i];
      if Chosen(rate, section, items[i]) {
        if db.maxPrice > 0 && Changed(rate, b, items[i]).price > db.maxPrice {
          assert Exceeds(m, b, items[i]);
          return Err(PriceTooHigh);
        }
        count := count + 1;
      }
    }
    assert items[..|items|] == items;
    if !b.confirm || count == 0 {
      return Ok(BulkResult(count, false));
    }
    db.items := ChangedItems(rate, b, items);
    return Ok(BulkResult(count, true));
  }

  /** A bulk change leaves dollar prices derived from the new cents, no price below one lira where it
      changed one, free items free, and the options alone. */
  lemma BulkKeepsCoherence(m: MenuState, b: BulkInput)
    requires Coherent(m) && BulkOutcome(m, b).Ok?
    ensures Coherent(BulkOutcome(m, b).value.1)
  {
    hide UsdToSyp, CoherentGroups, NewCents, CountChosen, BulkRefused, CoherentDrinks;
  }

  lemma FreeStaysFree(rate: real, b: BulkInput, it: Item)
    requires it.price == 0 && (it.cents.Some? ==> it.cents.value == 0)
    ensures Changed(rate, b, it) == it
  {
    hide BulkPriced;
  }

  /** A raise never lowers a price and a cut never raises one above it. */
  lemma BulkDirection(rate: real, b: BulkInput, it: Item)
    requires BulkRefused(b).None? && it.price >= 0 && (it.cents.Some? ==> it.cents.value >= 0)
    requires it.cents.Some? ==> it.price == UsdToSyp(it.cents.value, rate)
    ensures var up := PercentOf(b) > 0.0 || AmountOf(b) > 0;
            if up then Changed(rate, b, it).price >= it.price else Changed(rate, b, it).price <= it.price
  {
    hide UsdToSyp, TrimSpace, Round;
    if Chosen(rate, SectionOf(b), it) {
      if it.cents.None? {
        LiraDirection(it.price, PercentOf(b), AmountOf(b));
      } else {
        var c := NewCents(rate, PercentOf(b), AmountOf(b), it.cents.value);
        CentsDirection(rate, PercentOf(b), AmountOf(b), it.cents.value);
        if c >= it.cents.value {
          SypMonotone(it.cents.value, c, rate);
        }
        if c <= it.cents.value {
          SypMonotone(c, it.cents.value, rate);
        }
      }
    }
  }

  lemma SypMonotone(a: int, b: int, rate: real)
    requires a <= b && rate > 0.0
    ensures UsdToSyp(a, rate) <= UsdToSyp(b, rate)
  {
    hide *;
    ExactIsRounded(a, rate);
    ExactIsRounded(b, rate);
    ExactMonotone(a, b, rate);
    RoundTo5Monotone(Exact(a, rate), Exact(b, rate));
  }

  lemma ExactIsRounded(cents: int, rate: real)
    ensures UsdToSyp(cents, rate) == RoundTo5(Exact(cents, rate))
  {
    hide RoundTo5;
  }

  lemma ExactMonotone(a: int, b: int, rate: real)
    requires a <= b && rate > 0.0
    ensures Exact(a, rate) <= Exact(b, rate)
  {
    Scales(a as real, b as real, rate);
  }

  lemma RoundTo5Monotone(x: real, y: real)
    requires x <= y
    ensures RoundTo5(x) <= RoundTo5(y)
  {
    hide Round;
    RoundMonotone(x / 5.0, y / 5.0);
  }

  lemma PercentDirection(n: int, percent: real)
    requires n >= 0
    ensures percent >= 0.0 ==> ByPercent(n, percent) >= n
    ensures percent <= 0.0 ==> ByPercent(n, percent) <= n
  {
    RoundOfInt(n);
    if percent >= 0.0 {
      Scales(100.0, 100.0 + percent, n as real);
      RoundMonotone(n as real, n as real * (100.0 + percent) / 100.0);
    }
    if percent <= 0.0 {
      Scales(100.0 + percent, 100.0, n as real);
      RoundMonotone(n as real * (100.0 + percent) / 100.0, n as real);
    }
  }

  lemma LiraDirection(price: int, percent: real, amount: int)
    requires price > 0
    ensures var now := AtLeastOne(if amount == 0 then ByPercent(price, percent) else price + amount);
            && (amount > 0 || (amount == 0 && percent > 0.0) ==> now >= price)
            && (amount < 0 || (amount == 0 && percent <= 0.0) ==> now <= price)
  {
    PercentDirection(price, percent);
  }

  lemma CentsDirection(rate: real, percent: real, amount: int, cents: int)
    requires cents > 0 && rate > 0.0
    ensures var now := NewCents(rate, percent, amount, cents);
            && (amount > 0 || (amount == 0 && percent > 0.0) ==> now >= cents)
            && (amount < 0 || (amount == 0 && percent <= 0.0) ==> now <= cents)
  {
    hide Round;
    PercentDirection(cents, percent);
    RoundOfInt(0);
    var x := amount as real * 100.0 / rate;
    if amount > 0 {
      assert x >= 0.0;
      RoundMonotone(0.0, x);
    } else if amount < 0 {
      assert x <= 0.0;
      RoundMonotone(x, 0.0);
    }
  }
}
