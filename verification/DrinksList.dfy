/** A merchant's list of drinks, copied into its items as an option group
    (backend/internal/catalog/drinks.go). */
module DrinksList {
  import opened Common
  import opened Money
  import opened Text
  import opened Menu
  import opened Dollars

  const GROUP_NAME := "مشروبات"
  const MAX_DRINKS := 40

  datatype DrinkInput = DrinkInput(name: string, price: int, priceUsd: Option<real>, image: Option<string>)

  function DrinkChoice(d: Drink): Choice {
    Choice(d.name, d.price, d.cents, true, None, d.image)
  }

  function DrinksGroup(drinks: seq<Drink>): (g: Group)
    ensures |g.choices| == |drinks|
  {
    Group(GROUP_NAME, 0, 99, Priced, None, seq(|drinks|, i requires 0 <= i < |drinks| => DrinkChoice(drinks[i])))
  }

  /** The copied groups an item is to have. */
  function Copies(hasDrinks: bool, drinks: seq<Drink>, off: bool): seq<Group> {
    if hasDrinks && drinks != [] && !off then [DrinksGroup(drinks)] else []
  }

  /** Every item holds the list exactly once, or not at all where it has no list or has switched it off. */
  predicate Copied(m: MenuState) {
    forall i :: 0 <= i < |m.items| ==> m.items[i].copies == Copies(m.hasDrinks, m.drinks, m.items[i].drinksOff)
  }

  predicate Chosen(only: Option<nat>, it: Item) {
    only.None? || it.id == only.value
  }

  function SyncedItem(only: Option<nat>, hasDrinks: bool, drinks: seq<Drink>, it: Item): Item {
    if Chosen(only, it) then it.(copies := Copies(hasDrinks, drinks, it.drinksOff)) else it
  }

  /** The items as syncDrinks leaves them: the ones asked for hold the list. */
  function Synced(items: seq<Item>, only: Option<nat>, hasDrinks: bool, drinks: seq<Drink>): (s: seq<Item>)
    ensures |s| == |items|
    ensures forall i :: 0 <= i < |s| ==> s[i] == SyncedItem(only, hasDrinks, drinks, items[i])
  {
    seq(|items|, i requires 0 <= i < |items| => SyncedItem(only, hasDrinks, drinks, items[i]))
  }

  function DeleteCopies(only: Option<nat>, it: Item): Item {
    if Chosen(only, it) then it.(copies := []) else it
  }

  function InsertCopies(only: Option<nat>, hasDrinks: bool, drinks: seq<Drink>, it: Item): Item {
    if Chosen(only, it) && !it.drinksOff && drinks != [] && hasDrinks
    then it.(copies := it.copies + [DrinksGroup(drinks)]) else it
  }

  lemma DeleteThenInsert(only: Option<nat>, hasDrinks: bool, drinks: seq<Drink>, it: Item)
    ensures InsertCopies(only, hasDrinks, drinks, DeleteCopies(only, it)) == SyncedItem(only, hasDrinks, drinks, it)
  {
    hide DrinksGroup;
    assert [] + [DrinksGroup(drinks)] == [DrinksGroup(drinks)];
  }

  /** syncDrinks: the copied groups of all items or of one are deleted, then the list is inserted into those
      that have it on. */
  method SyncDrinks(items: seq<Item>, only: Option<nat>, hasDrinks: bool, drinks: seq<Drink>) returns (r: seq<Item>)
    ensures r == Synced(items, only, hasDrinks, drinks)
  {
    hide DeleteCopies, InsertCopies, SyncedItem;
    var deleted := seq(|items|, i requires 0 <= i < |items| => DeleteCopies(only, items[i]));
    r := seq(|deleted|, i requires 0 <= i < |deleted| => InsertCopies(only, hasDrinks, drinks, deleted[i]));
    forall i | 0 <= i < |items|
      ensures r[i] == Synced(items, only, hasDrinks, drinks)[i]
    {
      DeleteThenInsert(only, hasDrinks, drinks, items[i]);
    }
  }

  // ---------------------------------------------------------------------------------------
  // Replacing the list
  // ---------------------------------------------------------------------------------------

  /** The image that is kept: none when it is blank; an unknown one is refused. */
  function CleanImage(media: set<string>, image: Option<string>): Result<Option<string>, MenuError> {
    if image.None? || TrimSpace(image.value) == "" then Ok(None)
    else if TrimSpace(image.value) in media then Ok(Some(TrimSpace(image.value)))
    else Err(NameRequired)
  }

  /** A drink as it is stored. A rate of zero or less is no rate. */
  function CleanDrink(rate: real, maxPrice: int, media: set<string>, d: DrinkInput): Result<Drink, MenuError> {
    var name := TrimSpace(d.name);
    var image := CleanImage(media, d.image);
    if name == "" then Err(NameRequired)
    else if image.Err? then Err(image.error)
    else if d.priceUsd.Some? && d.priceUsd.value < 0.0 then Err(NameRequired)
    else if d.priceUsd.Some? && rate <= 0.0 then Err(RateRequired)
    else
      var cents := if d.priceUsd.Some? then Some(DollarsToCents(d.priceUsd.value)) else None;
      var price := if cents.Some? then UsdToSyp(cents.value, rate) else d.price;
      if price < 0 then Err(NameRequired)
      else if maxPrice > 0 && price > maxPrice then Err(PriceTooHigh)
      else Ok(Drink(name, price, cents, image.value))
  }

  /** All values, or the first error. */
  function Gather<T, E>(rs: seq<Result<T, E>>): (r: Result<seq<T>, E>)
    ensures r.Ok? ==> |r.value| == |rs|
  {
    if rs == [] then Ok([])
    else
      var n := |rs| - 1;
      var before := Gather(rs[..n]);
      if before.Err? then before
      else if rs[n].Err? then Err(rs[n].error)
      else Ok(before.value + [rs[n].value])
  }

  lemma {:induction false} GatheredEach<T, E>(rs: seq<Result<T, E>>)
    ensures Gather(rs).Ok? ==> forall i :: 0 <= i < |rs| ==> rs[i] == Ok(Gather(rs).value[i])
  {
    if rs != [] {
      GatheredEach(rs[..|rs| - 1]);
    }
  }

  /** One more. */
  lemma GatheredNext<T, E>(rs: seq<Result<T, E>>, n: nat)
    requires n < |rs| && Gather(rs[..n]).Ok?
    ensures Gather(rs[..n + 1]) == if rs[n].Err? then Err(rs[n].error) else Ok(Gather(rs[..n]).value + [rs[n].value])
  {
    assert rs[..n + 1][..n] == rs[..n];
  }

  lemma {:induction false} FirstErrorStays<T, E>(rs: seq<Result<T, E>>, n: nat)
    requires n <= |rs| && Gather(rs[..n]).Err?
    ensures Gather(rs) == Gather(rs[..n])
  {
    if n < |rs| {
      var m := |rs| - 1;
      assert rs[..m][..n] == rs[..n];
      FirstErrorStays(rs[..m], n);
    } else {
      assert rs[..n] == rs;
    }
  }

  function CleanedEach(rate: real, maxPrice: int, media: set<string>, ds: seq<DrinkInput>)
    : (rs: seq<Result<Drink, MenuError>>)
    ensures |rs| == |ds|
    ensures forall i :: 0 <= i < |rs| ==> rs[i] == CleanDrink(rate, maxPrice, media, ds[i])
  {
    seq(|ds|, i requires 0 <= i < |ds| => CleanDrink(rate, maxPrice, media, ds[i]))
  }

  /** All drinks, or the error of the first one refused. */
  function CleanDrinks(rate: real, maxPrice: int, media: set<string>, ds: seq<DrinkInput>)
    : (r: Result<seq<Drink>, MenuError>)
    ensures r.Ok? ==> |r.value| == |ds|
  {
    Gather(CleanedEach(rate, maxPrice, media, ds))
  }

  /** What SetDrinks leaves. */
  function DrinksReplaced(media: set<string>, m: MenuState, ds: seq<DrinkInput>): Result<MenuState, MenuError> {
    if |ds| > MAX_DRINKS then Err(TooManyDrinks)
    else if ds != [] && !m.hasDrinks then Err(NoDrinksHere)
    else
      var clean := CleanDrinks(m.Rate(), m.maxPrice, media, ds);
      if clean.Err? then Err(clean.error)
      else Ok(m.(drinks := clean.value, items := Synced(m.items, None, m.hasDrinks, clean.value)))
  }

  // ----- what is stored and copied, field by field -----

  /** A drink as it is stored: named, in lira or at the rate, with an image that is there, and within the limit. */
  predicate DrinkStored(rate: real, maxPrice: int, media: set<string>, sent: DrinkInput, row: Drink) {
    && row.name == TrimSpace(sent.name) && row.name != ""
    && (if sent.priceUsd.Some? then
          && sent.priceUsd.value >= 0.0 && rate > 0.0
          && row.cents.Some? && Nearest(row.cents.value, sent.priceUsd.value * 100.0)
          && row.price == UsdToSyp(row.cents.value, rate)
        else row.price == sent.price && row.cents == None)
    && row.price >= 0 && (maxPrice > 0 ==> row.price <= maxPrice)
    && (if sent.image.Some? && TrimSpace(sent.image.value) != "" then
          row.image == Some(TrimSpace(sent.image.value)) && row.image.value in media
        else row.image == None)
  }

  /** The copied group offers the drinks of the list, in its order. */
  predicate ListCopied(drinks: seq<Drink>, g: Group) {
    && g.name == GROUP_NAME && g.minSelect == 0 && g.maxSelect == 99 && g.mode == Priced && g.base == None
    && |g.choices| == |drinks|
    && forall i :: 0 <= i < |drinks| ==>
         && g.choices[i].name == drinks[i].name && g.choices[i].delta == drinks[i].price
         && g.choices[i].cents == drinks[i].cents && g.choices[i].image == drinks[i].image
         && g.choices[i].available && g.choices[i].grams == None
  }

  /** The list once, where there is one and it is on, and nothing otherwise. */
  predicate CopiesRight(hasDrinks: bool, drinks: seq<Drink>, off: bool, copies: seq<Group>) {
    if hasDrinks && |drinks| > 0 && !off then |copies| == 1 && ListCopied(drinks, copies[0]) else copies == []
  }

  /** A sent list may be stored. */
  ghost predicate ListAllowed(media: set<string>, m: MenuState, ds: seq<DrinkInput>) {
    && |ds| <= 40 && (|ds| > 0 ==> m.hasDrinks)
    && forall i :: 0 <= i < |ds| ==> DrinkAllowed(m.Rate(), m.maxPrice, media, ds[i])
  }

  ghost predicate DrinkAllowed(rate: real, maxPrice: int, media: set<string>, sent: DrinkInput) {
    exists row :: DrinkStored(rate, maxPrice, media, sent, row)
  }

  /** The list stored, and every item with it as it should be; nothing else of the menu changes. */
  ghost predicate ListStored(media: set<string>, was: MenuState, ds: seq<DrinkInput>, now: MenuState) {
    && |now.drinks| == |ds|
    && (forall i :: 0 <= i < |ds| ==> DrinkStored(was.Rate(), was.maxPrice, media, ds[i], now.drinks[i]))
    && |now.items| == |was.items|
    && (forall i :: 0 <= i < |was.items| ==>
          && CopiesRight(was.hasDrinks, now.drinks, was.items[i].drinksOff, now.items[i].copies)
          && now.items[i] == was.items[i].(copies := now.items[i].copies))
    && now.nextId == was.nextId && now.rate == was.rate && now.hasDrinks == was.hasDrinks
    && now.maxPrice == was.maxPrice
  }

  lemma CopiesAreRight(hasDrinks: bool, drinks: seq<Drink>, off: bool)
    ensures CopiesRight(hasDrinks, drinks, off, Copies(hasDrinks, drinks, off))
  {
  }

  lemma CleanIsStored(rate: real, maxPrice: int, media: set<string>, d: DrinkInput)
    ensures CleanDrink(rate, maxPrice, media, d).Ok? <==> DrinkAllowed(rate, maxPrice, media, d)
    ensures var r := CleanDrink(rate, maxPrice, media, d);
            r.Ok? ==> DrinkStored(rate, maxPrice, media, d, r.value)
  {
    hide TrimSpace, UsdToSyp, Round;
    var r := CleanDrink(rate, maxPrice, media, d);
    assert r.Ok? ==> DrinkStored(rate, maxPrice, media, d, r.value);
    if row :| DrinkStored(rate, maxPrice, media, d, row) {
      SameCents(rate, d, row);
    }
  }

  lemma SameCents(rate: real, d: DrinkInput, row: Drink)
    requires d.priceUsd.Some? ==> row.cents.Some? && Nearest(row.cents.value, d.priceUsd.value * 100.0)
    ensures d.priceUsd.Some? ==> row.cents == Some(DollarsToCents(d.priceUsd.value))
  {
  }

  lemma {:induction false} GatheredIff<T, E>(rs: seq<Result<T, E>>)
    ensures Gather(rs).Ok? <==> forall i :: 0 <= i < |rs| ==> rs[i].Ok?
  {
    if rs != [] {
      var n := |rs| - 1;
      GatheredIff(rs[..n]);
      assert forall i :: 0 <= i < n ==> rs[..n][i] == rs[i];
    }
  }

  /** Which lists are stored, and how. */
  lemma ReplacedMeans(media: set<string>, m: MenuState, ds: seq<DrinkInput>)
    ensures DrinksReplaced(media, m, ds).Ok? <==> ListAllowed(media, m, ds)
    ensures var r := DrinksReplaced(media, m, ds); r.Ok? ==> ListStored(media, m, ds, r.value)
  {
    hide CleanDrink, DrinkStored, DrinkAllowed, Gather, CopiesRight, Copies;
    var rs := CleanedEach(m.Rate(), m.maxPrice, media, ds);
    GatheredIff(rs);
    GatheredEach(rs);
    forall i | 0 <= i < |ds|
      ensures rs[i].Ok? <==> DrinkAllowed(m.Rate(), m.maxPrice, media, ds[i])
      ensures rs[i].Ok? ==> DrinkStored(m.Rate(), m.maxPrice, media, ds[i], rs[i].value)
    {
      CleanIsStored(m.Rate(), m.maxPrice, media, ds[i]);
    }
    var r := DrinksReplaced(media, m, ds);
    if r.Ok? {
      forall i | 0 <= i < |m.items|
        ensures CopiesRight(m.hasDrinks, r.value.drinks, m.items[i].drinksOff, r.value.items[i].copies)
      {
        CopiesAreRight(m.hasDrinks, r.value.drinks, m.items[i].drinksOff);
      }
    }
  }

  method CleanOne(storedRate: real, seenRate: real, maxPrice: int, media: set<string>, input: DrinkInput)
    returns (r: Result<Drink, MenuError>, rate: real)
    requires seenRate == 0.0 || seenRate == storedRate > 0.0
    ensures r == CleanDrink(storedRate, maxPrice, media, input)
    ensures r.Ok? ==> rate == 0.0 || rate == storedRate > 0.0
  {
    hide TrimSpace, UsdToSyp, DollarsToCents;
    rate := seenRate;
    var d := input.(name := TrimSpace(input.name));
    if d.name == "" {
      return Err(NameRequired), rate;
    }
    if d.image.Some? {
      var v := TrimSpace(d.image.value);
      if v == "" {
        d := d.(image := None);
      } else if v !in media {
        return Err(NameRequired), rate;
      } else {
        d := d.(image := Some(v));
      }
    }
    var cents: Option<int> := None;
    if d.priceUsd.Some? {
      if d.priceUsd.value < 0.0 {
        return Err(NameRequired), rate;
      }
      if rate == 0.0 {
        rate := storedRate;
        if rate <= 0.0 {
          return Err(RateRequired), rate;
        }
      }
      cents := Some(DollarsToCents(d.priceUsd.value));
      d := d.(price := UsdToSyp(cents.value, rate));
    }
    if d.price < 0 {
      return Err(NameRequired), rate;
    }
    if maxPrice > 0 && d.price > maxPrice {
      return Err(PriceTooHigh), rate;
    }
    return Ok(Drink(d.name, d.price, cents, d.image)), rate;
  }

  method CleanAll(storedRate: real, maxPrice: int, media: set<string>, ds: seq<DrinkInput>)
    returns (r: Result<seq<Drink>, MenuError>)
    ensures r == CleanDrinks(storedRate, maxPrice, media, ds)
  {
    hide CleanDrink, Gather;
    var rate := 0.0;
    var clean := [];
    ghost var rs := CleanedEach(storedRate, maxPrice, media, ds);
    NoneGathered(rs[..0]);
    for i := 0 to |ds|
      invariant rate == 0.0 || rate == storedRate > 0.0
      invariant Gather(rs[..i]) == Ok(clean)
    {
      GatheredNext(rs, i);
      var d;
      d, rate := CleanOne(storedRate, rate, maxPrice, media, ds[i]);
      if d.Err? {
        FirstErrorStays(rs, i + 1);
        return Err(d.error);
      }
      clean := clean + [d.value];
    }
    assert rs[..|ds|] == rs;
    return Ok(clean);
  }

  lemma NoneGathered<T, E>(rs: seq<Result<T, E>>)
    requires rs == []
    ensures Gather(rs) == Ok([])
  {
  }

  /** SetDrinks: the list is replaced and copied into every item, or nothing changes. */
  method SetDrinks(db: MenuDb, media: set<string>, ds: seq<DrinkInput>) returns (r: Result<(), MenuError>)
    modifies db`drinks, db`items
    ensures var after := DrinksReplaced(media, old(db.State()), ds);
            if after.Ok? then r == Ok(()) && db.State() == after.value
            else r == Err(after.error) && db.State() == old(db.State())
    ensures r.Ok? <==> ListAllowed(media, old(db.State()), ds)
    ensures r.Ok? ==> ListStored(media, old(db.State()), ds, db.State())
  {
    hide CleanDrinks, Synced, ListAllowed, ListStored;
    ReplacedMeans(media, db.State(), ds);
    if |ds| > MAX_DRINKS {
      return Err(TooManyDrinks);
    }
    if |ds| > 0 && !db.hasDrinks {
      return Err(NoDrinksHere);
    }
    var clean := CleanAll(db.Rate(), db.maxPrice, media, ds);
    if clean.Err? {
      return Err(clean.error);
    }
    db.drinks := [];
    for i := 0 to |clean.value|
      invariant db.drinks == clean.value[..i]
      invariant db.State() == old(db.State()).(drinks := db.drinks)
    {
      db.drinks := db.drinks + [clean.value[i]];
    }
    assert clean.value[..|clean.value|] == clean.value;
    var items := SyncDrinks(db.items, None, db.hasDrinks, db.drinks);
    db.items := items;
    return Ok(());
  }

  // ---------------------------------------------------------------------------------------
  // What the list keeps
  // ---------------------------------------------------------------------------------------

  /** Copying a list that agrees with the rate keeps every item in agreement. */
  lemma CopiesAreCoherent(rate: real, hasDrinks: bool, drinks: seq<Drink>, off: bool)
    requires CoherentDrinks(rate, drinks)
    ensures CoherentGroups(rate, Copies(hasDrinks, drinks, off))
  {
    hide UsdToSyp;
  }

  lemma CleanedAreCoherent(rate: real, maxPrice: int, media: set<string>, ds: seq<DrinkInput>)
    requires CleanDrinks(rate, maxPrice, media, ds).Ok?
    ensures CoherentDrinks(rate, CleanDrinks(rate, maxPrice, media, ds).value)
  {
    hide UsdToSyp, DollarsToCents, TrimSpace, CleanImage, Gather;
    var rs := CleanedEach(rate, maxPrice, media, ds);
    GatheredEach(rs);
    assert forall i :: 0 <= i < |ds| ==> rs[i] == CleanDrink(rate, maxPrice, media, ds[i]);
  }

  /** Replacing the list gives every item its copy, and every dollar drink its price. */
  lemma ReplacedListIsCopied(media: set<string>, m: MenuState, ds: seq<DrinkInput>)
    requires Coherent(m) && DrinksReplaced(media, m, ds).Ok?
    ensures var after := DrinksReplaced(media, m, ds).value;
            && Copied(after) && Coherent(after)
            && |after.items| == |m.items|
            && forall i :: 0 <= i < |m.items| ==> after.items[i] == m.items[i].(copies := after.items[i].copies)
  {
    hide CleanDrinks, Copies, CoherentGroups, PricedAt, Synced;
    CleanedAreCoherent(m.Rate(), m.maxPrice, media, ds);
    var after := DrinksReplaced(media, m, ds).value;
    forall i | 0 <= i < |m.items|
      ensures CoherentItem(m.Rate(), after.items[i])
    {
      assert CoherentItem(m.Rate(), m.items[i]);
      CopiesAreCoherent(m.Rate(), m.hasDrinks, after.drinks, m.items[i].drinksOff);
    }
  }
}
