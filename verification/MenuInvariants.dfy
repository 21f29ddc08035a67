/** What every serial run on a merchant's menu keeps. */
module MenuInvariants {
  import opened Common
  import opened Money
  import opened Text
  import opened Menu
  import opened OptionModes
  import opened Modifiers
  import opened ModeInheritance
  import opened Dollars
  import opened DrinksList
  import opened MenuPlans
  import opened MenuWrites
  import opened MenuRuns
  import Repricing
  import SyncPlan

  // ---------------------------------------------------------------------------------------
  // Links stay unique
  // ---------------------------------------------------------------------------------------

  /** A code that passed the check differs from every other item's. */
  lemma FreeCodeIsNew(
    t: TextRules, items: seq<Item>, except: Option<nat>, code: Option<string>, barcode: Option<string>, i: nat)
    requires Sensible(t) && LinksFor(t, items, except, code, barcode).Ok?
    requires i < |items| && (except.None? || items[i].id != except.value)
    ensures var c := Or(LinksFor(t, items, except, code, barcode).value.0, "");
            c != "" ==> items[i].code != c
  {
    hide LinkChars, ValidLink;
  }

  lemma CreatedIsValid(env: Env, m: MenuState, inp: ItemInput)
    requires Sensible(env.text)
    requires m.Valid() && Created(env, m, inp).Ok?
    ensures WithItem(m, Created(env, m, inp).value).Valid()
  {
    hide LinksFor, Resolve, AllNamed, GroupRows, Copies;
    var out := Resolve(m.Rate(), inp).value.1;
    forall i | 0 <= i < |m.items|
      ensures m.items[i].code != "" ==> m.items[i].code != Created(env, m, inp).value.code
    {
      FreeCodeIsNew(env.text, m.items, None, out.code, out.barcode, i);
    }
  }

  lemma UpdatedCode(env: Env, m: MenuState, it: Item, inp: ItemInput, i: nat)
    requires Sensible(env.text)
    requires m.Valid() && it in m.items && Updated(env, m, it, inp).Ok?
    requires i < |m.items| && m.items[i].id != it.id && m.items[i].code != ""
    ensures m.items[i].code != Updated(env, m, it, inp).value.code
    ensures Updated(env, m, it, inp).value.id == it.id
  {
    hide LinksFor, Resolve, OwnAfter, Copies, ChangedLink, OutOfBounds;
    var out := Resolve(m.Rate(), inp).value.1;
    FreeCodeIsNew(env.text, m.items, Some(it.id), ChangedLink(env.text, out.code, it.code),
                  ChangedLink(env.text, out.barcode, it.barcode), i);
    assert it.code != "" ==> m.items[i].code != it.code;
  }

  lemma UpdateIsValid(env: Env, m: MenuState, id: nat, inp: ItemInput)
    requires Sensible(env.text)
    requires m.Valid() && UpdateResult(env, m, id, inp).Ok?
    ensures UpdateResult(env, m, id, inp).value.Valid()
  {
    hide Updated, RowOf;
    var k := RowOf(m.items, id);
    var after := UpdateResult(env, m, id, inp).value;
    SameId(env, m, m.items[k], inp);
    forall i | 0 <= i < |m.items| && i != k && m.items[i].code != ""
      ensures m.items[i].code != after.items[k].code
    {
      UpdatedCode(env, m, m.items[k], inp, i);
    }
  }

  lemma SameId(env: Env, m: MenuState, it: Item, inp: ItemInput)
    requires Updated(env, m, it, inp).Ok?
    ensures Updated(env, m, it, inp).value.id == it.id
  {
    hide LinksFor, Resolve, OwnAfter, Copies, ChangedLink, OutOfBounds;
  }

  /** Writes that touch no id and no link. */
  ghost predicate SameLinks(items: seq<Item>, items': seq<Item>) {
    |items'| == |items| && forall i :: 0 <= i < |items| ==>
        items'[i].id == items[i].id && items'[i].code == items[i].code
  }

  lemma SameLinksAreValid(m: MenuState, m': MenuState)
    requires m.Valid() && SameLinks(m.items, m'.items) && m'.nextId == m.nextId
    ensures m'.Valid()
  {
  }

  // ---------------------------------------------------------------------------------------
  // Groups stay well formed
  // ---------------------------------------------------------------------------------------

  ghost predicate StoredOwn(parse: Parse, m: MenuState) {
    forall i :: 0 <= i < |m.items| ==> Stored(parse, m.items[i].own)
  }

  lemma RepricedIsStored(parse: Parse, rate: real, groups: seq<Group>)
    requires Stored(parse, groups)
    ensures Stored(parse, Repricing.RepricedGroups(rate, groups))
  {
    hide UsdToSyp, GramsFromName, WeightName;
    forall i | 0 <= i < |groups|
      ensures StoredGroup(parse, Repricing.RepricedGroup(rate, groups[i]))
    {
      var g := groups[i];
      assert StoredGroup(parse, g);
      forall j | 0 <= j < |g.choices|
        ensures StoredChoice(parse, g.mode, Repricing.RepricedChoice(rate, g.choices[j]))
      {
        assert StoredChoice(parse, g.mode, g.choices[j]);
      }
    }
  }

  lemma CreatedIsStored(env: Env, m: MenuState, inp: ItemInput)
    requires Created(env, m, inp).Ok?
    ensures var it := Created(env, m, inp).value;
            Stored(env.parse, it.own) && it.copies == Copies(m.hasDrinks, m.drinks, it.drinksOff) && it.id == m.nextId
  {
    hide LinksFor, Resolve, AllNamed, GroupRows, Copies, Stored;
    RowsAreStored(env.parse, Or(Resolve(m.Rate(), inp).value.1.modifiers, []));
  }

  lemma UpdatedIsStored(env: Env, m: MenuState, it: Item, inp: ItemInput)
    requires Updated(env, m, it, inp).Ok? && Stored(env.parse, it.own)
    requires it.copies == Copies(m.hasDrinks, m.drinks, it.drinksOff)
    ensures var after := Updated(env, m, it, inp).value;
            && Stored(env.parse, after.own) && after.copies == Copies(m.hasDrinks, m.drinks, after.drinksOff)
            && (inp.storeDrinks.None? ==> after.copies == it.copies)
  {
    hide LinksFor, Resolve, OwnAfter, Copies, ChangedLink, OutOfBounds, Stored;
    SentDrinks(m.Rate(), inp);
    OwnIsStored(env, it, Resolve(m.Rate(), inp).value.1.modifiers);
  }

  lemma SentDrinks(rate: real, inp: ItemInput)
    requires Resolve(rate, inp).Ok?
    ensures Resolve(rate, inp).value.1.storeDrinks == inp.storeDrinks
  {
    hide UsdToSyp, DollarsToCents, DollarOptions;
  }

  lemma OwnIsStored(env: Env, it: Item, modifiers: Option<seq<GroupInput>>)
    requires Stored(env.parse, it.own)
    ensures OwnAfter(env, it, modifiers).Ok? ==> Stored(env.parse, OwnAfter(env, it, modifiers).value)
  {
    hide AllNamed, GroupRows, InheritAll, Stored;
    if OwnAfter(env, it, modifiers).Ok? && modifiers.Some? {
      RowsAreStored(env.parse, InheritAll(it.own, modifiers.value));
    }
  }

  // ---------------------------------------------------------------------------------------
  // The drinks copies under the exchange rate
  // ---------------------------------------------------------------------------------------

  lemma RepricedCopies(rate: real, hasDrinks: bool, drinks: seq<Drink>, off: bool)
    ensures Repricing.RepricedGroups(rate, Copies(hasDrinks, drinks, off)) ==
              Copies(hasDrinks, Repricing.RepricedDrinks(rate, drinks), off)
  {
    hide UsdToSyp;
    var repriced := Repricing.RepricedDrinks(rate, drinks);
    assert Repricing.RepricedGroup(rate, DrinksGroup(drinks)) == DrinksGroup(repriced) by {
      assert Repricing.RepricedGroup(rate, DrinksGroup(drinks)).choices ==
             DrinksGroup(Repricing.RepricedDrinks(rate, drinks)).choices;
    }
  }

  // ---------------------------------------------------------------------------------------
  // The accounting list
  // ---------------------------------------------------------------------------------------

  /** Only price, cents, availability and links of an item change. */
  lemma SyncedItemKeeps(cfg: SyncPlan.Config, items: seq<Item>, rows: seq<SyncPlan.SyncRow>, k: nat)
    requires k < |items|
    ensures var it := SyncPlan.ItemAfter(SyncPlan.Plans(cfg, items, rows), items, |rows|, k);
            it == items[k].(price := it.price, cents := it.cents, available := it.available, code := it.code,
                barcode := it.barcode)
  {
    hide SyncPlan.Plans, SyncPlan.WellPlanned;
    SyncPlan.PlansAreWell(cfg, items, rows);
    SyncPlan.LinksStay(SyncPlan.Plans(cfg, items, rows), items, 0, |rows|, k);
  }

  lemma PriceAfterIsPriced(cfg: SyncPlan.Config, it: Item, r: SyncPlan.SyncRow)
    requires PricedAt(cfg.rate, it.price, it.cents)
    ensures var (price, cents) := SyncPlan.PriceAfter(cfg, it, r);
            PricedAt(cfg.rate, price, cents)
  {
    hide UsdToSyp, DollarsToCents;
  }

  lemma PlannedIsPriced(cfg: SyncPlan.Config, items: seq<Item>, r: SyncPlan.SyncRow)
    requires forall k :: 0 <= k < |items| ==> PricedAt(cfg.rate, items[k].price, items[k].cents)
    ensures var p := SyncPlan.PlanOf(cfg, items, r);
            && (p.Target? && p.o.Applied? ==> PricedAt(cfg.rate, p.o.effect.item.price, p.o.effect.item.cents))
            && (p.New? ==> PricedAt(cfg.rate, p.draft.price, p.draft.cents))
  {
    hide UsdToSyp, DollarsToCents, SyncPlan.Match, SyncPlan.PriceAfter, PricedAt, ValidLink;
    var h := SyncPlan.Match(cfg, items, r);
    if h.Hit? {
      PriceAfterIsPriced(cfg, items[h.idx], r);
    } else {
      DraftIsPriced(cfg, cfg.rules.link(r.code), cfg.rules.clean(r.name), r.price);
    }
  }

  lemma DraftIsPriced(cfg: SyncPlan.Config, code: string, name: string, price: Option<Number>)
    ensures var d := SyncPlan.Draft(cfg, code, name, price);
            PricedAt(cfg.rate, d.price, d.cents)
  {
    hide UsdToSyp, DollarsToCents;
  }

  ghost predicate PricedPlans(rate: real, plans: seq<SyncPlan.Plan>) {
    forall i :: 0 <= i < |plans| ==>
      && (plans[i].Target? && plans[i].o.Applied? ==>
          PricedAt(rate, plans[i].o.effect.item.price, plans[i].o.effect.item.cents))
      && (plans[i].New? ==> PricedAt(rate, plans[i].draft.price, plans[i].draft.cents))
      && (plans[i].Miss? ==> !plans[i].o.Applied? && !plans[i].o.Created?)
      && (plans[i].Target? ==> plans[i].o.FirstHit())
  }

  lemma PlansArePriced(cfg: SyncPlan.Config, items: seq<Item>, rows: seq<SyncPlan.SyncRow>)
    requires forall k :: 0 <= k < |items| ==> PricedAt(cfg.rate, items[k].price, items[k].cents)
    ensures PricedPlans(cfg.rate, SyncPlan.Plans(cfg, items, rows))
  {
    hide SyncPlan.PlanOf, PricedAt;
    forall i | 0 <= i < |rows| {
      PlannedIsPriced(cfg, items, rows[i]);
    }
  }

  lemma {:induction false} SyncedIsPriced(rate: real, plans: seq<SyncPlan.Plan>, items: seq<Item>, n: nat, k: nat)
    requires PricedPlans(rate, plans) && n <= |plans| && k < |items| && PricedAt(rate, items[k].price, items[k].cents)
    ensures var it := SyncPlan.ItemAfter(plans, items, n, k);
            PricedAt(rate, it.price, it.cents)
  {
    hide PricedAt, SyncPlan.HitBefore, SyncPlan.CodeTaken;
    if n > 0 {
      SyncedIsPriced(rate, plans, items, n - 1, k);
    }
  }

  ghost predicate PricedDrafts(rate: real, drafts: seq<SyncPlan.NewItem>) {
    forall i :: 0 <= i < |drafts| ==> PricedAt(rate, drafts[i].price, drafts[i].cents)
  }

  lemma {:induction false} DraftsArePriced(rate: real, plans: seq<SyncPlan.Plan>, n: nat)
    requires PricedPlans(rate, plans) && n <= |plans|
    ensures PricedDrafts(rate, SyncPlan.Drafts(plans, n))
  {
    hide PricedAt, SyncPlan.HitBefore, SyncPlan.CodeTaken;
    if n > 0 {
      DraftsArePriced(rate, plans, n - 1);
    }
  }

  /** Rows made from drafts: priced, without groups, with the drinks switched off. */
  ghost predicate NewRows(rate: real, rows: seq<Item>) {
    forall i :: 0 <= i < |rows| ==>
      rows[i].own == [] && rows[i].copies == [] && rows[i].drinksOff && PricedAt(rate, rows[i].price, rows[i].cents)
  }

  lemma {:induction false} InsertedAreNewRows(rate: real, items: seq<Item>, drafts: seq<SyncPlan.NewItem>, nextId: nat)
    requires PricedDrafts(rate, drafts)
    ensures NewRows(rate, SyncPlan.Inserted(items, drafts, nextId))
  {
    hide PricedAt, SyncPlan.StoredCodes;
    if drafts != [] {
      InsertedAreNewRows(rate, items, drafts[..|drafts| - 1], nextId);
    }
  }

  /** A menu after the accounting list: the old items with their groups, and new rows. */
  ghost predicate SyncedTo(m: MenuState, m': MenuState) {
    && m' == m.(items := m'.items, nextId := m'.nextId) && |m'.items| >= |m.items|
    && (forall k :: 0 <= k < |m.items| ==>
          && m'.items[k].own == m.items[k].own && m'.items[k].copies == m.items[k].copies
          && m'.items[k].drinksOff == m.items[k].drinksOff)
    && ((forall k :: 0 <= k < |m.items| ==> PricedAt(m.Rate(), m.items[k].price, m.items[k].cents)) ==>
          && (forall k :: 0 <= k < |m.items| ==> PricedAt(m.Rate(), m'.items[k].price, m'.items[k].cents))
          && (forall k :: |m.items| <= k < |m'.items| ==> PricedAt(m.Rate(), m'.items[k].price, m'.items[k].cents)))
    && (forall k :: |m.items| <= k < |m'.items| ==>
          m'.items[k].own == [] && m'.items[k].copies == [] && m'.items[k].drinksOff)
  }

  lemma {:induction false} InsertedAreBare(items: seq<Item>, drafts: seq<SyncPlan.NewItem>, nextId: nat)
    ensures forall row :: row in SyncPlan.Inserted(items, drafts, nextId) ==>
              row.own == [] && row.copies == [] && row.drinksOff
  {
    hide SyncPlan.StoredCodes;
    if drafts != [] {
      InsertedAreBare(items, drafts[..|drafts| - 1], nextId);
    }
  }

  lemma SyncedPrices(cfg: SyncPlan.Config, items: seq<Item>, rows: seq<SyncPlan.SyncRow>, nextId: nat)
    requires forall k :: 0 <= k < |items| ==> PricedAt(cfg.rate, items[k].price, items[k].cents)
    ensures var plans := SyncPlan.Plans(cfg, items, rows);
            var after := SyncPlan.ItemsAfter(plans, items, |rows|);
            && (forall k :: 0 <= k < |items| ==> PricedAt(cfg.rate, after[k].price, after[k].cents))
            && NewRows(cfg.rate, SyncPlan.Inserted(after, SyncPlan.Drafts(plans, |rows|), nextId))
  {
    hide PricedAt, SyncPlan.ItemAfter, SyncPlan.Plans, PricedPlans, PricedDrafts, NewRows, SyncPlan.Inserted;
    hide SyncPlan.Drafts;
    var plans := SyncPlan.Plans(cfg, items, rows);
    var after := SyncPlan.ItemsAfter(plans, items, |rows|);
    PlansArePriced(cfg, items, rows);
    forall k | 0 <= k < |items| {
      SyncedIsPriced(cfg.rate, plans, items, |rows|, k);
    }
    DraftsArePriced(cfg.rate, plans, |rows|);
    InsertedAreNewRows(cfg.rate, after, SyncPlan.Drafts(plans, |rows|), nextId);
  }

  lemma SyncIsSyncedTo(t: TextRules, m: MenuState, step: Step)
    requires step.SyncIt?
    ensures SyncedTo(m, SyncedMenu(t, m, step))
  {
    hide PricedAt, SyncPlan.ItemAfter, SyncPlan.Plans, SyncPlan.Inserted, SyncPlan.Drafts, UniqueCodes;
    var cfg := ConfigFor(t, m, step);
    var plans := SyncPlan.Plans(cfg, m.items, step.rows);
    var after := SyncPlan.ItemsAfter(plans, m.items, |step.rows|);
    var drafts := SyncPlan.Drafts(plans, |step.rows|);
    var made := SyncPlan.Inserted(after, drafts, m.nextId);
    forall k | 0 <= k < |m.items| {
      SyncedItemKeeps(cfg, m.items, step.rows, k);
    }
    InsertedAreBare(after, drafts, m.nextId);
    assert forall k :: 0 <= k < |made| ==> made[k] in made;
    if forall k :: 0 <= k < |m.items| ==> PricedAt(m.Rate(), m.items[k].price, m.items[k].cents) {
      SyncedPrices(cfg, m.items, step.rows, m.nextId);
    }
  }

  lemma SyncIsValid(t: TextRules, m: MenuState, step: Step)
    requires step.SyncIt? && m.Valid()
    ensures SyncedMenu(t, m, step).Valid()
  {
    hide SyncPlan.ItemAfter, SyncPlan.Plans, SyncPlan.Inserted, SyncPlan.Drafts, UniqueCodes, FreshIds;
    hide SyncPlan.WellPlanned;
    var cfg := ConfigFor(t, m, step);
    var plans := SyncPlan.Plans(cfg, m.items, step.rows);
    var after := SyncPlan.ItemsAfter(plans, m.items, |step.rows|);
    SyncPlan.PlansAreWell(cfg, m.items, step.rows);
    SyncPlan.ItemsStayFresh(plans, m.items, |step.rows|, m.nextId);
    if UniqueCodes(after) {
      SyncPlan.InsertedIsFresh(after, SyncPlan.Drafts(plans, |step.rows|), m.nextId);
    }
  }

  // ---------------------------------------------------------------------------------------
  // The invariant of every run
  // ---------------------------------------------------------------------------------------

  /** Links and ids are unique, groups well formed, and every item holds the drinks list or nothing of it. */
  ghost predicate MenuInv(parse: Parse, m: MenuState) {
    m.Valid() && StoredOwn(parse, m) && Copied(m)
  }

  lemma UpdateKeeps(env: Env, m: MenuState, id: nat, inp: ItemInput)
    requires Sensible(env.text)
    requires MenuInv(env.parse, m) && UpdateResult(env, m, id, inp).Ok?
    ensures MenuInv(env.parse, UpdateResult(env, m, id, inp).value)
  {
    hide Updated, RowOf, Stored, Copies, UniqueCodes, FreshIds;
    UpdateIsValid(env, m, id, inp);
    UpdatedIsStored(env, m, m.items[RowOf(m.items, id)], inp);
  }

  lemma BulkKeeps(parse: Parse, m: MenuState, b: Repricing.BulkInput)
    requires MenuInv(parse, m) && Repricing.BulkOutcome(m, b).Ok?
    ensures MenuInv(parse, Repricing.BulkOutcome(m, b).value.1)
  {
    hide UsdToSyp, Stored, Copies, UniqueCodes, FreshIds, Repricing.NewCents, Repricing.CountChosen;
    hide Repricing.BulkRefused;
    SameLinksAreValid(m, Repricing.BulkOutcome(m, b).value.1);
  }

  lemma RateKeeps(parse: Parse, m: MenuState, rate: Number, confirm: bool)
    requires MenuInv(parse, m) && Repricing.RateChanged(m, rate, confirm).Ok?
    ensures MenuInv(parse, Repricing.RateChanged(m, rate, confirm).value)
  {
    hide UsdToSyp, Stored, Copies, UniqueCodes, FreshIds, Repricing.RepricedGroups, Repricing.Stored4, Repricing.Jump;
    var after := Repricing.RateChanged(m, rate, confirm).value;
    SameLinksAreValid(m, after);
    forall i | 0 <= i < |m.items|
      ensures Stored(parse, after.items[i].own)
      ensures after.items[i].copies == Copies(after.hasDrinks, after.drinks, after.items[i].drinksOff)
    {
      RepricedIsStored(parse, rate.v, m.items[i].own);
      RepricedCopies(rate.v, m.hasDrinks, m.drinks, m.items[i].drinksOff);
    }
  }

  lemma DrinksKeep(parse: Parse, media: set<string>, m: MenuState, ds: seq<DrinkInput>)
    requires MenuInv(parse, m) && DrinksReplaced(media, m, ds).Ok?
    ensures MenuInv(parse, DrinksReplaced(media, m, ds).value)
  {
    hide Stored, Copies, UniqueCodes, FreshIds, CleanDrinks;
    SameLinksAreValid(m, DrinksReplaced(media, m, ds).value);
  }

  lemma SyncKeeps(parse: Parse, t: TextRules, m: MenuState, step: Step)
    requires MenuInv(parse, m) && step.SyncIt?
    ensures MenuInv(parse, SyncedMenu(t, m, step))
  {
    hide SyncedMenu, UniqueCodes, FreshIds, StoredGroup, PricedAt, DrinksGroup;
    SyncIsValid(t, m, step);
    SyncIsSyncedTo(t, m, step);
  }

  lemma StepKeeps(s: Setting, m: MenuState, step: Step)
    requires Sensible(EnvOf(s).text)
    requires MenuInv(s.parse, m)
    ensures MenuInv(s.parse, Do(s, m, step))
  {
    hide MenuInv, WithItem, Created, UpdateResult, Duplicated, Resent, RowOf, SyncedMenu, DrinksReplaced, Stored;
    hide Copies;
    hide Repricing.BulkOutcome, Repricing.RateChanged;
    if step.CreateIt? {
      if Created(EnvOf(s), m, step.inp).Ok? {
        CreationKeeps(EnvOf(s), m, step.inp);
      }
    } else if step.UpdateIt? {
      if UpdateResult(EnvOf(s), m, step.id, step.inp).Ok? {
        UpdateKeeps(EnvOf(s), m, step.id, step.inp);
      }
    } else if step.DuplicateIt? {
      if Duplicated(EnvOf(s), m, step.id, step.maxName).Ok? {
        DuplicationKeeps(EnvOf(s), m, step.id, step.maxName);
      }
    } else if step.BulkIt? {
      if Repricing.BulkOutcome(m, step.bulk).Ok? {
        BulkKeeps(s.parse, m, step.bulk);
      }
    } else if step.RateIt? {
      if Repricing.RateChanged(m, step.rate, step.confirm).Ok? {
        RateKeeps(s.parse, m, step.rate, step.confirm);
      }
    } else if step.DrinksIt? {
      if DrinksReplaced(s.media, m, step.ds).Ok? {
        DrinksKeep(s.parse, s.media, m, step.ds);
      }
    } else {
      SyncKeeps(s.parse, RulesOf(s.unicode), m, step);
    }
  }

  lemma CreationKeeps(env: Env, m: MenuState, inp: ItemInput)
    requires Sensible(env.text)
    requires MenuInv(env.parse, m) && Created(env, m, inp).Ok?
    ensures MenuInv(env.parse, WithItem(m, Created(env, m, inp).value))
  {
    hide Created, Stored, Copies, UniqueCodes, FreshIds;
    CreatedIsValid(env, m, inp);
    CreatedIsStored(env, m, inp);
  }

  lemma DuplicationKeeps(env: Env, m: MenuState, id: nat, maxName: int)
    requires Sensible(env.text)
    requires MenuInv(env.parse, m) && Duplicated(env, m, id, maxName).Ok?
    ensures MenuInv(env.parse, WithItem(m, Duplicated(env, m, id, maxName).value))
  {
    hide Created, MenuInv, WithItem, RowOf, Resent;
    CreationKeeps(env, m, Resent(env.text, m.items[RowOf(m.items, id)], maxName));
  }

  /** A serial run of writes, refused ones among them. */
  ghost predicate MenuRun(s: Setting, menus: seq<MenuState>, steps: seq<Step>) {
    && |menus| == |steps| + 1
    && menus[0] == MenuState([], 0, None, [], menus[0].hasDrinks, menus[0].maxPrice)
    && forall i :: 0 <= i < |steps| ==> menus[i + 1] == Do(s, menus[i], steps[i])
  }

  lemma EmptyMenu(parse: Parse, m: MenuState)
    requires m.items == []
    ensures MenuInv(parse, m)
  {
  }

  /** After any run, links and ids are unique, groups are well formed, and every item holds the merchant's
      drinks list exactly when the category has one, the list is not empty and the item has not switched
      it off. */
  lemma {:induction false} RunKeepsMenu(s: Setting, menus: seq<MenuState>, steps: seq<Step>, n: nat)
    requires MenuRun(s, menus, steps) && n < |menus|
    ensures MenuInv(s.parse, menus[n])
  {
    hide Do, MenuInv, Sensible, RulesOf;
    if n == 0 {
      EmptyMenu(s.parse, menus[0]);
    } else {
      RunKeepsMenu(s, menus, steps, n - 1);
      RulesAreSensible(s.unicode);
      StepKeeps(s, menus[n - 1], steps[n - 1]);
    }
  }

  // ---------------------------------------------------------------------------------------
  // Coherence over every run
  // ---------------------------------------------------------------------------------------

  /** Inputs come without resolved cents; no update leaves stale cents; a new rate has at most four decimals. */
  predicate Sound(s: Setting, m: MenuState, step: Step) {
    match step
    case CreateIt(inp) => AllUnresolved(inp.modifiers)
    case UpdateIt(id, inp) =>
      AllUnresolved(inp.modifiers)
      && (RowOf(m.items, id) < |m.items| ==> !StaleCents(m.Rate(), m.items[RowOf(m.items, id)], inp))
    case RateIt(rate, _) => rate.Finite? ==> Repricing.Stored4(rate.v) == rate.v
    case DuplicateIt(_, _) => true
    case BulkIt(_) => true
    case DrinksIt(_) => true
    case SyncIt(_, _, _, _) => true
  }

  lemma UpdateIsCoherent(env: Env, m: MenuState, id: nat, inp: ItemInput)
    requires Coherent(m) && UpdateResult(env, m, id, inp).Ok? && AllUnresolved(inp.modifiers)
    requires !StaleCents(m.Rate(), m.items[RowOf(m.items, id)], inp)
    ensures Coherent(UpdateResult(env, m, id, inp).value)
  {
    hide Updated, RowOf, CoherentItem, CoherentDrinks, StaleCents;
    UpdatedIsCoherentIff(env, m, m.items[RowOf(m.items, id)], inp);
  }

  lemma CreationIsCoherent(env: Env, m: MenuState, inp: ItemInput)
    requires Coherent(m) && AllUnresolved(inp.modifiers) && Created(env, m, inp).Ok?
    ensures Coherent(WithItem(m, Created(env, m, inp).value))
  {
    hide Created, CoherentItem, CoherentDrinks;
    CreatedIsCoherent(env, m, inp);
  }

  lemma ResentIsUnresolved(t: TextRules, it: Item, maxName: int)
    ensures AllUnresolved(Resent(t, it, maxName).modifiers)
  {
    hide CopyName;
  }

  lemma SyncIsCoherent(t: TextRules, m: MenuState, step: Step)
    requires Coherent(m) && step.SyncIt?
    ensures Coherent(SyncedMenu(t, m, step))
  {
    hide SyncedMenu, PricedAt, CoherentGroup, CoherentDrinks;
    assert forall k :: 0 <= k < |m.items| ==> CoherentItem(m.Rate(), m.items[k]);
    SyncIsSyncedTo(t, m, step);
  }

  lemma StepIsCoherent(s: Setting, m: MenuState, step: Step)
    requires Coherent(m) && Sound(s, m, step)
    ensures Coherent(Do(s, m, step))
  {
    hide Coherent, WithItem, Created, Updated, Resent, RowOf, SyncedMenu, DrinksReplaced, StaleCents, AllUnresolved;
    hide Repricing.BulkOutcome, Repricing.RateChanged, Repricing.Stored4;
    if step.CreateIt? {
      if Created(EnvOf(s), m, step.inp).Ok? {
        CreationIsCoherent(EnvOf(s), m, step.inp);
      }
    } else if step.UpdateIt? {
      if UpdateResult(EnvOf(s), m, step.id, step.inp).Ok? {
        UpdateIsCoherent(EnvOf(s), m, step.id, step.inp);
      }
    } else if step.DuplicateIt? {
      if Duplicated(EnvOf(s), m, step.id, step.maxName).Ok? {
        var it := m.items[RowOf(m.items, step.id)];
        ResentIsUnresolved(EnvOf(s).text, it, step.maxName);
        CreationIsCoherent(EnvOf(s), m, Resent(EnvOf(s).text, it, step.maxName));
      }
    } else if step.BulkIt? {
      if Repricing.BulkOutcome(m, step.bulk).Ok? {
        Repricing.BulkKeepsCoherence(m, step.bulk);
      }
    } else if step.RateIt? {
      if Repricing.RateChanged(m, step.rate, step.confirm).Ok? {
        RateIsFinite(m, step.rate, step.confirm);
        Repricing.StoredRateIsCoherent(m, step.rate, step.confirm);
      }
    } else if step.DrinksIt? {
      if DrinksReplaced(s.media, m, step.ds).Ok? {
        ReplacedListIsCopied(s.media, m, step.ds);
      }
    } else {
      SyncIsCoherent(RulesOf(s.unicode), m, step);
    }
  }

  lemma RateIsFinite(m: MenuState, rate: Number, confirm: bool)
    requires Repricing.RateChanged(m, rate, confirm).Ok?
    ensures rate.Finite?
  {
  }

  /** In every run of sound steps each dollar price of an item, an option or a drink is its cents at the
      stored rate, rounded to five lira. */
  lemma {:induction false} RunIsCoherent(s: Setting, menus: seq<MenuState>, steps: seq<Step>, n: nat)
    requires MenuRun(s, menus, steps) && n < |menus|
    requires forall i :: 0 <= i < |steps| ==> Sound(s, menus[i], steps[i])
    ensures Coherent(menus[n])
  {
    hide Do, Sound, CoherentItem;
    if n > 0 {
      RunIsCoherent(s, menus, steps, n - 1);
      StepIsCoherent(s, menus[n - 1], steps[n - 1]);
    }
  }

  // ---------------------------------------------------------------------------------------
  // A duplicate is its original
  // ---------------------------------------------------------------------------------------

  lemma OptionResent(parse: Parse, rate: real, mode: PriceMode, c: Choice)
    requires StoredChoice(parse, mode, c) && PricedAt(rate, c.delta, c.cents)
    ensures ChoiceRow(CleanOption(parse, mode, ResolveOption(rate, ResentOption(c)))) == c
    ensures CleanOption(parse, mode, ResolveOption(rate, ResentOption(c))).name != ""
  {
    hide UsdToSyp, DollarsToCents, GramsFromName, WeightName;
    if c.cents.Some? {
      CentsRoundTrip(c.cents.value);
    }
  }

  lemma GroupResent(parse: Parse, rate: real, g: Group)
    requires StoredGroup(parse, g) && CoherentGroup(rate, g)
    ensures var back := ResolveGroup(rate, ResentGroup(g));
            NamedGroup(parse, back) && GroupRow(parse, back) == g
  {
    hide StoredChoice, PricedAt, ResolveOption, ResentOption, ChoiceRow, CleanOption;
    var back := ResolveGroup(rate, ResentGroup(g));
    assert GroupMode(back) == g.mode && GroupBase(back) == g.base;
    forall j | 0 <= j < |g.choices|
      ensures GroupRow(parse, back).choices[j] == g.choices[j]
      ensures CleanOption(parse, GroupMode(back), back.options[j]).name != ""
    {
      OptionResent(parse, rate, g.mode, g.choices[j]);
    }
    assert GroupRow(parse, back).choices == g.choices;
  }

  lemma GroupsResent(parse: Parse, rate: real, groups: seq<Group>)
    requires Stored(parse, groups) && CoherentGroups(rate, groups)
    ensures var back := ResolveGroups(rate, ResentGroups(groups));
            AllNamed(parse, back) && GroupRows(parse, back) == groups
  {
    hide StoredGroup, CoherentGroup, ResolveGroup, ResentGroup, NamedGroup, GroupRow;
    forall i | 0 <= i < |groups|
      ensures NamedGroup(parse, ResolveGroups(rate, ResentGroups(groups))[i])
      ensures GroupRows(parse, ResolveGroups(rate, ResentGroups(groups)))[i] == groups[i]
    {
      GroupResent(parse, rate, groups[i]);
    }
  }

  lemma NothingToResolve(rate: real, groups: seq<GroupInput>)
    requires !DollarOptions(Some(groups))
    ensures ResolveGroups(rate, groups) == groups
  {
    forall i | 0 <= i < |groups|
      ensures ResolveGroup(rate, groups[i]) == groups[i]
    {
      assert !DollarOption(groups[i]);
      assert ResolveGroup(rate, groups[i]).options == groups[i].options;
    }
  }

  lemma ResolvedGroups(rate: real, inp: ItemInput)
    requires Resolve(rate, inp).Ok? && inp.modifiers.Some?
    ensures Resolve(rate, inp).value.1.modifiers == Some(ResolveGroups(rate, inp.modifiers.value))
  {
    hide UsdToSyp, DollarsToCents, DollarOptions, ResolveGroup;
    if !DollarOptions(inp.modifiers) {
      NothingToResolve(rate, inp.modifiers.value);
    }
  }

  lemma ResentPrice(t: TextRules, rate: real, it: Item, maxName: int)
    requires PricedAt(rate, it.price, it.cents) && Resolve(rate, Resent(t, it, maxName)).Ok?
    ensures var (plan, out) := Resolve(rate, Resent(t, it, maxName)).value;
            && out.price == Some(it.price)
            && it.cents == (if plan.SetCents? then Some(plan.cents) else None)
            && out == Resent(t, it, maxName).(price := out.price, modifiers := out.modifiers)
  {
    hide UsdToSyp, DollarsToCents, DollarOptions, CopyName, ResentGroups, ResolveGroups;
    if it.cents.Some? {
      CentsRoundTrip(it.cents.value);
    }
  }

  /** The name of a copy: all of the old name, or as much as leaves room for the suffix of seven runes, one rune at
      least; trimmed, with the suffix. */
  ghost predicate CopyNamed(t: TextRules, name: string, maxName: int, copy: string) {
    var most := if maxName > 0 then maxName else 120;
    exists n ::
      && 0 <= n <= |name| && copy == t.trim(name[..n]) + " (نسخة)"
      && (n <= most - 7 || n == 1 || n == 0) && (n < |name| ==> n >= most - 7 && n >= 1)
  }

  lemma CopyNameMeans(t: TextRules, name: string, maxName: int)
    ensures CopyNamed(t, name, maxName, CopyName(t, name, maxName))
  {
    var most := if maxName <= 0 then MAX_ITEM_NAME else maxName;
    var room := if most - 7 < 1 then 1 else most - 7;
    var n := if |name| > room then room else |name|;
    assert name[..|name|] == name;
    assert 0 <= n <= |name| && CopyName(t, name, maxName) == t.trim(name[..n]) + " (نسخة)";
  }

  /** It fits into the limit, where the suffix leaves room. */
  lemma CopyNameFits(u: Unicode, name: string, maxName: int)
    requires maxName <= 0 || maxName >= 8
    ensures |CopyName(RulesOf(u), name, maxName)| <= if maxName > 0 then maxName else 120
  {
    hide TrimLeft, TrimRight;
  }

  /** On a coherent menu the copy has its original's price, cents, groups and drinks, and no link. */
  lemma DuplicateIsOriginal(env: Env, m: MenuState, id: nat, maxName: int)
    requires MenuInv(env.parse, m) && Coherent(m) && Duplicated(env, m, id, maxName).Ok?
    ensures var it, copy := m.items[RowOf(m.items, id)], Duplicated(env, m, id, maxName).value;
            && CopyNamed(env.text, it.name, maxName, copy.name)
            && copy == it.(id := m.nextId, name := copy.name, available := true, code := "", barcode := "")
  {
    CopyNameMeans(env.text, m.items[RowOf(m.items, id)].name, maxName);
    hide Resolve, CopyName, RowOf, Copies, GroupRows, ResolveGroups, ResentGroups, AllNamed, UniqueCodes, FreshIds;
    hide PricedAt;
    hide StoredGroup, CoherentGroup;
    var it := m.items[RowOf(m.items, id)];
    assert CoherentItem(m.Rate(), it) && Stored(env.parse, it.own);
    ResentPrice(env.text, m.Rate(), it, maxName);
    ResolvedGroups(m.Rate(), Resent(env.text, it, maxName));
    GroupsResent(env.parse, m.Rate(), it.own);
  }

  /** Some price of the item's own is in dollars. */
  predicate InDollarsAnywhere(it: Item) {
    || it.cents.Some?
    || exists i, j :: 0 <= i < |it.own| && 0 <= j < |it.own[i].choices| && it.own[i].choices[j].cents.Some?
  }

  /** An item can be copied exactly when it is there, in an active section, within the limit of prices, with a rate
      for its dollars, and the name of its copy is not too long. */
  lemma DuplicatedIff(env: Env, m: MenuState, id: nat, maxName: int)
    requires MenuInv(env.parse, m) && Coherent(m)
    ensures var k := RowOf(m.items, id);
            Duplicated(env, m, id, maxName).Ok? <==>
              && k < |m.items| && m.items[k].section != "" && m.items[k].section in env.active
              && m.items[k].price >= 0 && (m.maxPrice > 0 ==> m.items[k].price <= m.maxPrice)
              && (m.items[k].cents.Some? ==> m.items[k].cents.value >= 0)
              && (InDollarsAnywhere(m.items[k]) ==> m.Rate() > 0.0)
              && |CopyName(env.text, m.items[k].name, maxName)| <= 120
  {
    hide CopyName, RowOf, Copies, GroupRows, ResolveGroups, ResentGroups, AllNamed, UniqueCodes, FreshIds;
    hide PricedAt, Resolve, InDollarsAnywhere, StoredGroup, CoherentGroup;
    var k := RowOf(m.items, id);
    if k < |m.items| {
      var it := m.items[k];
      assert CoherentItem(m.Rate(), it) && Stored(env.parse, it.own);
      CopyNameIsSome(env.text, it.name, maxName);
      ResentResolves(env.text, m.Rate(), it, maxName);
      if Resolve(m.Rate(), Resent(env.text, it, maxName)).Ok? {
        ResentPrice(env.text, m.Rate(), it, maxName);
        ResolvedGroups(m.Rate(), Resent(env.text, it, maxName));
        GroupsResent(env.parse, m.Rate(), it.own);
      }
    }
  }

  lemma CopyNameIsSome(t: TextRules, name: string, maxName: int)
    ensures CopyName(t, name, maxName) != ""
  {
  }

  /** The dollars of an item sent again can be resolved exactly when there is a rate for them. */
  lemma ResentResolves(t: TextRules, rate: real, it: Item, maxName: int)
    ensures Resolve(rate, Resent(t, it, maxName)).Ok? <==>
              && (it.cents.Some? ==> it.cents.value >= 0)
              && (InDollarsAnywhere(it) ==> rate > 0.0)
  {
    hide CopyName, ResolveGroups, UsdToSyp, DollarsToCents;
    ResentDollars(it);
  }

  lemma ResentDollars(it: Item)
    ensures InDollarsAnywhere(it) <==> it.cents.Some? || DollarOptions(Some(ResentGroups(it.own)))
  {
    var groups := ResentGroups(it.own);
    if i, j :| 0 <= i < |it.own| && 0 <= j < |it.own[i].choices| && it.own[i].choices[j].cents.Some? {
      assert groups[i].options[j].usd.Some?;
      assert DollarOption(groups[i]);
    }
    if DollarOptions(Some(groups)) {
      var i :| 0 <= i < |groups| && DollarOption(groups[i]);
      var j :| 0 <= j < |groups[i].options| && groups[i].options[j].usd.Some?;
      assert it.own[i].choices[j].cents.Some?;
    }
  }
}
