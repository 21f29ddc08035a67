/** Every serial run of the writes on one merchant's menu: creating, updating, duplicating, the bulk change,
    the exchange rate, the drinks list and the accounting list. */
module MenuRuns {
  import opened Common
  import opened Money
  import opened Text
  import opened Menu
  import opened OptionModes
  import opened Modifiers
  import opened ModeInheritance
  import opened Dollars
  import opened DrinksList
  import opened MenuPlans
  import opened MenuWrites
  import Repricing
  import PriceSync
  import SyncPlan

  /** What the writes consult besides the merchant's rows. */
  datatype Setting = Setting(parse: Parse, unicode: Unicode, active: set<string>, media: set<string>)

  function EnvOf(s: Setting): Env {
    Env(s.parse, RulesOf(s.unicode), s.active)
  }

  datatype Step =
    | CreateIt(inp: ItemInput)
    | UpdateIt(id: nat, inp: ItemInput)
    | DuplicateIt(id: nat, maxName: int)
    | BulkIt(bulk: Repricing.BulkInput)
    | RateIt(rate: Number, confirm: bool)
    | DrinksIt(ds: seq<DrinkInput>)
    | SyncIt(rows: seq<SyncPlan.SyncRow>, usd: bool, createMissing: bool, dryRun: bool)

  function ConfigFor(t: TextRules, m: MenuState, step: Step): SyncPlan.Config
    requires step.SyncIt?
  {
    SyncPlan.Config(step.usd, step.createMissing, step.dryRun, m.Rate(), m.maxPrice, t)
  }

  /** The menu after the accounting list. */
  function SyncedMenu(t: TextRules, m: MenuState, step: Step): MenuState
    requires step.SyncIt?
  {
    if step.rows == [] || |step.rows| > SyncPlan.MAX_ROWS || (step.usd && m.Rate() <= 0.0) || step.dryRun then m
    else
      var plans := SyncPlan.Plans(ConfigFor(t, m, step), m.items, step.rows);
      var after := SyncPlan.ItemsAfter(plans, m.items, |step.rows|);
      var made := SyncPlan.Inserted(after, SyncPlan.Drafts(plans, |step.rows|), m.nextId);
      if UniqueCodes(after) then m.(items := after + made, nextId := m.nextId + |made|) else m
  }

  function Added(r: Result<Item, MenuError>, m: MenuState): MenuState {
    if r.Ok? then WithItem(m, r.value) else m
  }

  /** The menu after one write; a refused write changes nothing. */
  function Do(s: Setting, m: MenuState, step: Step): MenuState {
    match step
    case CreateIt(inp) => Added(Created(EnvOf(s), m, inp), m)
    case UpdateIt(id, inp) => OrSame(UpdateResult(EnvOf(s), m, id, inp), m)
    case DuplicateIt(id, maxName) => Added(Duplicated(EnvOf(s), m, id, maxName), m)
    case BulkIt(b) => var out := Repricing.BulkOutcome(m, b); if out.Ok? then out.value.1 else m
    case RateIt(rate, confirm) => OrSame(Repricing.RateChanged(m, rate, confirm), m)
    case DrinksIt(ds) => OrSame(DrinksReplaced(s.media, m, ds), m)
    case SyncIt(_, _, _, _) => SyncedMenu(RulesOf(s.unicode), m, step)
  }

  /** The service's writes do what `Do` says. */
  method Perform(s: Setting, db: MenuDb, step: Step)
    requires db.Valid()
    modifies db
    ensures db.State() == Do(s, old(db.State()), step)
  {
    hide Created, UpdateResult, Duplicated, RulesOf, Repricing.BulkOutcome, Repricing.RateChanged, DrinksReplaced;
    hide UniqueCodes;
    hide SyncPlan.Plans, SyncPlan.ItemsAfter, SyncPlan.Inserted, SyncPlan.Drafts, SyncPlan.ReportAfter, FreshIds;
    match step {
      case CreateIt(inp) => var _ := CreateItemIn(EnvOf(s), db, inp);
      case UpdateIt(id, inp) => var _ := UpdateItem(EnvOf(s), db, id, inp);
      case DuplicateIt(id, maxName) => var _ := DuplicateItem(EnvOf(s), db, id, maxName);
      case BulkIt(b) => var _ := Repricing.BulkPrice(db, b);
      case RateIt(rate, confirm) => var _ := Repricing.SetExchangeRate(db, rate, confirm);
      case DrinksIt(ds) => var _ := SetDrinks(db, s.media, ds);
      case SyncIt(rows, usd, createMissing, dryRun) =>
        var _ := PriceSync.SyncPrices(db, rows, usd, createMissing, dryRun, s.unicode);
    }
  }

  // ---------------------------------------------------------------------------------------
  // Coherence, write by write
  // ---------------------------------------------------------------------------------------

  /** A lira price is sent for a dollar item together with a dollar option: the price is written and the old
      cents stay (usd.go:94-107). */
  predicate StaleCents(rate: real, it: Item, inp: ItemInput) {
    && it.cents.Some? && !InDollars(inp) && DollarOptions(inp.modifiers)
    && inp.price.Some? && inp.price.value != UsdToSyp(it.cents.value, rate)
  }

  lemma InheritedArePriced(rate: real, own: seq<Group>, groups: seq<GroupInput>)
    requires AllPriced(rate, groups)
    ensures AllPriced(rate, InheritAll(own, groups))
  {
    hide UsdToSyp, FirstNamed, NamedGrams;
    forall i | 0 <= i < |groups|
      ensures OptionsPriced(rate, Inherit(own, groups[i]))
    {
      assert OptionsPriced(rate, groups[i]);
    }
  }

  lemma CreatedIsCoherent(env: Env, m: MenuState, inp: ItemInput)
    requires Coherent(m) && AllUnresolved(inp.modifiers) && Created(env, m, inp).Ok?
    ensures CoherentItem(m.Rate(), Created(env, m, inp).value)
  {
    hide UsdToSyp, LinksFor, AllNamed, GroupRows, CoherentGroups, Copies, AllPriced, Resolve;
    ResolvedIsPriced(m.Rate(), inp);
    var out := Resolve(m.Rate(), inp).value.1;
    NoneArePriced(m.Rate());
    StoredIsCoherent(env.parse, m.Rate(), Or(out.modifiers, []));
    CopiesAreCoherent(m.Rate(), m.hasDrinks, m.drinks, !Or(inp.storeDrinks, true));
  }

  lemma NoneArePriced(rate: real)
    ensures AllPriced(rate, [])
  {
  }

  lemma OwnAfterIsCoherent(env: Env, rate: real, it: Item, modifiers: Option<seq<GroupInput>>)
    requires CoherentGroups(rate, it.own) && (modifiers.Some? ==> AllPriced(rate, modifiers.value))
    requires OwnAfter(env, it, modifiers).Ok?
    ensures CoherentGroups(rate, OwnAfter(env, it, modifiers).value)
  {
    hide UsdToSyp, CoherentGroups, AllPriced, AllNamed, GroupRows, InheritAll;
    if modifiers.Some? {
      InheritedArePriced(rate, it.own, modifiers.value);
      StoredIsCoherent(env.parse, rate, InheritAll(it.own, modifiers.value));
    }
  }

  /** An update leaves the item coherent, except when it keeps stale cents. */
  lemma UpdatedIsCoherentIff(env: Env, m: MenuState, it: Item, inp: ItemInput)
    requires CoherentDrinks(m.Rate(), m.drinks) && CoherentItem(m.Rate(), it)
    requires AllUnresolved(inp.modifiers) && Updated(env, m, it, inp).Ok?
    ensures CoherentItem(m.Rate(), Updated(env, m, it, inp).value) <==> !StaleCents(m.Rate(), it, inp)
  {
    hide UsdToSyp, LinksFor, CoherentGroups, Copies, AllPriced, OwnAfter, OutOfBounds, Resolve, DollarOptions;
    ResolvedIsPriced(m.Rate(), inp);
    var (plan, out) := Resolve(m.Rate(), inp).value;
    PlanIs(m.Rate(), inp);
    OwnAfterIsCoherent(env, m.Rate(), it, out.modifiers);
    if inp.storeDrinks.Some? {
      CopiesAreCoherent(m.Rate(), m.hasDrinks, m.drinks, !inp.storeDrinks.value);
    }
  }

  lemma PlanIs(rate: real, inp: ItemInput)
    requires Resolve(rate, inp).Ok?
    ensures var plan := Resolve(rate, inp).value.0;
            && (plan.SetCents? <==> InDollars(inp))
            && (plan.Keep? <==>
                  && !InDollars(inp)
                  && (DollarOptions(inp.modifiers) || (inp.price.None? && inp.currency != Some("SYP"))))
  {
    hide UsdToSyp, DollarsToCents;
  }

  lemma RowOfOnly(items: seq<Item>, nextId: nat, k: nat)
    requires FreshIds(items, nextId) && k < |items|
    ensures RowOf(items, items[k].id) == k
  {
  }

  /** The price sent beside stale cents is written, but the next change of the rate puts the item back to its old
      cents, even a change to the rate there is. */
  lemma StalePriceIsLost(env: Env, m: MenuState, k: nat, inp: ItemInput, rate: Number, confirm: bool)
    requires m.Valid() && Coherent(m) && k < |m.items| && AllUnresolved(inp.modifiers)
    requires StaleCents(m.Rate(), m.items[k], inp) && UpdateResult(env, m, m.items[k].id, inp).Ok?
    ensures var it, after := m.items[k], UpdateResult(env, m, m.items[k].id, inp).value;
            && |after.items| == |m.items| && after.items[k].price == inp.price.value && after.items[k].cents == it.cents
            && !CoherentItem(m.Rate(), after.items[k])
            && var later := Repricing.RateChanged(after, rate, confirm);
               later.Ok? ==> later.value.items[k].price == UsdToSyp(it.cents.value, rate.v)
  {
    hide UsdToSyp, LinksFor, CoherentGroups, CoherentDrinks, Copies, AllPriced, OwnAfter, OutOfBounds, Resolve;
    hide DollarOptions, RowOf, Repricing.Jump, Repricing.Stored4;
    RowOfOnly(m.items, m.nextId, k);
    ResolvedIsPriced(m.Rate(), inp);
    PlanIs(m.Rate(), inp);
  }

  /** Groups of a mode not sent, for an item without groups, are written when they and their options have names. */
  lemma PlainGroupsAreWritten(env: Env, it: Item, rate: real, g: GroupInput)
    requires it.own == [] && g.mode.None? && g.name != "" && forall j :: 0 <= j < |g.options| ==>
        g.options[j].name != ""
    ensures OwnAfter(env, it, ResolveModifiers(rate, Some([g]))).Ok?
  {
    hide UsdToSyp;
    var groups := ResolveGroups(rate, [g]);
    assert InheritAll([], groups) == groups;
    assert NamedGroup(env.parse, groups[0]);
  }

  /** Such an update is accepted: a dollar item is sent 5 lira and one option of a dollar. */
  lemma StaleCentsHappen(env: Env) returns (m: MenuState, inp: ItemInput)
    ensures m.Valid() && Coherent(m) && AllUnresolved(inp.modifiers) && |m.items| == 1 && m.items[0].id == 0
    ensures StaleCents(m.Rate(), m.items[0], inp) && UpdateResult(env, m, 0, inp).Ok?
    ensures UpdateResult(env, m, 0, inp).value.items[0].price == 5
    ensures var same := Repricing.RateChanged(UpdateResult(env, m, 0, inp).value, Finite(m.Rate()), false);
            same.Ok? && same.value.items[0].price == m.items[0].price == 10_000
  {
    hide OptionGrams, Copies, AllNamed, GroupRows, UsdToSyp, ResolveGroups, Repricing.Stored4, Repricing.Jump;
    hide OwnAfter;
    var it := Item(0, "a", 10_000, Some(100), true, "", "", "s", false, [], []);
    m := MenuState([it], 1, Some(10_000.0), [], false, 0);
    var option := OptionInput("o", 0, Some(1.0), None, None, None);
    var g := GroupInput("g", 0, 1, None, None, [option]);
    inp := ItemInput(None, Some(5), None, None, None, None, Some([g]), None, None, None);
    TenThousand();
    assert g.options[0].usd.Some? && DollarOption(inp.modifiers.value[0]);
    PlainGroupsAreWritten(env, it, m.Rate(), g);
    StalePriceIsLost(env, m, 0, inp, Finite(m.Rate()), false);
  }

  lemma TenThousand()
    ensures UsdToSyp(100, 10_000.0) == 10_000 && Repricing.Stored4(10_000.0) == 10_000.0
    ensures !Repricing.Jump(10_000.0, 10_000.0)
  {
  }
}
