/** Prices sent in dollars become cents and lira before anything is written
    (resolveUSD in backend/internal/catalog/usd.go). */
module Dollars {
  import opened Common
  import opened Money
  import opened Menu
  import opened OptionModes
  import opened Modifiers

  datatype MenuError =
    | NameRequired | SectionRequired | RateRequired | PriceTooHigh | TextTooLong | LinkInvalid | CodeTaken
    | NotFound | RateInvalid | RateJump | CheckViolated | BulkPercent | BulkAmount | TooManyDrinks | NoDrinksHere

  /** An item as it is sent; what is absent stays as it is. */
  datatype ItemInput = ItemInput(
    name: Option<string>, price: Option<int>, currency: Option<string>, priceUsd: Option<real>,
    section: Option<string>, available: Option<bool>, modifiers: Option<seq<GroupInput>>,
    storeDrinks: Option<bool>, code: Option<string>, barcode: Option<string>)

  /** What becomes of the stored cents. */
  datatype Plan = Keep | Clear | SetCents(cents: int)

  predicate InDollars(inp: ItemInput) {
    inp.currency == Some("USD")
  }

  predicate DollarOption(g: GroupInput) {
    exists j :: 0 <= j < |g.options| && g.options[j].usd.Some?
  }

  /** Some option is sent in dollars. */
  predicate DollarOptions(modifiers: Option<seq<GroupInput>>) {
    modifiers.Some? && exists i :: 0 <= i < |modifiers.value| && DollarOption(modifiers.value[i])
  }

  function ResolveOption(rate: real, o: OptionInput): OptionInput {
    if o.usd.None? then o
    else
      var c := DollarsToCents(o.usd.value);
      o.(cents := Some(c), delta := UsdToSyp(c, rate))
  }

  function ResolveGroup(rate: real, g: GroupInput): (r: GroupInput)
    ensures |r.options| == |g.options|
  {
    g.(options := seq(|g.options|, j requires 0 <= j < |g.options| => ResolveOption(rate, g.options[j])))
  }

  function ResolveGroups(rate: real, groups: seq<GroupInput>): (r: seq<GroupInput>)
    ensures |r| == |groups|
    ensures forall i :: 0 <= i < |r| ==> r[i] == ResolveGroup(rate, groups[i])
  {
    seq(|groups|, i requires 0 <= i < |groups| => ResolveGroup(rate, groups[i]))
  }

  function ResolveModifiers(rate: real, modifiers: Option<seq<GroupInput>>): Option<seq<GroupInput>> {
    if modifiers.None? then None else Some(ResolveGroups(rate, modifiers.value))
  }

  /** The plan for the cents, and the input in lira. */
  function Resolve(rate: real, inp: ItemInput): Result<(Plan, ItemInput), MenuError> {
    if !InDollars(inp) && !DollarOptions(inp.modifiers) then
      Ok((if inp.price.Some? || inp.currency == Some("SYP") then Clear else Keep, inp))
    else if rate <= 0.0 then Err(RateRequired)
    else if InDollars(inp) && (inp.priceUsd.None? || inp.priceUsd.value < 0.0) then Err(MenuError.NameRequired)
    else
      var resolved := inp.(modifiers := ResolveModifiers(rate, inp.modifiers));
      if InDollars(inp) then
        var c := DollarsToCents(inp.priceUsd.value);
        Ok((SetCents(c), resolved.(price := Some(UsdToSyp(c, rate)))))
      else Ok((Keep, resolved))
  }

  method AnyDollarOption(modifiers: Option<seq<GroupInput>>) returns (any: bool)
    ensures any == DollarOptions(modifiers)
  {
    any := false;
    if modifiers.None? {
      return;
    }
    var groups := modifiers.value;
    for i := 0 to |groups|
      invariant any == exists k :: 0 <= k < i && DollarOption(groups[k])
    {
      ghost var before := any;
      for j := 0 to |groups[i].options|
        invariant any == (before || exists m :: 0 <= m < j && groups[i].options[m].usd.Some?)
      {
        if groups[i].options[j].usd.Some? {
          any := true;
        }
      }
    }
  }

  method ResolveOptions(rate: real, g: GroupInput) returns (r: GroupInput)
    ensures r == ResolveGroup(rate, g)
  {
    hide UsdToSyp, DollarsToCents;
    var options := g.options;
    for j := 0 to |options|
      invariant |options| == |g.options|
      invariant forall k :: 0 <= k < j ==> options[k] == ResolveOption(rate, g.options[k])
      invariant forall k :: j <= k < |options| ==> options[k] == g.options[k]
    {
      if options[j].usd.Some? {
        var c := DollarsToCents(options[j].usd.value);
        options := options[j := options[j].(cents := Some(c), delta := UsdToSyp(c, rate))];
      }
    }
    r := g.(options := options);
    assert options == ResolveGroup(rate, g).options;
  }

  /** resolveUSD: rewrites the input and says what to write in the cents column. */
  method ResolveUsd(rate: real, input: ItemInput) returns (r: Result<(Plan, ItemInput), MenuError>)
    ensures r == Resolve(rate, input)
  {
    hide UsdToSyp, DollarsToCents, DollarOptions, ResolveGroup;
    var inp := input;
    var usd := InDollars(inp);
    var any := AnyDollarOption(inp.modifiers);
    if !usd && !any {
      return Ok((if inp.price.Some? || inp.currency == Some("SYP") then Clear else Keep, inp));
    }
    if rate <= 0.0 {
      return Err(RateRequired);
    }
    var plan := Keep;
    if usd {
      if inp.priceUsd.None? || inp.priceUsd.value < 0.0 {
        return Err(MenuError.NameRequired);
      }
      plan := SetCents(DollarsToCents(inp.priceUsd.value));
      inp := inp.(price := Some(UsdToSyp(plan.cents, rate)));
    }
    if inp.modifiers.Some? {
      var groups := inp.modifiers.value;
      for i := 0 to |groups|
        invariant |groups| == |input.modifiers.value|
        invariant forall k :: 0 <= k < i ==> groups[k] == ResolveGroup(rate, input.modifiers.value[k])
        invariant forall k :: i <= k < |groups| ==> groups[k] == input.modifiers.value[k]
      {
        var g := ResolveOptions(rate, groups[i]);
        groups := groups[i := g];
      }
      assert groups == ResolveGroups(rate, input.modifiers.value);
      inp := inp.(modifiers := Some(groups));
    }
    return Ok((plan, inp));
  }

  // ---------------------------------------------------------------------------------------
  // The derived lira prices
  // ---------------------------------------------------------------------------------------

  /** A price with cents is those cents at the rate; without cents it is anything. */
  predicate PricedAt(rate: real, price: int, cents: Option<int>) {
    cents.Some? ==> price == UsdToSyp(cents.value, rate)
  }

  predicate CoherentGroup(rate: real, g: Group) {
    forall j :: 0 <= j < |g.choices| ==> PricedAt(rate, g.choices[j].delta, g.choices[j].cents)
  }

  predicate CoherentGroups(rate: real, groups: seq<Group>) {
    forall i :: 0 <= i < |groups| ==> CoherentGroup(rate, groups[i])
  }

  predicate CoherentItem(rate: real, it: Item) {
    PricedAt(rate, it.price, it.cents) && CoherentGroups(rate, it.own) && CoherentGroups(rate, it.copies)
  }

  predicate CoherentDrinks(rate: real, drinks: seq<Drink>) {
    forall i :: 0 <= i < |drinks| ==> PricedAt(rate, drinks[i].price, drinks[i].cents)
  }

  /** Every lira price derived from cents is those cents at the stored rate. */
  predicate Coherent(m: MenuState) {
    CoherentDrinks(m.Rate(), m.drinks) && forall i :: 0 <= i < |m.items| ==> CoherentItem(m.Rate(), m.items[i])
  }

  /** No cents were filled in before the dollars are resolved. */
  predicate Unresolved(g: GroupInput) {
    forall j :: 0 <= j < |g.options| ==> g.options[j].cents.None?
  }

  predicate AllUnresolved(modifiers: Option<seq<GroupInput>>) {
    modifiers.Some? ==> forall i :: 0 <= i < |modifiers.value| ==> Unresolved(modifiers.value[i])
  }

  predicate OptionsPriced(rate: real, g: GroupInput) {
    forall j :: 0 <= j < |g.options| ==> PricedAt(rate, g.options[j].delta, g.options[j].cents)
  }

  predicate AllPriced(rate: real, groups: seq<GroupInput>) {
    forall i :: 0 <= i < |groups| ==> OptionsPriced(rate, groups[i])
  }

  /** What Resolve hands on agrees with the rate. */
  lemma ResolvedIsPriced(rate: real, inp: ItemInput)
    requires AllUnresolved(inp.modifiers) && Resolve(rate, inp).Ok?
    ensures var (plan, out) := Resolve(rate, inp).value;
            && (plan.SetCents? ==> out.price == Some(UsdToSyp(plan.cents, rate)))
            && (!plan.SetCents? ==> out.price == inp.price)
            && (out.modifiers.Some? ==> AllPriced(rate, out.modifiers.value))
            && out == inp.(price := out.price, modifiers := out.modifiers)
            && (out.modifiers.Some? <==> inp.modifiers.Some?)
  {
    hide UsdToSyp, DollarsToCents, DollarOptions;
    if inp.modifiers.Some? {
      forall i | 0 <= i < |inp.modifiers.value|
        ensures OptionsPriced(rate, inp.modifiers.value[i])
        ensures OptionsPriced(rate, ResolveGroup(rate, inp.modifiers.value[i]))
      {
        assert Unresolved(inp.modifiers.value[i]);
      }
    }
  }

  /** Cleaning and storing a group keeps its options at the rate. */
  lemma StoredIsCoherent(parse: Parse, rate: real, groups: seq<GroupInput>)
    requires AllPriced(rate, groups)
    ensures CoherentGroups(rate, GroupRows(parse, groups))
  {
    hide UsdToSyp, OptionGrams, WeightName;
    forall i | 0 <= i < |groups|
      ensures CoherentGroup(rate, GroupRow(parse, groups[i]))
    {
      assert OptionsPriced(rate, groups[i]);
    }
  }
}
