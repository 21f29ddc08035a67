/** What a created or an updated item is, field by field, and when a write is accepted: said of what is sent and of
    what is stored (backend/internal/catalog/menu.go, usd.go, option_modes.go and item_link.go). */
module MenuMeaning {
  import opened Common
  import opened Money
  import opened Text
  import opened Menu
  import opened OptionModes
  import opened Modifiers
  import opened ModeInheritance
  import opened Dollars
  import opened DrinksList
  import opened MenuPlans

  // ---------------------------------------------------------------------------------------
  // Option groups
  // ---------------------------------------------------------------------------------------

  /** The first stored group with a name. */
  predicate IsPrior(stored: seq<Group>, name: string, k: nat) {
    k < |stored| && stored[k].name == name && forall j :: 0 <= j < k ==> stored[j].name != name
  }

  ghost predicate NoPrior(stored: seq<Group>, name: string) {
    forall k: nat :: !IsPrior(stored, name, k)
  }

  /** The mode that is sent, or else that of the first stored group with the name, or else prices. */
  ghost predicate ModeIs(stored: seq<Group>, sent: GroupInput, mode: PriceMode) {
    if sent.mode.Some? then
      && (mode == NoPrice <==> sent.mode.value == "none") && (mode == Weight <==> sent.mode.value == "weight")
    else
      && (forall k: nat :: IsPrior(stored, sent.name, k) ==> mode == stored[k].mode)
      && (NoPrior(stored, sent.name) ==> mode == Priced)
  }

  predicate Usable(base: Option<int>) {
    base.Some? && 0 < base.value <= 1_000_000
  }

  /** The base of a group by weight: the one sent, or else that of the stored group whose mode it takes, or else
      a hundred grams. */
  ghost predicate BaseIs(stored: seq<Group>, sent: GroupInput, mode: PriceMode, base: Option<int>) {
    if mode != Weight then base == None
    else if Usable(sent.base) then base == sent.base
    else if sent.mode.None? && sent.base.None? then
      forall k: nat :: IsPrior(stored, sent.name, k) ==>
        base == if Usable(stored[k].base) then stored[k].base else Some(100)
    else base == Some(100)
  }

  /** Option j of stored group a has the names, and a weight. */
  predicate HasWeight(stored: seq<Group>, group: string, option: string, a: nat, j: nat) {
    && a < |stored| && j < |stored[a].choices| && stored[a].name == group
    && stored[a].choices[j].name == option && stored[a].choices[j].grams.Some?
  }

  /** It is the last such. */
  predicate LastWeight(stored: seq<Group>, group: string, option: string, a: nat, j: nat) {
    && HasWeight(stored, group, option, a, j)
    && (forall i :: j < i < |stored[a].choices| ==> !HasWeight(stored, group, option, a, i))
    && forall b, i :: a < b < |stored| && 0 <= i < |stored[b].choices| ==> !HasWeight(stored, group, option, b, i)
  }

  /** The weight an option is taken to be sent with: its own, or, in a group that takes its mode from a stored one,
      the last stored weight of an option with its name. */
  ghost predicate WeightSent(stored: seq<Group>, sent: GroupInput, o: OptionInput, grams: Option<int>) {
    if o.grams.Some? || sent.mode.Some? || NoPrior(stored, sent.name) then grams == o.grams
    else
      && (forall a: nat, j: nat :: LastWeight(stored, sent.name, o.name, a, j) ==>
            grams == stored[a].choices[j].grams)
      && ((forall a: nat, j: nat :: !HasWeight(stored, sent.name, o.name, a, j)) ==> grams == None)
  }

  /** The weight that is stored: the one sent, or the one the name speaks of. */
  predicate WeightStored(parse: Parse, grams: Option<int>, name: string, row: Option<int>) {
    if Usable(grams) then row == grams
    else if GramsFromName(parse, name) > 0 then row == Some(GramsFromName(parse, name))
    else row == None
  }

  /** An option's price difference: at the rate when it is sent in dollars, and as sent otherwise. */
  predicate MoneySent(rate: real, o: OptionInput, delta: int, cents: Option<int>) {
    if o.usd.Some? then
      cents.Some? && Nearest(cents.value, o.usd.value * 100.0) && delta == UsdToSyp(cents.value, rate)
    else delta == o.delta && cents == o.cents
  }

  /** An option as it is stored, sent with that weight in a group of that mode. */
  ghost predicate OptionStored(
    parse: Parse, rate: real, mode: PriceMode, o: OptionInput, grams: Option<int>, row: Choice)
  {
    && row.image == None && (row.available <==> o.available != Some(false))
    && match mode
       case Priced => row.name == o.name && row.grams == None && MoneySent(rate, o, row.delta, row.cents)
       case NoPrice => row.name == o.name && row.grams == None && row.delta == 0 && row.cents == None
       case Weight =>
         && WeightStored(parse, grams, o.name, row.grams)
         && if row.grams.Some? then
              && row.grams.value > 0 && row.name == WeightName(row.grams.value) && row.cents == None
              && exists c :: MoneySent(rate, o, row.delta, c)
            else row.name == o.name && MoneySent(rate, o, row.delta, row.cents)
  }

  ghost predicate OptionKept(
    parse: Parse, rate: real, stored: seq<Group>, sent: GroupInput, mode: PriceMode, o: OptionInput, row: Choice)
  {
    exists grams :: WeightSent(stored, sent, o, grams) && OptionStored(parse, rate, mode, o, grams, row)
  }

  /** A group as it is stored. */
  ghost predicate GroupStored(parse: Parse, rate: real, stored: seq<Group>, sent: GroupInput, row: Group) {
    && row.name == sent.name
    && row.maxSelect == (if sent.maxSelect >= 1 then sent.maxSelect else 1)
    && row.minSelect == (if sent.minSelect <= 0 then 0
                         else if sent.minSelect <= row.maxSelect then sent.minSelect else row.maxSelect)
    && ModeIs(stored, sent, row.mode) && BaseIs(stored, sent, row.mode, row.base)
    && |row.choices| == |sent.options|
    && forall i :: 0 <= i < |sent.options| ==>
         OptionKept(parse, rate, stored, sent, row.mode, sent.options[i], row.choices[i])
  }

  ghost predicate GroupsStored(
    parse: Parse, rate: real, stored: seq<Group>, sent: seq<GroupInput>, rows: seq<Group>)
  {
    |rows| == |sent| && forall i :: 0 <= i < |sent| ==> GroupStored(parse, rate, stored, sent[i], rows[i])
  }

  lemma PriorMeans(stored: seq<Group>, name: string)
    ensures var p := FirstNamed(stored, name);
            && (p.None? <==> NoPrior(stored, name))
            && forall k: nat :: IsPrior(stored, name, k) ==> p == Some(stored[k])
  {
    if FirstNamed(stored, name).Some? {
      var k := FirstAtLeast(stored, name);
      FirstIsPrior(stored, name, k);
      assert forall i: nat :: IsPrior(stored, name, i) ==> i == k;
    }
  }

  lemma {:induction false} FirstIsPrior(stored: seq<Group>, name: string, k: nat)
    requires IsPrior(stored, name, k)
    ensures FirstNamed(stored, name) == Some(stored[k])
  {
    if k > 0 {
      FirstIsPrior(stored[1..], name, k - 1);
    }
  }

  lemma {:induction false} FirstAtLeast(stored: seq<Group>, name: string) returns (k: nat)
    requires exists h :: h in stored && h.name == name
    ensures IsPrior(stored, name, k)
  {
    if stored[0].name == name {
      k := 0;
    } else {
      assert forall h :: h in stored <==> h == stored[0] || h in stored[1..];
      k := FirstAtLeast(stored[1..], name);
      k := k + 1;
    }
  }

  lemma {:induction false} ChoiceGramsMean(choices: seq<Choice>, option: string)
    ensures ChoiceGrams(choices, option).None? <==>
            forall j :: 0 <= j < |choices| ==> !(choices[j].name == option && choices[j].grams.Some?)
    ensures forall j :: 0 <= j < |choices| && choices[j].name == option && choices[j].grams.Some?
                        && (forall i :: j < i < |choices| ==>
                              !(choices[i].name == option && choices[i].grams.Some?)) ==>
                        ChoiceGrams(choices, option) == choices[j].grams
  {
    if choices != [] {
      var n := |choices| - 1;
      ChoiceGramsMean(choices[..n], option);
      assert forall j :: 0 <= j < n ==> choices[..n][j] == choices[j];
    }
  }

  lemma {:induction false} NamedGramsMean(stored: seq<Group>, group: string, option: string)
    ensures NamedGrams(stored, group, option).None? <==>
            forall a: nat, j: nat :: !HasWeight(stored, group, option, a, j)
    ensures forall a: nat, j: nat :: LastWeight(stored, group, option, a, j) ==>
              NamedGrams(stored, group, option) == stored[a].choices[j].grams
    ensures NamedGrams(stored, group, option).Some? ==> exists a: nat, j: nat :: LastWeight(stored, group, option, a, j)
  {
    if stored != [] {
      var n := |stored| - 1;
      var before, g := stored[..n], stored[n];
      NamedGramsMean(before, group, option);
      ChoiceGramsMean(g.choices, option);
      assert NamedGrams(stored, group, option) ==
        if g.name == group && ChoiceGrams(g.choices, option).Some? then ChoiceGrams(g.choices, option)
        else NamedGrams(before, group, option);
      LastOfMore(before, g, group, option);
      assert stored == before + [g];
      if g.name == group && ChoiceGrams(g.choices, option).Some? {
        var j := LastChoice(g.choices, option);
        LastInLast(before, g, group, option, j);
      } else if NamedGrams(before, group, option).Some? {
        var a: nat, j: nat :| LastWeight(before, group, option, a, j);
        LastInBefore(before, g, group, option, a, j);
      }
      forall a: nat, j: nat | LastWeight(stored, group, option, a, j)
        ensures NamedGrams(stored, group, option) == stored[a].choices[j].grams
      {
        if a < n {
          assert LastWeight(before, group, option, a, j) && before[a] == stored[a];
        } else {
          assert a == n && ChoiceGrams(g.choices, option) == g.choices[j].grams;
        }
      }
    }
  }

  lemma {:induction false} LastChoice(choices: seq<Choice>, option: string) returns (j: nat)
    requires ChoiceGrams(choices, option).Some?
    ensures j < |choices| && choices[j].name == option && choices[j].grams.Some?
    ensures forall i :: j < i < |choices| ==> !(choices[i].name == option && choices[i].grams.Some?)
  {
    var n := |choices| - 1;
    if choices[n].name == option && choices[n].grams.Some? {
      j := n;
    } else {
      j := LastChoice(choices[..n], option);
      assert forall i :: 0 <= i < n ==> choices[..n][i] == choices[i];
    }
  }

  lemma LastInLast(before: seq<Group>, g: Group, group: string, option: string, j: nat)
    requires g.name == group && j < |g.choices| && g.choices[j].name == option && g.choices[j].grams.Some?
    requires forall i :: j < i < |g.choices| ==> !(g.choices[i].name == option && g.choices[i].grams.Some?)
    ensures LastWeight(before + [g], group, option, |before|, j)
  {
    assert (before + [g])[|before|] == g;
  }

  lemma LastInBefore(before: seq<Group>, g: Group, group: string, option: string, a: nat, j: nat)
    requires LastWeight(before, group, option, a, j)
    requires g.name != group || ChoiceGrams(g.choices, option).None?
    ensures LastWeight(before + [g], group, option, a, j)
  {
    var stored := before + [g];
    ChoiceGramsMean(g.choices, option);
    assert stored[|before|] == g && forall b: nat :: b < |before| ==> stored[b] == before[b];
    forall c: nat, i: nat | a < c < |stored| && i < |stored[c].choices|
      ensures !HasWeight(stored, group, option, c, i)
    {
      if c < |before| {
        assert !HasWeight(before, group, option, c, i);
      }
    }
    forall i: nat | j < i < |stored[a].choices|
      ensures !HasWeight(stored, group, option, a, i)
    {
      assert !HasWeight(before, group, option, a, i);
    }
  }

  /** The last weight is that of the last group, if it has one, and else the last before. */
  lemma LastOfMore(before: seq<Group>, g: Group, group: string, option: string)
    ensures var stored := before + [g];
            && (forall a: nat, j: nat :: HasWeight(stored, group, option, a, j) <==>
                  HasWeight(before, group, option, a, j)
                  || (a == |before| && j < |g.choices| && g.name == group && g.choices[j].name == option
                      && g.choices[j].grams.Some?))
            && (forall a: nat, j: nat :: LastWeight(stored, group, option, a, j) && a < |before| ==>
                  LastWeight(before, group, option, a, j)
                  && forall i :: 0 <= i < |g.choices| ==>
                       !(g.name == group && g.choices[i].name == option && g.choices[i].grams.Some?))
            && (forall a: nat, j: nat :: LastWeight(stored, group, option, a, j) && a >= |before| ==>
                  a == |before| && j < |g.choices| && g.name == group && g.choices[j].name == option
                  && g.choices[j].grams.Some?
                  && forall i :: j < i < |g.choices| ==> !(g.choices[i].name == option && g.choices[i].grams.Some?))
  {
    var stored := before + [g];
    assert forall a: nat :: a < |before| ==> stored[a] == before[a];
    assert stored[|before|] == g;
    forall a: nat, j: nat | LastWeight(stored, group, option, a, j) && a < |before|
      ensures forall i :: 0 <= i < |g.choices| ==>
                            !(g.name == group && g.choices[i].name == option && g.choices[i].grams.Some?)
    {
      forall i | 0 <= i < |g.choices|
        ensures !(g.name == group && g.choices[i].name == option && g.choices[i].grams.Some?)
      {
        assert !HasWeight(stored, group, option, |before|, i);
      }
    }
    forall a: nat, j: nat | LastWeight(stored, group, option, a, j) && a >= |before|
      ensures forall i :: j < i < |g.choices| ==> !(g.choices[i].name == option && g.choices[i].grams.Some?)
    {
      forall i | j < i < |g.choices|
        ensures !(g.choices[i].name == option && g.choices[i].grams.Some?)
      {
        assert !HasWeight(stored, group, option, |before|, i);
      }
    }
    forall a: nat, j: nat | LastWeight(stored, group, option, a, j) && a < |before|
      ensures LastWeight(before, group, option, a, j)
    {
      assert forall b: nat, i: nat :: b < |before| ==>
          (HasWeight(before, group, option, b, i) <==> HasWeight(stored, group, option, b, i));
    }
  }

  lemma OptionIsStored(parse: Parse, rate: real, mode: PriceMode, o: OptionInput, grams: Option<int>)
    ensures var sent := ResolveOption(rate, o).(grams := grams);
            OptionStored(parse, rate, mode, o, grams, ChoiceRow(CleanOption(parse, mode, sent)))
  {
    hide GramsFromName, WeightName, UsdToSyp, Round;
    var sent := ResolveOption(rate, o);
    assert MoneySent(rate, o, sent.delta, sent.cents);
  }

  /** The weight an option has after its group was completed from the stored ones. */
  function GramsAfter(stored: seq<Group>, g: GroupInput, o: OptionInput): Option<int> {
    var p := FirstNamed(stored, g.name);
    if g.mode.Some? || p.None? || p.value.mode == Priced || o.grams.Some? then o.grams
    else NamedGrams(stored, g.name, o.name)
  }

  lemma InheritedOption(rate: real, stored: seq<Group>, g: GroupInput, i: nat)
    requires i < |g.options|
    ensures Inherit(stored, ResolveGroup(rate, g)).options[i]
            == ResolveOption(rate, g.options[i]).(grams := GramsAfter(stored, g, g.options[i]))
  {
    hide UsdToSyp, DollarsToCents, FirstNamed, NamedGrams;
  }

  lemma InheritedGroup(rate: real, stored: seq<Group>, g: GroupInput)
    ensures var done := Inherit(stored, ResolveGroup(rate, g));
            && |done.options| == |g.options| && done.name == g.name
            && done.minSelect == g.minSelect && done.maxSelect == g.maxSelect
            && ModeIs(stored, g, GroupMode(done)) && BaseIs(stored, g, GroupMode(done), GroupBase(done))
  {
    hide UsdToSyp, DollarsToCents, FirstNamed, IsPrior;
    PriorMeans(stored, g.name);
    if g.mode.None? && FirstNamed(stored, g.name).Some? {
      var k: nat :| IsPrior(stored, g.name, k);
    }
  }

  lemma GramsAreSent(stored: seq<Group>, g: GroupInput, o: OptionInput, mode: PriceMode)
    requires ModeIs(stored, g, mode) && mode == Weight
    ensures WeightSent(stored, g, o, GramsAfter(stored, g, o))
    ensures forall grams :: WeightSent(stored, g, o, grams) ==> grams == GramsAfter(stored, g, o)
  {
    hide FirstNamed, NamedGrams, LastWeight, HasWeight, IsPrior;
    PriorMeans(stored, g.name);
    NamedGramsMean(stored, g.name, o.name);
    if g.mode.None? && !NoPrior(stored, g.name) {
      var k: nat :| IsPrior(stored, g.name, k);
    }
  }

  /** A group sent is stored as it should be. */
  lemma GroupIsStored(parse: Parse, rate: real, stored: seq<Group>, g: GroupInput)
    ensures GroupStored(parse, rate, stored, g, GroupRow(parse, Inherit(stored, ResolveGroup(rate, g))))
  {
    hide ModeIs, BaseIs, OptionKept, GroupMode, GroupBase, CleanOption, ChoiceRow, ResolveOption, GramsAfter;
    hide Inherit;
    var done := Inherit(stored, ResolveGroup(rate, g));
    InheritedGroup(rate, stored, g);
    forall i | 0 <= i < |g.options|
      ensures OptionKept(parse, rate, stored, g, GroupMode(done), g.options[i],
                         ChoiceRow(CleanOption(parse, GroupMode(done), done.options[i])))
    {
      InheritedOption(rate, stored, g, i);
      StoredWithGrams(parse, rate, stored, g, g.options[i], GroupMode(done));
    }
  }

  lemma StoredWithGrams(
    parse: Parse, rate: real, stored: seq<Group>, g: GroupInput, o: OptionInput, mode: PriceMode)
    requires ModeIs(stored, g, mode)
    ensures OptionKept(parse, rate, stored, g, mode, o,
                ChoiceRow(CleanOption(parse, mode, ResolveOption(rate, o).(grams := GramsAfter(stored, g, o)))))
  {
    hide ModeIs, OptionGrams, UsdToSyp, Round, WeightName, GramsFromName, FirstNamed, NamedGrams, IsPrior, LastWeight,
      HasWeight;
    OptionIsStored(parse, rate, mode, o, GramsAfter(stored, g, o));
    if mode == Weight {
      GramsAreSent(stored, g, o, mode);
    } else {
      var grams := SomeGrams(stored, g, o);
      OptionIsStored(parse, rate, mode, o, grams);
    }
  }

  /** There always is a weight, or none, that an option is taken to be sent with. */
  lemma SomeGrams(stored: seq<Group>, g: GroupInput, o: OptionInput) returns (grams: Option<int>)
    ensures WeightSent(stored, g, o, grams)
  {
    hide NamedGrams, LastWeight, HasWeight, IsPrior;
    NamedGramsMean(stored, g.name, o.name);
    grams := if o.grams.Some? || g.mode.Some? || NoPrior(stored, g.name) then o.grams
             else NamedGrams(stored, g.name, o.name);
  }

  /** Every group and option has a name. */
  predicate AllHaveNames(rows: seq<Group>) {
    forall i :: 0 <= i < |rows| ==>
      rows[i].name != "" && forall j :: 0 <= j < |rows[i].choices| ==> rows[i].choices[j].name != ""
  }

  /** What is sent determines mode and names. */
  lemma SameMode(stored: seq<Group>, g: GroupInput, a: PriceMode, b: PriceMode)
    requires ModeIs(stored, g, a) && ModeIs(stored, g, b)
    ensures a == b
  {
    hide IsPrior;
  }

  lemma SameName(
    parse: Parse, rate: real, stored: seq<Group>, g: GroupInput, mode: PriceMode, o: OptionInput, x: Choice, y: Choice)
    requires ModeIs(stored, g, mode)
    requires OptionKept(parse, rate, stored, g, mode, o, x) && OptionKept(parse, rate, stored, g, mode, o, y)
    ensures x.name == y.name
  {
    hide ModeIs, WeightSent, MoneySent, GramsAfter, WeightName, GramsFromName;
    if mode == Weight {
      GramsAreSent(stored, g, o, mode);
    }
  }

  lemma SameNames(parse: Parse, rate: real, stored: seq<Group>, g: GroupInput, x: Group, y: Group)
    requires GroupStored(parse, rate, stored, g, x) && GroupStored(parse, rate, stored, g, y)
    ensures x.name == y.name && |x.choices| == |y.choices|
    ensures forall i :: 0 <= i < |x.choices| ==> x.choices[i].name == y.choices[i].name
  {
    hide ModeIs, BaseIs, OptionKept;
    SameMode(stored, g, x.mode, y.mode);
    forall i | 0 <= i < |g.options|
      ensures x.choices[i].name == y.choices[i].name
    {
      SameName(parse, rate, stored, g, x.mode, g.options[i], x.choices[i], y.choices[i]);
    }
  }

  /** The groups sent are stored exactly when all of them and their options have names then. */
  lemma GroupsAreStored(parse: Parse, rate: real, stored: seq<Group>, sent: seq<GroupInput>)
    ensures var done := InheritAll(stored, ResolveGroups(rate, sent));
            && GroupsStored(parse, rate, stored, sent, GroupRows(parse, done))
            && (AllNamed(parse, done) <==> AllHaveNames(GroupRows(parse, done)))
            && forall rows: seq<Group> :: GroupsStored(parse, rate, stored, sent, rows) && AllHaveNames(rows) ==>
                 AllNamed(parse, done)
  {
    hide GroupStored, CleanOption, GroupMode, GroupBase, ResolveGroup, Inherit;
    var done := InheritAll(stored, ResolveGroups(rate, sent));
    forall i | 0 <= i < |sent|
      ensures GroupStored(parse, rate, stored, sent[i], GroupRow(parse, done[i]))
    {
      GroupIsStored(parse, rate, stored, sent[i]);
    }
    forall rows: seq<Group> | GroupsStored(parse, rate, stored, sent, rows) && AllHaveNames(rows)
      ensures AllHaveNames(GroupRows(parse, done))
    {
      forall i | 0 <= i < |sent|
        ensures GroupRow(parse, done[i]).name == rows[i].name
        ensures |GroupRow(parse, done[i]).choices| == |rows[i].choices|
        ensures forall j :: 0 <= j < |rows[i].choices| ==>
                  GroupRow(parse, done[i]).choices[j].name == rows[i].choices[j].name
      {
        SameNames(parse, rate, stored, sent[i], rows[i], GroupRow(parse, done[i]));
      }
    }
    assert AllNamed(parse, done) <==> AllHaveNames(GroupRows(parse, done)) by {
      forall i | 0 <= i < |done|
        ensures NamedGroup(parse, done[i]) <==>
                  && GroupRow(parse, done[i]).name != ""
                  && forall j :: 0 <= j < |GroupRow(parse, done[i]).choices| ==>
                       GroupRow(parse, done[i]).choices[j].name != ""
      {
        NamesOfRow(parse, done[i]);
      }
    }
  }

  lemma NamesOfRow(parse: Parse, g: GroupInput)
    ensures NamedGroup(parse, g) <==>
              && GroupRow(parse, g).name != ""
              && forall j :: 0 <= j < |GroupRow(parse, g).choices| ==> GroupRow(parse, g).choices[j].name != ""
  {
    hide CleanOption, GroupMode, GroupBase;
    forall j | 0 <= j < |g.options|
      ensures GroupRow(parse, g).choices[j].name == CleanOption(parse, GroupMode(g), g.options[j]).name
    {
    }
  }

  // ---------------------------------------------------------------------------------------
  // Items
  // ---------------------------------------------------------------------------------------

  /** Some option is sent in dollars. */
  predicate DollarsSent(inp: ItemInput) {
    inp.modifiers.Some?
    && exists i, j :: 0 <= i < |inp.modifiers.value| && 0 <= j < |inp.modifiers.value[i].options|
                      && inp.modifiers.value[i].options[j].usd.Some?
  }

  /** Price and cents: at the rate when dollars are sent; else the lira price sent, if one is, and then no cents,
      unless an option is sent in dollars, which leaves them. */
  predicate PricePut(rate: real, inp: ItemInput, was: int, wasCents: Option<int>, price: int, cents: Option<int>) {
    if inp.currency == Some("USD") then
      && rate > 0.0 && inp.priceUsd.Some? && inp.priceUsd.value >= 0.0
      && cents.Some? && Nearest(cents.value, inp.priceUsd.value * 100.0) && price == UsdToSyp(cents.value, rate)
    else
      && (DollarsSent(inp) ==> rate > 0.0)
      && price == (if inp.price.Some? then inp.price.value else was)
      && cents == (if !DollarsSent(inp) && (inp.price.Some? || inp.currency == Some("SYP")) then None else wasCents)
  }

  predicate InLimit(maxPrice: int, price: int) {
    0 <= price && (maxPrice > 0 ==> price <= maxPrice)
  }

  /** A link sent for a new item. */
  predicate LinkNew(t: TextRules, sent: Option<string>, now: string) {
    if sent.None? then now == "" else now == t.link(sent.value) && ValidLink(now)
  }

  /** A link sent as it is stored, or not at all, stays. */
  predicate LinkPut(t: TextRules, was: string, sent: Option<string>, now: string) {
    if sent.None? || t.trim(sent.value) == was then now == was
    else now == t.link(sent.value) && ValidLink(now)
  }

  /** No other item has the code, in whatever script its digits are. */
  predicate CodeFree(items: seq<Item>, except: Option<nat>, code: string) {
    code != "" ==>
      forall i :: 0 <= i < |items| && items[i].code != "" && (except.None? || items[i].id != except.value) ==>
                    LinkChars(items[i].code) != code
  }

  predicate NameFits(name: Option<string>) {
    name.Some? ==> |name.value| <= 120
  }

  /** The row a creation adds. */
  ghost predicate ItemMade(env: Env, m: MenuState, inp: ItemInput, now: Item) {
    && now.id == m.nextId && now.available && inp.name == Some(now.name) && now.name != "" && NameFits(inp.name)
    && (inp.currency == Some("USD") || inp.price.Some?)
    && PricePut(m.Rate(), inp, 0, None, now.price, now.cents) && InLimit(m.maxPrice, now.price)
    && inp.section == Some(now.section) && now.section != "" && now.section in env.active
    && LinkNew(env.text, inp.code, now.code) && LinkNew(env.text, inp.barcode, now.barcode)
    && CodeFree(m.items, None, now.code)
    && (now.drinksOff <==> inp.storeDrinks == Some(false))
    && CopiesRight(m.hasDrinks, m.drinks, now.drinksOff, now.copies)
    && GroupsStored(env.parse, m.Rate(), [], if inp.modifiers.Some? then inp.modifiers.value else [], now.own)
    && AllHaveNames(now.own)
  }

  /** The row after an update. */
  ghost predicate ItemPut(env: Env, m: MenuState, was: Item, inp: ItemInput, now: Item) {
    && now.id == was.id
    && now.name == (if inp.name.Some? then inp.name.value else was.name) && NameFits(inp.name)
    && PricePut(m.Rate(), inp, was.price, was.cents, now.price, now.cents)
    && (inp.price.Some? ==> InLimit(m.maxPrice, inp.price.value))
    && (inp.currency == Some("USD") ==> InLimit(m.maxPrice, now.price))
    && now.available == (if inp.available.Some? then inp.available.value else was.available)
    && now.section == (if inp.section.Some? then inp.section.value else was.section)
    && (inp.section.Some? ==> env.text.trim(inp.section.value) != "")
    && LinkPut(env.text, was.code, inp.code, now.code) && LinkPut(env.text, was.barcode, inp.barcode, now.barcode)
    && (inp.code.Some? && env.text.trim(inp.code.value) != was.code ==> CodeFree(m.items, Some(was.id), now.code))
    && (if inp.storeDrinks.Some? then
          && now.drinksOff == !inp.storeDrinks.value
          && CopiesRight(m.hasDrinks, m.drinks, now.drinksOff, now.copies)
        else now.drinksOff == was.drinksOff && now.copies == was.copies)
    && (if inp.modifiers.Some? then
          GroupsStored(env.parse, m.Rate(), was.own, inp.modifiers.value, now.own) && AllHaveNames(now.own)
        else now.own == was.own)
  }

  lemma DollarsAreSent(inp: ItemInput)
    ensures DollarsSent(inp) <==> DollarOptions(inp.modifiers)
  {
    if inp.modifiers.Some? && DollarOptions(inp.modifiers) {
      var i :| 0 <= i < |inp.modifiers.value| && DollarOption(inp.modifiers.value[i]);
      var j :| 0 <= j < |inp.modifiers.value[i].options| && inp.modifiers.value[i].options[j].usd.Some?;
    }
    if DollarsSent(inp) {
      var i, j :| 0 <= i < |inp.modifiers.value| && 0 <= j < |inp.modifiers.value[i].options|
                  && inp.modifiers.value[i].options[j].usd.Some?;
      assert DollarOption(inp.modifiers.value[i]);
    }
  }

  /** What the plan and the rewritten price make of the stored ones. */
  function CentsAfter(plan: Plan, was: Option<int>): Option<int> {
    match plan case SetCents(c) => Some(c) case Clear => None case Keep => was
  }

  /** Resolving the dollars: when it is possible, and what it writes. */
  lemma ResolveMeans(rate: real, inp: ItemInput, was: int, wasCents: Option<int>)
    ensures Resolve(rate, inp).Ok? <==> exists p, c :: PricePut(rate, inp, was, wasCents, p, c)
    ensures Resolve(rate, inp).Ok? ==>
              var (plan, out) := Resolve(rate, inp).value;
              && PricePut(rate, inp, was, wasCents, Or(out.price, was), CentsAfter(plan, wasCents))
              && out == inp.(price := out.price, modifiers := out.modifiers)
              && (out.price.Some? <==> inp.price.Some? || inp.currency == Some("USD"))
              && (inp.currency != Some("USD") ==> out.price == inp.price)
    ensures forall p, c :: PricePut(rate, inp, was, wasCents, p, c) && Resolve(rate, inp).Ok? ==>
              p == Or(Resolve(rate, inp).value.1.price, was)
  {
    DollarsAreSent(inp);
    hide UsdToSyp, Round, DollarsSent, DollarOptions, ResolveGroups;
    var r := Resolve(rate, inp);
    if r.Ok? {
      var (plan, out) := r.value;
      assert PricePut(rate, inp, was, wasCents, Or(out.price, was), CentsAfter(plan, wasCents));
    }
    forall p, c | PricePut(rate, inp, was, wasCents, p, c)
      ensures r.Ok? && p == Or(r.value.1.price, was)
    {
      if inp.currency == Some("USD") {
        assert c.value == DollarsToCents(inp.priceUsd.value) by {
          NearestOnce(c.value, inp.priceUsd.value);
        }
      }
    }
  }

  lemma NearestOnce(c: int, usd: real)
    requires Nearest(c, usd * 100.0)
    ensures c == DollarsToCents(usd)
  {
  }

  lemma ResolvedModifiers(rate: real, inp: ItemInput)
    requires Resolve(rate, inp).Ok?
    ensures Resolve(rate, inp).value.1.modifiers == ResolveModifiers(rate, inp.modifiers)
  {
    hide UsdToSyp, DollarsToCents;
    if !InDollars(inp) && !DollarOptions(inp.modifiers) && inp.modifiers.Some? {
      forall i | 0 <= i < |inp.modifiers.value|
        ensures ResolveGroup(rate, inp.modifiers.value[i]) == inp.modifiers.value[i]
      {
        assert !DollarOption(inp.modifiers.value[i]);
        var g := inp.modifiers.value[i];
        assert ResolveGroup(rate, g).options == g.options;
      }
      assert ResolveGroups(rate, inp.modifiers.value) == inp.modifiers.value;
    }
  }

  lemma HeldMeans(items: seq<Item>, except: Option<nat>, code: string)
    ensures CodeHeld(items, except, code) <==> !CodeFree(items, except, code)
  {
    hide LinkChars;
  }

  lemma LinksMean(t: TextRules, items: seq<Item>, except: Option<nat>, code: Option<string>, barcode: Option<string>)
    ensures var r := LinksFor(t, items, except, code, barcode);
            && (r.Ok? <==>
                  && (code.Some? ==>
                        ValidLink(t.link(code.value)) && CodeFree(items, except, t.link(code.value)))
                  && (barcode.Some? ==> ValidLink(t.link(barcode.value))))
            && (r.Ok? ==>
                  && r.value.0 == (if code.Some? then Some(t.link(code.value)) else None)
                  && r.value.1 == (if barcode.Some? then Some(t.link(barcode.value)) else None))
  {
    hide CodeHeld, CodeFree, ValidLink;
    if code.Some? {
      HeldMeans(items, except, t.link(code.value));
    }
  }

  lemma NothingInherited(groups: seq<GroupInput>)
    ensures InheritAll([], groups) == groups
  {
  }

  /** The groups of a new item. */
  lemma NewGroups(env: Env, rate: real, inp: ItemInput)
    requires Resolve(rate, inp).Ok?
    ensures var sent := if inp.modifiers.Some? then inp.modifiers.value else [];
            var groups := Or(Resolve(rate, inp).value.1.modifiers, []);
            && GroupsStored(env.parse, rate, [], sent, GroupRows(env.parse, groups))
            && (AllNamed(env.parse, groups) <==> AllHaveNames(GroupRows(env.parse, groups)))
            && forall rows: seq<Group> :: GroupsStored(env.parse, rate, [], sent, rows) && AllHaveNames(rows) ==>
                 AllNamed(env.parse, groups)
  {
    hide GroupsStored, AllNamed, AllHaveNames, GroupRows, Resolve, ResolveGroups, InheritAll;
    ResolvedModifiers(rate, inp);
    var sent := if inp.modifiers.Some? then inp.modifiers.value else [];
    NothingInherited(ResolveGroups(rate, sent));
    assert ResolveGroups(rate, []) == [];
    GroupsAreStored(env.parse, rate, [], sent);
  }

  /** A creation is accepted exactly when there is such a row, and adds it. */
  lemma CreatedMeans(env: Env, m: MenuState, inp: ItemInput)
    ensures Created(env, m, inp).Ok? <==> exists now :: ItemMade(env, m, inp, now)
    ensures Created(env, m, inp).Ok? ==> ItemMade(env, m, inp, Created(env, m, inp).value)
  {
    if Created(env, m, inp).Ok? {
      CreatedIsMade(env, m, inp);
      assert ItemMade(env, m, inp, Created(env, m, inp).value);
    }
    hide Created;
    if now :| ItemMade(env, m, inp, now) {
      MadeIsCreated(env, m, inp, now);
    }
  }

  lemma CreatedIsMade(env: Env, m: MenuState, inp: ItemInput)
    requires Created(env, m, inp).Ok?
    ensures ItemMade(env, m, inp, Created(env, m, inp).value)
  {
    hide Resolve, LinksFor, CodeFree, ValidLink, AllNamed, GroupRows, GroupsStored, AllHaveNames, Copies, CopiesRight,
      PricePut;
    ResolveMeans(m.Rate(), inp, 0, None);
    NewGroups(env, m.Rate(), inp);
    LinksMean(env.text, m.items, None, inp.code, inp.barcode);
    NoLinkIsFree(m.items);
    CopiesAreRight(m.hasDrinks, m.drinks, !Or(inp.storeDrinks, true));
  }

  lemma NoLinkIsFree(items: seq<Item>)
    ensures forall except :: CodeFree(items, except, "")
  {
  }

  lemma MadeIsCreated(env: Env, m: MenuState, inp: ItemInput, now: Item)
    requires ItemMade(env, m, inp, now)
    ensures Created(env, m, inp).Ok?
  {
    hide Resolve, LinksFor, CodeFree, ValidLink, AllNamed, GroupRows, GroupsStored, AllHaveNames, Copies, CopiesRight,
      PricePut;
    ResolveMeans(m.Rate(), inp, 0, None);
    NewGroups(env, m.Rate(), inp);
    LinksMean(env.text, m.items, None, inp.code, inp.barcode);
  }

  /** The groups of an updated item. */
  lemma UpdatedGroups(env: Env, rate: real, it: Item, inp: ItemInput)
    requires Resolve(rate, inp).Ok?
    ensures var r := OwnAfter(env, it, Resolve(rate, inp).value.1.modifiers);
            && (inp.modifiers.None? ==> r == Ok(it.own))
            && (inp.modifiers.Some? && r.Ok? ==>
                  GroupsStored(env.parse, rate, it.own, inp.modifiers.value, r.value) && AllHaveNames(r.value))
            && (r.Err? ==> inp.modifiers.Some? && forall rows: seq<Group> ::
                  !(GroupsStored(env.parse, rate, it.own, inp.modifiers.value, rows) && AllHaveNames(rows)))
  {
    hide GroupsStored, AllNamed, AllHaveNames, GroupRows, Resolve, ResolveGroups, InheritAll;
    ResolvedModifiers(rate, inp);
    if inp.modifiers.Some? {
      GroupsAreStored(env.parse, rate, it.own, inp.modifiers.value);
    }
  }

  /** The links of an updated item. */
  lemma UpdatedLinks(t: TextRules, items: seq<Item>, it: Item, inp: ItemInput)
    ensures var r := LinksFor(t, items, Some(it.id), ChangedLink(t, inp.code, it.code),
                              ChangedLink(t, inp.barcode, it.barcode));
            && (r.Ok? ==>
                  && LinkPut(t, it.code, inp.code, WithLink(r.value.0, it.code))
                  && LinkPut(t, it.barcode, inp.barcode, WithLink(r.value.1, it.barcode))
                  && (inp.code.Some? && t.trim(inp.code.value) != it.code ==>
                        CodeFree(items, Some(it.id), WithLink(r.value.0, it.code))))
            && (r.Err? ==> forall c, b ::
                  LinkPut(t, it.code, inp.code, c) && LinkPut(t, it.barcode, inp.barcode, b) ==>
                    inp.code.Some? && t.trim(inp.code.value) != it.code && !CodeFree(items, Some(it.id), c))
  {
    hide LinksFor, CodeFree, ValidLink;
    LinksMean(t, items, Some(it.id), ChangedLink(t, inp.code, it.code), ChangedLink(t, inp.barcode, it.barcode));
  }

  lemma UpdatedIsPut(env: Env, m: MenuState, it: Item, inp: ItemInput)
    requires Updated(env, m, it, inp).Ok?
    ensures ItemPut(env, m, it, inp, Updated(env, m, it, inp).value)
  {
    hide Resolve, LinksFor, CodeFree, LinkPut, ChangedLink, WithLink, OwnAfter, GroupsStored, AllHaveNames, Copies,
      CopiesRight, PricePut;
    ResolveMeans(m.Rate(), inp, it.price, it.cents);
    UpdatedGroups(env, m.Rate(), it, inp);
    UpdatedLinks(env.text, m.items, it, inp);
    if inp.storeDrinks.Some? {
      CopiesAreRight(m.hasDrinks, m.drinks, !inp.storeDrinks.value);
    }
  }

  lemma PutIsUpdated(env: Env, m: MenuState, it: Item, inp: ItemInput, now: Item)
    requires ItemPut(env, m, it, inp, now)
    ensures Updated(env, m, it, inp).Ok?
  {
    hide Resolve, LinksFor, CodeFree, LinkPut, ChangedLink, WithLink, OwnAfter, GroupsStored, AllHaveNames, Copies,
      CopiesRight, PricePut;
    ResolveMeans(m.Rate(), inp, it.price, it.cents);
    UpdatedGroups(env, m.Rate(), it, inp);
    UpdatedLinks(env.text, m.items, it, inp);
  }

  /** An update is accepted exactly when there is such a row, and writes it. */
  lemma UpdatedMeans(env: Env, m: MenuState, it: Item, inp: ItemInput)
    ensures Updated(env, m, it, inp).Ok? <==> exists now :: ItemPut(env, m, it, inp, now)
    ensures Updated(env, m, it, inp).Ok? ==> ItemPut(env, m, it, inp, Updated(env, m, it, inp).value)
  {
    if Updated(env, m, it, inp).Ok? {
      UpdatedIsPut(env, m, it, inp);
      assert ItemPut(env, m, it, inp, Updated(env, m, it, inp).value);
    }
    hide Updated;
    if now :| ItemPut(env, m, it, inp, now) {
      PutIsUpdated(env, m, it, inp, now);
    }
  }

  /** The menu with the new row at its end. */
  ghost predicate MenuWithNew(env: Env, was: MenuState, inp: ItemInput, now: MenuState) {
    var n := |was.items|;
    && |now.items| == n + 1 && now.items[..n] == was.items && ItemMade(env, was, inp, now.items[n])
    && now.nextId == was.nextId + 1
    && now.rate == was.rate && now.drinks == was.drinks && now.hasDrinks == was.hasDrinks
    && now.maxPrice == was.maxPrice
  }

  ghost predicate MayCreate(env: Env, m: MenuState, inp: ItemInput) {
    exists now :: ItemMade(env, m, inp, now)
  }

  /** The menu with the row of one item updated. */
  ghost predicate MenuWithUpdate(env: Env, was: MenuState, id: nat, inp: ItemInput, now: MenuState) {
    && |now.items| == |was.items|
    && (forall k :: 0 <= k < |was.items| ==>
          if was.items[k].id == id then ItemPut(env, was, was.items[k], inp, now.items[k])
          else now.items[k] == was.items[k])
    && now.nextId == was.nextId && now.rate == was.rate && now.drinks == was.drinks
    && now.hasDrinks == was.hasDrinks && now.maxPrice == was.maxPrice
  }

  ghost predicate MayUpdate(env: Env, m: MenuState, id: nat, inp: ItemInput) {
    exists k, now :: 0 <= k < |m.items| && m.items[k].id == id && ItemPut(env, m, m.items[k], inp, now)
  }

  lemma CreationMeans(env: Env, m: MenuState, inp: ItemInput)
    ensures Created(env, m, inp).Ok? <==> MayCreate(env, m, inp)
    ensures Created(env, m, inp).Ok? ==> MenuWithNew(env, m, inp, WithItem(m, Created(env, m, inp).value))
  {
    hide Created, ItemMade;
    CreatedMeans(env, m, inp);
  }

  lemma UpdateMeans(env: Env, m: MenuState, id: nat, inp: ItemInput)
    requires FreshIds(m.items, m.nextId)
    ensures UpdateResult(env, m, id, inp).Ok? <==> MayUpdate(env, m, id, inp)
    ensures UpdateResult(env, m, id, inp).Ok? ==>
              MenuWithUpdate(env, m, id, inp, UpdateResult(env, m, id, inp).value)
  {
    hide Updated, ItemPut, RowOf;
    var k := RowOf(m.items, id);
    if k < |m.items| {
      UpdatedMeans(env, m, m.items[k], inp);
      assert forall j :: 0 <= j < |m.items| && m.items[j].id == id ==> j == k;
    }
  }
}
