/** An app that does not know the price modes saves an item back
    (inheritModes in backend/internal/catalog/option_modes.go). */
module ModeInheritance {
  import opened Common
  import opened Menu
  import opened OptionModes
  import opened Modifiers

  /** The first stored group with a name. */
  function FirstNamed(stored: seq<Group>, name: string): (g: Option<Group>)
    ensures g.Some? ==> g.value in stored && g.value.name == name
    ensures g.None? ==> forall h :: h in stored ==> h.name != name
  {
    if stored == [] then None
    else if stored[0].name == name then Some(stored[0])
    else FirstNamed(stored[1..], name)
  }

  /** The weight of the last option with a name and a weight. */
  function ChoiceGrams(choices: seq<Choice>, name: string): (n: Option<int>)
  {
    if choices == [] then None
    else
      var c := choices[|choices| - 1];
      if c.name == name && c.grams.Some? then c.grams else ChoiceGrams(choices[..|choices| - 1], name)
  }

  function NamedGrams(stored: seq<Group>, group: string, option: string): Option<int> {
    if stored == [] then None
    else
      var g := stored[|stored| - 1];
      var n := ChoiceGrams(g.choices, option);
      if g.name == group && n.Some? then n else NamedGrams(stored[..|stored| - 1], group, option)
  }

  function WithGrams(stored: seq<Group>, group: string, o: OptionInput): OptionInput {
    if o.grams.None? then o.(grams := NamedGrams(stored, group, o.name)) else o
  }

  /** A group without a mode takes the mode, the base and the weights of the stored group with its name. */
  function Inherit(stored: seq<Group>, g: GroupInput): (r: GroupInput)
    ensures |r.options| == |g.options|
  {
    var p := FirstNamed(stored, g.name);
    if g.mode.Some? || p.None? || p.value.mode == Priced then g
    else
      g.(mode := Some(ModeText(p.value.mode)), base := if g.base.None? then p.value.base else g.base,
         options := seq(|g.options|, i requires 0 <= i < |g.options| => WithGrams(stored, g.name, g.options[i])))
  }

  function InheritAll(stored: seq<Group>, groups: seq<GroupInput>): (r: seq<GroupInput>)
    ensures |r| == |groups|
    ensures forall i :: 0 <= i < |r| ==> r[i] == Inherit(stored, groups[i])
  {
    seq(|groups|, i requires 0 <= i < |groups| => Inherit(stored, groups[i]))
  }

  // ---------------------------------------------------------------------------------------
  // The table of prior groups
  // ---------------------------------------------------------------------------------------

  datatype Prior = Prior(mode: PriceMode, base: Option<int>, grams: map<string, int>)

  function Get(m: map<string, int>, k: string): Option<int> {
    if k in m then Some(m[k]) else None
  }

  ghost predicate Describes(p: Prior, stored: seq<Group>, name: string) {
    var g := FirstNamed(stored, name);
    && g.Some? && p.mode == g.value.mode && p.base == g.value.base
    && forall o :: Get(p.grams, o) == NamedGrams(stored, name, o)
  }

  ghost predicate IsTable(byName: map<string, Prior>, stored: seq<Group>) {
    && (forall name :: name in byName <==> FirstNamed(stored, name).Some?)
    && forall name :: name in byName ==> Describes(byName[name], stored, name)
  }

  lemma {:induction false} FirstNamedAppends(stored: seq<Group>, g: Group, name: string)
    ensures FirstNamed(stored + [g], name) ==
              if FirstNamed(stored, name).Some? then FirstNamed(stored, name)
              else if g.name == name then Some(g) else None
  {
    if stored != [] {
      FirstNamedAppends(stored[1..], g, name);
      assert (stored + [g])[1..] == stored[1..] + [g];
    } else {
      assert [g][1..] == [];
    }
  }

  lemma NamedGramsAppends(stored: seq<Group>, g: Group, group: string, option: string)
    ensures NamedGrams(stored + [g], group, option) ==
              if g.name == group && ChoiceGrams(g.choices, option).Some? then ChoiceGrams(g.choices, option)
              else NamedGrams(stored, group, option)
  {
    assert (stored + [g])[..|stored|] == stored;
  }

  /** The rows of a stored group up to its first n options. */
  function Upto(g: Group, n: nat): Group
    requires n <= |g.choices|
  {
    g.(choices := g.choices[..n])
  }

  function Entry(byName: map<string, Prior>, g: Group): Prior {
    if g.name in byName then byName[g.name] else Prior(g.mode, g.base, map[])
  }

  lemma GroupJoins(byName: map<string, Prior>, stored: seq<Group>, g: Group)
    requires IsTable(byName, stored)
    ensures IsTable(byName[g.name := Entry(byName, g)], stored + [Upto(g, 0)])
  {
    var next := byName[g.name := Entry(byName, g)];
    forall name
      ensures name in next <==> FirstNamed(stored + [Upto(g, 0)], name).Some?
      ensures name in next ==> Describes(next[name], stored + [Upto(g, 0)], name)
    {
      FirstNamedAppends(stored, Upto(g, 0), name);
      forall o
        ensures NamedGrams(stored + [Upto(g, 0)], name, o) == NamedGrams(stored, name, o)
      {
        NamedGramsAppends(stored, Upto(g, 0), name, o);
      }
      if name == g.name && name !in byName {
        NothingNamed(stored, name);
      }
    }
  }

  lemma {:induction false} NothingNamed(stored: seq<Group>, name: string)
    requires forall h :: h in stored ==> h.name != name
    ensures forall o :: NamedGrams(stored, name, o) == None
  {
    if stored != [] {
      NothingNamed(stored[..|stored| - 1], name);
    }
  }

  function Noted(p: Prior, c: Choice): Prior {
    if c.grams.Some? then p.(grams := p.grams[c.name := c.grams.value]) else p
  }

  lemma ChoiceJoins(byName: map<string, Prior>, stored: seq<Group>, g: Group, n: nat)
    requires n < |g.choices| && g.name in byName && IsTable(byName, stored + [Upto(g, n)])
    ensures IsTable(byName[g.name := Noted(byName[g.name], g.choices[n])], stored + [Upto(g, n + 1)])
  {
    var next := byName[g.name := Noted(byName[g.name], g.choices[n])];
    var now := stored + [Upto(g, n + 1)];
    hide Describes, Noted, NamedGrams;
    forall name
      ensures name in next <==> FirstNamed(now, name).Some?
      ensures name in next ==> Describes(next[name], now, name)
    {
      FirstNamedAppends(stored, Upto(g, n), name);
      FirstNamedAppends(stored, Upto(g, n + 1), name);
      if name in byName {
        ChoiceIsNoted(byName[name], stored, g, n, name);
      }
    }
  }

  /** The entry of a name after one more option of a group. */
  lemma ChoiceIsNoted(p: Prior, stored: seq<Group>, g: Group, n: nat, name: string)
    requires n < |g.choices| && Describes(p, stored + [Upto(g, n)], name)
    ensures Describes(if name == g.name then Noted(p, g.choices[n]) else p, stored + [Upto(g, n + 1)], name)
  {
    var was, now := stored + [Upto(g, n)], stored + [Upto(g, n + 1)];
    var p' := if name == g.name then Noted(p, g.choices[n]) else p;
    FirstNamedAppends(stored, Upto(g, n), name);
    FirstNamedAppends(stored, Upto(g, n + 1), name);
    hide FirstNamed, NamedGrams;
    forall o
      ensures Get(p'.grams, o) == NamedGrams(now, name, o)
    {
      NamedGramsAppends(stored, Upto(g, n), name, o);
      NamedGramsAppends(stored, Upto(g, n + 1), name, o);
      OneMoreChoice(g, n, o);
      assert Get(p.grams, o) == NamedGrams(was, name, o);
    }
  }

  lemma OneMoreChoice(g: Group, n: nat, option: string)
    requires n < |g.choices|
    ensures var c := g.choices[n];
            ChoiceGrams(Upto(g, n + 1).choices, option) ==
              if c.name == option && c.grams.Some? then c.grams else ChoiceGrams(Upto(g, n).choices, option)
  {
    assert g.choices[..n + 1][..n] == g.choices[..n];
  }

  method PriorGroups(stored: seq<Group>) returns (byName: map<string, Prior>)
    ensures IsTable(byName, stored)
  {
    hide IsTable;
    byName := map[];
    EmptyTable();
    for i := 0 to |stored|
      invariant IsTable(byName, stored[..i])
    {
      var g := stored[i];
      GroupJoins(byName, stored[..i], g);
      byName := byName[g.name := Entry(byName, g)];
      for j := 0 to |g.choices|
        invariant g.name in byName && IsTable(byName, stored[..i] + [Upto(g, j)])
      {
        ChoiceJoins(byName, stored[..i], g, j);
        byName := byName[g.name := Noted(byName[g.name], g.choices[j])];
      }
      assert g.choices[..|g.choices|] == g.choices;
      assert stored[..i] + [Upto(g, |g.choices|)] == stored[..i + 1];
    }
    assert stored[..|stored|] == stored;
  }

  lemma EmptyTable()
    ensures IsTable(map[], [])
  {
  }

  method InheritGroup(stored: seq<Group>, byName: map<string, Prior>, group: GroupInput) returns (g: GroupInput)
    requires IsTable(byName, stored)
    ensures g == Inherit(stored, group)
  {
    hide FirstNamed, NamedGrams;
    g := group;
    if g.mode.Some? || g.name !in byName || byName[g.name].mode == Priced {
      return;
    }
    var p := byName[g.name];
    assert Describes(p, stored, g.name);
    g := g.(mode := Some(ModeText(p.mode)));
    if g.base.None? {
      g := g.(base := p.base);
    }
    var options := g.options;
    for i := 0 to |options|
      invariant |options| == |g.options|
      invariant forall j :: 0 <= j < i ==> options[j] == WithGrams(stored, g.name, g.options[j])
      invariant forall j :: i <= j < |options| ==> options[j] == g.options[j]
    {
      assert Get(p.grams, options[i].name) == NamedGrams(stored, g.name, options[i].name);
      if options[i].grams.None? && options[i].name in p.grams {
        options := options[i := options[i].(grams := Some(p.grams[options[i].name]))];
      }
    }
    assert options == Inherit(stored, group).options;
    g := g.(options := options);
  }

  /** inheritModes: the groups as they are completed from the stored ones. */
  method InheritModes(stored: seq<Group>, groups: seq<GroupInput>) returns (r: seq<GroupInput>)
    ensures r == InheritAll(stored, groups)
  {
    hide Inherit, IsTable;
    var need := false;
    for i := 0 to |groups|
      invariant !need ==> forall j :: 0 <= j < i ==> groups[j].mode.Some?
    {
      if groups[i].mode.None? {
        need := true;
      }
    }
    r := groups;
    if !need {
      AllSent(stored, groups);
      return;
    }
    var byName := PriorGroups(stored);
    for i := 0 to |r|
      invariant |r| == |groups|
      invariant forall j :: 0 <= j < i ==> r[j] == Inherit(stored, groups[j])
      invariant forall j :: i <= j < |r| ==> r[j] == groups[j]
    {
      var g := InheritGroup(stored, byName, r[i]);
      r := r[i := g];
    }
    assert r == InheritAll(stored, groups);
  }

  lemma AllSent(stored: seq<Group>, groups: seq<GroupInput>)
    requires forall j :: 0 <= j < |groups| ==> groups[j].mode.Some?
    ensures InheritAll(stored, groups) == groups
  {
  }

  // ---------------------------------------------------------------------------------------
  // Saving back loses no mode, base or weight
  // ---------------------------------------------------------------------------------------

  /** The group as an app that does not know the modes sends it back: the same names, and anything else. */
  ghost predicate SentBack(g: Group, back: GroupInput) {
    && back.name == g.name && back.mode == None && back.base == None && |back.options| == |g.choices|
    && forall i :: 0 <= i < |g.choices| ==> back.options[i].name == g.choices[i].name && back.options[i].grams == None
  }

  /** The new row has the mode, the base, and for every option the name and the weight of the old one. */
  ghost predicate SameModes(g: Group, row: Group) {
    && row.name == g.name && row.mode == g.mode && row.base == g.base && |row.choices| == |g.choices|
    && forall i :: 0 <= i < |g.choices| ==>
         row.choices[i].name == g.choices[i].name && row.choices[i].grams == g.choices[i].grams
  }

  predicate DistinctNames(groups: seq<Group>) {
    forall i, j :: 0 <= i < j < |groups| ==> groups[i].name != groups[j].name
  }

  /** An option without a weight is named like one of 1500 grams beside it. */
  ghost predicate Confusing(g: Group) {
    exists i, j :: 0 <= i < |g.choices| && 0 <= j < |g.choices|
                   && g.choices[i].grams == Some(1500) && g.choices[j].grams == None
                   && g.choices[j].name == g.choices[i].name
  }

  lemma {:induction false} FirstIsOnly(groups: seq<Group>, i: nat)
    requires DistinctNames(groups) && i < |groups|
    ensures FirstNamed(groups, groups[i].name) == Some(groups[i])
  {
    if i > 0 {
      FirstIsOnly(groups[1..], i - 1);
    }
  }

  lemma {:induction false} GramsOfOnly(groups: seq<Group>, i: nat, option: string)
    requires DistinctNames(groups) && i < |groups|
    ensures NamedGrams(groups, groups[i].name, option) == ChoiceGrams(groups[i].choices, option)
  {
    var n := |groups| - 1;
    if i < n {
      GramsOfOnly(groups[..n], i, option);
    } else if ChoiceGrams(groups[n].choices, option).None? {
      NothingNamed(groups[..n], groups[n].name);
    }
  }

  lemma {:induction false} ChoiceGramsIs(choices: seq<Choice>, name: string)
    ensures var n := ChoiceGrams(choices, name);
            && (n.Some? ==> exists i :: 0 <= i < |choices| && choices[i].name == name && choices[i].grams == n)
            && (n.None? ==> forall i :: 0 <= i < |choices| && choices[i].name == name ==> choices[i].grams.None?)
  {
    if choices != [] {
      var m := |choices| - 1;
      ChoiceGramsIs(choices[..m], name);
      assert choices[m].name == name && choices[m].grams.Some? ==> choices[m].grams == ChoiceGrams(choices, name);
    }
  }

  /** In a stored weight group every name with a weight has only that weight. */
  lemma WeightIsFound(parse: Parse, g: Group, k: nat)
    requires StoredGroup(parse, g) && g.mode == Weight && k < |g.choices| && g.choices[k].grams.Some?
    ensures ChoiceGrams(g.choices, g.choices[k].name) == g.choices[k].grams
  {
    hide WeightName, GramsFromName;
    var c := g.choices[k];
    ChoiceGramsIs(g.choices, c.name);
    var n := ChoiceGrams(g.choices, c.name);
    var i :| 0 <= i < |g.choices| && g.choices[i].name == c.name && g.choices[i].grams == n;
    assert StoredChoice(parse, g.mode, g.choices[i]) && StoredChoice(parse, g.mode, c);
    WeightNameInjective(n.value, c.grams.value);
  }

  /** An option whose name is not understood finds a weight only beside one of 1500 grams with its name. */
  lemma NoWeightIsFound(parse: Parse, g: Group, k: nat)
    requires ReadsDecimals(parse)
    requires StoredGroup(parse, g) && g.mode == Weight && k < |g.choices| && g.choices[k].grams.None?
    ensures var n := ChoiceGrams(g.choices, g.choices[k].name);
            n.Some? ==> n == Some(1500) && Confusing(g)
  {
    hide WeightName, GramsFromName, ReadsDecimals;
    var c := g.choices[k];
    ChoiceGramsIs(g.choices, c.name);
    var n := ChoiceGrams(g.choices, c.name);
    if n.Some? {
      var i :| 0 <= i < |g.choices| && g.choices[i].name == c.name && g.choices[i].grams == n;
      assert StoredChoice(parse, g.mode, g.choices[i]) && StoredChoice(parse, g.mode, c);
      GramsRoundTrip(parse, n.value);
    }
  }

  /** What becomes of option k of a weight group: the weight found under its name, or what its name says. */
  lemma OptionSavedBack(parse: Parse, g: Group, k: nat, found: Option<int>, o: OptionInput)
    requires ReadsDecimals(parse) && StoredGroup(parse, g) && g.mode == Weight && k < |g.choices|
    requires found == ChoiceGrams(g.choices, g.choices[k].name)
    requires o.name == g.choices[k].name && o.grams == found
    ensures var c := CleanOption(parse, Weight, o);
            && c.name != ""
            && (c.name == g.choices[k].name && c.grams == g.choices[k].grams
                <==> g.choices[k].grams.Some? || found.None?)
  {
    hide GramsFromName, WeightName, ReadsDecimals, ChoiceGrams;
    assert StoredChoice(parse, g.mode, g.choices[k]);
    if g.choices[k].grams.Some? {
      WeightIsFound(parse, g, k);
    } else {
      NoWeightIsFound(parse, g, k);
      assert WeightName(1500) == KILO_AND_HALF by {
        WeightOf1500();
      }
    }
  }

  lemma WeightOf1500()
    ensures WeightName(1500) == KILO_AND_HALF
  {
  }

  lemma WeightGroupSavedBack(parse: Parse, stored: seq<Group>, i: nat, back: GroupInput)
    requires ReadsDecimals(parse) && Stored(parse, stored) && DistinctNames(stored) && i < |stored|
    requires SentBack(stored[i], back) && stored[i].mode == Weight
    ensures var g := Inherit(stored, back);
            NamedGroup(parse, g) && (SameModes(stored[i], GroupRow(parse, g)) <==> !Confusing(stored[i]))
  {
    hide CleanOption, StoredChoice, ReadsDecimals, DistinctNames, FirstNamed, NamedGrams;
    var g := stored[i];
    assert StoredGroup(parse, g);
    FirstIsOnly(stored, i);
    var sent := Inherit(stored, back);
    forall k | 0 <= k < |g.choices|
      ensures CleanOption(parse, Weight, sent.options[k]).name != ""
      ensures KeepsOption(g, GroupRow(parse, sent), k) <==>
                g.choices[k].grams.Some? || ChoiceGrams(g.choices, g.choices[k].name).None?
    {
      GramsOfOnly(stored, i, g.choices[k].name);
      OptionSavedBack(parse, g, k, ChoiceGrams(g.choices, g.choices[k].name), sent.options[k]);
    }
    ConfusingIffFound(parse, g);
    assert SameModes(g, GroupRow(parse, sent)) <==>
        forall k :: 0 <= k < |g.choices| ==> KeepsOption(g, GroupRow(parse, sent), k);
  }

  ghost predicate KeepsOption(g: Group, row: Group, k: nat)
    requires |row.choices| == |g.choices| && k < |g.choices|
  {
    row.choices[k].name == g.choices[k].name && row.choices[k].grams == g.choices[k].grams
  }

  lemma ConfusingIffFound(parse: Parse, g: Group)
    requires ReadsDecimals(parse) && StoredGroup(parse, g) && g.mode == Weight
    ensures Confusing(g) <==>
              exists k :: 0 <= k < |g.choices| && g.choices[k].grams.None? &&
                  ChoiceGrams(g.choices, g.choices[k].name).Some?
  {
    hide StoredChoice, ReadsDecimals, ChoiceGrams;
    if k :| 0 <= k < |g.choices| && g.choices[k].grams.None? && ChoiceGrams(g.choices, g.choices[k].name).Some? {
      NoWeightIsFound(parse, g, k);
    } else if Confusing(g) {
      var i, j :| 0 <= i < |g.choices| && 0 <= j < |g.choices| && g.choices[i].grams == Some(1500)
                  && g.choices[j].grams == None && g.choices[j].name == g.choices[i].name;
      ChoiceGramsIs(g.choices, g.choices[j].name);
    }
  }

  lemma PlainGroupSavedBack(parse: Parse, stored: seq<Group>, i: nat, back: GroupInput)
    requires Stored(parse, stored) && DistinctNames(stored) && i < |stored|
    requires SentBack(stored[i], back) && stored[i].mode != Weight
    ensures var g := Inherit(stored, back);
            NamedGroup(parse, g) && SameModes(stored[i], GroupRow(parse, g)) && !Confusing(stored[i])
  {
    hide GramsFromName, WeightName, DistinctNames, FirstNamed, NamedGrams, OptionGrams;
    var g := stored[i];
    assert StoredGroup(parse, g);
    FirstIsOnly(stored, i);
    assert forall k :: 0 <= k < |g.choices| ==> StoredChoice(parse, g.mode, g.choices[k]);
  }

  /** An app that does not know the modes saves an item back: every group keeps its mode, base, names and
      weights, unless an option without a weight is named like one of 1500 grams beside it. */
  lemma SavedBack(parse: Parse, stored: seq<Group>, back: seq<GroupInput>)
    requires ReadsDecimals(parse) && Stored(parse, stored) && DistinctNames(stored)
    requires |back| == |stored| && forall i :: 0 <= i < |back| ==> SentBack(stored[i], back[i])
    ensures AllNamed(parse, InheritAll(stored, back))
    ensures forall i :: 0 <= i < |stored| ==>
              (SameModes(stored[i], GroupRows(parse, InheritAll(stored, back))[i]) <==> !Confusing(stored[i]))
  {
    hide NamedGroup, SentBack, SameModes, Confusing, GroupRow, Inherit, StoredGroup, ReadsDecimals, DistinctNames;
    forall i | 0 <= i < |stored|
      ensures NamedGroup(parse, InheritAll(stored, back)[i])
      ensures SameModes(stored[i], GroupRow(parse, InheritAll(stored, back)[i])) <==> !Confusing(stored[i])
    {
      if stored[i].mode == Weight {
        WeightGroupSavedBack(parse, stored, i, back[i]);
      } else {
        PlainGroupSavedBack(parse, stored, i, back[i]);
      }
    }
  }

  /** Such groups are accepted: an option of 1500 grams, and beside it one without a weight that has its name. */
  lemma ConfusingIsStored(parse: Parse) returns (sent: seq<GroupInput>)
    ensures AllNamed(parse, sent) && Stored(parse, GroupRows(parse, sent)) && DistinctNames(GroupRows(parse, sent))
    ensures |sent| == 1 && Confusing(GroupRows(parse, sent)[0])
  {
    hide GramsFromName, StoredGroup, Stored;
    var weighed := OptionInput(KILO_AND_HALF, 0, None, None, None, Some(1500));
    sent := [GroupInput("w", 0, 1, Some("weight"), None, [weighed, weighed.(grams := None)])];
    FixedNames(parse);
    WeightOf1500();
    assert NamedGroup(parse, sent[0]);
    RowsAreStored(parse, sent);
    var row := GroupRow(parse, sent[0]);
    assert row.choices[0].grams == Some(1500) && row.choices[1].grams == None;
    assert row.choices[0].name == row.choices[1].name;
  }
}
