/** Option groups on their way into the tables: cleaned, stored, and completed for apps that do not know the
    price modes (insertModifiers in backend/internal/catalog/menu.go, option_modes.go). */
module Modifiers {
  import opened Common
  import opened Menu
  import opened OptionModes

  type Parse = string -> Option<real>

  /** An option as it is sent; `cents` is filled in when its dollar price is resolved. */
  datatype OptionInput = OptionInput(
    name: string, delta: int, usd: Option<real>, cents: Option<int>, available: Option<bool>, grams: Option<int>)

  /** A group as it is sent; an absent mode keeps the mode of the stored group with the same name. */
  datatype GroupInput = GroupInput(
    name: string, minSelect: int, maxSelect: int, mode: Option<string>, base: Option<int>, options: seq<OptionInput>)

  datatype ModifierError = NameRequired

  function ModeOf(text: string): PriceMode {
    if text == "none" then NoPrice else if text == "weight" then Weight else Priced
  }

  function ModeText(mode: PriceMode): string {
    match mode
    case Priced => "priced"
    case NoPrice => "none"
    case Weight => "weight"
  }

  predicate ValidGrams(n: int) {
    0 < n <= MAX_GRAMS
  }

  /** The weight of an option of a weight group: the one sent, or the one its name speaks of. */
  function OptionGrams(parse: Parse, o: OptionInput): Option<int> {
    var read := GramsFromName(parse, o.name);
    if o.grams.Some? && ValidGrams(o.grams.value) then o.grams else if read > 0 then Some(read) else None
  }

  function CleanOption(parse: Parse, mode: PriceMode, o: OptionInput): OptionInput {
    match mode
    case Priced => o.(grams := None)
    case NoPrice => o.(grams := None, delta := 0, cents := None)
    case Weight =>
      var g := OptionGrams(parse, o);
      if g.Some? then o.(grams := g, name := WeightName(g.value), cents := None) else o.(grams := None)
  }

  function GroupMode(g: GroupInput): PriceMode {
    if g.mode.Some? then ModeOf(g.mode.value) else Priced
  }

  function GroupBase(g: GroupInput): Option<int> {
    if GroupMode(g) != Weight then None
    else if g.base.Some? && ValidGrams(g.base.value) then g.base
    else Some(DEFAULT_BASE)
  }

  method CleanWeightOption(parse: Parse, option: OptionInput) returns (o: OptionInput)
    ensures o == CleanOption(parse, Weight, option)
  {
    hide GramsFromName, WeightName;
    o := option;
    if o.grams.None? || o.grams.value <= 0 || o.grams.value > MAX_GRAMS {
      o := o.(grams := None);
      var n := GramsFromName(parse, o.name);
      if n > 0 {
        o := o.(grams := Some(n));
      }
    }
    if o.grams.Some? {
      o := o.(name := WeightName(o.grams.value), cents := None);
    }
  }

  /** cleanGroupMode: the mode and the base that are written; the options are cleaned in place. */
  method CleanGroupMode(parse: Parse, g: GroupInput)
    returns (mode: PriceMode, base: Option<int>, options: seq<OptionInput>)
    ensures mode == GroupMode(g) && base == GroupBase(g)
    ensures |options| == |g.options|
    ensures forall i :: 0 <= i < |options| ==> options[i] == CleanOption(parse, mode, g.options[i])
  {
    hide OptionGrams, ModeOf, WeightName;
    mode := GroupMode(g);
    options := g.options;
    if mode != Weight {
      for i := 0 to |options|
        invariant |options| == |g.options|
        invariant forall j :: 0 <= j < i ==> options[j] == CleanOption(parse, mode, g.options[j])
        invariant forall j :: i <= j < |options| ==> options[j] == g.options[j]
      {
        var o := options[i].(grams := None);
        if mode == NoPrice {
          o := o.(delta := 0, cents := None);
        }
        options := options[i := o];
      }
      return mode, None, options;
    }
    base := Some(DEFAULT_BASE);
    if g.base.Some? && ValidGrams(g.base.value) {
      base := g.base;
    }
    for i := 0 to |options|
      invariant |options| == |g.options|
      invariant forall j :: 0 <= j < i ==> options[j] == CleanOption(parse, mode, g.options[j])
      invariant forall j :: i <= j < |options| ==> options[j] == g.options[j]
    {
      var o := CleanWeightOption(parse, options[i]);
      options := options[i := o];
    }
  }

  function ChoiceRow(o: OptionInput): Choice {
    Choice(o.name, o.delta, o.cents, if o.available.Some? then o.available.value else true, o.grams, None)
  }

  function GroupRow(parse: Parse, g: GroupInput): (row: Group)
    ensures |row.choices| == |g.options|
  {
    var max := if g.maxSelect < 1 then 1 else g.maxSelect;
    var min := if g.minSelect < 0 then 0 else g.minSelect;
    Group(g.name, if min > max then max else min, max, GroupMode(g), GroupBase(g),
          seq(|g.options|, i requires 0 <= i < |g.options| =>
            ChoiceRow(CleanOption(parse, GroupMode(g), g.options[i]))))
  }

  /** A group without a name is refused, and an option that has none after cleaning. */
  predicate NamedGroup(parse: Parse, g: GroupInput) {
    g.name != "" && forall i :: 0 <= i < |g.options| ==> CleanOption(parse, GroupMode(g), g.options[i]).name != ""
  }

  predicate AllNamed(parse: Parse, groups: seq<GroupInput>) {
    forall i :: 0 <= i < |groups| ==> NamedGroup(parse, groups[i])
  }

  function GroupRows(parse: Parse, groups: seq<GroupInput>): (rows: seq<Group>)
    ensures |rows| == |groups|
    ensures forall i :: 0 <= i < |rows| ==> rows[i] == GroupRow(parse, groups[i])
  {
    seq(|groups|, i requires 0 <= i < |groups| => GroupRow(parse, groups[i]))
  }

  method InsertGroup(parse: Parse, g: GroupInput) returns (r: Result<Group, ModifierError>)
    ensures r == if NamedGroup(parse, g) then Ok(GroupRow(parse, g)) else Err(NameRequired)
  {
    hide CleanOption, GroupMode, GroupBase;
    if g.name == "" {
      return Err(NameRequired);
    }
    var max := g.maxSelect;
    if max < 1 {
      max := 1;
    }
    var min := g.minSelect;
    if min < 0 {
      min := 0;
    }
    if min > max {
      min := max;
    }
    var mode, base, options := CleanGroupMode(parse, g);
    var choices := [];
    for i := 0 to |options|
      invariant |choices| == i
      invariant forall j :: 0 <= j < i ==> choices[j] == ChoiceRow(options[j]) && options[j].name != ""
    {
      if options[i].name == "" {
        return Err(NameRequired);
      }
      choices := choices + [ChoiceRow(options[i])];
    }
    assert choices == GroupRow(parse, g).choices;
    return Ok(Group(g.name, min, max, mode, base, choices));
  }

  method InsertModifiers(parse: Parse, groups: seq<GroupInput>) returns (r: Result<seq<Group>, ModifierError>)
    ensures r == if AllNamed(parse, groups) then Ok(GroupRows(parse, groups)) else Err(NameRequired)
  {
    hide NamedGroup, GroupRow;
    var rows := [];
    for i := 0 to |groups|
      invariant |rows| == i
      invariant forall j :: 0 <= j < i ==> rows[j] == GroupRow(parse, groups[j]) && NamedGroup(parse, groups[j])
    {
      var row := InsertGroup(parse, groups[i]);
      if row.Err? {
        return Err(row.error);
      }
      rows := rows + [row.value];
    }
    assert rows == GroupRows(parse, groups);
    return Ok(rows);
  }

  // ---------------------------------------------------------------------------------------
  // What a stored group looks like
  // ---------------------------------------------------------------------------------------

  ghost predicate StoredChoice(parse: Parse, mode: PriceMode, c: Choice) {
    && c.name != "" && c.image == None
    && match mode
       case Priced => c.grams == None
       case NoPrice => c.grams == None && c.delta == 0 && c.cents == None
       case Weight =>
         if c.grams.Some? then ValidGrams(c.grams.value) && c.name == WeightName(c.grams.value) && c.cents == None
         else GramsFromName(parse, c.name) <= 0
  }

  ghost predicate StoredGroup(parse: Parse, g: Group) {
    && g.name != "" && 0 <= g.minSelect <= g.maxSelect && 1 <= g.maxSelect
    && (g.base.Some? <==> g.mode == Weight) && (g.base.Some? ==> ValidGrams(g.base.value))
    && forall i :: 0 <= i < |g.choices| ==> StoredChoice(parse, g.mode, g.choices[i])
  }

  ghost predicate Stored(parse: Parse, groups: seq<Group>) {
    forall i :: 0 <= i < |groups| ==> StoredGroup(parse, groups[i])
  }

  lemma ChoiceIsStored(parse: Parse, mode: PriceMode, o: OptionInput)
    requires CleanOption(parse, mode, o).name != ""
    ensures StoredChoice(parse, mode, ChoiceRow(CleanOption(parse, mode, o)))
  {
    hide GramsFromName, WeightName;
  }

  /** Whatever is sent, what is written is well formed. */
  lemma RowsAreStored(parse: Parse, groups: seq<GroupInput>)
    requires AllNamed(parse, groups)
    ensures Stored(parse, GroupRows(parse, groups))
  {
    hide CleanOption, StoredChoice;
    forall i | 0 <= i < |groups|
      ensures StoredGroup(parse, GroupRow(parse, groups[i]))
    {
      var g := groups[i];
      assert NamedGroup(parse, g);
      forall j | 0 <= j < |g.options|
        ensures StoredChoice(parse, GroupMode(g), GroupRow(parse, g).choices[j])
      {
        ChoiceIsStored(parse, GroupMode(g), g.options[j]);
      }
    }
  }
}
