/** What creating, updating and duplicating an item writes, or why it is refused
    (CreateItemIn and UpdateItem in backend/internal/catalog/menu.go, DuplicateItem in menu_tools.go,
    the links of item_link.go). */
module MenuPlans {
  import opened Common
  import opened Money
  import opened Text
  import opened Menu
  import opened OptionModes
  import opened Modifiers
  import opened ModeInheritance
  import opened Dollars
  import opened DrinksList

  /** What the writes consult besides the merchant's rows: strconv.ParseFloat, the reading of texts, and the
      active sections. */
  datatype Env = Env(parse: Parse, text: TextRules, active: set<string>)

  // ---------------------------------------------------------------------------------------
  // Checks
  // ---------------------------------------------------------------------------------------

  /** checkItemBounds; None when the item is within them. */
  function OutOfBounds(maxPrice: int, inp: ItemInput): Option<MenuError> {
    if inp.name.Some? && |inp.name.value| > MAX_ITEM_NAME then Some(TextTooLong)
    else if inp.price.Some? && inp.price.value < 0 then Some(MenuError.NameRequired)
    else if inp.price.Some? && maxPrice > 0 && inp.price.value > maxPrice then Some(PriceTooHigh)
    else None
  }

  /** A link as it is sent: absent changes nothing, empty takes the link away. */
  function CleanLink(t: TextRules, p: Option<string>): (r: Result<Option<string>, MenuError>)
    ensures r.Ok? && r.value.Some? ==> ValidLink(r.value.value)
  {
    if p.None? then Ok(None)
    else
      var v := t.link(p.value);
      if ValidLink(v) then Ok(Some(v)) else Err(LinkInvalid)
  }

  /** A link sent as it is stored counts as absent. */
  function ChangedLink(t: TextRules, p: Option<string>, stored: string): Option<string> {
    if p.Some? && t.trim(p.value) == stored then None else p
  }

  /** The digits and marks of a stored code as they are compared, without trimming. */
  function Translated(code: string): string {
    LinkChars(code)
  }

  /** Another item of the merchant has the code. */
  predicate CodeHeld(items: seq<Item>, except: Option<nat>, code: string) {
    code != "" && exists i :: 0 <= i < |items| && items[i].code != "" && Translated(items[i].code) == code
                              && (except.None? || items[i].id != except.value)
  }

  /** The two links, cleaned and free. */
  function LinksFor(t: TextRules, items: seq<Item>, except: Option<nat>, code: Option<string>, barcode: Option<string>)
    : Result<(Option<string>, Option<string>), MenuError>
  {
    var c := CleanLink(t, code);
    var b := CleanLink(t, barcode);
    if c.Err? then Err(c.error)
    else if b.Err? then Err(b.error)
    else if c.value.Some? && CodeHeld(items, except, c.value.value) then Err(CodeTaken)
    else Ok((c.value, b.value))
  }

  // ---------------------------------------------------------------------------------------
  // Creating
  // ---------------------------------------------------------------------------------------

  function CreatedFrom(env: Env, m: MenuState, plan: Plan, inp: ItemInput): Result<Item, MenuError> {
    var links := LinksFor(env.text, m.items, None, inp.code, inp.barcode);
    if Or(inp.name, "") == "" || Or(inp.price, -1) < 0 then Err(MenuError.NameRequired)
    else if Or(inp.section, "") == "" then Err(SectionRequired)
    else if OutOfBounds(m.maxPrice, inp).Some? then Err(OutOfBounds(m.maxPrice, inp).value)
    else if links.Err? then Err(links.error)
    else if inp.section.value !in env.active then Err(NotFound)
    else if !AllNamed(env.parse, Or(inp.modifiers, [])) then Err(MenuError.NameRequired)
    else
      var off := !Or(inp.storeDrinks, true);
      Ok(Item(m.nextId, inp.name.value, inp.price.value, if plan.SetCents? then Some(plan.cents) else None, true,
              Or(links.value.0, ""), Or(links.value.1, ""), inp.section.value, off,
              GroupRows(env.parse, Or(inp.modifiers, [])), Copies(m.hasDrinks, m.drinks, off)))
  }

  /** The item a creation adds, or why it does not. */
  function Created(env: Env, m: MenuState, inp: ItemInput): Result<Item, MenuError> {
    var resolved := Resolve(m.Rate(), inp);
    if resolved.Err? then Err(resolved.error) else CreatedFrom(env, m, resolved.value.0, resolved.value.1)
  }

  function WithItem(m: MenuState, it: Item): MenuState {
    m.(items := m.items + [it], nextId := m.nextId + 1)
  }

  // ---------------------------------------------------------------------------------------
  // Updating
  // ---------------------------------------------------------------------------------------

  function WithLink(p: Option<string>, stored: string): string {
    if p.None? then stored else p.value
  }

  /** The item's columns after an update. */
  function Overwritten(it: Item, plan: Plan, inp: ItemInput, code: Option<string>, barcode: Option<string>): Item {
    it.(name := Or(inp.name, it.name), price := Or(inp.price, it.price),
        cents := (match plan case SetCents(c) => Some(c) case Clear => None case Keep => it.cents),
        available := Or(inp.available, it.available), section := Or(inp.section, it.section),
        code := WithLink(code, it.code), barcode := WithLink(barcode, it.barcode))
  }

  function OwnAfter(env: Env, it: Item, modifiers: Option<seq<GroupInput>>): Result<seq<Group>, MenuError> {
    if modifiers.None? then Ok(it.own)
    else
      var groups := InheritAll(it.own, modifiers.value);
      if AllNamed(env.parse, groups) then Ok(GroupRows(env.parse, groups)) else Err(MenuError.NameRequired)
  }

  function UpdatedFrom(env: Env, m: MenuState, it: Item, plan: Plan, inp: ItemInput): Result<Item, MenuError> {
    var links := LinksFor(env.text, m.items, Some(it.id), ChangedLink(env.text, inp.code, it.code),
        ChangedLink(env.text, inp.barcode, it.barcode));
    if OutOfBounds(m.maxPrice, inp).Some? then Err(OutOfBounds(m.maxPrice, inp).value)
    else if links.Err? then Err(links.error)
    else
      var own := OwnAfter(env, it, inp.modifiers);
      if own.Err? then Err(own.error)
      else
        var row := Overwritten(it, plan, inp, links.value.0, links.value.1).(own := own.value);
        if inp.storeDrinks.None? then Ok(row)
        else
          var off := !inp.storeDrinks.value;
          Ok(row.(drinksOff := off, copies := Copies(m.hasDrinks, m.drinks, off)))
  }

  /** The item after an update, or why it is refused. */
  function Updated(env: Env, m: MenuState, it: Item, inp: ItemInput): Result<Item, MenuError> {
    if inp.section.Some? && env.text.trim(inp.section.value) == "" then Err(SectionRequired)
    else if OutOfBounds(m.maxPrice, inp).Some? then Err(OutOfBounds(m.maxPrice, inp).value)
    else
      var resolved := Resolve(m.Rate(), inp);
      if resolved.Err? then Err(resolved.error) else UpdatedFrom(env, m, it, resolved.value.0, resolved.value.1)
  }

  /** The row of an item, or the number of rows. */
  function RowOf(items: seq<Item>, id: nat): (k: nat)
    ensures k <= |items| && (k < |items| ==> items[k].id == id)
    ensures forall j :: 0 <= j < k ==> items[j].id != id
  {
    if items == [] || items[0].id == id then 0 else 1 + RowOf(items[1..], id)
  }

  /** What an update leaves; nothing changes on an error. */
  function UpdateResult(env: Env, m: MenuState, id: nat, inp: ItemInput): Result<MenuState, MenuError> {
    var k := RowOf(m.items, id);
    if k == |m.items| then
      if inp.section.Some? && env.text.trim(inp.section.value) == "" then Err(SectionRequired)
      else if OutOfBounds(m.maxPrice, inp).Some? then Err(OutOfBounds(m.maxPrice, inp).value)
      else Err(NotFound)
    else
      var after := Updated(env, m, m.items[k], inp);
      if after.Err? then Err(after.error) else Ok(m.(items := m.items[k := after.value]))
  }

  // ---------------------------------------------------------------------------------------
  // Duplicating
  // ---------------------------------------------------------------------------------------

  const COPY_SUFFIX := " (نسخة)"

  /** The copy's name: the old one, cut to leave room for the suffix. */
  function CopyName(t: TextRules, name: string, maxName: int): string {
    var limit := if maxName <= 0 then MAX_ITEM_NAME else maxName;
    var room := if limit - |COPY_SUFFIX| < 1 then 1 else limit - |COPY_SUFFIX|;
    t.trim(if |name| > room then name[..room] else name) + COPY_SUFFIX
  }

  function InUsd(cents: Option<int>): Option<real> {
    if cents.None? then None else Some(cents.value as real / 100.0)
  }

  function ResentOption(c: Choice): OptionInput {
    OptionInput(c.name, c.delta, InUsd(c.cents), None, Some(c.available), c.grams)
  }

  function ResentGroup(g: Group): (r: GroupInput)
    ensures |r.options| == |g.choices|
  {
    GroupInput(g.name, g.minSelect, g.maxSelect, Some(ModeText(g.mode)), g.base,
               seq(|g.choices|, j requires 0 <= j < |g.choices| => ResentOption(g.choices[j])))
  }

  function ResentGroups(groups: seq<Group>): (r: seq<GroupInput>)
    ensures |r| == |groups|
    ensures forall i :: 0 <= i < |r| ==> r[i] == ResentGroup(groups[i])
  {
    seq(|groups|, i requires 0 <= i < |groups| => ResentGroup(groups[i]))
  }

  /** The item sent again, without its links and its copied drinks. */
  function Resent(t: TextRules, it: Item, maxName: int): ItemInput {
    ItemInput(Some(CopyName(t, it.name, maxName)), Some(it.price), if it.cents.Some? then Some("USD") else None,
              InUsd(it.cents), Some(it.section), None, Some(ResentGroups(it.own)), Some(!it.drinksOff), None, None)
  }

  /** The copy, or why there is none. */
  function Duplicated(env: Env, m: MenuState, id: nat, maxName: int): Result<Item, MenuError> {
    var k := RowOf(m.items, id);
    if k == |m.items| then Err(NotFound)
    else if m.items[k].section == "" then Err(SectionRequired)
    else Created(env, m, Resent(env.text, m.items[k], maxName))
  }
}
