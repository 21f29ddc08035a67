/** Creating, updating and duplicating an item, as the service does it
    (CreateItemIn and UpdateItem in backend/internal/catalog/menu.go, DuplicateItem in menu_tools.go). */
module MenuWrites {
  import opened Common
  import opened Money
  import opened Text
  import opened Menu
  import opened OptionModes
  import opened Modifiers
  import opened ModeInheritance
  import opened Dollars
  import opened DrinksList
  import opened MenuPlans
  import MenuMeaning

  // ---------------------------------------------------------------------------------------
  // Creating
  // ---------------------------------------------------------------------------------------

  method CheckLinks(t: TextRules, items: seq<Item>, except: Option<nat>, code: Option<string>, barcode: Option<string>)
    returns (r: Result<(Option<string>, Option<string>), MenuError>)
    ensures r == LinksFor(t, items, except, code, barcode)
  {
    hide CleanLink, CodeHeld;
    var c := CleanLink(t, code);
    if c.Err? {
      return Err(c.error);
    }
    var b := CleanLink(t, barcode);
    if b.Err? {
      return Err(b.error);
    }
    if c.value.Some? {
      var held := FindCode(items, except, c.value.value);
      if held {
        return Err(CodeTaken);
      }
    }
    return Ok((c.value, b.value));
  }

  /** ensureCodeFree. */
  method FindCode(items: seq<Item>, except: Option<nat>, code: string) returns (held: bool)
    ensures held == CodeHeld(items, except, code)
  {
    held := false;
    if code == "" {
      return;
    }
    for i := 0 to |items|
      invariant !held
      invariant forall j :: 0 <= j < i && items[j].code != "" && (except.None? || items[j].id != except.value) ==>
                  Translated(items[j].code) != code
    {
      if items[i].code != "" && Translated(items[i].code) == code && (except.None? || items[i].id != except.value) {
        return true;
      }
    }
  }

  /** The row is inserted with its groups, then the store's drinks are copied into it. */
  method CreateItemIn(env: Env, db: MenuDb, input: ItemInput) returns (r: Result<nat, MenuError>)
    requires db.Valid()
    modifies db`items, db`nextId
    ensures var made := Created(env, old(db.State()), input);
            if made.Ok? then r == Ok(made.value.id) && db.State() == WithItem(old(db.State()), made.value)
            else r == Err(made.error) && db.State() == old(db.State())
    ensures r.Ok? <==> MenuMeaning.MayCreate(env, old(db.State()), input)
    ensures r.Ok? ==> MenuMeaning.MenuWithNew(env, old(db.State()), input, db.State())
  {
    hide Resolve, LinksFor, AllNamed, GroupRows, Copies, DrinksGroup, UniqueCodes, MenuMeaning.MayCreate,
      MenuMeaning.MenuWithNew;
    MenuMeaning.CreationMeans(env, db.State(), input);
    var resolved := ResolveUsd(db.Rate(), input);
    if resolved.Err? {
      return Err(resolved.error);
    }
    var (plan, inp) := resolved.value;
    if inp.name.None? || inp.name.value == "" || inp.price.None? || inp.price.value < 0 {
      return Err(MenuError.NameRequired);
    }
    if inp.section.None? || inp.section.value == "" {
      return Err(SectionRequired);
    }
    if OutOfBounds(db.maxPrice, inp).Some? {
      return Err(OutOfBounds(db.maxPrice, inp).value);
    }
    var links := CheckLinks(env.text, db.items, None, inp.code, inp.barcode);
    if links.Err? {
      return Err(links.error);
    }
    if inp.section.value !in env.active {
      return Err(NotFound);
    }
    var id := db.nextId;
    var it := Item(id, inp.name.value, inp.price.value, if plan.SetCents? then Some(plan.cents) else None, true,
                   Or(links.value.0, ""), Or(links.value.1, ""), inp.section.value, !Or(inp.storeDrinks, true), [], []);
    if inp.modifiers.Some? {
      var rows := InsertModifiers(env.parse, inp.modifiers.value);
      if rows.Err? {
        return Err(MenuError.NameRequired);
      }
      it := it.(own := rows.value);
    } else {
      NoGroups(env.parse);
    }
    var items := SyncDrinks(db.items + [it], Some(id), db.hasDrinks, db.drinks);
    db.items, db.nextId := items, id + 1;
    return Ok(id);
  }

  lemma NoGroups(parse: Parse)
    ensures AllNamed(parse, []) && GroupRows(parse, []) == []
  {
  }

  // ---------------------------------------------------------------------------------------
  // Updating
  // ---------------------------------------------------------------------------------------

  method FindRow(items: seq<Item>, id: nat) returns (k: nat)
    ensures k == RowOf(items, id)
  {
    k := 0;
    while k < |items| && items[k].id != id
      invariant k <= |items| && RowOf(items, id) == k + RowOf(items[k..], id)
    {
      assert items[k..][1..] == items[k + 1..];
      k := k + 1;
    }
  }

  method ReplaceOwn(env: Env, it: Item, modifiers: Option<seq<GroupInput>>) returns (r: Result<seq<Group>, MenuError>)
    ensures r == OwnAfter(env, it, modifiers)
  {
    hide AllNamed, GroupRows, InheritAll;
    if modifiers.None? {
      return Ok(it.own);
    }
    var groups := InheritModes(it.own, modifiers.value);
    var rows := InsertModifiers(env.parse, groups);
    if rows.Err? {
      return Err(MenuError.NameRequired);
    }
    return Ok(rows.value);
  }

  method UpdateRow(env: Env, m: MenuState, it: Item, plan: Plan, inp: ItemInput) returns (r: Result<Item, MenuError>)
    ensures r == UpdatedFrom(env, m, it, plan, inp)
  {
    hide LinksFor, ChangedLink, OwnAfter, Copies, OutOfBounds;
    if OutOfBounds(m.maxPrice, inp).Some? {
      return Err(OutOfBounds(m.maxPrice, inp).value);
    }
    var links := CheckLinks(env.text, m.items, Some(it.id), ChangedLink(env.text, inp.code, it.code),
        ChangedLink(env.text, inp.barcode, it.barcode));
    if links.Err? {
      return Err(links.error);
    }
    var row := Overwritten(it, plan, inp, links.value.0, links.value.1);
    var own := ReplaceOwn(env, it, inp.modifiers);
    if own.Err? {
      return Err(own.error);
    }
    row := row.(own := own.value);
    if inp.storeDrinks.Some? {
      row := row.(drinksOff := !inp.storeDrinks.value);
      var synced := SyncDrinks([row], Some(row.id), m.hasDrinks, m.drinks);
      row := synced[0];
    }
    return Ok(row);
  }

  /** UpdateItem: in one transaction. */
  method UpdateItem(env: Env, db: MenuDb, id: nat, input: ItemInput) returns (r: Result<(), MenuError>)
    requires db.Valid()
    modifies db`items
    ensures var after := UpdateResult(env, old(db.State()), id, input);
            if after.Ok? then r == Ok(()) && db.State() == after.value
            else r == Err(after.error) && db.State() == old(db.State())
    ensures r.Ok? <==> MenuMeaning.MayUpdate(env, old(db.State()), id, input)
    ensures r.Ok? ==> MenuMeaning.MenuWithUpdate(env, old(db.State()), id, input, db.State())
  {
    hide Resolve, UpdatedFrom, OutOfBounds, RowOf, UniqueCodes, FreshIds, MenuMeaning.MayUpdate,
      MenuMeaning.MenuWithUpdate;
    MenuMeaning.UpdateMeans(env, db.State(), id, input);
    if input.section.Some? && env.text.trim(input.section.value) == "" {
      return Err(SectionRequired);
    }
    if OutOfBounds(db.maxPrice, input).Some? {
      return Err(OutOfBounds(db.maxPrice, input).value);
    }
    var k := FindRow(db.items, id);
    if k == |db.items| {
      return Err(NotFound);
    }
    var it := db.items[k];
    var resolved := ResolveUsd(db.Rate(), input);
    if resolved.Err? {
      return Err(resolved.error);
    }
    var (plan, inp) := resolved.value;
    var row := UpdateRow(env, db.State(), it, plan, inp);
    if row.Err? {
      return Err(row.error);
    }
    db.items := db.items[k := row.value];
    return Ok(());
  }

  // ---------------------------------------------------------------------------------------
  // Duplicating
  // ---------------------------------------------------------------------------------------

  method CollectGroups(own: seq<Group>) returns (groups: seq<GroupInput>)
    ensures groups == ResentGroups(own)
  {
    hide InUsd;
    groups := [];
    for i := 0 to |own|
      invariant |groups| == i
      invariant forall k :: 0 <= k < i ==> groups[k] == ResentGroup(own[k])
    {
      var g := own[i];
      var options: seq<OptionInput> := [];
      for j := 0 to |g.choices|
        invariant |options| == j
        invariant forall k :: 0 <= k < j ==> options[k] == ResentOption(g.choices[k])
      {
        options := options + [ResentOption(g.choices[j])];
      }
      assert options == ResentGroup(g).options;
      groups := groups + [GroupInput(g.name, g.minSelect, g.maxSelect, Some(ModeText(g.mode)), g.base, options)];
    }
  }

  method DuplicateItem(env: Env, db: MenuDb, id: nat, maxName: int) returns (r: Result<nat, MenuError>)
    requires db.Valid()
    modifies db`items, db`nextId
    ensures var made := Duplicated(env, old(db.State()), id, maxName);
            if made.Ok? then r == Ok(made.value.id) && db.State() == WithItem(old(db.State()), made.value)
            else r == Err(made.error) && db.State() == old(db.State())
  {
    hide Created, CopyName, ResentGroups, RowOf, UniqueCodes, FreshIds;
    var k := FindRow(db.items, id);
    if k == |db.items| {
      return Err(NotFound);
    }
    var it := db.items[k];
    if it.section == "" {
      return Err(SectionRequired);
    }
    var inp := ItemInput(Some(CopyName(env.text, it.name, maxName)), Some(it.price), None, None, Some(it.section),
        None, None,
                         Some(!it.drinksOff), None, None);
    if it.cents.Some? {
      inp := inp.(currency := Some("USD"), priceUsd := Some(it.cents.value as real / 100.0));
    }
    var groups := CollectGroups(it.own);
    inp := inp.(modifiers := Some(groups));
    r := CreateItemIn(env, db, inp);
  }
}
