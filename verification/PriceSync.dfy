/** The price and stock list of the shop's accounting program, as the service takes it in
    (backend/internal/catalog/pricesync.go and pricesync_create.go): lookup tables, running counters
    and sets of what was touched, which do what SyncPlan says row by row. */
module PriceSync {
  import opened Common
  import opened Money
  import opened Text
  import opened Menu
  import opened SyncPlan
  import SyncMeaning

  // ---------------------------------------------------------------------------------------
  // The service
  // ---------------------------------------------------------------------------------------

  /** A table from each link to its oldest holder. */
  ghost predicate IsOwnerTable(m: map<string, nat>, keys: seq<string>) {
    forall k :: (if k in m then Some(m[k]) else None) == Owner(keys, k)
  }

  /** A table from each name to all its holders. */
  ghost predicate IsHolderTable(m: map<string, seq<nat>>, keys: seq<string>) {
    forall k :: (if k in m then m[k] else []) == Positions(keys, k)
  }

  lemma FirstAtIs(keys: seq<string>, k: string, i: nat)
    requires i <= |keys| && (i < |keys| ==> keys[i] == k)
    requires forall j :: 0 <= j < i ==> keys[j] != k
    ensures FirstAt(keys, k) == i
  {
  }

  /** The first holder of a link keeps it. */
  function WithOwner(m: map<string, nat>, key: string, i: nat): map<string, nat> {
    if key != "" && key !in m then m[key := i] else m
  }

  function WithHolder(m: map<string, seq<nat>>, key: string, i: nat): map<string, seq<nat>> {
    m[key := (if key in m then m[key] else []) + [i]]
  }

  lemma OwnerTableStep(m: map<string, nat>, keys: seq<string>, key: string)
    requires IsOwnerTable(m, keys)
    ensures IsOwnerTable(WithOwner(m, key, |keys|), keys + [key])
  {
    var m' := WithOwner(m, key, |keys|);
    var keys' := keys + [key];
    forall k
      ensures (if k in m' then Some(m'[k]) else None) == Owner(keys', k)
    {
      assert (if k in m then Some(m[k]) else None) == Owner(keys, k);
      var f := FirstAt(keys, k);
      FirstAtIs(keys', k, if f == |keys| && k != key then |keys'| else f);
    }
  }

  lemma HolderTableStep(m: map<string, seq<nat>>, keys: seq<string>, key: string)
    requires IsHolderTable(m, keys)
    ensures IsHolderTable(WithHolder(m, key, |keys|), keys + [key])
  {
    assert (keys + [key])[..|keys|] == keys;
  }

  /** The lookup tables built from the items, oldest first. */
  method BuildTables(t: TextRules, items: seq<Item>)
    returns (byCode: map<string, nat>, byBarcode: map<string, nat>, byName: map<string, seq<nat>>)
    ensures IsOwnerTable(byCode, Codes(t, items))
    ensures IsOwnerTable(byBarcode, Barcodes(t, items))
    ensures IsHolderTable(byName, Names(t, items))
  {
    ghost var codes, barcodes, names := Codes(t, items), Barcodes(t, items), Names(t, items);
    byCode, byBarcode, byName := map[], map[], map[];
    for i := 0 to |items|
      invariant IsOwnerTable(byCode, codes[..i])
      invariant IsOwnerTable(byBarcode, barcodes[..i])
      invariant IsHolderTable(byName, names[..i])
    {
      TablesStep(byCode, byBarcode, byName, codes, barcodes, names, i);
      byCode := WithOwner(byCode, t.link(items[i].code), i);
      byBarcode := WithOwner(byBarcode, t.link(items[i].barcode), i);
      byName := WithHolder(byName, t.norm(items[i].name), i);
    }
    assert codes[..|items|] == codes && barcodes[..|items|] == barcodes && names[..|items|] == names;
  }

  lemma TablesStep(
    byCode: map<string, nat>, byBarcode: map<string, nat>, byName: map<string, seq<nat>>,
    codes: seq<string>, barcodes: seq<string>, names: seq<string>, i: nat)
    requires i < |codes| == |barcodes| == |names|
    requires IsOwnerTable(byCode, codes[..i])
    requires IsOwnerTable(byBarcode, barcodes[..i])
    requires IsHolderTable(byName, names[..i])
    ensures IsOwnerTable(WithOwner(byCode, codes[i], i), codes[..i + 1])
    ensures IsOwnerTable(WithOwner(byBarcode, barcodes[i], i), barcodes[..i + 1])
    ensures IsHolderTable(WithHolder(byName, names[i], i), names[..i + 1])
  {
    assert codes[..i + 1] == codes[..i] + [codes[i]];
    assert barcodes[..i + 1] == barcodes[..i] + [barcodes[i]];
    assert names[..i + 1] == names[..i] + [names[i]];
    OwnerTableStep(byCode, codes[..i], codes[i]);
    OwnerTableStep(byBarcode, barcodes[..i], barcodes[i]);
    HolderTableStep(byName, names[..i], names[i]);
  }

  function Get<T>(m: map<string, T>, k: string): Option<T> {
    if k in m then Some(m[k]) else None
  }

  /** The only entry of a list of holders. */
  function Single(ps: Option<seq<nat>>): Option<nat> {
    if ps.Some? && |ps.value| == 1 then Some(ps.value[0]) else None
  }

  /** The hit as the service looks it up. */
  function Lookup(
    byCode: map<string, nat>, byBarcode: map<string, nat>, byName: map<string, seq<nat>>, t: TextRules, r: SyncRow): Hit
  {
    var k := KeysOf(t, r);
    Prefer(Get(byCode, k.code), Get(byBarcode, k.barcode), k.named, Single(Get(byName, k.clean)),
        Single(Get(byName, k.raw)))
  }

  lemma OwnerLookup(m: map<string, nat>, keys: seq<string>, k: string)
    requires IsOwnerTable(m, keys)
    ensures Get(m, k) == Owner(keys, k)
  {
    assert (if k in m then Some(m[k]) else None) == Owner(keys, k);
  }

  lemma HolderLookup(m: map<string, seq<nat>>, keys: seq<string>, k: string)
    requires IsHolderTable(m, keys)
    ensures Single(Get(m, k)) == Only(keys, k)
  {
    assert (if k in m then m[k] else []) == Positions(keys, k);
  }

  lemma LookupIsMatch(
    byCode: map<string, nat>, byBarcode: map<string, nat>, byName: map<string, seq<nat>>, cfg: Config,
    items: seq<Item>, r: SyncRow)
    requires IsOwnerTable(byCode, Codes(cfg.rules, items))
    requires IsOwnerTable(byBarcode, Barcodes(cfg.rules, items))
    requires IsHolderTable(byName, Names(cfg.rules, items))
    ensures Lookup(byCode, byBarcode, byName, cfg.rules, r) == Match(cfg, items, r)
  {
    hide KeysOf;
    var k := KeysOf(cfg.rules, r);
    OwnerLookup(byCode, Codes(cfg.rules, items), k.code);
    OwnerLookup(byBarcode, Barcodes(cfg.rules, items), k.barcode);
    HolderLookup(byName, Names(cfg.rules, items), k.clean);
    HolderLookup(byName, Names(cfg.rules, items), k.raw);
  }

  // ----- the service -----

  /** What the service decides for a row without a match, from the codes taken so far. */
  method ClassifyMiss(cfg: Config, code: string, name: string, r: SyncRow, createdCodes: set<string>)
    returns (o: Outcome)
    ensures o == Settle(PlanMiss(cfg, code, name, r), false, code in createdCodes)
  {
    if !cfg.createMissing {
      return Unmatched;
    }
    if code == "" || name == "" {
      return NoCodeOrName;
    }
    if !ValidLink(code) {
      return BadCode;
    }
    if code in createdCodes {
      return CodeRepeated;
    }
    var n := Draft(cfg, code, name, r.price);
    if TooHigh(cfg, n.price) {
      return NewTooHigh;
    }
    return Created(n);
  }

  /** What the service decides for a row with a match, from the items hit so far. */
  method ClassifyHit(cfg: Config, it: Item, idx: nat, byName: bool, r: SyncRow, touched: set<nat>)
    returns (o: Outcome)
    ensures o == Settle(Target(idx, PlanHit(cfg, it, idx, byName, r)), idx in touched, false)
  {
    if idx in touched {
      return HitAgain(idx);
    }
    if r.price.Some? {
      if !r.price.value.Usable() {
        return BadPrice(idx);
      }
      var p := PriceAfter(cfg, it, r);
      if TooHigh(cfg, p.0) {
        return PriceTooHigh(idx);
      }
    }
    return Applied(idx, Apply(cfg, it, byName, r));
  }

  /** UPDATE menu_items ... WHERE id = the item's: fails when the unique index is violated. */
  method UpdateRow(work: seq<Item>, k: nat, it: Item) returns (r: Result<seq<Item>, SyncError>)
    requires k < |work| && UniqueCodes(work)
    ensures r == if UniqueCodes(work[k := it]) then Ok(work[k := it]) else Err(CodeConflict)
  {
    var i := 0;
    while i < |work|
      invariant 0 <= i <= |work|
      invariant forall j :: 0 <= j < i && j != k ==> it.code == "" || work[j].code != it.code
    {
      if i != k && it.code != "" && work[i].code == it.code {
        assert work[k := it][i].code == work[k := it][k].code;
        return Err(CodeConflict);
      }
      i := i + 1;
    }
    return Ok(work[k := it]);
  }

  method InsertNewItems(items: seq<Item>, drafts: seq<NewItem>, nextId: nat) returns (made: seq<Item>)
    ensures made == Inserted(items, drafts, nextId)
  {
    made := [];
    for i := 0 to |drafts|
      invariant made == Inserted(items, drafts[..i], nextId)
    {
      assert drafts[..i + 1][..i] == drafts[..i];
      if drafts[i].code !in StoredCodes(items + made) {
        made := made + [NewRow(drafts[i], nextId + |made|)];
      }
    }
    assert drafts[..|drafts|] == drafts;
  }

  /** One row: look it up, then classify it. */
  method Decide(
    cfg: Config, items: seq<Item>, r: SyncRow, byCode: map<string, nat>, byBarcode: map<string, nat>,
    byName: map<string, seq<nat>>, touched: set<nat>, createdCodes: set<string>)
    returns (o: Outcome)
    requires IsOwnerTable(byCode, Codes(cfg.rules, items)) && IsOwnerTable(byBarcode, Barcodes(cfg.rules, items))
    requires IsHolderTable(byName, Names(cfg.rules, items))
    ensures var p := PlanOf(cfg, items, r);
            o == Settle(p, p.Target? && p.idx in touched, p.New? && p.draft.code in createdCodes)
  {
    LookupIsMatch(byCode, byBarcode, byName, cfg, items, r);
    var hit := Lookup(byCode, byBarcode, byName, cfg.rules, r);
    if hit.NoHit? {
      o := ClassifyMiss(cfg, cfg.rules.link(r.code), cfg.rules.clean(r.name), r, createdCodes);
    } else {
      o := ClassifyHit(cfg, items[hit.idx], hit.idx, hit.byName, r, touched);
    }
  }

  /** What the loop over the list leaves: the report, the drafts, and the rows as updated. */
  datatype Progress = Progress(rep: Report, toCreate: seq<NewItem>, work: seq<Item>)

  /** The sets kept by the loop say which items were hit and which codes were taken. */
  ghost predicate Tracks(plans: seq<Plan>, i: nat, touched: set<nat>, createdCodes: set<string>)
    requires i <= |plans|
  {
    && (forall k :: k in touched <==> HitBefore(plans, i, k))
    && (forall c :: c in createdCodes <==> CodeTaken(plans, i, c))
  }

  function Touch(touched: set<nat>, o: Outcome): set<nat> {
    if o.FirstHit() then touched + {o.idx} else touched
  }

  function Take(createdCodes: set<string>, o: Outcome): set<string> {
    if o.Created? then createdCodes + {o.draft.code} else createdCodes
  }

  /** The loop over the list. */
  method ProcessRows(cfg: Config, items: seq<Item>, rows: seq<SyncRow>) returns (r: Result<Progress, SyncError>)
    requires UniqueCodes(items)
    ensures var plans := Plans(cfg, items, rows);
            var after := ItemsAfter(plans, items, |rows|);
            && (r.Err? <==> !cfg.dryRun && !UniqueCodes(after))
            && (r.Err? ==> r.error == CodeConflict)
            && (r.Ok? ==> r.value == Progress(ReportAfter(cfg, plans, rows, |rows|), Drafts(plans, |rows|),
                                              if cfg.dryRun then items else after))
  {
    ghost var plans := Plans(cfg, items, rows);
    assert ItemsAfter(plans, items, 0) == items;
    hide PlanOf, Plans, WellPlanned, Count, IsOwnerTable, IsHolderTable, ItemAfter, ItemsAfter, UniqueCodes,
      Settle, OutcomeAt, HitBefore, CodeTaken;
    PlansAreWell(cfg, items, rows);
    var byCode, byBarcode, byName := BuildTables(cfg.rules, items);
    var rep := Report(cfg.dryRun, |rows|, 0, 0, 0, 0, 0, 0, 0, 0, 0, 0, 0, 0, [], [], [], []);
    var toCreate, createdCodes, touched, work := [], {}, {}, items;
    NothingTracked(plans);
    hide Tracks, Touch, Take;
    for i := 0 to |rows|
      invariant Tracks(plans, i, touched, createdCodes)
      invariant rep == ReportAfter(cfg, plans, rows, i)
      invariant toCreate == Drafts(plans, i)
      invariant work == if cfg.dryRun then items else ItemsAfter(plans, items, i)
      invariant UniqueCodes(work)
    {
      var o := Decide(cfg, items, rows[i], byCode, byBarcode, byName, touched, createdCodes);
      StepLemma(plans, items, i, touched, createdCodes);
      rep := Count(rep, i, rows[i], cfg.rules.link(rows[i].code), cfg.rules.clean(rows[i].name), o);
      touched, createdCodes := Touch(touched, o), Take(createdCodes, o);
      if o.Created? {
        toCreate := toCreate + [o.draft];
      }
      if o.Applied? && o.effect.Writes() && !cfg.dryRun {
        var updated := UpdateRow(work, o.idx, o.effect.item);
        if updated.Err? {
          ConflictStays(plans, items, i + 1);
          return Err(CodeConflict);
        }
        work := updated.value;
      }
    }
    return Ok(Progress(rep, toCreate, work));
  }

  lemma NothingTracked(plans: seq<Plan>)
    ensures Tracks(plans, 0, {}, {})
  {
  }

  /** A run over the list. Everything is written or, on a dry run or an error, nothing. */
  method SyncPrices(db: MenuDb, rows: seq<SyncRow>, usd: bool, createMissing: bool, dryRun: bool, unicode: Unicode)
    returns (r: Result<Report, SyncError>)
    requires db.Valid()
    modifies db`items, db`nextId
    ensures db.Valid()
    ensures rows == [] || |rows| > MAX_ROWS ==> r == Err(EmptyList)
    ensures 0 < |rows| <= MAX_ROWS && usd && db.Rate() <= 0.0 ==> r == Err(RateRequired)
    ensures 0 < |rows| <= MAX_ROWS && (usd ==> db.Rate() > 0.0) ==>
              var cfg := Config(usd, createMissing, dryRun, db.Rate(), db.maxPrice, RulesOf(unicode));
              var plans := Plans(cfg, old(db.items), rows);
              var rep := ReportAfter(cfg, plans, rows, |rows|);
              var after := ItemsAfter(plans, old(db.items), |rows|);
              var made := Inserted(after, Drafts(plans, |rows|), old(db.nextId));
              if dryRun then r == Ok(rep)
              else if UniqueCodes(after) then
                r == Ok(rep.(created := |made|)) && db.items == after + made && db.nextId == old(db.nextId) + |made|
              else r == Err(CodeConflict)
    ensures r.Ok? && !dryRun ==>
              SyncMeaning.RunMeans(Config(usd, createMissing, dryRun, db.Rate(), db.maxPrice, RulesOf(unicode)),
                                   old(db.items), rows, db.items, r.value)
    ensures r.Err? || dryRun ==> db.State() == old(db.State())
  {
    hide SyncMeaning.RunMeans, ReportAfter, Count, Drafts, ItemAfter, ItemsAfter, Inserted, PlanOf, Plans, WellPlanned;
    if |rows| == 0 || |rows| > MAX_ROWS {
      return Err(EmptyList);
    }
    if usd && db.Rate() <= 0.0 {
      return Err(RateRequired);
    }
    var cfg := Config(usd, createMissing, dryRun, db.Rate(), db.maxPrice, RulesOf(unicode));
    var processed := ProcessRows(cfg, db.items, rows);
    if processed.Err? {
      return Err(processed.error);
    }
    var Progress(rep, toCreate, work) := processed.value;
    if dryRun {
      return Ok(rep);
    }
    var made := InsertNewItems(work, toCreate, db.nextId);
    PlansAreWell(cfg, db.items, rows);
    ItemsStayFresh(Plans(cfg, db.items, rows), db.items, |rows|, db.nextId);
    InsertedIsFresh(work, toCreate, db.nextId);
    SyncMeaning.WholeRun(cfg, db.items, rows, db.nextId);
    db.items := work + made;
    db.nextId := db.nextId + |made|;
    return Ok(rep.(created := |made|));
  }

  lemma StepLemma(plans: seq<Plan>, items: seq<Item>, i: nat, touched: set<nat>, createdCodes: set<string>)
    requires i < |plans| && WellPlanned(plans, items) && Tracks(plans, i, touched, createdCodes)
    ensures var o := OutcomeAt(plans, i);
            && o == Settle(plans[i], plans[i].Target? && plans[i].idx in touched,
                           plans[i].New? && plans[i].draft.code in createdCodes)
            && Tracks(plans, i + 1, Touch(touched, o), Take(createdCodes, o))
            && (o.Applied? ==> o.idx < |items|)
            && ItemsAfter(plans, items, i + 1) ==
                 if o.Applied? && o.effect.Writes() then ItemsAfter(plans, items, i)[o.idx := o.effect.item]
                 else ItemsAfter(plans, items, i)
  {
    var o := OutcomeAt(plans, i);
    forall k ensures k in Touch(touched, o) <==> HitBefore(plans, i + 1, k) {
      HitBeforeStep(plans, items, i, k);
    }
    forall c ensures c in Take(createdCodes, o) <==> CodeTaken(plans, i + 1, c) {
      CodeTakenStep(plans, items, i, c);
    }
  }
}
