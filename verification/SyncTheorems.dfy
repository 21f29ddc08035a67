/** What the accounting sync promises over whole runs
    (backend/internal/catalog/pricesync.go and pricesync_create.go). */
module SyncTheorems {
  import opened Common
  import opened Money
  import opened Text
  import opened Menu
  import opened SyncPlan
  import opened PriceSync

  // ---------------------------------------------------------------------------------------
  // A second run with the same list creates nothing
  // ---------------------------------------------------------------------------------------

  /** A created row's code is among the drafts. */
  lemma {:induction false} TakenCodeIsDrafted(plans: seq<Plan>, n: nat, c: string)
    requires n <= |plans| && CodeTaken(plans, n, c)
    ensures exists d :: d in Drafts(plans, n) && d.code == c
  {
    if CodeTaken(plans, n - 1, c) {
      TakenCodeIsDrafted(plans, n - 1, c);
      var d :| d in Drafts(plans, n - 1) && d.code == c;
      assert d in Drafts(plans, n);
    } else {
      assert OutcomeAt(plans, n - 1).Created?;
      assert plans[n - 1].draft in Drafts(plans, n);
    }
  }

  /** Every draft comes from a row without a match. */
  lemma {:induction false} DraftsArePlanned(plans: seq<Plan>, n: nat, d: NewItem)
    requires n <= |plans| && d in Drafts(plans, n)
    requires forall i :: 0 <= i < |plans| && plans[i].Target? ==> plans[i].o.FirstHit()
    requires forall i :: 0 <= i < |plans| && plans[i].Miss? ==> !plans[i].o.Created?
    ensures exists j :: 0 <= j < n && plans[j].New? && plans[j].draft == d
  {
    var o := OutcomeAt(plans, n - 1);
    if o.Created? && o.draft == d {
      assert plans[n - 1].New? && plans[n - 1].draft == d;
    } else {
      DraftsArePlanned(plans, n - 1, d);
    }
  }

  /** Every inserted row carries a draft's name. */
  lemma {:induction false} InsertedNamesAreDrafted(items: seq<Item>, drafts: seq<NewItem>, nextId: nat, b: Item)
    requires b in Inserted(items, drafts, nextId)
    ensures exists d :: d in drafts && b.name == d.name
  {
    var n := |drafts| - 1;
    if b in Inserted(items, drafts[..n], nextId) {
      InsertedNamesAreDrafted(items, drafts[..n], nextId, b);
      var d :| d in drafts[..n] && b.name == d.name;
      assert d in drafts;
    } else {
      assert drafts[n] in drafts;
    }
  }

  lemma OwnerPersists(keys: seq<string>, keys': seq<string>, k: string)
    requires Owner(keys, k).Some?
    requires |keys| <= |keys'| && forall i :: 0 <= i < |keys| && keys[i] != "" ==> keys'[i] == keys[i]
    ensures Owner(keys', k).Some?
  {
    assert keys'[Owner(keys, k).value] == k;
  }

  lemma {:induction false} PositionsExtend(keys: seq<string>, more: seq<string>, k: string)
    requires k !in more
    ensures Positions(keys + more, k) == Positions(keys, k)
  {
    if more != [] {
      var n := |more| - 1;
      assert (keys + more)[..|keys + more| - 1] == keys + more[..n];
      PositionsExtend(keys, more[..n], k);
    } else {
      assert keys + more == keys;
    }
  }

  /** The rows of a run afterwards, the inserted ones in any order among themselves. */
  ghost predicate AfterRun(cfg: Config, items: seq<Item>, rows: seq<SyncRow>, nextId: nat, items': seq<Item>) {
    var plans := Plans(cfg, items, rows);
    var after := ItemsAfter(plans, items, |rows|);
    && |items| <= |items'| && items'[..|items|] == after
    && forall b :: b in items'[|items|..] <==> b in Inserted(after, Drafts(plans, |rows|), nextId)
  }

  lemma CodesPersist(cfg: Config, items: seq<Item>, rows: seq<SyncRow>, nextId: nat, items': seq<Item>, k: nat)
    requires Sensible(cfg.rules)
    requires AfterRun(cfg, items, rows, nextId, items') && k < |items|
    ensures Codes(cfg.rules, items)[k] != "" ==> Codes(cfg.rules, items')[k] == Codes(cfg.rules, items)[k]
    ensures Barcodes(cfg.rules, items)[k] != "" ==> Barcodes(cfg.rules, items')[k] == Barcodes(cfg.rules, items)[k]
    ensures items'[k].name == items[k].name
  {
    hide PlanOf, Owner, Drafts, Inserted;
    var plans := Plans(cfg, items, rows);
    PlansAreWell(cfg, items, rows);
    LinksStay(plans, items, 0, |rows|, k);
    assert items'[k] == items'[..|items|][k] == ItemAfter(plans, items, |rows|, k);
  }

  /** No inserted row has a name that had exactly one holder. */
  lemma InsertedNamesHadNoSingleHolder(
    cfg: Config, items: seq<Item>, rows: seq<SyncRow>, nextId: nat, items': seq<Item>, k: nat)
    requires Sensible(cfg.rules)
    requires AfterRun(cfg, items, rows, nextId, items') && |items| <= k < |items'|
    ensures Only(Names(cfg.rules, items), cfg.rules.norm(items'[k].name)).None?
  {
    hide Positions, PlanMiss, PlanHit, Only;
    var plans := Plans(cfg, items, rows);
    var after := ItemsAfter(plans, items, |rows|);
    var drafts := Drafts(plans, |rows|);
    var b := items'[k];
    assert b in items'[|items|..];
    InsertedNamesAreDrafted(after, drafts, nextId, b);
    var d :| d in drafts && b.name == d.name;
    DraftsArePlanned(plans, |rows|, d);
    var j :| 0 <= j < |rows| && plans[j].New? && plans[j].draft == d;
    NewRowHadNoHolder(cfg, items, rows[j]);
  }

  lemma NewRowHadNoHolder(cfg: Config, items: seq<Item>, r: SyncRow)
    requires Sensible(cfg.rules)
    requires PlanOf(cfg, items, r).New?
    ensures var d := PlanOf(cfg, items, r).draft;
            && d.name == cfg.rules.clean(r.name) && d.code == cfg.rules.link(r.code)
            && Only(Names(cfg.rules, items), cfg.rules.norm(d.name)).None?
  {
    hide Positions, Owner, Only, PlanHit;
    assert Match(cfg, items, r).NoHit?;
  }

  lemma NameComesFrom(t: TextRules, items: seq<Item>, key: string) returns (k: nat)
    requires key in Names(t, items)
    ensures k < |items| && t.norm(items[k].name) == key
  {
    k :| k < |items| && Names(t, items)[k] == key;
  }

  /** The names of the old rows are as they were. */
  lemma NamesExtend(cfg: Config, items: seq<Item>, rows: seq<SyncRow>, nextId: nat, items': seq<Item>)
    requires Sensible(cfg.rules)
    requires AfterRun(cfg, items, rows, nextId, items')
    ensures |items| <= |items'|
    ensures Names(cfg.rules, items') == Names(cfg.rules, items) + Names(cfg.rules, items'[|items|..])
  {
    var u, n := cfg.rules, |items|;
    assert n <= |items'|;
    hide *;
    forall k | 0 <= k < n
      ensures items'[k].name == items[k].name
    {
      CodesPersist(cfg, items, rows, nextId, items', k);
    }
  }

  /** No inserted name had exactly one holder. */
  lemma SingleNamesStaySingle(
    cfg: Config, items: seq<Item>, rows: seq<SyncRow>, nextId: nat, items': seq<Item>, key: string)
    requires Sensible(cfg.rules)
    requires AfterRun(cfg, items, rows, nextId, items') && |items| <= |items'|
    requires Only(Names(cfg.rules, items), key).Some?
    ensures key !in Names(cfg.rules, items'[|items|..])
  {
    hide *;
    if key in Names(cfg.rules, items'[|items|..]) {
      var k := NameComesFrom(cfg.rules, items'[|items|..], key);
      InsertedNamesHadNoSingleHolder(cfg, items, rows, nextId, items', |items| + k);
    }
  }

  lemma OnlyExtends(keys: seq<string>, more: seq<string>, k: string)
    requires k !in more
    ensures Only(keys + more, k) == Only(keys, k)
  {
    PositionsExtend(keys, more, k);
  }

  /** A row that matched still matches. */
  lemma MatchPersists(cfg: Config, items: seq<Item>, rows: seq<SyncRow>, nextId: nat, items': seq<Item>, r: SyncRow)
    requires Sensible(cfg.rules)
    requires AfterRun(cfg, items, rows, nextId, items')
    requires Match(cfg, items, r).Hit?
    ensures Match(cfg, items', r).Hit?
  {
    hide Positions, Owner, Only, AfterRun, Plans, PlanOf, Drafts, Inserted,
      Codes, Barcodes, Names;
    NamesExtend(cfg, items, rows, nextId, items');
    forall k | 0 <= k < |items|
      ensures Codes(cfg.rules, items)[k] != "" ==> Codes(cfg.rules, items')[k] == Codes(cfg.rules, items)[k]
      ensures Barcodes(cfg.rules, items)[k] != "" ==> Barcodes(cfg.rules, items')[k] == Barcodes(cfg.rules, items)[k]
    {
      CodesPersist(cfg, items, rows, nextId, items', k);
    }
    var names, more := Names(cfg.rules, items), Names(cfg.rules, items'[|items|..]);
    var code, barcode := cfg.rules.link(r.code), cfg.rules.link(r.barcode);
    var clean, raw := CleanKey(cfg.rules, r.name), cfg.rules.norm(r.name);
    if Owner(Codes(cfg.rules, items), code).Some? {
      OwnerPersists(Codes(cfg.rules, items), Codes(cfg.rules, items'), code);
    } else if Owner(Barcodes(cfg.rules, items), barcode).Some? {
      OwnerPersists(Barcodes(cfg.rules, items), Barcodes(cfg.rules, items'), barcode);
    } else if Only(names, clean).Some? {
      SingleNamesStaySingle(cfg, items, rows, nextId, items', clean);
      OnlyExtends(names, more, clean);
    } else {
      SingleNamesStaySingle(cfg, items, rows, nextId, items', raw);
      OnlyExtends(names, more, raw);
    }
  }

  /** A row that became an item, or shared its code with one, is found by its code. */
  lemma CreatedIsFound(cfg: Config, items: seq<Item>, rows: seq<SyncRow>, nextId: nat, items': seq<Item>, i: nat)
    requires Sensible(cfg.rules)
    requires AfterRun(cfg, items, rows, nextId, items') && i < |rows|
    requires PlanOf(cfg, items, rows[i]).New? && !PlanOf(cfg, items, rows[i]).tooHigh
    ensures Match(cfg, items', rows[i]).Hit?
  {
    hide Positions, PlanMiss, PlanHit, Only, ItemAfter, Match;
    var plans := Plans(cfg, items, rows);
    var after := ItemsAfter(plans, items, |rows|);
    var drafts := Drafts(plans, |rows|);
    var c := plans[i].draft.code;
    assert CodeTaken(plans, |rows|, c);
    TakenCodeIsDrafted(plans, |rows|, c);
    var d :| d in drafts && d.code == c;
    DraftCodesAreStored(after, drafts, nextId, d);
    var made: seq<Item> := Inserted(after, drafts, nextId);
    var k: nat :| 0 <= k < |after + made| && (after + made)[k].code == c;
    var b := (after + made)[k];
    assert b in items' by {
      if k < |after| {
        assert items'[k] == items'[..|items|][k];
      } else {
        assert b in items'[|items|..];
      }
    }
    var m :| 0 <= m < |items'| && items'[m] == b;
    NewRowHadNoHolder(cfg, items, rows[i]);
    StoredCodeIsFound(cfg, items', rows[i], m);
  }

  lemma StoredCodeIsFound(cfg: Config, items: seq<Item>, r: SyncRow, m: nat)
    requires m < |items| && cfg.rules.link(items[m].code) == cfg.rules.link(r.code) != ""
    ensures Match(cfg, items, r).Hit?
  {
    hide Positions;
    assert Codes(cfg.rules, items)[m] == cfg.rules.link(r.code);
  }

  /** Uploading the list again creates no item: after a committed run with creation on, a second
      run with the same list, rate and limit finds a match for every row that had one or became an
      item, and refuses every other row again for the reason it was refused. */
  lemma SecondRunCreatesNothing(
    cfg: Config, items: seq<Item>, rows: seq<SyncRow>, nextId: nat, items': seq<Item>, i: nat)
    requires Sensible(cfg.rules)
    requires AfterRun(cfg, items, rows, nextId, items') && i < |rows|
    ensures !OutcomeAt(Plans(cfg, items', rows), i).Created?
    ensures Match(cfg, items, rows[i]).Hit? ==> Match(cfg, items', rows[i]).Hit?
    ensures OutcomeAt(Plans(cfg, items, rows), i).Created? ==> Match(cfg, items', rows[i]).Hit?
  {
    hide AfterRun, Match, PlanMiss, PlanHit, HitBefore, CodeTaken;
    var p, p' := PlanOf(cfg, items, rows[i]), PlanOf(cfg, items', rows[i]);
    if Match(cfg, items, rows[i]).Hit? {
      MatchPersists(cfg, items, rows, nextId, items', rows[i]);
    } else if p.New? && !p.tooHigh {
      CreatedIsFound(cfg, items, rows, nextId, items', i);
    } else if Match(cfg, items', rows[i]).NoHit? {
      assert p' == p;
    }
  }

  /** The items a run leaves, when no two of them have the same code. */
  function RunOnce(cfg: Config, items: seq<Item>, rows: seq<SyncRow>, nextId: nat): seq<Item> {
    var plans := Plans(cfg, items, rows);
    var after := ItemsAfter(plans, items, |rows|);
    after + Inserted(after, Drafts(plans, |rows|), nextId)
  }

  /** The service, called twice with one list: the second call inserts nothing, and when it is refused the items
      are as the first call left them. */
  method UploadTwice(db: MenuDb, rows: seq<SyncRow>, usd: bool, unicode: Unicode)
    returns (first: Result<Report, SyncError>, second: Result<Report, SyncError>)
    requires db.Valid()
    modifies db`items, db`nextId
    ensures db.Valid()
    ensures var cfg := Config(usd, true, false, db.Rate(), db.maxPrice, RulesOf(unicode));
            var once := RunOnce(cfg, old(db.items), rows, old(db.nextId));
            && (first.Err? ==> second == first && db.items == old(db.items))
            && (first.Ok? && second.Err? ==> db.items == once)
            && (first.Ok? && second.Ok? ==>
                  second.value.created == 0 && db.items == ItemsAfter(Plans(cfg, once, rows), once, |rows|))
            && (first.Ok? ==> |db.items| == |old(db.items)| + first.value.created)
  {
    hide Plans, ItemsAfter, Drafts, ReportAfter, UniqueCodes, FreshIds;
    ghost var items := db.items;
    ghost var nextId := db.nextId;
    first := SyncPrices(db, rows, usd, true, false, unicode);
    if first.Err? {
      return first, first;
    }
    ghost var items' := db.items;
    second := SyncPrices(db, rows, usd, true, false, unicode);
    if second.Ok? {
      RulesAreSensible(unicode);
      NothingInserted(Config(usd, true, false, db.Rate(), db.maxPrice, RulesOf(unicode)), items, rows, nextId, items');
      assert Inserted(db.items, [], 0) == [];
    }
  }

  lemma NothingInserted(cfg: Config, items: seq<Item>, rows: seq<SyncRow>, nextId: nat, items': seq<Item>)
    requires Sensible(cfg.rules)
    requires var plans := Plans(cfg, items, rows);
             var after := ItemsAfter(plans, items, |rows|);
             items' == after + Inserted(after, Drafts(plans, |rows|), nextId)
    ensures Drafts(Plans(cfg, items', rows), |rows|) == []
  {
    var plans' := Plans(cfg, items', rows);
    var after := ItemsAfter(Plans(cfg, items, rows), items, |rows|);
    hide *;
    forall i | 0 <= i < |rows|
      ensures !OutcomeAt(plans', i).Created?
    {
      SecondRunCreatesNothing(cfg, items, rows, nextId, items', i);
    }
    NoDrafts(plans', |rows|);
  }

  lemma {:induction false} NoDrafts(plans: seq<Plan>, n: nat)
    requires n <= |plans|
    requires forall i :: 0 <= i < n ==> !OutcomeAt(plans, i).Created?
    ensures Drafts(plans, n) == []
  {
    if n > 0 {
      NoDrafts(plans, n - 1);
    }
  }

  /** A code or barcode shared by several items belongs to the oldest. */
  lemma SharedLinkGoesToOldest(cfg: Config, items: seq<Item>, r: SyncRow, k: nat)
    requires k < |items|
    ensures cfg.rules.link(r.code) != "" && Codes(cfg.rules, items)[k] == cfg.rules.link(r.code) ==>
              var h := Match(cfg, items, r);
              h.Hit? && !h.byName && h.idx <= k && Codes(cfg.rules, items)[h.idx] == cfg.rules.link(r.code)
    ensures var code, barcode := cfg.rules.link(r.code), cfg.rules.link(r.barcode);
            barcode != "" && Barcodes(cfg.rules, items)[k] == barcode && code !in Codes(cfg.rules, items) ==>
              var h := Match(cfg, items, r);
              h.Hit? && !h.byName && h.idx <= k && Barcodes(cfg.rules, items)[h.idx] == barcode
  {
    hide Positions;
  }

  // ---------------------------------------------------------------------------------------
  // The report
  // ---------------------------------------------------------------------------------------

  /** The items hit by the first n rows. */
  function HitItems(plans: seq<Plan>, n: nat): set<nat>
    requires n <= |plans|
  {
    set i | 0 <= i < n && plans[i].Target? :: plans[i].idx
  }

  /** Rows passed over without a counter of their own. */
  predicate PassedOver(o: Outcome) {
    o.BadCode? || o.CodeRepeated? || o.NewTooHigh? || o.HitAgain?
  }

  function CountPassedOver(plans: seq<Plan>, n: nat): nat
    requires n <= |plans|
  {
    if n == 0 then 0 else CountPassedOver(plans, n - 1) + One(PassedOver(OutcomeAt(plans, n - 1)))
  }

  /** Rows whose price or form kept them from being applied or created. */
  function CountSkipped(plans: seq<Plan>, n: nat): nat
    requires n <= |plans|
  {
    if n == 0 then 0
    else
      var o := OutcomeAt(plans, n - 1);
      CountSkipped(plans, n - 1) + One(Skipped(o))
  }

  predicate Skipped(o: Outcome) {
    PassedOver(o) || o.NoCodeOrName? || o.BadPrice? || o.PriceTooHigh?
  }

  /** One row moves exactly one of the counters that split the list. */
  lemma CountMoves(rep: Report, i: nat, r: SyncRow, code: string, name: string, o: Outcome)
    ensures var next := Count(rep, i, r, code, name, o);
            && next.matched == rep.matched + One(o.FirstHit())
            && next.created == rep.created + One(o.Created?)
            && next.matched + next.unmatched + next.createSkipped + next.created + One(PassedOver(o))
               == rep.matched + rep.unmatched + rep.createSkipped + rep.created + 1
            && |next.skipped| == |rep.skipped| + One(Skipped(o) && |rep.skipped| < MAX_SAMPLE)
            && next.createdZeroPrice - rep.createdZeroPrice <= next.zeroPrice - rep.zeroPrice
            && next.createdZeroPrice - rep.createdZeroPrice <= next.created - rep.created
  {
  }

  lemma CountMovesMatched(rep: Report, i: nat, r: SyncRow, code: string, name: string, o: Outcome)
    ensures var next := Count(rep, i, r, code, name, o);
            && next.priceChanged - rep.priceChanged <= next.matched - rep.matched
            && next.linkedByName - rep.linkedByName <= next.matched - rep.matched
            && (next.madeAvailable + next.madeUnavailable + next.unaltered)
               - (rep.madeAvailable + rep.madeUnavailable + rep.unaltered) <= next.matched - rep.matched
  {
    hide Sample;
  }

  /** Every row is matched, unmatched, skipped for want of a code or name, created, or passed over,
      and only one of these. */
  lemma {:induction false} RowsSplit(cfg: Config, plans: seq<Plan>, rows: seq<SyncRow>, n: nat)
    requires n <= |rows| == |plans|
    ensures var rep := ReportAfter(cfg, plans, rows, n);
            rep.matched + rep.unmatched + rep.createSkipped + rep.created + CountPassedOver(plans, n) == n
  {
    hide Count, OutcomeAt;
    if n > 0 {
      RowsSplit(cfg, plans, rows, n - 1);
      var rep, r, o := ReportAfter(cfg, plans, rows, n - 1), rows[n - 1], OutcomeAt(plans, n - 1);
      CountMoves(rep, n - 1, r, cfg.rules.link(r.code), cfg.rules.clean(r.name), o);
    }
  }

  /** `matched` is the number of different items hit. */
  lemma {:induction false} MatchedAreDistinct(
    cfg: Config, items: seq<Item>, plans: seq<Plan>, rows: seq<SyncRow>, n: nat)
    requires n <= |rows| == |plans| && WellPlanned(plans, items)
    ensures ReportAfter(cfg, plans, rows, n).matched == |HitItems(plans, n)|
  {
    NothingHit(plans);
    hide Count, OutcomeAt, HitItems, WellPlanned;
    if n > 0 {
      MatchedAreDistinct(cfg, items, plans, rows, n - 1);
      HitItemsStep(plans, items, n - 1);
      var rep, r, o := ReportAfter(cfg, plans, rows, n - 1), rows[n - 1], OutcomeAt(plans, n - 1);
      CountMoves(rep, n - 1, r, cfg.rules.link(r.code), cfg.rules.clean(r.name), o);
    }
  }

  lemma NothingHit(plans: seq<Plan>)
    ensures |HitItems(plans, 0)| == 0
  {
    assert HitItems(plans, 0) == {};
  }

  /** `created` is the number of drafts. */
  lemma {:induction false} CreatedAreDrafted(cfg: Config, plans: seq<Plan>, rows: seq<SyncRow>, n: nat)
    requires n <= |rows| == |plans|
    ensures ReportAfter(cfg, plans, rows, n).created == |Drafts(plans, n)|
  {
    hide Count, OutcomeAt;
    if n > 0 {
      CreatedAreDrafted(cfg, plans, rows, n - 1);
      var rep, r, o := ReportAfter(cfg, plans, rows, n - 1), rows[n - 1], OutcomeAt(plans, n - 1);
      CountMoves(rep, n - 1, r, cfg.rules.link(r.code), cfg.rules.clean(r.name), o);
    }
  }

  /** The skipped rows shown are all of them up to the sample size, and no counter about matched or
      created rows exceeds their number. */
  lemma {:induction false} CountersAreBounded(cfg: Config, plans: seq<Plan>, rows: seq<SyncRow>, n: nat)
    requires n <= |rows| == |plans|
    ensures var rep := ReportAfter(cfg, plans, rows, n);
            && |rep.skipped| == (if CountSkipped(plans, n) < MAX_SAMPLE then CountSkipped(plans, n) else MAX_SAMPLE)
            && rep.priceChanged <= rep.matched && rep.linkedByName <= rep.matched
            && rep.madeAvailable + rep.madeUnavailable + rep.unaltered <= rep.matched
            && rep.createdZeroPrice <= rep.created && rep.createdZeroPrice <= rep.zeroPrice
  {
    hide Count, OutcomeAt;
    if n > 0 {
      CountersAreBounded(cfg, plans, rows, n - 1);
      var rep, r, o := ReportAfter(cfg, plans, rows, n - 1), rows[n - 1], OutcomeAt(plans, n - 1);
      CountMoves(rep, n - 1, r, cfg.rules.link(r.code), cfg.rules.clean(r.name), o);
      CountMovesMatched(rep, n - 1, r, cfg.rules.link(r.code), cfg.rules.clean(r.name), o);
    }
  }

  lemma HitItemsNext(plans: seq<Plan>, n: nat)
    requires n < |plans|
    ensures HitItems(plans, n + 1) == HitItems(plans, n) + if plans[n].Target? then {plans[n].idx} else {}
    ensures plans[n].Target? ==> (plans[n].idx in HitItems(plans, n) <==> HitBefore(plans, n, plans[n].idx))
  {
  }

  lemma HitItemsStep(plans: seq<Plan>, items: seq<Item>, n: nat)
    requires n < |plans| && WellPlanned(plans, items)
    ensures |HitItems(plans, n + 1)| == |HitItems(plans, n)| + One(OutcomeAt(plans, n).FirstHit())
  {
    hide HitItems, HitBefore, CodeTaken;
    HitItemsNext(plans, n);
    var p, before := plans[n], HitItems(plans, n);
    if p.Target? && !HitBefore(plans, n, p.idx) {
      assert OutcomeAt(plans, n).FirstHit();
      assert |before + {p.idx}| == |before| + 1;
    } else {
      assert !OutcomeAt(plans, n).FirstHit();
      assert HitItems(plans, n + 1) == before;
    }
  }

  // ----- what each counter counts -----

  datatype Tally =
    | UnmatchedRows | NamelessRows | CreatedRows | FreeRows | ZeroPriceRows | ByNameRows | UnalteredRows
    | CodeRejectedRows | BarcodeRejectedRows

  /** The row is one of these. */
  predicate Tallied(t: Tally, r: SyncRow, o: Outcome) {
    match t
    case UnmatchedRows => o.Unmatched?
    case NamelessRows => o.NoCodeOrName?
    case CreatedRows => o.Created?
    case FreeRows => o.Created? && o.draft.price == 0
    case ZeroPriceRows =>
      (o.Created? && o.draft.price == 0) || (o.BadPrice? && r.price.Some? && r.price.value == Finite(0.0))
    case ByNameRows => o.Applied? && o.effect.linkedByName
    case UnalteredRows => o.Applied? && !o.effect.priceChanged && !o.effect.availChanged && !o.effect.link
    case CodeRejectedRows => o.Applied? && o.effect.codeRejected
    case BarcodeRejectedRows => o.Applied? && o.effect.barcodeRejected
  }

  /** Those of the first n rows. */
  function TalliedRows(t: Tally, plans: seq<Plan>, rows: seq<SyncRow>, n: nat): set<nat>
    requires n <= |plans| == |rows|
  {
    set i: nat | i < n && Tallied(t, rows[i], OutcomeAt(plans, i))
  }

  lemma OneMore(t: Tally, plans: seq<Plan>, rows: seq<SyncRow>, n: nat)
    requires n < |plans| == |rows|
    ensures |TalliedRows(t, plans, rows, n + 1)|
            == |TalliedRows(t, plans, rows, n)| + One(Tallied(t, rows[n], OutcomeAt(plans, n)))
  {
    hide OutcomeAt, Tallied;
    var before, after := TalliedRows(t, plans, rows, n), TalliedRows(t, plans, rows, n + 1);
    assert after == if Tallied(t, rows[n], OutcomeAt(plans, n)) then before + {n} else before;
  }

  lemma NoneTallied(t: Tally, plans: seq<Plan>, rows: seq<SyncRow>)
    requires |plans| == |rows|
    ensures TalliedRows(t, plans, rows, 0) == {}
  {
  }

  /** The counter of a tally; links have one for both kinds. */
  function Counter(t: Tally, rep: Report): nat {
    match t
    case UnmatchedRows => rep.unmatched
    case NamelessRows => rep.createSkipped
    case CreatedRows => rep.created
    case FreeRows => rep.createdZeroPrice
    case ZeroPriceRows => rep.zeroPrice
    case ByNameRows => rep.linkedByName
    case UnalteredRows => rep.unaltered
    case CodeRejectedRows => rep.linkRejected
    case BarcodeRejectedRows => rep.linkRejected
  }

  /** The rows a counter counts. */
  function Counted(t: Tally, plans: seq<Plan>, rows: seq<SyncRow>, n: nat): nat
    requires n <= |plans| == |rows|
  {
    if t.CodeRejectedRows? || t.BarcodeRejectedRows? then
      |TalliedRows(CodeRejectedRows, plans, rows, n)| + |TalliedRows(BarcodeRejectedRows, plans, rows, n)|
    else
      |TalliedRows(t, plans, rows, n)|
  }

  function Moves(t: Tally, r: SyncRow, o: Outcome): nat {
    if t.CodeRejectedRows? || t.BarcodeRejectedRows? then
      One(Tallied(CodeRejectedRows, r, o)) + One(Tallied(BarcodeRejectedRows, r, o))
    else
      One(Tallied(t, r, o))
  }

  lemma CounterMoves(t: Tally, rep: Report, i: nat, r: SyncRow, code: string, name: string, o: Outcome)
    ensures Counter(t, Count(rep, i, r, code, name, o)) == Counter(t, rep) + Moves(t, r, o)
  {
    hide Sample;
  }

  lemma CountedMoves(t: Tally, plans: seq<Plan>, rows: seq<SyncRow>, n: nat)
    requires n < |plans| == |rows|
    ensures Counted(t, plans, rows, n + 1) == Counted(t, plans, rows, n) + Moves(t, rows[n], OutcomeAt(plans, n))
  {
    hide OutcomeAt, Tallied, TalliedRows;
    if t.CodeRejectedRows? || t.BarcodeRejectedRows? {
      OneMore(CodeRejectedRows, plans, rows, n);
      OneMore(BarcodeRejectedRows, plans, rows, n);
    } else {
      OneMore(t, plans, rows, n);
    }
  }

  lemma NoneCounted(t: Tally, plans: seq<Plan>, rows: seq<SyncRow>)
    requires |plans| == |rows|
    ensures Counted(t, plans, rows, 0) == 0
  {
    hide OutcomeAt, Tallied;
    NoneTallied(t, plans, rows);
    NoneTallied(CodeRejectedRows, plans, rows);
    NoneTallied(BarcodeRejectedRows, plans, rows);
  }

  /** Each counter is the number of the rows it speaks of. */
  lemma {:induction false} CountersCount(t: Tally, cfg: Config, plans: seq<Plan>, rows: seq<SyncRow>, n: nat)
    requires n <= |plans| == |rows|
    ensures var rep := ReportAfter(cfg, plans, rows, n);
            Counter(t, rep) == Counted(t, plans, rows, n) && rep.rows == |rows| && rep.dryRun == cfg.dryRun
  {
    hide Count, OutcomeAt, Counted, Moves;
    NoneCounted(t, plans, rows);
    if n > 0 {
      CountersCount(t, cfg, plans, rows, n - 1);
      CountedMoves(t, plans, rows, n - 1);
      hide Counter;
      var rep, r, o := ReportAfter(cfg, plans, rows, n - 1), rows[n - 1], OutcomeAt(plans, n - 1);
      CounterMoves(t, rep, n - 1, r, cfg.rules.link(r.code), cfg.rules.clean(r.name), o);
      SameList(rep, n - 1, r, cfg.rules.link(r.code), cfg.rules.clean(r.name), o);
    }
  }

  lemma SameList(rep: Report, i: nat, r: SyncRow, code: string, name: string, o: Outcome)
    ensures var next := Count(rep, i, r, code, name, o); next.rows == rep.rows && next.dryRun == rep.dryRun
  {
    hide Sample;
  }

  // ----- what each sample shows -----

  datatype Sheet = SkippedSheet | UnmatchedSheet | CreatedSheet | RejectedSheet

  /** Why a row was not applied. */
  function SkippedFor(o: Outcome): Option<Reason> {
    match o
    case NoCodeOrName => Some(ReasonNoCodeOrName)
    case BadCode => Some(ReasonBadCode)
    case CodeRepeated => Some(ReasonDuplicate)
    case HitAgain(_) => Some(ReasonDuplicate)
    case NewTooHigh => Some(ReasonTooHigh)
    case PriceTooHigh(_) => Some(ReasonTooHigh)
    case BadPrice(_) => Some(ReasonBadPrice)
    case _ => None
  }

  /** What a row adds to a sheet; `row` counts from one. */
  function Entries(s: Sheet, row: nat, code: string, name: string, clean: string, o: Outcome): seq<Issue> {
    match s
    case SkippedSheet => if SkippedFor(o).Some? then [Issue(row, code, name, SkippedFor(o).value)] else []
    case UnmatchedSheet => if o.Unmatched? then [Issue(row, code, name, ReasonUnmatched)] else []
    case CreatedSheet => if o.Created? then [Issue(row, code, clean, ReasonCreated)] else []
    case RejectedSheet =>
      (if o.Applied? && o.effect.codeRejected then [Issue(row, code, name, ReasonBadCode)] else [])
      + (if o.Applied? && o.effect.barcodeRejected then [Issue(row, code, name, ReasonBadBarcode)] else [])
  }

  /** All entries of a sheet in the order of the list. */
  function FullSheet(s: Sheet, cfg: Config, plans: seq<Plan>, rows: seq<SyncRow>, n: nat): seq<Issue>
    requires n <= |plans| == |rows|
  {
    if n == 0 then []
    else
      var r := rows[n - 1];
      FullSheet(s, cfg, plans, rows, n - 1)
      + Entries(s, n, cfg.rules.link(r.code), r.name, cfg.rules.clean(r.name), OutcomeAt(plans, n - 1))
  }

  function Shown(s: Sheet, rep: Report): seq<Issue> {
    match s
    case SkippedSheet => rep.skipped
    case UnmatchedSheet => rep.unmatchedSample
    case CreatedSheet => rep.createdSample
    case RejectedSheet => rep.linkRejectedSample
  }

  function FirstFew(s: seq<Issue>): seq<Issue> {
    if |s| <= MAX_SAMPLE then s else s[..MAX_SAMPLE]
  }

  lemma SampleIsFirstFew(s: seq<Issue>, x: Issue)
    ensures Sample(FirstFew(s), x) == FirstFew(s + [x])
  {
  }

  lemma EntryIsShown(
    s: Sheet, rep: Report, full: seq<Issue>, i: nat, r: SyncRow, code: string, name: string, o: Outcome)
    requires Shown(s, rep) == FirstFew(full)
    ensures Shown(s, Count(rep, i, r, code, name, o)) == FirstFew(full + Entries(s, i + 1, code, r.name, name, o))
  {
    hide FirstFew, Sample;
    var x, y := Issue(i + 1, code, r.name, ReasonBadCode), Issue(i + 1, code, r.name, ReasonBadBarcode);
    assert full + [] == full && full + ([x] + [y]) == full + [x] + [y];
    assert [] + [y] == [y] && [x] + [] == [x];
    var entries := Entries(s, i + 1, code, r.name, name, o);
    if entries != [] {
      SampleIsFirstFew(full, entries[0]);
      SampleIsFirstFew(full + [x], y);
      assert |entries| == 1 ==> entries == [entries[0]];
    }
  }

  /** Each sample is the beginning of its sheet. */
  lemma {:induction false} SamplesBeginSheets(s: Sheet, cfg: Config, plans: seq<Plan>, rows: seq<SyncRow>, n: nat)
    requires n <= |plans| == |rows|
    ensures Shown(s, ReportAfter(cfg, plans, rows, n)) == FirstFew(FullSheet(s, cfg, plans, rows, n))
  {
    if n > 0 {
      hide Count, OutcomeAt, Entries, Shown, FirstFew;
      SamplesBeginSheets(s, cfg, plans, rows, n - 1);
      var rep, r, o := ReportAfter(cfg, plans, rows, n - 1), rows[n - 1], OutcomeAt(plans, n - 1);
      EntryIsShown(s, rep, FullSheet(s, cfg, plans, rows, n - 1), n - 1, r, cfg.rules.link(r.code),
        cfg.rules.clean(r.name), o);
    }
  }
}
