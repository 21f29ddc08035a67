/** What a run of the accounting sync means for every item, field by field, said of the list and of the items
    before and after (backend/internal/catalog/pricesync.go and pricesync_create.go). */
module SyncMeaning {
  import opened Common
  import opened Money
  import opened Text
  import opened Menu
  import opened SyncPlan

  // ---------------------------------------------------------------------------------------
  // Which item a row leads to
  // ---------------------------------------------------------------------------------------

  /** Item k is the oldest with this code. */
  predicate LedByCode(t: TextRules, items: seq<Item>, code: string, k: nat) {
    && code != "" && k < |items| && t.link(items[k].code) == code
    && forall j :: 0 <= j < k ==> t.link(items[j].code) != code
  }

  /** Item k is the oldest with this barcode. */
  predicate LedByBarcode(t: TextRules, items: seq<Item>, barcode: string, k: nat) {
    && barcode != "" && k < |items| && t.link(items[k].barcode) == barcode
    && forall j :: 0 <= j < k ==> t.link(items[j].barcode) != barcode
  }

  /** Item k is the only one with this name. */
  predicate LedByName(t: TextRules, items: seq<Item>, name: string, k: nat) {
    && k < |items| && t.norm(items[k].name) == name
    && forall j :: 0 <= j < |items| && j != k ==> t.norm(items[j].name) != name
  }

  ghost predicate NoCode(t: TextRules, items: seq<Item>, code: string) {
    forall j: nat :: !LedByCode(t, items, code, j)
  }

  ghost predicate NoBarcode(t: TextRules, items: seq<Item>, barcode: string) {
    forall j: nat :: !LedByBarcode(t, items, barcode, j)
  }

  ghost predicate NoName(t: TextRules, items: seq<Item>, name: string) {
    forall j: nat :: !LedByName(t, items, name, j)
  }

  /** The row leads to item k: by its code, else by its barcode, else by its cleaned name, else by its name. */
  ghost predicate LeadsTo(cfg: Config, items: seq<Item>, r: SyncRow, k: nat, byName: bool) {
    var t := cfg.rules;
    var code, barcode, clean, raw := t.link(r.code), t.link(r.barcode), t.norm(t.clean(r.name)), t.norm(r.name);
    if byName then
      && NoCode(t, items, code) && NoBarcode(t, items, barcode) && r.name != ""
      && (LedByName(t, items, clean, k) || (NoName(t, items, clean) && LedByName(t, items, raw, k)))
    else
      LedByCode(t, items, code, k) || (NoCode(t, items, code) && LedByBarcode(t, items, barcode, k))
  }

  lemma OwnerMeans(keys: seq<string>, k: string)
    ensures forall j: nat :: Owner(keys, k) == Some(j) <==>
              k != "" && j < |keys| && keys[j] == k && forall i :: 0 <= i < j ==> keys[i] != k
  {
  }

  lemma {:induction false} PositionsAre(keys: seq<string>, k: string)
    ensures forall j: nat :: j in Positions(keys, k) <==> j < |keys| && keys[j] == k
  {
    if keys != [] {
      PositionsAre(keys[..|keys| - 1], k);
    }
  }

  lemma {:induction false} NoPositions(keys: seq<string>, k: string)
    requires k !in keys
    ensures Positions(keys, k) == []
  {
    if keys != [] {
      NoPositions(keys[..|keys| - 1], k);
    }
  }

  lemma {:induction false} PositionsOfOne(keys: seq<string>, k: string, j: nat)
    requires j < |keys| && keys[j] == k && forall i :: 0 <= i < |keys| && i != j ==> keys[i] != k
    ensures Positions(keys, k) == [j]
  {
    var n := |keys| - 1;
    if j == n {
      NoPositions(keys[..n], k);
    } else {
      PositionsOfOne(keys[..n], k, j);
    }
  }

  lemma OnlyMeans(keys: seq<string>, k: string, j: nat)
    ensures Only(keys, k) == Some(j) <==>
              j < |keys| && keys[j] == k && forall i :: 0 <= i < |keys| && i != j ==> keys[i] != k
  {
    hide Positions;
    PositionsAre(keys, k);
    var ps := Positions(keys, k);
    if j < |keys| && keys[j] == k && forall i :: 0 <= i < |keys| && i != j ==> keys[i] != k {
      PositionsOfOne(keys, k, j);
    }
    if Only(keys, k) == Some(j) {
      assert forall i: nat :: i in ps ==> i == j;
    }
  }

  lemma CodeOwner(t: TextRules, items: seq<Item>, code: string)
    ensures forall j: nat :: Owner(Codes(t, items), code) == Some(j) <==> LedByCode(t, items, code, j)
  {
    var keys := Codes(t, items);
    OwnerMeans(keys, code);
    hide Owner, Names;
    forall j: nat
      ensures Owner(keys, code) == Some(j) <==> LedByCode(t, items, code, j)
    {
      assert forall i :: 0 <= i < |items| ==> keys[i] == t.link(items[i].code);
    }
  }

  lemma BarcodeOwner(t: TextRules, items: seq<Item>, barcode: string)
    ensures forall j: nat :: Owner(Barcodes(t, items), barcode) == Some(j) <==> LedByBarcode(t, items, barcode, j)
  {
    var keys := Barcodes(t, items);
    OwnerMeans(keys, barcode);
    hide Owner, Names;
    forall j: nat
      ensures Owner(keys, barcode) == Some(j) <==> LedByBarcode(t, items, barcode, j)
    {
      assert forall i :: 0 <= i < |items| ==> keys[i] == t.link(items[i].barcode);
    }
  }

  lemma NameOwner(t: TextRules, items: seq<Item>, name: string)
    ensures forall j: nat :: Only(Names(t, items), name) == Some(j) <==> LedByName(t, items, name, j)
  {
    hide Only;
    forall j: nat
      ensures Only(Names(t, items), name) == Some(j) <==> LedByName(t, items, name, j)
    {
      var keys := Names(t, items);
      OnlyMeans(keys, name, j);
      assert forall i :: 0 <= i < |items| ==> keys[i] == t.norm(items[i].name);
    }
  }

  /** Matching finds the item the row leads to. */
  lemma MatchMeans(cfg: Config, items: seq<Item>, r: SyncRow)
    ensures forall k: nat, byName :: Match(cfg, items, r) == Hit(k, byName) <==> LeadsTo(cfg, items, r, k, byName)
  {
    var t := cfg.rules;
    CodeOwner(t, items, t.link(r.code));
    BarcodeOwner(t, items, t.link(r.barcode));
    NameOwner(t, items, t.norm(t.clean(r.name)));
    NameOwner(t, items, t.norm(r.name));
    hide Owner, Only, LedByCode, LedByBarcode, LedByName, Codes, Barcodes, Names;
  }

  // ---------------------------------------------------------------------------------------
  // What becomes of an item
  // ---------------------------------------------------------------------------------------

  /** Row i is the first of the list that leads to item k. */
  ghost predicate FirstLedTo(cfg: Config, items: seq<Item>, rows: seq<SyncRow>, i: nat, k: nat, byName: bool) {
    && i < |rows| && LeadsTo(cfg, items, rows[i], k, byName)
    && forall j, b :: 0 <= j < i ==> !LeadsTo(cfg, items, rows[j], k, b)
  }

  /** The price and the cents an amount stands for: the nearest lira and no cents, or the nearest cent and its
      price at the rate. */
  predicate StandsFor(cfg: Config, amount: real, price: int, cents: Option<int>) {
    if cfg.usd then
      cents.Some? && Nearest(cents.value, amount * 100.0) && price == UsdToSyp(cents.value, cfg.rate)
    else
      cents == None && Nearest(price, amount)
  }

  predicate IsAmount(n: Number) {
    n.Finite? && n.v > 0.0
  }

  predicate Within(cfg: Config, price: int) {
    cfg.maxPrice > 0 ==> price <= cfg.maxPrice
  }

  /** The row's price is no amount, or stands for more than the limit. */
  ghost predicate Refused(cfg: Config, r: SyncRow) {
    && r.price.Some?
    && (IsAmount(r.price.value) ==>
          exists p, c :: StandsFor(cfg, r.price.value.v, p, c) && !Within(cfg, p))
  }

  /** The row's price, if it has one, is what the item's price and cents now stand for. */
  predicate PriceSent(cfg: Config, was: Item, now: Item, r: SyncRow) {
    if r.price.None? then now.price == was.price && now.cents == was.cents
    else
      IsAmount(r.price.value) && Within(cfg, now.price) && StandsFor(cfg, r.price.value.v, now.price, now.cents)
  }

  /** The item is on sale exactly when there is some of it, and as it was when no quantity is sent. */
  predicate StockSent(was: Item, now: Item, r: SyncRow) {
    match r.qty
    case None => now.available == was.available
    case Some(Finite(q)) => now.available <==> q > 0.0
    case Some(q) => now.available <==> q == PosInf
  }

  /** A link that is there stays; one that is not is the one sent, if that may be stored. */
  predicate LinkSent(was: string, now: string, sent: string) {
    now == if was != "" then was else if ValidLink(sent) then sent else ""
  }

  predicate Updated(cfg: Config, was: Item, now: Item, r: SyncRow) {
    && PriceSent(cfg, was, now, r) && StockSent(was, now, r)
    && LinkSent(was.code, now.code, cfg.rules.link(r.code))
    && LinkSent(was.barcode, now.barcode, cfg.rules.link(r.barcode))
    && now.id == was.id && now.name == was.name && now.section == was.section && now.drinksOff == was.drinksOff
    && now.own == was.own && now.copies == was.copies
  }

  /** Item k after a run over the list: as its first row says, or as it was when that is refused or there is none. */
  ghost predicate ItemRewritten(cfg: Config, items: seq<Item>, rows: seq<SyncRow>, k: nat, now: Item)
    requires k < |items|
  {
    && (forall i: nat, b :: FirstLedTo(cfg, items, rows, i, k, b) ==>
          if Refused(cfg, rows[i]) then now == items[k] else Updated(cfg, items[k], now, rows[i]))
    && ((forall i: nat, b :: !FirstLedTo(cfg, items, rows, i, k, b)) ==> now == items[k])
  }

  /** What an amount stands for is determined. */
  lemma StandsForOne(cfg: Config, amount: real, p: int, c: Option<int>, q: int, d: Option<int>)
    requires StandsFor(cfg, amount, p, c) && StandsFor(cfg, amount, q, d)
    ensures p == q && c == d
  {
  }

  lemma PriceAfterStands(cfg: Config, it: Item, r: SyncRow)
    ensures var (p, c) := PriceAfter(cfg, it, r);
            if r.price.Some? && IsAmount(r.price.value) then StandsFor(cfg, r.price.value.v, p, c)
            else p == it.price && c == it.cents
  {
    hide Round, UsdToSyp;
  }

  /** Which rows are refused, of those that lead to an item. */
  lemma RefusedMeans(cfg: Config, it: Item, idx: nat, byName: bool, r: SyncRow)
    ensures PlanHit(cfg, it, idx, byName, r).Applied? <==> !Refused(cfg, r)
  {
    hide PriceAfter, Apply, StandsFor;
    PriceAfterStands(cfg, it, r);
    var (p, c) := PriceAfter(cfg, it, r);
    if r.price.Some? && IsAmount(r.price.value) {
      forall q, d | StandsFor(cfg, r.price.value.v, q, d)
        ensures q == p
      {
        StandsForOne(cfg, r.price.value.v, p, c, q, d);
      }
    }
  }

  lemma AppliedMeans(cfg: Config, it: Item, idx: nat, byName: bool, r: SyncRow)
    requires PlanHit(cfg, it, idx, byName, r).Applied?
    ensures Updated(cfg, it, Apply(cfg, it, byName, r).item, r)
  {
    hide PriceAfter, StandsFor, ValidLink;
    PriceAfterStands(cfg, it, r);
  }

  /** The plan of a row names the item it leads to. */
  lemma PlanMeans(cfg: Config, items: seq<Item>, r: SyncRow, k: nat)
    ensures var p := PlanOf(cfg, items, r);
            p.Target? && p.idx == k <==> exists b :: LeadsTo(cfg, items, r, k, b)
    ensures forall b :: LeadsTo(cfg, items, r, k, b) ==>
              k < |items| && PlanOf(cfg, items, r) == Target(k, PlanHit(cfg, items[k], k, b, r))
  {
    hide Match, LeadsTo, PlanMiss, PlanHit;
    MatchMeans(cfg, items, r);
    var h := Match(cfg, items, r);
    assert h.Hit? ==> h == Hit(h.idx, h.byName);
  }

  lemma FirstLedIsFirstHit(cfg: Config, items: seq<Item>, rows: seq<SyncRow>, i: nat, k: nat, b: bool)
    requires FirstLedTo(cfg, items, rows, i, k, b)
    ensures k < |items|
    ensures OutcomeAt(Plans(cfg, items, rows), i) == PlanHit(cfg, items[k], k, b, rows[i])
  {
    hide PlanOf, PlanHit, LeadsTo;
    var plans := Plans(cfg, items, rows);
    PlanMeans(cfg, items, rows[i], k);
    forall j: nat | j < i
      ensures !(plans[j].Target? && plans[j].idx == k)
    {
      PlanMeans(cfg, items, rows[j], k);
    }
  }

  /** Someone is first. */
  lemma {:induction false} HitHasFirst(cfg: Config, items: seq<Item>, rows: seq<SyncRow>, n: nat, k: nat)
    returns (i: nat, b: bool)
    requires n <= |rows| && HitBefore(Plans(cfg, items, rows), n, k)
    ensures FirstLedTo(cfg, items, rows, i, k, b) && i < n
  {
    hide PlanOf, LeadsTo;
    var plans := Plans(cfg, items, rows);
    var m := n - 1;
    if HitBefore(plans, m, k) {
      i, b := HitHasFirst(cfg, items, rows, m, k);
    } else {
      PlanMeans(cfg, items, rows[m], k);
      i := m;
      b :| LeadsTo(cfg, items, rows[m], k, b);
      forall j: nat, c | j < m
        ensures !LeadsTo(cfg, items, rows[j], k, c)
      {
        PlanMeans(cfg, items, rows[j], k);
        assert !(plans[j].Target? && plans[j].idx == k);
      }
    }
  }

  /** Every item ends as the first row that leads to it says. */
  lemma ItemsMean(cfg: Config, items: seq<Item>, rows: seq<SyncRow>, k: nat)
    requires k < |items|
    ensures ItemRewritten(cfg, items, rows, k, ItemAfter(Plans(cfg, items, rows), items, |rows|, k))
  {
    var plans := Plans(cfg, items, rows);
    var now := ItemAfter(plans, items, |rows|, k);
    PlansAreWell(cfg, items, rows);
    FinalItem(plans, items, |rows|, k);
    hide Plans, OutcomeAt, ItemAfter, FirstLedTo, Refused, Updated, WellPlanned, HitBefore, PlanHit;
    forall i: nat, b | FirstLedTo(cfg, items, rows, i, k, b)
      ensures if Refused(cfg, rows[i]) then now == items[k] else Updated(cfg, items[k], now, rows[i])
    {
      FirstRowDecides(cfg, items, rows, i, k, b, now);
    }
    if HitBefore(plans, |rows|, k) {
      var i, b := HitHasFirst(cfg, items, rows, |rows|, k);
      assert FirstLedTo(cfg, items, rows, i, k, b);
    }
  }

  lemma FirstRowDecides(
    cfg: Config, items: seq<Item>, rows: seq<SyncRow>, i: nat, k: nat, b: bool, now: Item)
    requires FirstLedTo(cfg, items, rows, i, k, b) && i < |rows| && k < |items|
    requires var o := OutcomeAt(Plans(cfg, items, rows), i);
             o.FirstHit() && o.idx == k ==> now == if o.Applied? && o.effect.Writes() then o.effect.item else items[k]
    ensures if Refused(cfg, rows[i]) then now == items[k] else Updated(cfg, items[k], now, rows[i])
  {
    hide Plans, OutcomeAt, FirstLedTo, Refused, Updated, PriceAfter, Rewrite;
    FirstLedIsFirstHit(cfg, items, rows, i, k, b);
    RefusedMeans(cfg, items[k], k, b, rows[i]);
    if !Refused(cfg, rows[i]) {
      AppliedMeans(cfg, items[k], k, b, rows[i]);
    }
  }

  // ---------------------------------------------------------------------------------------
  // What becomes of a row that leads nowhere
  // ---------------------------------------------------------------------------------------

  ghost predicate LeadsNowhere(cfg: Config, items: seq<Item>, r: SyncRow) {
    forall k: nat, b :: !LeadsTo(cfg, items, r, k, b)
  }

  /** Price and cents of a new item: what its amount stands for; none for no amount, and for less than half a cent. */
  predicate NewPrice(cfg: Config, price: Option<Number>, p: int, c: Option<int>) {
    if price.Some? && IsAmount(price.value) && (cfg.usd ==> price.value.v >= 0.005) then
      StandsFor(cfg, price.value.v, p, c)
    else
      p == 0 && c == None
  }

  /** The row may become an item: it leads nowhere, has a code that may be stored and a name, and its price is
      within the limit. */
  ghost predicate Creatable(cfg: Config, items: seq<Item>, r: SyncRow) {
    && cfg.createMissing && LeadsNowhere(cfg, items, r)
    && cfg.rules.link(r.code) != "" && ValidLink(cfg.rules.link(r.code)) && cfg.rules.clean(r.name) != ""
    && forall p, c :: NewPrice(cfg, r.price, p, c) ==> Within(cfg, p)
  }

  /** An earlier row with the same code may become an item. */
  ghost predicate Preceded(cfg: Config, items: seq<Item>, rows: seq<SyncRow>, i: nat)
    requires i < |rows|
  {
    exists j :: 0 <= j < i && cfg.rules.link(rows[j].code) == cfg.rules.link(rows[i].code)
                && Creatable(cfg, items, rows[j])
  }

  /** Row i becomes an item. */
  ghost predicate Makes(cfg: Config, items: seq<Item>, rows: seq<SyncRow>, i: nat) {
    i < |rows| && Creatable(cfg, items, rows[i]) && !Preceded(cfg, items, rows, i)
  }

  /** The new row of such a row of the list: hidden, in the pending section, without the store's drinks. */
  predicate Born(cfg: Config, r: SyncRow, row: Item) {
    && row.code == cfg.rules.link(r.code) && row.name == cfg.rules.clean(r.name)
    && NewPrice(cfg, r.price, row.price, row.cents) && !row.available && row.barcode == ""
    && row.section == "pending" && row.drinksOff && row.own == [] && row.copies == []
  }

  lemma DraftMeans(cfg: Config, code: string, name: string, price: Option<Number>)
    ensures var d := Draft(cfg, code, name, price); NewPrice(cfg, price, d.price, d.cents)
  {
    hide Round, UsdToSyp;
  }

  lemma NowhereMeans(cfg: Config, items: seq<Item>, r: SyncRow)
    ensures Match(cfg, items, r).NoHit? <==> LeadsNowhere(cfg, items, r)
  {
    hide Match, LeadsTo;
    MatchMeans(cfg, items, r);
    var h := Match(cfg, items, r);
    assert h.Hit? ==> h == Hit(h.idx, h.byName);
  }

  /** What the plan of a row that leads nowhere is. */
  lemma MissMeans(cfg: Config, items: seq<Item>, r: SyncRow)
    requires LeadsNowhere(cfg, items, r)
    ensures var p, code, name := PlanOf(cfg, items, r), cfg.rules.link(r.code), cfg.rules.clean(r.name);
            if !cfg.createMissing then p == Miss(Unmatched)
            else if code == "" || name == "" then p == Miss(NoCodeOrName)
            else if !ValidLink(code) then p == Miss(BadCode)
            else p.New? && p.draft.code == code && p.draft.name == name
                 && NewPrice(cfg, r.price, p.draft.price, p.draft.cents)
                 && (!p.tooHigh <==> Creatable(cfg, items, r))
  {
    NowhereMeans(cfg, items, r);
    hide Match, LeadsNowhere, ValidLink, Draft, NewPrice;
    var d := Draft(cfg, cfg.rules.link(r.code), cfg.rules.clean(r.name), r.price);
    DraftMeans(cfg, d.code, d.name, r.price);
    forall p, c | NewPrice(cfg, r.price, p, c)
      ensures p == d.price
    {
      NewPriceOne(cfg, r.price, p, c, d.price, d.cents);
    }
  }

  lemma NewPriceOne(cfg: Config, price: Option<Number>, p: int, c: Option<int>, q: int, d: Option<int>)
    requires NewPrice(cfg, price, p, c) && NewPrice(cfg, price, q, d)
    ensures p == q && c == d
  {
    hide UsdToSyp;
  }

  /** The plan of a row says whether it may become an item. */
  lemma NewMeans(cfg: Config, items: seq<Item>, r: SyncRow)
    ensures var p := PlanOf(cfg, items, r);
            && (p.New? && !p.tooHigh <==> Creatable(cfg, items, r))
            && (p.New? ==> p.draft.code == cfg.rules.link(r.code))
            && (p.Target? <==> !LeadsNowhere(cfg, items, r))
  {
    hide Match, LeadsNowhere, ValidLink, NewPrice, PlanHit, PlanMiss;
    NowhereMeans(cfg, items, r);
    if LeadsNowhere(cfg, items, r) {
      MissMeans(cfg, items, r);
    }
  }

  lemma TakenMeans(cfg: Config, items: seq<Item>, rows: seq<SyncRow>, i: nat)
    requires i < |rows|
    ensures CodeTaken(Plans(cfg, items, rows), i, cfg.rules.link(rows[i].code)) <==> Preceded(cfg, items, rows, i)
  {
    hide PlanOf, Creatable;
    var plans, code := Plans(cfg, items, rows), cfg.rules.link(rows[i].code);
    forall j: nat | j < i
      ensures plans[j].New? && !plans[j].tooHigh && plans[j].draft.code == code <==>
              cfg.rules.link(rows[j].code) == code && Creatable(cfg, items, rows[j])
    {
      NewMeans(cfg, items, rows[j]);
    }
  }

  // ---------------------------------------------------------------------------------------
  // What becomes of each row
  // ---------------------------------------------------------------------------------------

  /** What is said about a row applied to an item, and is counted. */
  predicate SaidOf(cfg: Config, was: Item, byName: bool, r: SyncRow, e: Effect) {
    && (e.priceChanged <==> e.item.price != was.price || e.item.cents != was.cents)
    && (e.availChanged <==> e.item.available != was.available)
    && (e.codeRejected <==> was.code == "" && !ValidLink(cfg.rules.link(r.code)))
    && (e.barcodeRejected <==> was.barcode == "" && !ValidLink(cfg.rules.link(r.barcode)))
    && (e.link <==> (byName && !e.codeRejected && !e.barcodeRejected)
                    || e.item.code != was.code || e.item.barcode != was.barcode)
    && (e.linkedByName <==> byName && e.link)
  }

  /** When the outcome of row i is what it is: the ten cases exclude each other. */
  ghost predicate Means(cfg: Config, items: seq<Item>, rows: seq<SyncRow>, i: nat, o: Outcome)
    requires i < |rows|
  {
    var r, code, name := rows[i], cfg.rules.link(rows[i].code), cfg.rules.clean(rows[i].name);
    match o
    case Unmatched => LeadsNowhere(cfg, items, r) && !cfg.createMissing
    case NoCodeOrName => LeadsNowhere(cfg, items, r) && cfg.createMissing && (code == "" || name == "")
    case BadCode => LeadsNowhere(cfg, items, r) && cfg.createMissing && code != "" && name != "" && !ValidLink(code)
    case CodeRepeated =>
      && LeadsNowhere(cfg, items, r) && cfg.createMissing && code != "" && name != "" && ValidLink(code)
      && Preceded(cfg, items, rows, i)
    case NewTooHigh =>
      && LeadsNowhere(cfg, items, r) && cfg.createMissing && code != "" && name != "" && ValidLink(code)
      && !Preceded(cfg, items, rows, i) && !Creatable(cfg, items, r)
    case Created(d) =>
      && Makes(cfg, items, rows, i)
      && d.code == code && d.name == name && NewPrice(cfg, r.price, d.price, d.cents)
    case HitAgain(k) => (exists b :: LeadsTo(cfg, items, r, k, b)) && !FirstHere(cfg, items, rows, i, k)
    case BadPrice(k) => FirstHere(cfg, items, rows, i, k) && r.price.Some? && !IsAmount(r.price.value)
    case PriceTooHigh(k) =>
      FirstHere(cfg, items, rows, i, k) && r.price.Some? && IsAmount(r.price.value) && Refused(cfg, r)
    case Applied(k, e) =>
      && k < |items| && !Refused(cfg, r) && Updated(cfg, items[k], e.item, r)
      && exists b :: FirstLedTo(cfg, items, rows, i, k, b) && SaidOf(cfg, items[k], b, r, e)
  }

  ghost predicate FirstHere(cfg: Config, items: seq<Item>, rows: seq<SyncRow>, i: nat, k: nat) {
    exists b :: FirstLedTo(cfg, items, rows, i, k, b)
  }

  lemma ApplySays(cfg: Config, was: Item, byName: bool, r: SyncRow)
    ensures SaidOf(cfg, was, byName, r, Apply(cfg, was, byName, r))
  {
    hide PriceAfter, ValidLink;
  }

  /** The outcome of every row. */
  lemma OutcomeMeans(cfg: Config, items: seq<Item>, rows: seq<SyncRow>, i: nat)
    requires i < |rows|
    ensures Means(cfg, items, rows, i, OutcomeAt(Plans(cfg, items, rows), i))
  {
    hide *;
    if LeadsNowhere(cfg, items, rows[i]) {
      MissOutcome(cfg, items, rows, i);
    } else {
      HitOutcome(cfg, items, rows, i);
    }
  }

  lemma MissOutcome(cfg: Config, items: seq<Item>, rows: seq<SyncRow>, i: nat)
    requires i < |rows| && LeadsNowhere(cfg, items, rows[i])
    ensures Means(cfg, items, rows, i, OutcomeAt(Plans(cfg, items, rows), i))
  {
    hide PlanOf, LeadsNowhere, Creatable, Preceded, CodeTaken, HitBefore, ValidLink, NewPrice, IsAmount, FirstHere,
      FirstLedTo, Refused, Updated, SaidOf, LeadsTo;
    MissMeans(cfg, items, rows[i]);
    TakenMeans(cfg, items, rows, i);
  }

  lemma HitOutcome(cfg: Config, items: seq<Item>, rows: seq<SyncRow>, i: nat)
    requires i < |rows| && !LeadsNowhere(cfg, items, rows[i])
    ensures Means(cfg, items, rows, i, OutcomeAt(Plans(cfg, items, rows), i))
  {
    hide PlanOf, Creatable, Preceded, CodeTaken, ValidLink, NewPrice, IsAmount, Makes,
      FirstLedTo, Refused, Updated, SaidOf, LeadsTo, PlanHit, Apply, HitBefore;
    var k: nat, b :| LeadsTo(cfg, items, rows[i], k, b);
    var plans := Plans(cfg, items, rows);
    PlanMeans(cfg, items, rows[i], k);
    if HitBefore(plans, i, k) {
      var j, c := HitHasFirst(cfg, items, rows, i, k);
      EarlierIsFirst(cfg, items, rows, i, j, k, c);
    } else {
      FirstIsFirstLed(cfg, items, rows, i, k, b);
      HitMeans(cfg, items, rows, i, k, b);
    }
  }

  lemma EarlierIsFirst(cfg: Config, items: seq<Item>, rows: seq<SyncRow>, i: nat, j: nat, k: nat, c: bool)
    requires i < |rows| && j < i && FirstLedTo(cfg, items, rows, j, k, c)
    ensures !FirstHere(cfg, items, rows, i, k)
  {
    hide LeadsTo;
  }

  lemma FirstIsFirstLed(cfg: Config, items: seq<Item>, rows: seq<SyncRow>, i: nat, k: nat, b: bool)
    requires i < |rows| && LeadsTo(cfg, items, rows[i], k, b) && !HitBefore(Plans(cfg, items, rows), i, k)
    ensures FirstLedTo(cfg, items, rows, i, k, b)
  {
    hide PlanOf, LeadsTo;
    var plans := Plans(cfg, items, rows);
    forall j: nat, c | j < i
      ensures !LeadsTo(cfg, items, rows[j], k, c)
    {
      PlanMeans(cfg, items, rows[j], k);
      assert !(plans[j].Target? && plans[j].idx == k);
    }
  }

  lemma HitMeans(cfg: Config, items: seq<Item>, rows: seq<SyncRow>, i: nat, k: nat, b: bool)
    requires i < |rows| && k < |items| && FirstLedTo(cfg, items, rows, i, k, b)
    ensures Means(cfg, items, rows, i, PlanHit(cfg, items[k], k, b, rows[i]))
  {
    hide Creatable, Preceded, Makes, FirstLedTo, Refused, Updated, SaidOf, LeadsTo, Apply, PriceAfter;
    assert FirstHere(cfg, items, rows, i, k);
    RefusedMeans(cfg, items[k], k, b, rows[i]);
    var o := PlanHit(cfg, items[k], k, b, rows[i]);
    if o.Applied? {
      AppliedMeans(cfg, items[k], k, b, rows[i]);
      ApplySays(cfg, items[k], b, rows[i]);
    }
  }

  // ---------------------------------------------------------------------------------------
  // The rows inserted
  // ---------------------------------------------------------------------------------------

  /** Each inserted row comes of a row of the list that makes an item, in the order of the list, and its code is no
      older row's. */
  ghost predicate ComesOf(
    cfg: Config, items: seq<Item>, rows: seq<SyncRow>, after: seq<Item>, made: seq<Item>, from: seq<nat>)
  {
    && |from| == |made| && Increasing(from)
    && forall m :: 0 <= m < |made| ==>
         && Makes(cfg, items, rows, from[m]) && Born(cfg, rows[from[m]], made[m])
         && forall k :: 0 <= k < |after| ==> after[k].code != made[m].code
  }

  /** Every row that makes an item has its code among the rows. */
  ghost predicate AllMade(cfg: Config, items: seq<Item>, rows: seq<SyncRow>, now: seq<Item>) {
    forall i: nat :: Makes(cfg, items, rows, i) ==>
                       exists k :: 0 <= k < |now| && now[k].code == cfg.rules.link(rows[i].code)
  }

  /** The rows the drafts come of. */
  lemma {:induction false} DraftSources(plans: seq<Plan>, n: nat) returns (from: seq<nat>)
    requires n <= |plans|
    ensures |from| == |Drafts(plans, n)| && Increasing(from)
    ensures forall m :: 0 <= m < |from| ==> from[m] < n && OutcomeAt(plans, from[m]) == Created(Drafts(plans, n)[m])
    ensures forall i :: 0 <= i < n && OutcomeAt(plans, i).Created? ==> OutcomeAt(plans, i).draft in Drafts(plans, n)
  {
    hide OutcomeAt;
    from := [];
    if n > 0 {
      from := DraftSources(plans, n - 1);
      var o := OutcomeAt(plans, n - 1);
      if o.Created? {
        from := from + [n - 1];
      }
    }
  }

  /** The drafts the inserted rows come of. */
  lemma {:induction false} InsertedSources(items: seq<Item>, drafts: seq<NewItem>, nextId: nat)
    returns (from: seq<nat>)
    ensures |from| == |Inserted(items, drafts, nextId)| && Increasing(from)
    ensures forall m :: 0 <= m < |from| ==>
              && from[m] < |drafts|
              && Inserted(items, drafts, nextId)[m] == NewRow(drafts[from[m]], nextId + m)
              && drafts[from[m]].code !in StoredCodes(items)
  {
    hide StoredCodes, Increasing;
    from := [];
    AlwaysIncreasing([], 0);
    if drafts != [] {
      var n := |drafts| - 1;
      from := InsertedSources(items, drafts[..n], nextId);
      var before := Inserted(items, drafts[..n], nextId);
      StoredGrows(items, before);
      if drafts[n].code !in StoredCodes(items + before) {
        AlwaysIncreasing(from, n);
        from := from + [n];
      }
    }
  }

  lemma AlwaysIncreasing(s: seq<nat>, n: nat)
    ensures Increasing([])
    ensures Increasing(s) && (forall m :: 0 <= m < |s| ==> s[m] < n) ==> Increasing(s + [n])
  {
  }

  lemma StoredGrows(items: seq<Item>, more: seq<Item>)
    ensures StoredCodes(items) <= StoredCodes(items + more)
  {
    var all := items + more;
    assert forall i :: 0 <= i < |items| ==> all[i] == items[i];
  }

  lemma CreatedIsBorn(cfg: Config, items: seq<Item>, rows: seq<SyncRow>, i: nat, d: NewItem, id: nat)
    requires i < |rows| && OutcomeAt(Plans(cfg, items, rows), i) == Created(d)
    ensures Makes(cfg, items, rows, i) && Born(cfg, rows[i], NewRow(d, id))
  {
    hide Plans, OutcomeAt, Makes, NewPrice;
    OutcomeMeans(cfg, items, rows, i);
  }

  /** What a run inserts. */
  lemma InsertsMean(cfg: Config, items: seq<Item>, rows: seq<SyncRow>, nextId: nat) returns (from: seq<nat>)
    ensures var plans := Plans(cfg, items, rows);
            var after := ItemsAfter(plans, items, |rows|);
            var made := Inserted(after, Drafts(plans, |rows|), nextId);
            ComesOf(cfg, items, rows, after, made, from)
  {
    hide *;
    var plans := Plans(cfg, items, rows);
    var after, drafts := ItemsAfter(plans, items, |rows|), Drafts(plans, |rows|);
    var made := Inserted(after, drafts, nextId);
    var rowOf := DraftSources(plans, |rows|);
    var draftOf := InsertedSources(after, drafts, nextId);
    from := seq(|made|, m requires 0 <= m < |made| => rowOf[draftOf[m]]);
    forall m | 0 <= m < |made|
      ensures Makes(cfg, items, rows, from[m]) && Born(cfg, rows[from[m]], made[m])
      ensures forall k :: 0 <= k < |after| ==> after[k].code != made[m].code
    {
      var d := drafts[draftOf[m]];
      CreatedIsBorn(cfg, items, rows, from[m], d, nextId + m);
      NewRowCode(d, nextId + m);
      NotStored(after, d.code);
    }
    ComesInOrder(rowOf, draftOf, from);
    MadeOf(cfg, items, rows, after, made, from);
  }

  lemma NewRowCode(d: NewItem, id: nat)
    ensures NewRow(d, id).code == d.code
  {
  }

  lemma NotStored(items: seq<Item>, code: string)
    requires code !in StoredCodes(items)
    ensures forall k :: 0 <= k < |items| ==> items[k].code != code
  {
  }

  lemma ComesInOrder(rowOf: seq<nat>, draftOf: seq<nat>, from: seq<nat>)
    requires Increasing(rowOf) && Increasing(draftOf) && |from| == |draftOf|
    requires forall m :: 0 <= m < |from| ==> draftOf[m] < |rowOf| && from[m] == rowOf[draftOf[m]]
    ensures Increasing(from)
  {
  }

  lemma MadeOf(
    cfg: Config, items: seq<Item>, rows: seq<SyncRow>, after: seq<Item>, made: seq<Item>, from: seq<nat>)
    requires |from| == |made| && Increasing(from)
    requires forall m :: 0 <= m < |made| ==>
               && Makes(cfg, items, rows, from[m]) && from[m] < |rows| && Born(cfg, rows[from[m]], made[m])
               && forall k :: 0 <= k < |after| ==> after[k].code != made[m].code
    ensures ComesOf(cfg, items, rows, after, made, from)
  {
    hide Makes, Born, Increasing;
  }

  /** No row that makes an item is lost. */
  lemma NoneIsLost(cfg: Config, items: seq<Item>, rows: seq<SyncRow>, nextId: nat)
    ensures var plans := Plans(cfg, items, rows);
            var after := ItemsAfter(plans, items, |rows|);
            AllMade(cfg, items, rows, after + Inserted(after, Drafts(plans, |rows|), nextId))
  {
    var plans := Plans(cfg, items, rows);
    var after, drafts := ItemsAfter(plans, items, |rows|), Drafts(plans, |rows|);
    var now := after + Inserted(after, drafts, nextId);
    hide Plans, ItemsAfter, Drafts, Inserted, OutcomeAt, Makes;
    var _ := DraftSources(plans, |rows|);
    forall i: nat | Makes(cfg, items, rows, i)
      ensures exists k :: 0 <= k < |now| && now[k].code == cfg.rules.link(rows[i].code)
    {
      MakesIsCreated(cfg, items, rows, i);
      DraftCodesAreStored(after, drafts, nextId, OutcomeAt(plans, i).draft);
    }
  }

  lemma MakesIsCreated(cfg: Config, items: seq<Item>, rows: seq<SyncRow>, i: nat)
    requires Makes(cfg, items, rows, i)
    ensures i < |rows| && OutcomeAt(Plans(cfg, items, rows), i).Created?
    ensures OutcomeAt(Plans(cfg, items, rows), i).draft.code == cfg.rules.link(rows[i].code)
  {
    hide Plans, OutcomeAt, LeadsTo, Preceded, ValidLink, NewPrice, Refused, Updated, SaidOf;
    OutcomeMeans(cfg, items, rows, i);
  }

  // ---------------------------------------------------------------------------------------
  // The whole run
  // ---------------------------------------------------------------------------------------

  predicate Repriced(was: Item, now: Item) {
    now.price != was.price || now.cents != was.cents
  }

  predicate WentOnSale(was: Item, now: Item) {
    !was.available && now.available
  }

  predicate WentOffSale(was: Item, now: Item) {
    was.available && !now.available
  }

  /** The items of which something holds that sets the row now apart from the row before. */
  function Those(p: (Item, Item) -> bool, was: seq<Item>, now: seq<Item>): set<nat> {
    set k: nat | k < |was| && k < |now| && p(was[k], now[k])
  }

  /** The counters of changed items are the numbers of the items that changed, and of the rows inserted. */
  predicate Reported(rep: Report, was: seq<Item>, now: seq<Item>) {
    && |was| <= |now| && rep.created == |now| - |was|
    && rep.priceChanged == |Those(Repriced, was, now)|
    && rep.madeAvailable == |Those(WentOnSale, was, now)|
    && rep.madeUnavailable == |Those(WentOffSale, was, now)|
  }

  /** What a run that writes makes of the items, and says of it. */
  ghost predicate RunMeans(cfg: Config, was: seq<Item>, rows: seq<SyncRow>, now: seq<Item>, rep: Report) {
    && |was| <= |now| && Reported(rep, was, now)
    && (forall k :: 0 <= k < |was| ==> ItemRewritten(cfg, was, rows, k, now[k]))
    && (exists from :: ComesOf(cfg, was, rows, now[..|was|], now[|was|..], from))
    && AllMade(cfg, was, rows, now)
  }

  lemma OneChanges(p: (Item, Item) -> bool, was: seq<Item>, now: seq<Item>, k: nat, it: Item)
    requires k < |was| == |now| && now[k] == was[k] && !p(was[k], was[k])
    ensures |Those(p, was, now[k := it])| == |Those(p, was, now)| + One(p(was[k], it))
  {
    var before, after := Those(p, was, now), Those(p, was, now[k := it]);
    assert k !in before;
    assert after == if p(was[k], it) then before + {k} else before;
  }

  /** What the counters say is what was changed. */
  ghost predicate Truthful(plans: seq<Plan>, items: seq<Item>) {
    forall i :: 0 <= i < |plans| && OutcomeAt(plans, i).Applied? ==>
      var o := OutcomeAt(plans, i);
      && o.idx < |items| && (o.effect.priceChanged <==> Repriced(items[o.idx], o.effect.item))
      && (o.effect.availChanged <==> o.effect.item.available != items[o.idx].available)
      && (!o.effect.Writes() ==> o.effect.item == items[o.idx])
  }

  lemma PlansAreTruthful(cfg: Config, items: seq<Item>, rows: seq<SyncRow>)
    ensures Truthful(Plans(cfg, items, rows), items)
  {
    hide Plans, OutcomeAt, Refused, FirstLedTo;
    forall i | 0 <= i < |rows| && OutcomeAt(Plans(cfg, items, rows), i).Applied?
      ensures var o := OutcomeAt(Plans(cfg, items, rows), i);
              && o.idx < |items| && (o.effect.priceChanged <==> Repriced(items[o.idx], o.effect.item))
              && (o.effect.availChanged <==> o.effect.item.available != items[o.idx].available)
              && (!o.effect.Writes() ==> o.effect.item == items[o.idx])
    {
      OutcomeMeans(cfg, items, rows, i);
    }
  }

  lemma CountChanges(rep: Report, i: nat, r: SyncRow, code: string, name: string, o: Outcome)
    ensures var next := Count(rep, i, r, code, name, o);
            && next.priceChanged == rep.priceChanged + One(o.Applied? && o.effect.priceChanged)
            && next.madeAvailable
               == rep.madeAvailable + One(o.Applied? && o.effect.availChanged && o.effect.item.available)
            && next.madeUnavailable
               == rep.madeUnavailable + One(o.Applied? && o.effect.availChanged && !o.effect.item.available)
  {
    hide Sample;
  }

  /** One row of the list changes one item at most, and one that is as the run found it. */
  lemma RowChanges(plans: seq<Plan>, items: seq<Item>, n: nat)
    requires n < |plans| && WellPlanned(plans, items) && Truthful(plans, items)
    ensures var o, before, after := OutcomeAt(plans, n), ItemsAfter(plans, items, n), ItemsAfter(plans, items, n + 1);
            if o.Applied? then
              && o.idx < |items| && before[o.idx] == items[o.idx] && after == before[o.idx := o.effect.item]
            else after == before
  {
    hide WellPlanned;
    var o := OutcomeAt(plans, n);
    if o.Applied? {
      PlanOfApplied(plans, items, n);
      UntouchedBeforeFirstHit(plans, items, n, o.idx);
    }
  }

  lemma PlanOfApplied(plans: seq<Plan>, items: seq<Item>, n: nat)
    requires n < |plans| && WellPlanned(plans, items) && OutcomeAt(plans, n).Applied?
    ensures OutcomeAt(plans, n).idx < |items| && !HitBefore(plans, n, OutcomeAt(plans, n).idx)
  {
  }

  lemma {:induction false} ChangesAreCounted(
    cfg: Config, items: seq<Item>, plans: seq<Plan>, rows: seq<SyncRow>, n: nat)
    requires n <= |rows| == |plans| && WellPlanned(plans, items) && Truthful(plans, items)
    ensures var rep, after := ReportAfter(cfg, plans, rows, n), ItemsAfter(plans, items, n);
            && rep.priceChanged == |Those(Repriced, items, after)|
            && rep.madeAvailable == |Those(WentOnSale, items, after)|
            && rep.madeUnavailable == |Those(WentOffSale, items, after)|
  {
    var after := ItemsAfter(plans, items, n);
    if n == 0 {
      assert after == items;
      NothingChanged(items);
    } else {
      ChangesAreCounted(cfg, items, plans, rows, n - 1);
      RowChanges(plans, items, n - 1);
      hide Count, OutcomeAt, ItemsAfter, Those, WellPlanned;
      var rep, r, o := ReportAfter(cfg, plans, rows, n - 1), rows[n - 1], OutcomeAt(plans, n - 1);
      CountChanges(rep, n - 1, r, cfg.rules.link(r.code), cfg.rules.clean(r.name), o);
      if o.Applied? {
        var before := ItemsAfter(plans, items, n - 1);
        OneChanges(Repriced, items, before, o.idx, o.effect.item);
        OneChanges(WentOnSale, items, before, o.idx, o.effect.item);
        OneChanges(WentOffSale, items, before, o.idx, o.effect.item);
      }
    }
  }

  lemma NothingChanged(items: seq<Item>)
    ensures Those(Repriced, items, items) == {} && Those(WentOnSale, items, items) == {}
    ensures Those(WentOffSale, items, items) == {}
  {
  }

  lemma ThoseOfPrefix(p: (Item, Item) -> bool, was: seq<Item>, now: seq<Item>, more: seq<Item>)
    requires |was| == |now|
    ensures Those(p, was, now + more) == Those(p, was, now)
  {
  }

  /** A run that writes does what it should to every item, and reports it. */
  lemma WholeRun(cfg: Config, items: seq<Item>, rows: seq<SyncRow>, nextId: nat)
    ensures var plans := Plans(cfg, items, rows);
            var after := ItemsAfter(plans, items, |rows|);
            var made := Inserted(after, Drafts(plans, |rows|), nextId);
            RunMeans(cfg, items, rows, after + made, ReportAfter(cfg, plans, rows, |rows|).(created := |made|))
  {
    var plans := Plans(cfg, items, rows);
    var after := ItemsAfter(plans, items, |rows|);
    PlansAreWell(cfg, items, rows);
    PlansAreTruthful(cfg, items, rows);
    ChangesAreCounted(cfg, items, plans, rows, |rows|);
    var from := InsertsMean(cfg, items, rows, nextId);
    NoneIsLost(cfg, items, rows, nextId);
    hide Plans, ItemAfter, Inserted, Drafts, ReportAfter, WellPlanned, Truthful, ComesOf, AllMade, ItemRewritten, Those;
    var made := Inserted(after, Drafts(plans, |rows|), nextId);
    var now := after + made;
    assert now[..|items|] == after && now[|items|..] == made;
    ThoseOfPrefix(Repriced, items, after, made);
    ThoseOfPrefix(WentOnSale, items, after, made);
    ThoseOfPrefix(WentOffSale, items, after, made);
    forall k | 0 <= k < |items|
      ensures ItemRewritten(cfg, items, rows, k, now[k])
    {
      ItemsMean(cfg, items, rows, k);
    }
  }
}
