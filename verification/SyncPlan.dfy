/** The price and stock list of the shop's accounting program
    (backend/internal/catalog/pricesync.go and pricesync_create.go).

    What a run does to each row, in closed form from the rows and the items the run started with. */
module SyncPlan {
  import opened Common
  import opened Money
  import opened Text
  import opened Menu

  const MAX_ROWS := 50000
  const MAX_SAMPLE := 50
  const PENDING_SECTION := "pending"

  /** One line of the accounting list; an absent price or quantity changes nothing. */
  datatype SyncRow = SyncRow(
    code: string, barcode: string, name: string, price: Option<Number>, qty: Option<Number>)

  /** What a run is given and reads once: options, exchange rate, price limit, how texts are read. */
  datatype Config = Config(
    usd: bool, createMissing: bool, dryRun: bool, rate: real, maxPrice: int, rules: TextRules)

  datatype NewItem = NewItem(code: string, name: string, price: int, cents: Option<int>)

  datatype Reason =
    | ReasonCreated | ReasonUnmatched | ReasonNoCodeOrName | ReasonBadCode | ReasonBadBarcode
    | ReasonDuplicate | ReasonTooHigh | ReasonBadPrice

  datatype Issue = Issue(row: nat, code: string, name: string, reason: Reason)

  datatype Report = Report(
    dryRun: bool, rows: nat, matched: nat, priceChanged: nat, madeAvailable: nat, madeUnavailable: nat,
    linkedByName: nat, unaltered: nat, unmatched: nat, created: nat, createdZeroPrice: nat,
    createSkipped: nat, zeroPrice: nat, linkRejected: nat, createdSample: seq<Issue>,
    skipped: seq<Issue>, unmatchedSample: seq<Issue>, linkRejectedSample: seq<Issue>)

  datatype SyncError = EmptyList | RateRequired | CodeConflict

  // ---------------------------------------------------------------------------------------
  // Matching: code first, then barcode, then a name that exactly one item has
  // ---------------------------------------------------------------------------------------

  /** The first position of a key, or the length when it is absent. */
  function FirstAt(keys: seq<string>, k: string): (i: nat)
    ensures i <= |keys|
    ensures i < |keys| ==> keys[i] == k
    ensures forall j :: 0 <= j < i ==> keys[j] != k
  {
    if keys == [] || keys[0] == k then 0 else 1 + FirstAt(keys[1..], k)
  }

  /** All positions of a key, ascending. */
  function Positions(keys: seq<string>, k: string): (ps: seq<nat>)
    ensures forall i :: 0 <= i < |ps| ==> ps[i] < |keys| && keys[ps[i]] == k
  {
    if keys == [] then []
    else
      var n := |keys| - 1;
      if keys[n] == k then Positions(keys[..n], k) + [n] else Positions(keys[..n], k)
  }

  /** The oldest holder of a link that is present. */
  function Owner(keys: seq<string>, k: string): (o: Option<nat>)
    ensures o.Some? ==> o.value < |keys| && keys[o.value] == k && k != ""
    ensures o.None? ==> k == "" || k !in keys
  {
    if k != "" && FirstAt(keys, k) < |keys| then Some(FirstAt(keys, k)) else None
  }

  /** The holder of a name, when there is exactly one. */
  function Only(keys: seq<string>, k: string): (o: Option<nat>)
    ensures o.Some? ==> o.value < |keys| && keys[o.value] == k
  {
    var ps := Positions(keys, k);
    if |ps| == 1 then Some(ps[0]) else None
  }

  function Codes(t: TextRules, items: seq<Item>): (keys: seq<string>)
    ensures |keys| == |items|
  {
    seq(|items|, i requires 0 <= i < |items| => t.link(items[i].code))
  }

  function Barcodes(t: TextRules, items: seq<Item>): (keys: seq<string>)
    ensures |keys| == |items|
  {
    seq(|items|, i requires 0 <= i < |items| => t.link(items[i].barcode))
  }

  function Names(t: TextRules, items: seq<Item>): (keys: seq<string>)
    ensures |keys| == |items|
  {
    seq(|items|, i requires 0 <= i < |items| => t.norm(items[i].name))
  }

  datatype Hit = NoHit | Hit(idx: nat, byName: bool)

  /** Code before barcode before cleaned name before raw name. */
  function Prefer(
    byCode: Option<nat>, byBarcode: Option<nat>, named: bool, byClean: Option<nat>, byRaw: Option<nat>): Hit
  {
    if byCode.Some? then Hit(byCode.value, false)
    else if byBarcode.Some? then Hit(byBarcode.value, false)
    else if named && byClean.Some? then Hit(byClean.value, true)
    else if named && byRaw.Some? then Hit(byRaw.value, true)
    else NoHit
  }

  /** What a row is looked up by. */
  datatype Keys = Keys(code: string, barcode: string, named: bool, clean: string, raw: string)

  function KeysOf(t: TextRules, r: SyncRow): Keys {
    Keys(t.link(r.code), t.link(r.barcode), r.name != "", CleanKey(t, r.name), t.norm(r.name))
  }

  function MatchKeys(codes: seq<string>, barcodes: seq<string>, names: seq<string>, k: Keys): (h: Hit)
    requires |codes| == |barcodes| == |names|
    ensures h.Hit? ==> h.idx < |codes|
  {
    Prefer(Owner(codes, k.code), Owner(barcodes, k.barcode), k.named, Only(names, k.clean), Only(names, k.raw))
  }

  function Match(cfg: Config, items: seq<Item>, r: SyncRow): (h: Hit)
    ensures h.Hit? ==> h.idx < |items|
  {
    MatchKeys(Codes(cfg.rules, items), Barcodes(cfg.rules, items), Names(cfg.rules, items), KeysOf(cfg.rules, r))
  }

  function CleanKey(t: TextRules, name: string): string {
    t.norm(t.clean(name))
  }

  // ---------------------------------------------------------------------------------------
  // What happens to one row
  // ---------------------------------------------------------------------------------------

  /** The item a row without a match would become, price limit aside. */
  function Draft(cfg: Config, code: string, name: string, price: Option<Number>): (n: NewItem)
    ensures n.code == code && n.name == name
  {
    var n := NewItem(code, name, 0, None);
    if price.None? || !price.value.Usable() then n
    else if cfg.usd then
      var c := DollarsToCents(price.value.v);
      if c > 0 then n.(cents := Some(c), price := UsdToSyp(c, cfg.rate)) else n
    else n.(price := Round(price.value.v))
  }

  predicate TooHigh(cfg: Config, price: int) {
    cfg.maxPrice > 0 && price > cfg.maxPrice
  }

  /** What an applied row writes, and what is said about it. */
  datatype Effect = Effect(
    item: Item, priceChanged: bool, availChanged: bool, link: bool, linkedByName: bool,
    codeRejected: bool, barcodeRejected: bool)
  {
    predicate Writes() { priceChanged || availChanged || link }
  }

  /** Price and cents after a row whose price, if any, is usable. */
  function PriceAfter(cfg: Config, it: Item, r: SyncRow): (int, Option<int>) {
    if r.price.None? || !r.price.value.Usable() then (it.price, it.cents)
    else if cfg.usd then
      var c := DollarsToCents(r.price.value.v);
      (UsdToSyp(c, cfg.rate), Some(c))
    else (Round(r.price.value.v), None)
  }

  /** The new row has the old one's id, name, groups and links, where it had them. */
  predicate KeepsLinks(was: Item, now: Item) {
    && now == was.(price := now.price, cents := now.cents, available := now.available,
                     code := now.code, barcode := now.barcode)
    && (was.code != "" ==> now.code == was.code)
    && (was.barcode != "" ==> now.barcode == was.barcode)
  }

  /** An invalid link is not written, and only an absent link is. */
  function Rewrite(
    it: Item, price: int, cents: Option<int>, avail: bool, byName: bool, rowCode: string, rowBarcode: string)
    : (e: Effect)
    ensures KeepsLinks(it, e.item)
    ensures ValidLink(it.code) && ValidLink(it.barcode) ==> ValidLink(e.item.code) && ValidLink(e.item.barcode)
    ensures !e.Writes() ==> e.item == it
  {
    var badCode := it.code == "" && !ValidLink(rowCode);
    var badBarcode := it.barcode == "" && !ValidLink(rowBarcode);
    var code := if badCode then "" else rowCode;
    var barcode := if badBarcode then "" else rowBarcode;
    var link := (byName && !badCode && !badBarcode) || (it.code == "" && code != "")
                || (it.barcode == "" && barcode != "");
    Effect(
      it.(price := price, cents := cents, available := avail,
          code := if it.code == "" then code else it.code,
          barcode := if it.barcode == "" then barcode else it.barcode),
      price != it.price || cents != it.cents, avail != it.available, link, byName && link, badCode, badBarcode)
  }

  function Apply(cfg: Config, it: Item, byName: bool, r: SyncRow): (e: Effect)
    ensures KeepsLinks(it, e.item)
  {
    var (price, cents) := PriceAfter(cfg, it, r);
    var avail := if r.qty.Some? then r.qty.value.Positive() else it.available;
    Rewrite(it, price, cents, avail, byName, cfg.rules.link(r.code), cfg.rules.link(r.barcode))
  }

  datatype Outcome =
    | Unmatched
    | NoCodeOrName
    | BadCode
    | CodeRepeated
    | NewTooHigh
    | Created(draft: NewItem)
    | HitAgain(idx: nat)
    | BadPrice(idx: nat)
    | PriceTooHigh(idx: nat)
    | Applied(idx: nat, effect: Effect)
  {
    /** The row is the first to hit its item. */
    predicate FirstHit() { BadPrice? || PriceTooHigh? || Applied? }
  }

  /** What the starting items alone say of a row; the rows before it decide the rest.
      `New` becomes an item unless an earlier row took its code, `Target` is carried out
      unless an earlier row hit the same item. */
  datatype Plan =
    | Miss(o: Outcome)
    | New(draft: NewItem, tooHigh: bool)
    | Target(idx: nat, o: Outcome)

  function PlanOf(cfg: Config, items: seq<Item>, r: SyncRow): (p: Plan)
    ensures p.Target? ==> p.idx < |items| && p.o.FirstHit() && p.o.idx == p.idx
    ensures p.Target? && p.o.Applied? ==> KeepsLinks(items[p.idx], p.o.effect.item)
    ensures p.Miss? ==> p.o.Unmatched? || p.o.NoCodeOrName? || p.o.BadCode?
    ensures p.New? ==> p.draft.code != ""
  {
    match Match(cfg, items, r)
    case NoHit => PlanMiss(cfg, cfg.rules.link(r.code), cfg.rules.clean(r.name), r)
    case Hit(idx, byName) => Target(idx, PlanHit(cfg, items[idx], idx, byName, r))
  }

  function PlanMiss(cfg: Config, code: string, name: string, r: SyncRow): (p: Plan)
    ensures p.New? || (p.Miss? && (p.o.Unmatched? || p.o.NoCodeOrName? || p.o.BadCode?))
    ensures p.New? ==> p.draft.code == code != "" && p.draft.name == name != ""
  {
    if !cfg.createMissing then Miss(Unmatched)
    else if code == "" || name == "" then Miss(NoCodeOrName)
    else if !ValidLink(code) then Miss(BadCode)
    else
      var d := Draft(cfg, code, name, r.price);
      New(d, TooHigh(cfg, d.price))
  }

  function PlanHit(cfg: Config, it: Item, idx: nat, byName: bool, r: SyncRow): (o: Outcome)
    ensures o.FirstHit() && o.idx == idx
    ensures o.Applied? ==> KeepsLinks(it, o.effect.item)
  {
    if r.price.Some? && !r.price.value.Usable() then BadPrice(idx)
    else if r.price.Some? && TooHigh(cfg, PriceAfter(cfg, it, r).0) then PriceTooHigh(idx)
    else Applied(idx, Apply(cfg, it, byName, r))
  }

  function Plans(cfg: Config, items: seq<Item>, rows: seq<SyncRow>): (ps: seq<Plan>)
    ensures |ps| == |rows|
    ensures forall i :: 0 <= i < |ps| ==> ps[i] == PlanOf(cfg, items, rows[i])
  {
    seq(|rows|, i requires 0 <= i < |rows| => PlanOf(cfg, items, rows[i]))
  }

  /** An earlier row hit the same item. */
  predicate HitBefore(plans: seq<Plan>, i: nat, idx: nat)
    requires i <= |plans|
  {
    exists j :: 0 <= j < i && plans[j].Target? && plans[j].idx == idx
  }

  /** An earlier row became an item with this code. */
  predicate CodeTaken(plans: seq<Plan>, i: nat, code: string)
    requires i <= |plans|
  {
    exists j :: 0 <= j < i && plans[j].New? && !plans[j].tooHigh && plans[j].draft.code == code
  }

  /** What earlier rows make of a plan. */
  function Settle(p: Plan, hitBefore: bool, codeTaken: bool): Outcome {
    match p
    case Miss(o) => o
    case New(d, tooHigh) => if codeTaken then CodeRepeated else if tooHigh then NewTooHigh else Created(d)
    case Target(idx, o) => if hitBefore then HitAgain(idx) else o
  }

  /** The outcome of row i. */
  function OutcomeAt(plans: seq<Plan>, i: nat): Outcome
    requires i < |plans|
  {
    var p := plans[i];
    Settle(p, p.Target? && HitBefore(plans, i, p.idx), p.New? && CodeTaken(plans, i, p.draft.code))
  }

  // ---------------------------------------------------------------------------------------
  // The whole run
  // ---------------------------------------------------------------------------------------

  /** Item k after the first n rows. */
  function ItemAfter(plans: seq<Plan>, items: seq<Item>, n: nat, k: nat): Item
    requires n <= |plans| && k < |items|
  {
    if n == 0 then items[k]
    else
      var o := OutcomeAt(plans, n - 1);
      if o.Applied? && o.idx == k && o.effect.Writes() then o.effect.item
      else ItemAfter(plans, items, n - 1, k)
  }

  function ItemsAfter(plans: seq<Plan>, items: seq<Item>, n: nat): (s: seq<Item>)
    requires n <= |plans|
    ensures |s| == |items|
    ensures forall k :: 0 <= k < |s| ==> s[k] == ItemAfter(plans, items, n, k)
  {
    seq(|items|, k requires 0 <= k < |items| => ItemAfter(plans, items, n, k))
  }

  /** The new items of the first n rows, in list order. */
  function Drafts(plans: seq<Plan>, n: nat): seq<NewItem>
    requires n <= |plans|
  {
    if n == 0 then []
    else
      var o := OutcomeAt(plans, n - 1);
      if o.Created? then Drafts(plans, n - 1) + [o.draft] else Drafts(plans, n - 1)
  }

  function Sample(s: seq<Issue>, x: Issue): seq<Issue> {
    if |s| < MAX_SAMPLE then s + [x] else s
  }

  function IsZero(r: SyncRow): nat {
    if r.price == Some(Finite(0.0)) then 1 else 0
  }

  /** The report after one more row. */
  function Count(rep: Report, i: nat, r: SyncRow, code: string, name: string, o: Outcome): Report {
    var issue := Issue(i + 1, code, r.name, ReasonDuplicate);
    match o
    case Unmatched =>
      rep.(unmatched := rep.unmatched + 1,
           unmatchedSample := Sample(rep.unmatchedSample, issue.(reason := ReasonUnmatched)))
    case NoCodeOrName =>
      rep.(createSkipped := rep.createSkipped + 1,
           skipped := Sample(rep.skipped, issue.(reason := ReasonNoCodeOrName)))
    case BadCode => rep.(skipped := Sample(rep.skipped, issue.(reason := ReasonBadCode)))
    case CodeRepeated => rep.(skipped := Sample(rep.skipped, issue))
    case NewTooHigh => rep.(skipped := Sample(rep.skipped, issue.(reason := ReasonTooHigh)))
    case Created(d) =>
      rep.(created := rep.created + 1, zeroPrice := rep.zeroPrice + One(d.price == 0),
           createdZeroPrice := rep.createdZeroPrice + One(d.price == 0),
           createdSample := Sample(rep.createdSample, issue.(name := name, reason := ReasonCreated)))
    case HitAgain(_) => rep.(skipped := Sample(rep.skipped, issue))
    case BadPrice(_) =>
      rep.(matched := rep.matched + 1, zeroPrice := rep.zeroPrice + IsZero(r),
           skipped := Sample(rep.skipped, issue.(reason := ReasonBadPrice)))
    case PriceTooHigh(_) =>
      rep.(matched := rep.matched + 1, skipped := Sample(rep.skipped, issue.(reason := ReasonTooHigh)))
    case Applied(_, e) =>
      var s1 := if e.codeRejected
                then Sample(rep.linkRejectedSample, issue.(reason := ReasonBadCode))
                else rep.linkRejectedSample;
      var s2 := if e.barcodeRejected
                then Sample(s1, issue.(reason := ReasonBadBarcode))
                else s1;
      rep.(matched := rep.matched + 1,
           linkRejected := rep.linkRejected + One(e.codeRejected) + One(e.barcodeRejected),
           linkRejectedSample := s2,
           linkedByName := rep.linkedByName + One(e.linkedByName),
           priceChanged := rep.priceChanged + One(e.priceChanged),
           madeAvailable := rep.madeAvailable + One(e.availChanged && e.item.available),
           madeUnavailable := rep.madeUnavailable + One(e.availChanged && !e.item.available),
           unaltered := rep.unaltered + One(!e.Writes()))
  }

  function ReportAfter(cfg: Config, plans: seq<Plan>, rows: seq<SyncRow>, n: nat): Report
    requires n <= |rows| == |plans|
  {
    if n == 0 then Report(cfg.dryRun, |rows|, 0, 0, 0, 0, 0, 0, 0, 0, 0, 0, 0, 0, [], [], [], [])
    else
      var r := rows[n - 1];
      Count(ReportAfter(cfg, plans, rows, n - 1), n - 1, r, cfg.rules.link(r.code), cfg.rules.clean(r.name),
            OutcomeAt(plans, n - 1))
  }

  /** The row inserted for a draft: hidden, without the store's drinks, in the pending section. */
  function NewRow(d: NewItem, id: nat): Item {
    Item(id, d.name, d.price, d.cents, false, d.code, "", PENDING_SECTION, true, [], [])
  }

  function StoredCodes(items: seq<Item>): set<string> {
    set i | 0 <= i < |items| :: items[i].code
  }

  /** INSERT ... ON CONFLICT DO NOTHING: a draft whose code is already stored is passed over. */
  function Inserted(items: seq<Item>, drafts: seq<NewItem>, nextId: nat): seq<Item>
  {
    if drafts == [] then []
    else
      var n := |drafts| - 1;
      var before := Inserted(items, drafts[..n], nextId);
      if drafts[n].code in StoredCodes(items + before) then before
      else before + [NewRow(drafts[n], nextId + |before|)]
  }

  // ----- what a run keeps -----

  /** What every plan made from these items satisfies. */
  ghost predicate WellPlanned(plans: seq<Plan>, items: seq<Item>) {
    && (forall i :: 0 <= i < |plans| && plans[i].Target? ==>
          plans[i].idx < |items| && plans[i].o.FirstHit() && plans[i].o.idx == plans[i].idx)
    && (forall i :: 0 <= i < |plans| && plans[i].Target? && plans[i].o.Applied? ==>
          KeepsLinks(items[plans[i].idx], plans[i].o.effect.item))
    && (forall i :: 0 <= i < |plans| && plans[i].Miss? ==>
          plans[i].o.Unmatched? || plans[i].o.NoCodeOrName? || plans[i].o.BadCode?)
    && (forall i :: 0 <= i < |plans| && plans[i].New? ==> plans[i].draft.code != "")
  }

  lemma PlansAreWell(cfg: Config, items: seq<Item>, rows: seq<SyncRow>)
    ensures WellPlanned(Plans(cfg, items, rows), items)
  {
  }

  /** A row that is the first to hit an item finds it as the run found it. */
  lemma {:induction false} UntouchedBeforeFirstHit(plans: seq<Plan>, items: seq<Item>, n: nat, k: nat)
    requires n <= |plans| && k < |items| && WellPlanned(plans, items)
    requires !HitBefore(plans, n, k)
    ensures ItemAfter(plans, items, n, k) == items[k]
  {
    if n > 0 {
      UntouchedBeforeFirstHit(plans, items, n - 1, k);
    }
  }

  /** Nothing but price, cents, availability and an absent link ever changes. */
  lemma {:induction false} LinksStay(plans: seq<Plan>, items: seq<Item>, m: nat, n: nat, k: nat)
    requires m <= n <= |plans| && k < |items| && WellPlanned(plans, items)
    ensures KeepsLinks(ItemAfter(plans, items, m, k), ItemAfter(plans, items, n, k))
  {
    if m < n {
      LinksStay(plans, items, m, n - 1, k);
      var o := OutcomeAt(plans, n - 1);
      if o.Applied? && o.idx == k {
        UntouchedBeforeFirstHit(plans, items, n - 1, k);
      }
    }
  }

  /** Two items that come to share a code share it to the end of the run. */
  lemma ConflictStays(plans: seq<Plan>, items: seq<Item>, n: nat)
    requires n <= |plans| && WellPlanned(plans, items)
    requires !UniqueCodes(ItemsAfter(plans, items, n))
    ensures !UniqueCodes(ItemsAfter(plans, items, |plans|))
  {
    var a, b := ItemsAfter(plans, items, n), ItemsAfter(plans, items, |plans|);
    var i, j :| 0 <= i < j < |a| && a[i].code != "" && a[i].code == a[j].code;
    LinksStay(plans, items, n, |plans|, i);
    LinksStay(plans, items, n, |plans|, j);
    assert b[i].code == b[j].code;
  }

  lemma HitBeforeStep(plans: seq<Plan>, items: seq<Item>, i: nat, k: nat)
    requires i < |plans| && WellPlanned(plans, items)
    ensures var o := OutcomeAt(plans, i);
            HitBefore(plans, i + 1, k) <==> HitBefore(plans, i, k) || (o.FirstHit() && o.idx == k)
  {
    if plans[i].Target? && plans[i].idx == k {
      assert HitBefore(plans, i + 1, k);
    }
  }

  lemma CodeTakenStep(plans: seq<Plan>, items: seq<Item>, i: nat, c: string)
    requires i < |plans| && WellPlanned(plans, items)
    ensures var o := OutcomeAt(plans, i);
            CodeTaken(plans, i + 1, c) <==> CodeTaken(plans, i, c) || (o.Created? && o.draft.code == c)
  {
    if plans[i].New? && !plans[i].tooHigh && plans[i].draft.code == c {
      assert CodeTaken(plans, i + 1, c);
    }
  }

  lemma {:induction false} InsertedIsFresh(items: seq<Item>, drafts: seq<NewItem>, nextId: nat)
    requires UniqueCodes(items) && FreshIds(items, nextId)
    ensures var made := Inserted(items, drafts, nextId);
            UniqueCodes(items + made) && FreshIds(items + made, nextId + |made|)
  {
    hide UniqueCodes, FreshIds, StoredCodes;
    if drafts == [] {
      assert items + [] == items;
    } else {
      var n := |drafts| - 1;
      var before := Inserted(items, drafts[..n], nextId);
      InsertedIsFresh(items, drafts[..n], nextId);
      if drafts[n].code !in StoredCodes(items + before) {
        var row := NewRow(drafts[n], nextId + |before|);
        assert items + (before + [row]) == (items + before) + [row];
        RowIsFresh(items + before, row, nextId + |before|);
      }
    }
  }

  lemma RowIsFresh(items: seq<Item>, row: Item, nextId: nat)
    requires UniqueCodes(items) && FreshIds(items, nextId) && row.id == nextId && row.code !in StoredCodes(items)
    ensures UniqueCodes(items + [row]) && FreshIds(items + [row], nextId + 1)
  {
  }

  /** After the insertion every draft's code is stored. */
  lemma {:induction false} DraftCodesAreStored(items: seq<Item>, drafts: seq<NewItem>, nextId: nat, d: NewItem)
    requires d in drafts
    ensures d.code in StoredCodes(items + Inserted(items, drafts, nextId))
  {
    var n := |drafts| - 1;
    var before := Inserted(items, drafts[..n], nextId);
    var made := Inserted(items, drafts, nextId);
    assert forall k :: 0 <= k < |items + before| ==> (items + before)[k] == (items + made)[k];
    if d in drafts[..n] {
      DraftCodesAreStored(items, drafts[..n], nextId, d);
      var k :| 0 <= k < |items + before| && (items + before)[k].code == d.code;
      assert (items + made)[k].code == d.code;
    } else {
      assert d == drafts[n];
      if d.code !in StoredCodes(items + before) {
        assert (items + made)[|items + made| - 1].code == d.code;
      } else {
        assert made == before;
      }
    }
  }

  lemma ItemsStayFresh(plans: seq<Plan>, items: seq<Item>, n: nat, nextId: nat)
    requires n <= |plans| && WellPlanned(plans, items) && FreshIds(items, nextId)
    ensures FreshIds(ItemsAfter(plans, items, n), nextId)
  {
    forall k | 0 <= k < |items|
      ensures ItemsAfter(plans, items, n)[k].id == items[k].id
    {
      LinksStay(plans, items, 0, n, k);
    }
  }

  // ----- each item is written at most once, by the first row that hits it -----

  lemma OneFirstHit(plans: seq<Plan>, items: seq<Item>, i: nat, j: nat)
    requires i < |plans| && j < |plans| && WellPlanned(plans, items)
    requires OutcomeAt(plans, i).FirstHit() && OutcomeAt(plans, j).FirstHit()
    requires OutcomeAt(plans, i).idx == OutcomeAt(plans, j).idx
    ensures i == j
  {
    var k := OutcomeAt(plans, i).idx;
    if i < j {
      assert HitBefore(plans, j, k);
    } else if j < i {
      assert HitBefore(plans, i, k);
    }
  }

  /** The final row of an item is what its first hit wrote, and its old row when there is none. */
  lemma {:induction false} FinalItem(plans: seq<Plan>, items: seq<Item>, n: nat, k: nat)
    requires n <= |plans| && k < |items| && WellPlanned(plans, items)
    ensures !HitBefore(plans, n, k) ==> ItemAfter(plans, items, n, k) == items[k]
    ensures forall i :: 0 <= i < n && OutcomeAt(plans, i).FirstHit() && OutcomeAt(plans, i).idx == k ==>
              var o := OutcomeAt(plans, i);
              ItemAfter(plans, items, n, k) == if o.Applied? && o.effect.Writes() then o.effect.item else items[k]
  {
    if n > 0 {
      FinalItem(plans, items, n - 1, k);
      var last := OutcomeAt(plans, n - 1);
      if last.FirstHit() && last.idx == k {
        UntouchedBeforeFirstHit(plans, items, n - 1, k);
        forall i | 0 <= i < n && OutcomeAt(plans, i).FirstHit() && OutcomeAt(plans, i).idx == k
          ensures i == n - 1
        {
          OneFirstHit(plans, items, i, n - 1);
        }
      }
    }
  }
}
