/** What a dry run foretells, and what it does not
    (backend/internal/catalog/pricesync.go, pricesync_create.go). */
module DryRuns {
  import opened Common
  import opened Money
  import opened Text
  import opened Menu
  import opened SyncPlan
  import opened PriceSync
  import opened SyncTheorems

  // ---------------------------------------------------------------------------------------
  // The codes a run gives
  // ---------------------------------------------------------------------------------------

  /** Row i is applied to an item without a code, and its own code is one that may be stored. */
  predicate GivesCode(cfg: Config, items: seq<Item>, rows: seq<SyncRow>, i: nat) {
    && i < |rows|
    && var o, c := OutcomeAt(Plans(cfg, items, rows), i), cfg.rules.link(rows[i].code);
       o.Applied? && o.idx < |items| && items[o.idx].code == "" && c != "" && ValidLink(c)
  }

  /** Row i becomes an item. */
  predicate MakesItem(cfg: Config, items: seq<Item>, rows: seq<SyncRow>, i: nat) {
    i < |rows| && OutcomeAt(Plans(cfg, items, rows), i).Created?
  }

  predicate SameCode(cfg: Config, rows: seq<SyncRow>, i: nat, j: nat) {
    i < |rows| && j < |rows| && cfg.rules.link(rows[i].code) == cfg.rules.link(rows[j].code)
  }

  /** Two rows give one code to two items. */
  predicate Clash(cfg: Config, items: seq<Item>, rows: seq<SyncRow>, i: nat, j: nat) {
    i < j && SameCode(cfg, rows, i, j) && GivesCode(cfg, items, rows, i) && GivesCode(cfg, items, rows, j)
  }

  /** A row gives an item the code with which another row becomes one. */
  predicate Overlap(cfg: Config, items: seq<Item>, rows: seq<SyncRow>, i: nat, j: nat) {
    SameCode(cfg, rows, i, j) && GivesCode(cfg, items, rows, i) && MakesItem(cfg, items, rows, j)
  }

  /** What an applied row makes of an item's code. */
  lemma AppliedCode(cfg: Config, it: Item, byName: bool, r: SyncRow)
    ensures var e, c := Apply(cfg, it, byName, r), cfg.rules.link(r.code);
            && e.item.code == (if it.code != "" then it.code else if ValidLink(c) then c else "")
            && (e.item.code != it.code ==> e.Writes())
  {
    hide PriceAfter;
  }

  lemma OutcomeApplies(cfg: Config, items: seq<Item>, rows: seq<SyncRow>, i: nat)
    requires i < |rows| && OutcomeAt(Plans(cfg, items, rows), i).Applied?
    ensures var o := OutcomeAt(Plans(cfg, items, rows), i);
            var h := Match(cfg, items, rows[i]);
            && h.Hit? && o.idx == h.idx < |items|
            && o.effect == Apply(cfg, items[h.idx], h.byName, rows[i])
  {
    hide Match, Apply, PriceAfter, HitBefore, CodeTaken;
    assert Plans(cfg, items, rows)[i] == PlanOf(cfg, items, rows[i]);
  }

  /** A code given is no item's yet, in any script of digits. */
  lemma GivenCodeIsNew(cfg: Config, items: seq<Item>, rows: seq<SyncRow>, i: nat)
    requires Sensible(cfg.rules) && GivesCode(cfg, items, rows, i)
    ensures var c := cfg.rules.link(rows[i].code);
            c !in Codes(cfg.rules, items) && forall k :: 0 <= k < |items| ==> items[k].code != c
  {
    hide OutcomeAt, Plans, Apply;
    OutcomeApplies(cfg, items, rows, i);
    var c := cfg.rules.link(rows[i].code);
    UnheldCode(cfg, items, rows[i]);
    forall k | 0 <= k < |items|
      ensures items[k].code != c
    {
      assert Codes(cfg.rules, items)[k] == cfg.rules.link(items[k].code);
    }
  }

  lemma UnheldCode(cfg: Config, items: seq<Item>, r: SyncRow)
    requires Sensible(cfg.rules) && cfg.rules.link(r.code) != ""
    requires var h := Match(cfg, items, r); h.Hit? ==> items[h.idx].code == ""
    ensures cfg.rules.link(r.code) !in Codes(cfg.rules, items)
  {
    hide Match;
    if k: nat :| k < |items| && Codes(cfg.rules, items)[k] == cfg.rules.link(r.code) {
      SharedLinkGoesToOldest(cfg, items, r, k);
    }
  }

  /** Row i gives item k its code. */
  predicate GivesTo(cfg: Config, items: seq<Item>, rows: seq<SyncRow>, i: nat, k: nat) {
    GivesCode(cfg, items, rows, i) && OutcomeAt(Plans(cfg, items, rows), i).idx == k
  }

  function CodeAfter(cfg: Config, items: seq<Item>, rows: seq<SyncRow>, k: nat): string
    requires k < |items|
  {
    ItemAfter(Plans(cfg, items, rows), items, |rows|, k).code
  }

  /** The item ends with the code that the row applied to it leaves. */
  lemma AppliedIsFinal(cfg: Config, items: seq<Item>, rows: seq<SyncRow>, i: nat, k: nat)
    requires k < |items| && i < |rows|
    requires var o := OutcomeAt(Plans(cfg, items, rows), i); o.Applied? && o.idx == k
    ensures var c := cfg.rules.link(rows[i].code);
            CodeAfter(cfg, items, rows, k) ==
              if items[k].code != "" then items[k].code else if ValidLink(c) then c else ""
  {
    var plans := Plans(cfg, items, rows);
    PlansAreWell(cfg, items, rows);
    hide Plans, OutcomeAt, ItemAfter, Apply, WellPlanned, Match;
    FinalItem(plans, items, |rows|, k);
    OutcomeApplies(cfg, items, rows, i);
    AppliedCode(cfg, items[k], Match(cfg, items, rows[i]).byName, rows[i]);
  }

  lemma GivenIsFinal(cfg: Config, items: seq<Item>, rows: seq<SyncRow>, i: nat, k: nat)
    requires k < |items| && GivesTo(cfg, items, rows, i, k)
    ensures CodeAfter(cfg, items, rows, k) == cfg.rules.link(rows[i].code)
  {
    hide Plans, OutcomeAt, CodeAfter;
    AppliedIsFinal(cfg, items, rows, i, k);
  }

  /** An item whose code changes was given it. */
  lemma ChangedIsGiven(cfg: Config, items: seq<Item>, rows: seq<SyncRow>, k: nat) returns (i: nat)
    requires k < |items| && CodeAfter(cfg, items, rows, k) != items[k].code
    ensures GivesTo(cfg, items, rows, i, k)
  {
    var plans := Plans(cfg, items, rows);
    ChangedIsHit(plans, items, |rows|, k);
    hide Plans, OutcomeAt, CodeAfter;
    i :| 0 <= i < |rows| && OutcomeAt(plans, i).Applied? && OutcomeAt(plans, i).idx == k;
    AppliedIsFinal(cfg, items, rows, i, k);
  }

  /** An item that changes was written by a row applied to it. */
  lemma {:induction false} ChangedIsHit(plans: seq<Plan>, items: seq<Item>, n: nat, k: nat)
    requires n <= |plans| && k < |items| && ItemAfter(plans, items, n, k) != items[k]
    ensures exists i :: 0 <= i < n && OutcomeAt(plans, i).Applied? && OutcomeAt(plans, i).idx == k
  {
    hide OutcomeAt;
    var o := OutcomeAt(plans, n - 1);
    if !(o.Applied? && o.idx == k) {
      ChangedIsHit(plans, items, n - 1, k);
    }
  }

  // ---------------------------------------------------------------------------------------
  // When a run is refused
  // ---------------------------------------------------------------------------------------

  /** Codes of the items after the run. */
  ghost predicate CodesMeet(cfg: Config, items: seq<Item>, rows: seq<SyncRow>, a: nat, b: nat) {
    && a < |items| && b < |items| && a != b && CodeAfter(cfg, items, rows, a) != ""
    && CodeAfter(cfg, items, rows, a) == CodeAfter(cfg, items, rows, b)
  }

  lemma RefusedMeet(cfg: Config, items: seq<Item>, rows: seq<SyncRow>) returns (a: nat, b: nat)
    requires !UniqueCodes(ItemsAfter(Plans(cfg, items, rows), items, |rows|))
    ensures CodesMeet(cfg, items, rows, a, b)
  {
    hide Plans, ItemAfter;
    var after := ItemsAfter(Plans(cfg, items, rows), items, |rows|);
    a, b :| 0 <= a < b < |after| && after[a].code != "" && after[a].code == after[b].code;
  }

  lemma MeetRefused(cfg: Config, items: seq<Item>, rows: seq<SyncRow>, a: nat, b: nat)
    requires CodesMeet(cfg, items, rows, a, b)
    ensures !UniqueCodes(ItemsAfter(Plans(cfg, items, rows), items, |rows|))
  {
    hide Plans, ItemAfter;
    var after := ItemsAfter(Plans(cfg, items, rows), items, |rows|);
    assert after[a].code == after[b].code;
  }

  lemma GivesToSomeItem(cfg: Config, items: seq<Item>, rows: seq<SyncRow>, i: nat) returns (k: nat)
    requires GivesCode(cfg, items, rows, i)
    ensures k < |items| && GivesTo(cfg, items, rows, i, k) && cfg.rules.link(rows[i].code) != ""
  {
    hide Plans, OutcomeAt;
    k := OutcomeAt(Plans(cfg, items, rows), i).idx;
  }

  /** One item is given a code by one row. */
  lemma GivenOnce(cfg: Config, items: seq<Item>, rows: seq<SyncRow>, i: nat, j: nat, k: nat)
    requires GivesTo(cfg, items, rows, i, k) && GivesTo(cfg, items, rows, j, k)
    ensures i == j
  {
    PlansAreWell(cfg, items, rows);
    hide Plans, OutcomeAt, WellPlanned;
    OneFirstHit(Plans(cfg, items, rows), items, i, j);
  }

  lemma ClashRefuses(cfg: Config, items: seq<Item>, rows: seq<SyncRow>, i: nat, j: nat)
    requires Clash(cfg, items, rows, i, j)
    ensures !UniqueCodes(ItemsAfter(Plans(cfg, items, rows), items, |rows|))
  {
    hide GivesCode, GivesTo, CodeAfter, UniqueCodes, ItemsAfter, Plans;
    var a := GivesToSomeItem(cfg, items, rows, i);
    var b := GivesToSomeItem(cfg, items, rows, j);
    if a == b {
      GivenOnce(cfg, items, rows, i, j, a);
    }
    GivenIsFinal(cfg, items, rows, i, a);
    GivenIsFinal(cfg, items, rows, j, b);
    MeetRefused(cfg, items, rows, a, b);
  }

  lemma GivenIsNotOld(cfg: Config, items: seq<Item>, rows: seq<SyncRow>, i: nat, k: nat, a: nat)
    requires Sensible(cfg.rules) && GivesTo(cfg, items, rows, i, k) && a < |items|
    ensures items[a].code != cfg.rules.link(rows[i].code)
  {
    hide GivesCode, Sensible, OutcomeAt, Plans;
    GivenCodeIsNew(cfg, items, rows, i);
  }

  lemma RefusedClashes(cfg: Config, items: seq<Item>, rows: seq<SyncRow>)
    requires Sensible(cfg.rules) && UniqueCodes(items)
    requires !UniqueCodes(ItemsAfter(Plans(cfg, items, rows), items, |rows|))
    ensures exists i, j :: Clash(cfg, items, rows, i, j)
  {
    var a, b := RefusedMeet(cfg, items, rows);
    hide GivesCode, GivesTo, CodeAfter, ItemsAfter, Plans, Sensible;
    if CodeAfter(cfg, items, rows, a) != items[a].code {
      var i := ChangedIsGiven(cfg, items, rows, a);
      GivenIsFinal(cfg, items, rows, i, a);
      GivenIsNotOld(cfg, items, rows, i, a, b);
      var j := ChangedIsGiven(cfg, items, rows, b);
      GivenIsFinal(cfg, items, rows, j, b);
      TwoGive(cfg, items, rows, i, a, j, b);
    } else if CodeAfter(cfg, items, rows, b) != items[b].code {
      var j := ChangedIsGiven(cfg, items, rows, b);
      GivenIsFinal(cfg, items, rows, j, b);
      GivenIsNotOld(cfg, items, rows, j, b, a);
    }
  }

  lemma GivesIsGives(cfg: Config, items: seq<Item>, rows: seq<SyncRow>, i: nat, k: nat)
    requires GivesTo(cfg, items, rows, i, k)
    ensures GivesCode(cfg, items, rows, i) && i < |rows| && OutcomeAt(Plans(cfg, items, rows), i).idx == k
  {
    hide Plans, OutcomeAt;
  }

  lemma TwoGive(cfg: Config, items: seq<Item>, rows: seq<SyncRow>, i: nat, a: nat, j: nat, b: nat)
    requires GivesTo(cfg, items, rows, i, a) && GivesTo(cfg, items, rows, j, b) && a != b
    requires cfg.rules.link(rows[i].code) == cfg.rules.link(rows[j].code)
    ensures exists m, n :: Clash(cfg, items, rows, m, n)
  {
    hide GivesCode, OutcomeAt, Plans;
    GivesIsGives(cfg, items, rows, i, a);
    GivesIsGives(cfg, items, rows, j, b);
    if i < j {
      assert Clash(cfg, items, rows, i, j);
    } else {
      assert Clash(cfg, items, rows, j, i);
    }
  }

  /** A run that writes is refused exactly when two rows of the list give one code to two items. */
  lemma RefusedIffClash(cfg: Config, items: seq<Item>, rows: seq<SyncRow>)
    requires Sensible(cfg.rules) && UniqueCodes(items)
    ensures !UniqueCodes(ItemsAfter(Plans(cfg, items, rows), items, |rows|)) <==>
            exists i, j :: Clash(cfg, items, rows, i, j)
  {
    hide *;
    if i, j :| Clash(cfg, items, rows, i, j) {
      ClashRefuses(cfg, items, rows, i, j);
    } else if !UniqueCodes(ItemsAfter(Plans(cfg, items, rows), items, |rows|)) {
      RefusedClashes(cfg, items, rows);
    }
  }

  // ---------------------------------------------------------------------------------------
  // When a run creates what was foretold
  // ---------------------------------------------------------------------------------------

  /** A draft was made by a row. */
  lemma {:induction false} DraftIsMade(plans: seq<Plan>, n: nat, d: NewItem) returns (j: nat)
    requires n <= |plans| && d in Drafts(plans, n)
    ensures j < n && OutcomeAt(plans, j) == Created(d)
  {
    hide OutcomeAt;
    var o := OutcomeAt(plans, n - 1);
    if o == Created(d) {
      j := n - 1;
    } else {
      j := DraftIsMade(plans, n - 1, d);
    }
  }

  lemma {:induction false} MadeIsDrafted(plans: seq<Plan>, n: nat, j: nat)
    requires j < n <= |plans| && OutcomeAt(plans, j).Created?
    ensures OutcomeAt(plans, j).draft in Drafts(plans, n)
  {
    hide OutcomeAt;
    if j < n - 1 {
      MadeIsDrafted(plans, n - 1, j);
    }
  }

  predicate DistinctDrafts(drafts: seq<NewItem>) {
    forall i, j :: 0 <= i < j < |drafts| ==> drafts[i].code != drafts[j].code
  }

  lemma MadeOnce(plans: seq<Plan>, items: seq<Item>, i: nat, j: nat)
    requires i < j < |plans| && WellPlanned(plans, items)
    requires OutcomeAt(plans, i).Created? && OutcomeAt(plans, j).Created?
    ensures OutcomeAt(plans, i).draft.code != OutcomeAt(plans, j).draft.code
  {
    var c := OutcomeAt(plans, i).draft.code;
    assert plans[i].New? && !plans[i].tooHigh && plans[i].draft.code == c;
    assert CodeTaken(plans, j, c);
  }

  /** No two drafts have the same code. */
  lemma {:induction false} DraftsAreDistinct(plans: seq<Plan>, items: seq<Item>, n: nat)
    requires n <= |plans| && WellPlanned(plans, items)
    ensures DistinctDrafts(Drafts(plans, n))
  {
    hide OutcomeAt, WellPlanned;
    if n > 0 {
      DraftsAreDistinct(plans, items, n - 1);
      var before := Drafts(plans, n - 1);
      if OutcomeAt(plans, n - 1).Created? {
        forall d | d in before
          ensures d.code != OutcomeAt(plans, n - 1).draft.code
        {
          var j := DraftIsMade(plans, n - 1, d);
          MadeOnce(plans, items, j, n - 1);
        }
      }
    }
  }

  lemma {:induction false} InsertedCodesAreDrafted(items: seq<Item>, drafts: seq<NewItem>, nextId: nat, b: Item)
    requires b in Inserted(items, drafts, nextId)
    ensures exists d :: d in drafts && b.code == d.code
  {
    var n := |drafts| - 1;
    if b in Inserted(items, drafts[..n], nextId) {
      InsertedCodesAreDrafted(items, drafts[..n], nextId, b);
      var d :| d in drafts[..n] && b.code == d.code;
      assert d in drafts;
    } else {
      assert drafts[n] in drafts;
    }
  }

  lemma StoredAmong(items: seq<Item>, more: seq<Item>, c: string)
    ensures c in StoredCodes(items + more) <==> c in StoredCodes(items) || exists b :: b in more && b.code == c
  {
    if c in StoredCodes(items + more) {
      var k :| 0 <= k < |items + more| && (items + more)[k].code == c;
      if k >= |items| {
        assert more[k - |items|] in more;
      }
    }
    if c in StoredCodes(items) {
      var k :| 0 <= k < |items| && items[k].code == c;
      assert (items + more)[k].code == c;
    }
    if b :| b in more && b.code == c {
      var k :| 0 <= k < |more| && more[k] == b;
      assert (items + more)[|items| + k].code == c;
    }
  }

  /** Every draft is inserted exactly when no draft's code is stored. */
  lemma {:induction false} InsertedAllIff(items: seq<Item>, drafts: seq<NewItem>, nextId: nat)
    requires DistinctDrafts(drafts)
    ensures |Inserted(items, drafts, nextId)| <= |drafts|
    ensures |Inserted(items, drafts, nextId)| == |drafts| <==> forall d :: d in drafts ==> d.code !in StoredCodes(items)
  {
    hide StoredCodes;
    if drafts != [] {
      var n := |drafts| - 1;
      var before := Inserted(items, drafts[..n], nextId);
      InsertedAllIff(items, drafts[..n], nextId);
      StoredAmong(items, before, drafts[n].code);
      forall b | b in before
        ensures b.code != drafts[n].code
      {
        InsertedCodesAreDrafted(items, drafts[..n], nextId, b);
      }
      assert drafts == drafts[..n] + [drafts[n]];
    }
  }

  /** A row that becomes an item matches none, and its code is no item's. */
  lemma MadeIsUnheld(cfg: Config, items: seq<Item>, rows: seq<SyncRow>, j: nat)
    requires Sensible(cfg.rules) && MakesItem(cfg, items, rows, j)
    ensures var c := cfg.rules.link(rows[j].code);
            && c != "" && OutcomeAt(Plans(cfg, items, rows), j).draft.code == c
            && forall k :: 0 <= k < |items| ==> items[k].code != c
  {
    var c := cfg.rules.link(rows[j].code);
    MadeIsMiss(cfg, items, rows, j);
    hide Match, OutcomeAt, Plans, MakesItem;
    UnheldCode(cfg, items, rows[j]);
    forall k | 0 <= k < |items|
      ensures items[k].code != c
    {
      assert Codes(cfg.rules, items)[k] == cfg.rules.link(items[k].code);
    }
  }

  lemma MadeIsMiss(cfg: Config, items: seq<Item>, rows: seq<SyncRow>, j: nat)
    requires MakesItem(cfg, items, rows, j)
    ensures Match(cfg, items, rows[j]).NoHit?
    ensures OutcomeAt(Plans(cfg, items, rows), j).draft.code == cfg.rules.link(rows[j].code) != ""
  {
    hide Match, PlanHit, Draft, HitBefore, CodeTaken;
    assert Plans(cfg, items, rows)[j] == PlanOf(cfg, items, rows[j]);
  }

  lemma StoredAfter(cfg: Config, items: seq<Item>, rows: seq<SyncRow>, c: string) returns (k: nat)
    requires c in StoredCodes(ItemsAfter(Plans(cfg, items, rows), items, |rows|))
    ensures k < |items| && CodeAfter(cfg, items, rows, k) == c
  {
    hide Plans, ItemAfter;
    var after := ItemsAfter(Plans(cfg, items, rows), items, |rows|);
    k :| 0 <= k < |after| && after[k].code == c;
  }

  lemma AfterIsStored(cfg: Config, items: seq<Item>, rows: seq<SyncRow>, k: nat)
    requires k < |items|
    ensures CodeAfter(cfg, items, rows, k) in StoredCodes(ItemsAfter(Plans(cfg, items, rows), items, |rows|))
  {
    hide Plans, ItemAfter;
    var after := ItemsAfter(Plans(cfg, items, rows), items, |rows|);
    assert after[k].code == CodeAfter(cfg, items, rows, k);
  }

  /** A draft's code is stored before the insertion exactly when a row of the list gave it to an item. */
  lemma StoredIffOverlap(cfg: Config, items: seq<Item>, rows: seq<SyncRow>)
    requires Sensible(cfg.rules)
    ensures var plans := Plans(cfg, items, rows);
            (exists d :: d in Drafts(plans, |rows|) && d.code in StoredCodes(ItemsAfter(plans, items, |rows|))) <==>
            exists i, j :: Overlap(cfg, items, rows, i, j)
  {
    var plans := Plans(cfg, items, rows);
    hide GivesCode, GivesTo, CodeAfter, ItemsAfter, Plans, Sensible, StoredCodes, OutcomeAt, Drafts;
    if i, j :| Overlap(cfg, items, rows, i, j) {
      var k := GivesToSomeItem(cfg, items, rows, i);
      GivenIsFinal(cfg, items, rows, i, k);
      AfterIsStored(cfg, items, rows, k);
      MadeIsUnheld(cfg, items, rows, j);
      MadeIsDrafted(plans, |rows|, j);
    }
    if d :| d in Drafts(plans, |rows|) && d.code in StoredCodes(ItemsAfter(plans, items, |rows|)) {
      var j := DraftIsMade(plans, |rows|, d);
      MadeIsUnheld(cfg, items, rows, j);
      var k := StoredAfter(cfg, items, rows, d.code);
      var i := ChangedIsGiven(cfg, items, rows, k);
      GivenIsFinal(cfg, items, rows, i, k);
      GivesIsGives(cfg, items, rows, i, k);
      assert Overlap(cfg, items, rows, i, j);
    }
  }

  // ---------------------------------------------------------------------------------------
  // The dry run and the run that writes
  // ---------------------------------------------------------------------------------------

  lemma DryPlan(cfg: Config, items: seq<Item>, r: SyncRow)
    ensures PlanOf(cfg.(dryRun := true), items, r) == PlanOf(cfg.(dryRun := false), items, r)
  {
    hide Positions, Owner, Only, Rewrite, UsdToSyp, DollarsToCents, Round;
    var dry, write := cfg.(dryRun := true), cfg.(dryRun := false);
    assert Match(dry, items, r) == Match(write, items, r);
  }

  lemma {:induction false} DryReport(cfg: Config, plans: seq<Plan>, rows: seq<SyncRow>, n: nat)
    requires n <= |rows| == |plans|
    ensures ReportAfter(cfg.(dryRun := true), plans, rows, n) ==
              ReportAfter(cfg.(dryRun := false), plans, rows, n).(dryRun := true)
  {
    hide Count, Settle, OutcomeAt;
    if n > 0 {
      DryReport(cfg, plans, rows, n - 1);
      var r := rows[n - 1];
      DryCount(ReportAfter(cfg.(dryRun := false), plans, rows, n - 1), n - 1, r,
               cfg.rules.link(r.code), cfg.rules.clean(r.name), OutcomeAt(plans, n - 1));
    }
  }

  lemma DryCount(rep: Report, i: nat, r: SyncRow, code: string, name: string, o: Outcome)
    ensures Count(rep.(dryRun := true), i, r, code, name, o) == Count(rep, i, r, code, name, o).(dryRun := true)
  {
    hide Sample;
  }

  /** What a dry run answers. */
  function Foretold(cfg: Config, items: seq<Item>, rows: seq<SyncRow>): Report {
    var dry := cfg.(dryRun := true);
    ReportAfter(dry, Plans(dry, items, rows), rows, |rows|)
  }

  /** What the run that writes answers. */
  function Answered(cfg: Config, items: seq<Item>, rows: seq<SyncRow>, nextId: nat): Result<Report, SyncError> {
    var write := cfg.(dryRun := false);
    var plans := Plans(write, items, rows);
    var after := ItemsAfter(plans, items, |rows|);
    if UniqueCodes(after) then
      var made := Inserted(after, Drafts(plans, |rows|), nextId);
      Ok(ReportAfter(write, plans, rows, |rows|).(created := |made|))
    else Err(CodeConflict)
  }

  /** Both reports come from the same outcomes. */
  lemma SameReports(cfg: Config, items: seq<Item>, rows: seq<SyncRow>)
    ensures var write := cfg.(dryRun := false);
            var plans := Plans(write, items, rows);
            && Foretold(cfg, items, rows) == ReportAfter(write, plans, rows, |rows|).(dryRun := true)
            && Foretold(cfg, items, rows).created == |Drafts(plans, |rows|)|
  {
    hide PlanOf;
    var dry, write := cfg.(dryRun := true), cfg.(dryRun := false);
    forall i | 0 <= i < |rows|
      ensures Plans(dry, items, rows)[i] == Plans(write, items, rows)[i]
    {
      DryPlan(cfg, items, rows[i]);
    }
    var plans := Plans(write, items, rows);
    assert Plans(dry, items, rows) == plans;
    DryReport(cfg, plans, rows, |rows|);
    CreatedAreDrafted(write, plans, rows, |rows|);
  }

  lemma CreatedIff(cfg: Config, items: seq<Item>, rows: seq<SyncRow>, nextId: nat)
    requires Sensible(cfg.rules) && !cfg.dryRun
    ensures var plans := Plans(cfg, items, rows);
            var made := Inserted(ItemsAfter(plans, items, |rows|), Drafts(plans, |rows|), nextId);
            && |made| <= |Drafts(plans, |rows|)|
            && (|made| == |Drafts(plans, |rows|)| <==> !exists i, j :: Overlap(cfg, items, rows, i, j))
  {
    var plans := Plans(cfg, items, rows);
    PlansAreWell(cfg, items, rows);
    hide *;
    DraftsAreDistinct(plans, items, |rows|);
    InsertedAllIff(ItemsAfter(plans, items, |rows|), Drafts(plans, |rows|), nextId);
    StoredIffOverlap(cfg, items, rows);
  }

  /** The run that writes is refused exactly when two rows give one code to two items, of which the dry run says
      nothing. Otherwise it answers what the dry run foretold, except that it creates fewer items exactly when a
      row gives an item the code with which another row was to become one. */
  lemma DryRunForetells(cfg: Config, items: seq<Item>, rows: seq<SyncRow>, nextId: nat)
    requires Sensible(cfg.rules) && UniqueCodes(items)
    ensures var write := cfg.(dryRun := false);
            var foretold, answered := Foretold(cfg, items, rows), Answered(cfg, items, rows, nextId);
            && (answered.Err? <==> exists i, j :: Clash(write, items, rows, i, j))
            && (answered.Ok? ==>
                  && answered.value == foretold.(dryRun := false, created := answered.value.created)
                  && answered.value.created <= foretold.created
                  && (answered.value.created == foretold.created <==>
                        !exists i, j :: Overlap(write, items, rows, i, j)))
  {
    hide Plans, ItemsAfter, Drafts, Inserted, UniqueCodes, ReportAfter, Sensible, Foretold, Clash, Overlap;
    var write := cfg.(dryRun := false);
    SameReports(cfg, items, rows);
    RefusedIffClash(write, items, rows);
    CreatedIff(write, items, rows, nextId);
    NotDry(write, Plans(write, items, rows), rows, |rows|);
  }

  lemma {:induction false} NotDry(cfg: Config, plans: seq<Plan>, rows: seq<SyncRow>, n: nat)
    requires n <= |rows| == |plans|
    ensures ReportAfter(cfg, plans, rows, n).dryRun == cfg.dryRun
  {
    hide Sample, OutcomeAt;
    if n > 0 {
      NotDry(cfg, plans, rows, n - 1);
    }
  }

  /** The service, called with a list first to see and then to write. */
  method TryThenUpload(db: MenuDb, rows: seq<SyncRow>, usd: bool, createMissing: bool, unicode: Unicode)
    returns (foretold: Result<Report, SyncError>, answered: Result<Report, SyncError>)
    requires db.Valid()
    modifies db`items, db`nextId
    ensures db.Valid()
    ensures var cfg := Config(usd, createMissing, false, db.Rate(), db.maxPrice, RulesOf(unicode));
            var clash := exists i, j :: Clash(cfg, old(db.items), rows, i, j);
            var overlap := exists i, j :: Overlap(cfg, old(db.items), rows, i, j);
            && (foretold.Err? ==> answered == foretold)
            && (answered.Err? ==> db.State() == old(db.State()))
            && (foretold.Ok? ==>
                  && (answered.Err? <==> clash)
                  && (answered == Ok(foretold.value.(dryRun := false)) <==> !clash && !overlap))
  {
    hide Plans, ItemsAfter, Drafts, Inserted, UniqueCodes, FreshIds, ReportAfter, Sensible, Clash, Overlap, RulesOf;
    ghost var cfg := Config(usd, createMissing, false, db.Rate(), db.maxPrice, RulesOf(unicode));
    RulesAreSensible(unicode);
    DryRunForetells(cfg, db.items, rows, db.nextId);
    foretold := SyncPrices(db, rows, usd, createMissing, true, unicode);
    answered := SyncPrices(db, rows, usd, createMissing, false, unicode);
  }

  // ---------------------------------------------------------------------------------------
  // Both happen
  // ---------------------------------------------------------------------------------------

  lemma LinkIsRune(c: char)
    requires !IsSpace(c) && LinkChar(c) == c
    ensures LinkText([c]) == [c]
  {
    hide TrimSpace;
    TrimmedStays([c]);
    assert LinkChars([c]) == [c];
  }

  lemma LinkOfRune(u: Unicode, c: char)
    requires !IsSpace(c) && LinkChar(c) == c
    ensures RulesOf(u).link([c]) == [c] && ValidLink([c])
  {
    hide LinkText, CleanItemName, NormName;
    LinkIsRune(c);
  }

  lemma Digits(rules: TextRules, u: Unicode)
    requires rules == RulesOf(u)
    ensures ReadsDigits(rules)
  {
    RulesAreSensible(u);
    hide RulesOf, ValidLink;
    LinkOfRune(u, '1');
    LinkOfRune(u, '2');
    LinkOfRune(u, '9');
  }

  lemma NameIsRune(u: Unicode, c: char)
    requires !IsSpace(c)
    ensures CleanItemName(u, [c]) == [c]
  {
    hide TrimSpace, CountWhile;
    TrimmedStays([c]);
  }

  lemma NameOfRune(u: Unicode, c: char)
    requires !IsSpace(c)
    ensures RulesOf(u).clean([c]) == [c]
  {
    hide LinkText, CleanItemName, NormName, TrimSpace;
    NameIsRune(u, c);
  }

  /** An item without a code and without a name. */
  function Coded(id: nat, barcode: string): Item {
    Item(id, "", 0, None, true, "", barcode, "s", false, [], [])
  }

  function RowFor(code: string, barcode: string, name: string): SyncRow {
    SyncRow(code, barcode, name, None, None)
  }

  /** Two items with a barcode each and no code. */
  function TwoItems(): seq<Item> {
    [Coded(0, "1"), Coded(1, "2")]
  }

  /** One code for both barcodes. */
  function ClashingRows(): seq<SyncRow> {
    [RowFor("9", "1", ""), RowFor("9", "2", "")]
  }

  /** A code for a barcode, and the same code with a name no item has. */
  function OverlappingRows(): seq<SyncRow> {
    [RowFor("9", "1", ""), RowFor("9", "", "x")]
  }

  ghost predicate ReadsDigits(t: TextRules) {
    && t.link("1") == "1" && t.link("2") == "2" && t.link("9") == "9" && t.link("") == "" && ValidLink("9")
    && Sensible(t)
  }

  lemma TwoKeys(cfg: Config, items: seq<Item>)
    requires items == TwoItems() && ReadsDigits(cfg.rules)
    ensures Codes(cfg.rules, items) == ["", ""] && Barcodes(cfg.rules, items) == ["1", "2"]
    ensures forall k :: Only(Names(cfg.rules, items), k).None?
  {
    hide Only, Sensible;
    var n := cfg.rules.norm("");
    assert Names(cfg.rules, items) == [n, n];
    forall k
      ensures Only([n, n], k).None?
    {
      TwiceIsNotOnce(n, k);
    }
  }

  lemma TwiceIsNotOnce(n: string, k: string)
    ensures Only([n, n], k).None?
  {
    assert [n, n][..1] == [n] && [n][..0] == [];
    assert Positions([n], k) == if n == k then [0] else [];
  }

  lemma MatchedByBarcode(cfg: Config, items: seq<Item>, r: SyncRow, k: nat)
    requires items == TwoItems() && ReadsDigits(cfg.rules)
    requires k < 2 && r.code == "9" && r.barcode == items[k].barcode
    ensures Match(cfg, items, r) == Hit(k, false)
  {
    hide Only, Names, Sensible;
    TwoKeys(cfg, items);
    FirstAtIs(["1", "2"], r.barcode, k);
    assert "9" !in ["", ""];
  }

  /** The row is applied, and rejects no link. */
  lemma GivesNine(cfg: Config, items: seq<Item>, rows: seq<SyncRow>, i: nat, k: nat)
    requires items == TwoItems() && ReadsDigits(cfg.rules)
    requires k < 2 && i < |rows| && rows[i] == RowFor("9", items[k].barcode, "")
    requires forall j :: 0 <= j < i ==> PlanOf(cfg, items, rows[j]).Target? ==> PlanOf(cfg, items, rows[j]).idx != k
    ensures GivesCode(cfg, items, rows, i)
    ensures PlanOf(cfg, items, rows[i]).Target? && PlanOf(cfg, items, rows[i]).idx == k
    ensures var o := OutcomeAt(Plans(cfg, items, rows), i);
            !o.effect.codeRejected && !o.effect.barcodeRejected
  {
    MatchedByBarcode(cfg, items, rows[i], k);
    hide Match, Sensible;
    assert !HitBefore(Plans(cfg, items, rows), i, k);
    ValidDigits(items[k].barcode);
  }

  lemma ValidDigits(s: string)
    requires s == "1" || s == "2"
    ensures ValidLink(s)
  {
  }

  lemma CountApplied(rep: Report, i: nat, r: SyncRow, code: string, name: string, o: Outcome)
    requires o.Applied? && !o.effect.codeRejected && !o.effect.barcodeRejected
    ensures var next := Count(rep, i, r, code, name, o);
            && next.matched == rep.matched + 1 && next.skipped == rep.skipped && next.linkRejected == rep.linkRejected
            && next.created == rep.created
  {
    hide Sample;
  }

  lemma OneMoreRow(cfg: Config, plans: seq<Plan>, rows: seq<SyncRow>, n: nat)
    requires n < |rows| == |plans|
    ensures var r := rows[n];
            ReportAfter(cfg, plans, rows, n + 1) ==
              Count(ReportAfter(cfg, plans, rows, n), n, r, cfg.rules.link(r.code), cfg.rules.clean(r.name),
                    OutcomeAt(plans, n))
  {
    hide Count, OutcomeAt;
  }

  /** Two items with a barcode each and no code, and a list with one code for both barcodes: the dry run reports two
      matches and nothing skipped or rejected, and the run that writes is refused. */
  lemma ClashHappens(cfg: Config, u: Unicode, nextId: nat)
    requires cfg.rules == RulesOf(u)
    ensures UniqueCodes(TwoItems()) && FreshIds(TwoItems(), 2)
    ensures var foretold := Foretold(cfg, TwoItems(), ClashingRows());
            foretold.matched == 2 && foretold.skipped == [] && foretold.linkRejected == 0
    ensures Answered(cfg, TwoItems(), ClashingRows(), nextId) == Err(CodeConflict)
  {
    hide *;
    Digits(cfg.rules, u);
    TwoAreFresh(TwoItems());
    ClashOf(cfg, TwoItems(), ClashingRows(), nextId);
  }

  lemma TwoAreFresh(items: seq<Item>)
    requires items == TwoItems()
    ensures UniqueCodes(items) && FreshIds(items, 2)
  {
  }

  lemma ReadsSensibly(t: TextRules)
    requires ReadsDigits(t)
    ensures Sensible(t)
  {
    hide Sensible;
  }

  lemma ClashOf(cfg: Config, items: seq<Item>, rows: seq<SyncRow>, nextId: nat)
    requires items == TwoItems() && rows == ClashingRows()
    requires ReadsDigits(cfg.rules) && UniqueCodes(items)
    ensures var foretold := Foretold(cfg, items, rows);
            foretold.matched == 2 && foretold.skipped == [] && foretold.linkRejected == 0
    ensures Answered(cfg, items, rows, nextId) == Err(CodeConflict)
  {
    var write := cfg.(dryRun := false);
    hide Plans, PlanOf, OutcomeAt, UniqueCodes, ReadsDigits, GivesCode, Foretold, Answered, ReportAfter;
    ReadsSensibly(cfg.rules);
    GivesNine(write, items, rows, 0, 0);
    GivesNine(write, items, rows, 1, 1);
    GivesIsApplied(write, items, rows, 0);
    GivesIsApplied(write, items, rows, 1);
    TwoRowsApplied(write, Plans(write, items, rows), rows);
    SameReports(cfg, items, rows);
    assert Clash(write, items, rows, 0, 1);
    DryRunForetells(cfg, items, rows, nextId);
    OnlyConflict(cfg, items, rows, nextId);
  }

  lemma GivesIsApplied(cfg: Config, items: seq<Item>, rows: seq<SyncRow>, i: nat)
    requires GivesCode(cfg, items, rows, i)
    ensures OutcomeAt(Plans(cfg, items, rows), i).Applied?
  {
    hide Plans, OutcomeAt;
  }

  lemma OnlyConflict(cfg: Config, items: seq<Item>, rows: seq<SyncRow>, nextId: nat)
    requires Answered(cfg, items, rows, nextId).Err?
    ensures Answered(cfg, items, rows, nextId) == Err(CodeConflict)
  {
    hide Plans, ItemsAfter, ReportAfter, Drafts, Inserted, UniqueCodes;
  }

  lemma TwoRowsApplied(cfg: Config, plans: seq<Plan>, rows: seq<SyncRow>)
    requires |rows| == |plans| == 2
    requires forall i :: 0 <= i < 2 ==>
      OutcomeAt(plans, i).Applied? && !OutcomeAt(plans, i).effect.codeRejected
      && !OutcomeAt(plans, i).effect.barcodeRejected
    ensures var rep := ReportAfter(cfg, plans, rows, 2);
            rep.matched == 2 && rep.skipped == [] && rep.linkRejected == 0
  {
    hide Count, OutcomeAt;
    var zero, one := ReportAfter(cfg, plans, rows, 0), ReportAfter(cfg, plans, rows, 1);
    OneMoreRow(cfg, plans, rows, 0);
    OneMoreRow(cfg, plans, rows, 1);
    CountApplied(zero, 0, rows[0], cfg.rules.link(rows[0].code), cfg.rules.clean(rows[0].name), OutcomeAt(plans, 0));
    CountApplied(one, 1, rows[1], cfg.rules.link(rows[1].code), cfg.rules.clean(rows[1].name), OutcomeAt(plans, 1));
  }

  /** A code for a barcode, and again with a name no item has: the dry run foretells an item that is not created. */
  lemma OverlapHappens(cfg: Config, u: Unicode, nextId: nat)
    requires cfg.rules == RulesOf(u) && cfg.createMissing
    ensures var answered := Answered(cfg, TwoItems(), OverlappingRows(), nextId);
            answered.Ok? && answered.value.created < Foretold(cfg, TwoItems(), OverlappingRows()).created
  {
    NameOfRune(u, 'x');
    hide *;
    Digits(cfg.rules, u);
    TwoAreFresh(TwoItems());
    OverlapOf(cfg, TwoItems(), OverlappingRows(), nextId);
  }

  lemma OverlapOf(cfg: Config, items: seq<Item>, rows: seq<SyncRow>, nextId: nat)
    requires items == TwoItems() && rows == OverlappingRows()
    requires ReadsDigits(cfg.rules) && UniqueCodes(items) && cfg.createMissing && cfg.rules.clean("x") == "x"
    ensures var answered := Answered(cfg, items, rows, nextId);
            answered.Ok? && answered.value.created < Foretold(cfg, items, rows).created
  {
    var write := cfg.(dryRun := false);
    hide Plans, PlanOf, OutcomeAt, UniqueCodes, ReadsDigits, GivesCode, MakesItem, Foretold, Answered, ReportAfter;
    ReadsSensibly(cfg.rules);
    GivesNine(write, items, rows, 0, 0);
    MakesNine(write, items, rows);
    assert Overlap(write, items, rows, 0, 1);
    OneGivesOnly(write, items, rows);
    DryRunForetells(cfg, items, rows, nextId);
  }

  lemma MakesNine(cfg: Config, items: seq<Item>, rows: seq<SyncRow>)
    requires items == TwoItems() && ReadsDigits(cfg.rules) && cfg.createMissing
    requires |rows| == 2 && rows[1] == RowFor("9", "", "x") && cfg.rules.clean("x") == "x"
    requires PlanOf(cfg, items, rows[0]).Target?
    ensures MakesItem(cfg, items, rows, 1)
  {
    TwoKeys(cfg, items);
    hide Only, Names, Codes, Barcodes, Sensible;
    assert "9" !in ["", ""];
    assert Match(cfg, items, rows[1]).NoHit?;
    hide Match;
    assert !CodeTaken(Plans(cfg, items, rows), 1, "9");
  }

  /** Of two rows of which one makes an item, no two give a code. */
  lemma OneGivesOnly(cfg: Config, items: seq<Item>, rows: seq<SyncRow>)
    requires |rows| == 2 && MakesItem(cfg, items, rows, 1)
    ensures !exists i, j :: Clash(cfg, items, rows, i, j)
  {
    hide GivesCode, MakesItem, OutcomeAt, Plans;
    MadeGivesNone(cfg, items, rows, 1);
    forall i, j | Clash(cfg, items, rows, i, j)
      ensures false
    {
      GivesIsRow(cfg, items, rows, j);
    }
  }

  lemma MadeGivesNone(cfg: Config, items: seq<Item>, rows: seq<SyncRow>, i: nat)
    requires MakesItem(cfg, items, rows, i)
    ensures !GivesCode(cfg, items, rows, i)
  {
    hide OutcomeAt, Plans;
  }

  lemma GivesIsRow(cfg: Config, items: seq<Item>, rows: seq<SyncRow>, i: nat)
    requires GivesCode(cfg, items, rows, i)
    ensures i < |rows|
  {
    hide OutcomeAt, Plans;
  }
}
