# Verified models of RahalGo

Dafny models of the parts of RahalGo that carry state between calls, and proofs of what they promise. SQL
statements are atomic steps on the rows they touch, a violated constraint is an error that leaves the rows as they
were, and lira, cents and times are unbounded integers; dollars, rates and coordinates are reals. `dafny verify
dfyconfig.toml` checks everything.

| files | what they model |
|---|---|
| `Menu`, `Money`, `Text`, `TextMeaning` | a merchant's rows, lira and cents, links and item names, and what they are read as |
| `SyncPlan`, `PriceSync` | the price and stock list of the shop's accounting program: a closed form of every row's outcome, and the service's loop over three tables |
| `SyncMeaning` | what such a run is to do to every item, said of the items and the list alone |
| `SyncTheorems`, `DryRuns` | what follows for a second upload, the report and a dry run |
| `Amounts`, `NoPhoto` | amounts as accountants write them; paging through items without a photo |
| `OptionModes`, `WeightNames`, `Modifiers`, `ModeInheritance` | option groups, weights and their names, and apps that do not send the price modes |
| `Dollars`, `MenuPlans`, `MenuWrites`, `DrinksList`, `Repricing` | creating, updating and duplicating items, the drinks list, the exchange rate and the bulk change |
| `MenuMeaning` | what a write is to leave of an item, field by field |
| `MenuRuns`, `MenuInvariants` | every serial run of all these writes |
| `Geometry`, `SegmentIndex` | the cell index of road segments against all segments |
| `Splice`, `Weave`, `StreetJoin`, `Streets`, `StreetBuild` | junctions spliced into roads, a street joined at its ends, and a whole build |
| `Quiet`, `Campaigns` | quiet hours; the statements of a campaign and one undisturbed execution |
| `CampaignProtocol`, `CampaignCounts`, `CampaignLease`, `CampaignCap` | every interleaving of executors: at most one message, what the counters count, leases, the daily cap |
| `Promos`, `PromoRuns` | discount codes and their approval, over every run |
| `Cashbox`, `CashDesk`, `CashAge`, `CashRuns`, `CashStatement` | the driver's cash ledger, its age, the guard under interleaving, the statement |
| `CleanDev` | emptying tables in the order foreign keys allow |

Where the code does not do what its comments say, the code is modelled and the exact condition is proved:

- A lira price sent for a dollar item together with a dollar option is written while the old cents stay, so the next
  change of the rate undoes it (`MenuRuns.UpdatedIsCoherentIff`, `MenuRuns.StalePriceIsLost`; the comment at
  usd.go:80-81 says the last explicit price wins).
- A dry run of the accounting list says what will happen (pricesync.go:71), but not that two rows give one code to two
  items, for which the run that writes is refused, nor that a row gives an item the code of a new one, which then is
  not created (`DryRuns.DryRunForetells`, `DryRuns.ClashHappens`, `DryRuns.OverlapHappens`).
- Prices are computed from the rate that is sent, while its column keeps four decimals
  (`Repricing.RateIsExactIff`).
- A weight of 1500 grams has a name that is not read back (`OptionModes.GramsRoundTrip`), so an option without a
  weight and with that name takes it when the item is saved back (`ModeInheritance.SavedBack`).
- A decimal mark with neither a digit nor a minus before it is dropped: ".5" is read as 5, "-.5" as minus a half
  (`Amounts.LeadingPoint`, `Amounts.ReadBackIff`).
- A junction on a road that passes a node twice can land off its segment (`Splice.LandsOnSegmentIff`,
  `Splice.ClosedWayIsSplicedElsewhere`).
- The inserts and final statements of a campaign carry no fence: an execution whose campaign has been cancelled,
  failed or sent meanwhile still writes. A campaign that is done stays so exactly when there is no such late write
  (`CampaignLease.DoneStaysIff`), which needs an execution that outlives its lease (`CampaignLease.LateAfterLease`).
- At the instant a code expires orders still take it while its status says expired (`Promos.UsableIffActive`).
- Finance decides on a request by its id, which an edit keeps when it rewrites the request, so it may approve what it has
  not read: the request stays as read exactly while no edit rewrites it (`PromoRuns.ReadStaysIff`,
  `PromoRuns.StaleApproval`).
- A cursor whose row is deleted ends the walk through the items without a photo, and one whose row is renamed skips
  items or shows them twice (`NoPhoto.BetweenCursors`, `NoPhoto.LostCursor`).

## Model

Paths are relative to the repository.

| member | source | states |
|---|---|---|
| `Text.LinkTextIdempotent` | backend/internal/catalog/item_link.go:75-89 | a link read and stored is read again as itself |
| `Text.RulesAreSensible` | backend/internal/catalog/item_link.go:75-89 | the readings of links and names have the three properties matching relies on: a link is its own link, no text is no link, no name cleans to no name |
| `TextMeaning.TranslatedAlike` | backend/internal/catalog/item_link.go:75-108 | the service reads the digits and marks of a code as the database translates them |
| `TextMeaning.LinkMeans` | backend/internal/catalog/item_link.go:75-89 | a link is what was sent without blanks around it, so translated |
| `TextMeaning.CleanNameMeans` | backend/internal/catalog/pricesync_create.go:34-52 | a number with a dash is taken off a name exactly when a letter follows, and the rest is cut to its limit |
| `TextMeaning.NormNameMeans` | backend/internal/catalog/pricesync.go:120-125 | the form names are compared in: the same letters, plain and in lower case, in words with single blanks |
| `PriceSync.BuildTables` | backend/internal/catalog/pricesync.go:183-197 | the three tables: a code or barcode leads to the oldest item that has it, a name to all its holders, oldest first |
| `PriceSync.LookupIsMatch` | backend/internal/catalog/pricesync.go:217-227 | looking a row up in the tables gives the match defined from the items alone: code, then barcode, then cleaned name, then raw name, a name only when one item has it |
| `PriceSync.ProcessRows` | backend/internal/catalog/pricesync.go:215-372 | the loop over the rows, with its set of touched items and created codes, gives the report, the new items and the written items that are defined row by row in closed form; it fails exactly when two items would share a code |
| `PriceSync.InsertNewItems` | backend/internal/catalog/pricesync_create.go:87-119 | the inserted rows: one per draft whose code is not stored yet, hidden, with drinks off, with the next ids |
| `SyncPlan.InsertedIsFresh` | backend/internal/catalog/pricesync_create.go:102-114 | the inserted rows keep codes and ids unique |
| `PriceSync.SyncPrices` | backend/internal/catalog/pricesync.go:128-395 | a whole run: which error, which report, which items afterwards. Of a run that writes, item by item and row by row: a hit item is on sale exactly when its first row gives a positive quantity, and as it was without one; its price and cents are as they were without an amount, and otherwise within a half of what was sent; how many items changed each way; every inserted row priced likewise. A dry run and an error leave every row as it was |
| `SyncMeaning.MatchMeans` | backend/internal/catalog/pricesync.go:217-227 | the item a row matches is the one it leads to: the first with its code, else the first with its barcode, else the only one with its name, cleaned or raw |
| `SyncMeaning.ItemsMean` | backend/internal/catalog/pricesync.go:274-372 | every item ends as the first row that leads to it says, and as it was when there is none or that row is refused: availability, lira, cents, code and barcode, each by what was sent |
| `SyncMeaning.OutcomeMeans` | backend/internal/catalog/pricesync.go:215-372 | the outcome of every row, from the items and the list alone: which is skipped, repeated, refused and why, which changes an item, which becomes one and at what price |
| `SyncMeaning.WholeRun` | backend/internal/catalog/pricesync.go:274-395 | all of this at once for a run that writes, with the numbers of items made available and unavailable and of prices and links changed as the numbers of items that differ that way |
| `SyncPlan.LinksStay` | backend/internal/catalog/pricesync.go:344-371 | through a run an item keeps its id, name, groups and the links it has |
| `SyncPlan.UntouchedBeforeFirstHit` | backend/internal/catalog/pricesync.go:274-277 | the first row that hits an item finds it as the run found it, so reading the items once is enough |
| `SyncTheorems.SecondRunCreatesNothing` | backend/internal/catalog/pricesync.go:183-266 | after a committed run with creation on, a second run with the same list, rate and limit drafts no item, whatever order the inserted rows are read in |
| `SyncTheorems.UploadTwice` | backend/internal/catalog/pricesync.go:128-395 | the service called twice with one list: the second call creates nothing, and when either is refused the items are as they were before it |
| `SyncTheorems.MatchPersists` | backend/internal/catalog/pricesync.go:217-227 | a row that matched an item before the run matches one after it, by the tables rebuilt from what the run wrote |
| `SyncTheorems.CreatedIsFound` | backend/internal/catalog/pricesync.go:229-266 | a row that became an item, or shared its code with one that did, is found by its code afterwards |
| `SyncPlan.FinalItem` | backend/internal/catalog/pricesync.go:274-372 | an item ends as its first hit wrote it, and as it was when no row hits it: each item is written at most once |
| `SyncPlan.OneFirstHit` | backend/internal/catalog/pricesync.go:274-277 | no two rows are the first to hit one item |
| `SyncTheorems.SharedLinkGoesToOldest` | backend/internal/catalog/pricesync.go:183-194 | a code several items share leads to the oldest of them, and so does a barcode when the code leads nowhere |
| `SyncTheorems.RowsSplit` | backend/internal/catalog/pricesync.go:215-372 | the outcomes exclude each other and the counters sum to the number of rows |
| `SyncTheorems.MatchedAreDistinct` | backend/internal/catalog/pricesync.go:274-279 | Matched is the number of different items hit |
| `SyncTheorems.CreatedAreDrafted` | backend/internal/catalog/pricesync.go:229-266 | the created counter is the number of drafts before insertion |
| `SyncTheorems.CountersAreBounded` | backend/internal/catalog/pricesync.go:203-214 | samples are complete up to their size, and no counter exceeds the rows it speaks of |
| `SyncTheorems.CountersCount` | backend/internal/catalog/pricesync.go:203-214 | every counter of the report is the number of the rows it speaks of |
| `SyncTheorems.SamplesBeginSheets` | backend/internal/catalog/pricesync.go:203-214 | every sample is the first fifty entries of its full list, in the order of the rows |
| `DryRuns.RefusedIffClash` | backend/internal/catalog/pricesync.go:349-371 | a run that writes is refused exactly when two rows of the list give one code to two items: both applied, to items without a code, with the same code, which may be stored |
| `DryRuns.DryRunForetells` | backend/internal/catalog/pricesync.go:374-382 | the dry run foretells neither that refusal nor that fewer items are created; the run that writes is refused exactly in the first case, and otherwise answers the same report but for the number created, which is smaller exactly when a row gives an item the code with which another row was to become one |
| `DryRuns.TryThenUpload` | backend/internal/catalog/pricesync.go:128-395 | the service called to see and then to write: the answers agree exactly when there is neither |
| `DryRuns.ClashHappens` | backend/internal/catalog/pricesync.go:349-371 | two items with barcodes only and a list with one code for both: two matches foretold, nothing skipped, and refused |
| `DryRuns.OverlapHappens` | backend/internal/catalog/pricesync.go:374-382 | a list for which an item is foretold that is not created |
| `Money.RoundTo5` | backend/internal/catalog/usd.go:45-47 | a multiple of five within two and a half of the value |
| `Money.UsdToSyp` | backend/internal/catalog/usd.go:50-52 | the lira price of cents: a multiple of five within two and a half of the exact amount |
| `Money.CentsRoundTrip` | backend/internal/catalog/menu_tools.go:79-83 | cents turned into dollars for a copy and back are the same cents |
| `Dollars.ResolveUsd` | backend/internal/catalog/usd.go:82-130 | which inputs are refused for want of a rate or a dollar price, what happens to the stored cents, and every dollar price rewritten in lira |
| `Dollars.ResolvedIsPriced` | backend/internal/catalog/usd.go:104-128 | what is handed on to the writes has every dollar price, of the item and of its options, at the rate |
| `OptionModes.GramsRoundTrip` | backend/internal/catalog/option_modes.go:44-92 | for every weight up to the limit its name is read back as that weight, except 1500 grams, whose name is not understood |
| `OptionModes.WeightNameInjective` | backend/internal/catalog/option_modes.go:44-57 | two weights never have the same name |
| `OptionModes.FixedNames` | backend/internal/catalog/option_modes.go:61-70 | the weights with a name of their own |
| `WeightNames.GramsMean` | backend/internal/catalog/option_modes.go:61-105 | the weight read from a name is the one it says, in Arabic or Latin digits, and none when it says none |
| `Modifiers.CleanGroupMode` | backend/internal/catalog/option_modes.go:112-145 | every option of a group after cleaning, by mode |
| `Modifiers.InsertModifiers` | backend/internal/catalog/menu.go:839-874 | the rows written for the groups sent, or the refusal of one without a name |
| `Modifiers.RowsAreStored` | backend/internal/catalog/option_modes.go:112-145 | whatever is sent, the stored groups are well formed: limits in order, no price without price mode, weights named by their grams |
| `ModeInheritance.PriorGroups` | backend/internal/catalog/option_modes.go:160-193 | the table of stored groups: mode and base of the first with a name, weights of all options by name |
| `ModeInheritance.InheritModes` | backend/internal/catalog/option_modes.go:150-219 | groups sent without a mode take mode, base and weights of the stored group with their name |
| `ModeInheritance.SavedBack` | backend/internal/catalog/option_modes.go:150-219 | saving an item back without modes keeps the mode, base, names and weights of every group, exactly unless an option without a weight is named like one of 1500 grams beside it |
| `ModeInheritance.ConfusingIsStored` | backend/internal/catalog/option_modes.go:112-145 | such groups are accepted and stored |
| `MenuWrites.FindCode` | backend/internal/catalog/item_link.go:98-118 | whether another item holds a code, in any script of digits |
| `MenuWrites.CreateItemIn` | backend/internal/catalog/menu.go:575-660 | the row created with its groups and the drinks, or the error, in the order the service checks; accepted exactly when a row with the stated fields exists, and then one is added: name, price and cents by what was sent, links read and free, every group and option as stored, available |
| `MenuWrites.UpdateItem` | backend/internal/catalog/menu.go:662-825 | the row after an update or the error and nothing changed; accepted exactly when a row with the stated fields exists: each field sent is put, each absent one is as it was, price and cents by currency, the groups replaced when sent |
| `MenuMeaning.GroupIsStored` | backend/internal/catalog/option_modes.go:112-219 | how a group that is sent is stored: limits in order, its mode and base or those of the stored group of its name, every option with name, price, cents and weight by that mode |
| `MenuMeaning.CreatedMeans` | backend/internal/catalog/menu.go:575-660 | a creation is accepted exactly when there is such a row, and adds it |
| `MenuMeaning.UpdatedMeans` | backend/internal/catalog/menu.go:662-825 | an update is accepted exactly when there is such a row, and writes it |
| `MenuWrites.DuplicateItem` | backend/internal/catalog/menu_tools.go:30-143 | the copy is the item sent again, or the error |
| `MenuInvariants.CreatedIsValid` | backend/internal/catalog/menu.go:625-651 | a created code is held by no other item: the unique index is never hit in a serial run |
| `MenuInvariants.UpdateIsValid` | backend/internal/catalog/menu.go:715-732 | the same for an update, also when the code is sent back unchanged |
| `MenuInvariants.DuplicateIsOriginal` | backend/internal/catalog/menu_tools.go:30-143 | on a coherent menu the copy equals its original in price, cents, section, groups and drinks; its name is the original's, cut, with the suffix; it has a new id, no links, and is available |
| `MenuInvariants.DuplicatedIff` | backend/internal/catalog/menu_tools.go:30-143 | on a coherent menu an item is copied exactly when it is there, in an active section, within the limit of prices, with a rate for its dollars, and its copy's name not too long |
| `MenuInvariants.CopyNameFits` | backend/internal/catalog/menu_tools.go:53-69 | which it never is where the suffix leaves room |
| `DrinksList.SyncDrinks` | backend/internal/catalog/drinks.go:200-225 | deleting the copies and inserting the list leaves the list once in every item that has it on, and in no other |
| `DrinksList.SetDrinks` | backend/internal/catalog/drinks.go:99-190 | the list replaced, drink by drink as sent and priced, and copied; accepted exactly when it is short enough and every drink is allowed, otherwise the error of the first one refused and nothing changed |
| `DrinksList.ReplacedMeans` | backend/internal/catalog/drinks.go:99-190 | which lists are stored, and with which names, prices, cents and images |
| `DrinksList.ReplacedListIsCopied` | backend/internal/catalog/drinks.go:99-190 | after a replacement every item holds the new list as it should, dollar drinks are at the rate, and nothing else of an item changes |
| `Repricing.SetExchangeRate` | backend/internal/catalog/usd.go:143-220 | which rates are refused, which need confirming, and otherwise the rate as its column keeps it, every price with cents within two and a half of its cents at the rate sent and a multiple of five, and the number of such items; an error changes nothing |
| `Repricing.RateMeans` | backend/internal/catalog/usd.go:143-220 | these outcomes, item by item, option by option and drink by drink |
| `Repricing.LiraStays` | backend/internal/catalog/usd.go:187-214 | a change of the rate touches no price without cents and no other field |
| `Repricing.UnconfirmedMove` | backend/internal/catalog/usd.go:143-214 | an unconfirmed change moves the price of an item, of each option and of each copied drink by at most its cents at the old rate over 1000, plus 5 |
| `Repricing.UnconfirmedDrinkMove` | backend/internal/catalog/usd.go:143-214 | and that of each drink of the list |
| `Repricing.RateIsExactIff` | backend/internal/catalog/usd.go:184-214 | every menu is coherent with the stored rate after a change exactly when the rate has at most four decimals, which is what its column keeps |
| `Repricing.BulkPrice` | backend/internal/catalog/menu_tools.go:200-280 | who is refused; how many items are concerned: those of the section with a lira price, or with cents where there is a rate; and when confirmed: a lira price within a half of its percentage, or moved by the amount, at least 1; cents within a half of theirs, by an amount at least 1, and their price at the rate; every other item as it was |
| `Repricing.BulkMeans` | backend/internal/catalog/menu_tools.go:184-280 | what a bulk change counts, refuses as too high and leaves, by these rules |
| `Repricing.BulkKeepsCoherence` | backend/internal/catalog/menu_tools.go:184-197 | a bulk change keeps every dollar price at the rate |
| `Repricing.BulkDirection` | backend/internal/catalog/menu_tools.go:184-197 | a raise lowers no price and a cut raises none, through both roundings |
| `Repricing.FreeStaysFree` | backend/internal/catalog/menu_tools.go:216-220 | a free item stays free |
| `MenuRuns.Perform` | backend/internal/catalog/menu.go:575-825 | each write of the service takes the menu where the step function says |
| `MenuRuns.UpdatedIsCoherentIff` | backend/internal/catalog/usd.go:94-107 | an update leaves the item coherent exactly unless it sends a lira price other than the derived one for a dollar item together with a dollar option |
| `MenuRuns.StalePriceIsLost` | backend/internal/catalog/usd.go:94-107 | after such an update the item has the price sent and its old cents, and any later change of the rate sets the price back to those cents |
| `MenuRuns.StaleCentsHappen` | backend/internal/catalog/usd.go:94-107 | such an update is accepted: a dollar item sent 5 lira and a dollar option |
| `MenuInvariants.RunKeepsMenu` | backend/internal/catalog/drinks.go:173-225 | after every serial run ids and codes are unique, groups are well formed, and each item holds the drinks list exactly when the category has one, it is not empty and the item has it on |
| `MenuInvariants.RunIsCoherent` | backend/internal/catalog/usd.go:45-220 | after every serial run of writes without stale cents and of rates with at most four decimals, every dollar price of an item, option or drink is its cents at the stored rate |
| `MenuInvariants.UpdatedIsStored` | backend/internal/catalog/menu.go:796-818 | saving an item without the drinks switch leaves its copied drinks untouched |
| `Amounts.ParseAmount` | backend/internal/catalog/pricesync_file.go:200-230 | the amount a text says, or that it says none |
| `Amounts.AcceptedIsDecimal` | backend/internal/catalog/pricesync_file.go:208-228 | every collected text that passes the checks is a decimal number |
| `Amounts.RunesMean` | backend/internal/catalog/pricesync_file.go:203-219 | a digit has three forms, Latin, Arabic and Persian, and the decimal mark two |
| `Amounts.ScriptsReadAlike` | backend/internal/catalog/pricesync_file.go:205-219 | another script of digits or the other decimal mark never changes the amount |
| `Amounts.PrintedWhole` | backend/internal/catalog/pricesync_file.go:206-222 | a whole number printed in any script with grouping marks is read as the number, behind any label and with any unit, negative when a minus stands anywhere before it |
| `Amounts.PrintedFraction` | backend/internal/catalog/pricesync_file.go:206-222 | so is a number with digits on both sides of a decimal mark |
| `Amounts.LeadingPoint` | backend/internal/catalog/pricesync_file.go:207-222 | a mark with no digit before it: without a minus before it the digits behind it are read as a whole number, with one as the negative fraction |
| `Amounts.ReadBackIff` | backend/internal/catalog/pricesync_file.go:206-228 | a number is read back with its fraction exactly when a digit or a minus stands before the mark, or all digits behind it are zero |
| `Amounts.ItoaIsRead` | backend/internal/catalog/pricesync_file.go:206-228 | a whole number as it is printed is read as itself |
| `Amounts.FractionIsRead` | backend/internal/catalog/pricesync_file.go:206-228 | with digits behind a mark it is the number of all the digits over the power of ten of those behind the mark |
| `WeightNames.AmountDigitsAreLinks` | backend/internal/catalog/pricesync_file.go:203-218 | the digits of amounts are those that links are translated from |
| `NoPhoto.ListNoPhotoItems` | backend/internal/catalog/menu_nophoto.go:26-71 | the page row by row: an item is on it exactly when it has no photo, comes after the cursor and not after the next one; in order, with the limit kept, a next cursor exactly when the page is full, and the total of items without a photo |
| `NoPhoto.SteadyIsShownOnce` | backend/internal/catalog/menu_nophoto.go:42-68 | a walk along the cursors shows every item that stays without a photo exactly once, whatever happens to the others |
| `NoPhoto.SteadyInOrder` | backend/internal/catalog/menu_nophoto.go:42-68 | and in order |
| `NoPhoto.BetweenCursors` | backend/internal/catalog/menu_nophoto.go:42-68 | whatever becomes of the cursors: the pages from one cursor to another, those between staying, show a steady item exactly when it is behind the first as that is now and not behind the second as that was |
| `NoPhoto.LostCursor` | backend/internal/catalog/menu_nophoto.go:42-46 | a cursor whose row is gone ends the walk, which has then shown a steady item exactly when it is not behind that cursor as it was |
| `NoPhoto.LostCursorSkips` | backend/internal/catalog/menu_nophoto.go:42-46 | a walk to the end in which an item that never changes is not shown |
| `NoPhoto.MovedCursorRepeats` | backend/internal/catalog/menu_nophoto.go:42-46 | a walk in which a cursor moves to the front and an item that never changes is shown twice |
| `Geometry.ProjectIsNearest` | maps/scripts/driver-streets-to-osc.py:77-85 | the projected point is the nearest point of the segment |
| `SegmentIndex.Index.constructor` | maps/scripts/driver-streets-to-osc.py:91-103 | every routable segment with known ends is filed under all cells of its box, and nothing else is |
| `SegmentIndex.SegmentsMean` | maps/scripts/driver-streets-to-osc.py:35-40 | the segments are those of the drivable roads between known nodes |
| `SegmentIndex.NearSegmentIsReached` | maps/scripts/driver-streets-to-osc.py:105-114 | a segment within the radius is filed under a cell that is looked at |
| `SegmentIndex.Index.Nearest` | maps/scripts/driver-streets-to-osc.py:105-122 | a segment with the least distance and then way id among all within the radius; none exactly when there is none |
| `Splice.InsertOnSegment` | maps/scripts/driver-streets-to-osc.py:185-203 | the refs with the new node, for any refs |
| `Splice.LandsOnSegmentIff` | maps/scripts/driver-streets-to-osc.py:185-203 | into a way without junctions the node goes directly between the ends of its segment exactly when a stated condition on the first-met node holds |
| `Splice.ClosedWayIsSplicedElsewhere` | maps/scripts/driver-streets-to-osc.py:185-203 | the last segment of a closed way of three nodes is spliced on its first whenever the second node is at least as far away |
| `Splice.OrderedIsMet` | maps/scripts/driver-streets-to-osc.py:185-203 | a way with both nodes always takes the junction |
| `Weave.SpliceIsWoven` | maps/scripts/driver-streets-to-osc.py:185-203 | on a segment that is the first of its road with either of its nodes a junction joins the run of that segment and no other |
| `Weave.GapStaysOrderly` | maps/scripts/driver-streets-to-osc.py:195-202 | the run stays in order of distance from the first-met end |
| `Splice.SharesOrder` | maps/scripts/driver-streets-to-osc.py:195-202 | on a segment the order of distance from an end is that of the shares |
| `Weave.OriginalsOfInsert` | maps/scripts/driver-streets-to-osc.py:203-203 | deleting the junction gives back the refs as they were |
| `StreetJoin.JunctionKeepsNet` | maps/scripts/driver-streets-to-osc.py:164-176 | a junction leaves every changed road its id and tags, its version one up, and its refs the old ones with junctions added |
| `StreetJoin.JunctionKeepsCourses` | maps/scripts/driver-streets-to-osc.py:164-176 | and keeps the junctions of every road of a set on their segments, in order, if it is on such a segment or on none of them |
| `StreetJoin.JunctionIsPlaced` | maps/scripts/driver-streets-to-osc.py:164-176 | and is put on its own road, once, and on no other |
| `StreetJoin.ClearSegmentTakesJunction` | maps/scripts/driver-streets-to-osc.py:173-176 | such a segment never refuses a junction |
| `Streets.SimpleRoadIsClear` | maps/scripts/driver-streets-to-osc.py:125-183 | a road that passes no node twice takes junctions on such segments only |
| `Streets.ClosedRoadIsClear` | maps/scripts/driver-streets-to-osc.py:125-183 | so does a closed road while nothing joins the segment that closes it |
| `StreetBuild.IsMapped` | maps/scripts/driver-streets-to-osc.py:137-141 | a street counts as mapped when the share of its known nodes near a routable segment is reached |
| `Streets.JoinTo` | maps/scripts/driver-streets-to-osc.py:150-176 | a point is joined by the first node of its nearest segment within the snapping distance of the foot, else by the second, and the map is unchanged; else by the next junction, at the foot, spliced into that road |
| `Streets.JoinEnd` | maps/scripts/driver-streets-to-osc.py:146-182 | an end stays open exactly when nothing is near; otherwise the street is extended by the node that joins it to a nearest segment, with the least distance and then way id, and that node is on the changed road |
| `StreetBuild.Build` | maps/scripts/driver-streets-to-osc.py:125-183 | a whole build with separate id ranges: which streets are new; the refs of each output street between its joins are all its own refs that are known, in their order and with their repetitions, and the ends joined are the first and the last of them; each end joined to the nearest road exactly when one is near; what is created and where; changed roads are revisions, changed by junctions only, with every junction on one road, once, in its course; the counts of the report; and no failure when all roads take junctions as above |
| `StreetBuild.EndsMean` | maps/scripts/driver-streets-to-osc.py:143-182 | the ends of a new street are the first and the last of its own known refs |
| `StreetBuild.StreetCounts` | maps/scripts/driver-streets-to-osc.py:131-141 | and it is on the map exactly when eight tenths of those are near a road |
| `Quiet.NextAllowedIsLeast` | backend/internal/campaigns/policy.go:75-100 | the least instant from t on outside quiet hours, for both orders of the bounds |
| `Quiet.InQuietIsSilent` | backend/internal/campaigns/policy.go:68-88 | an hour is quiet exactly when it is one of those from the first bound on, round the clock, to before the second |
| `Campaigns.CampaignDb.ClaimCampaign` | backend/internal/campaigns/send.go:35-47 | the claim succeeds exactly when the row is due or its lease has run out |
| `Campaigns.CampaignDb.ClaimRecipient` | backend/internal/campaigns/send.go:190-199 | the insert that succeeds once per campaign and user |
| `Campaigns.CampaignDb.Distribute` | backend/internal/campaigns/send.go:121-167 | outside quiet hours the chosen users become recipients, are notified and marked, in order |
| `Campaigns.CampaignDb.Execute` | backend/internal/campaigns/send.go:77-188 | an undisturbed execution, field by field. Not ready: failed, without a claim. In quiet hours, for bounds that are hours of the day: scheduled for the least instant from now on outside them, without a claim, everyone deferred and nobody added. Otherwise: sent, without a claim, the users under the cap who have not had it added and notified in order, and the counts of those |
| `Campaigns.CampaignDb.Send` | backend/internal/campaigns/send.go:53-115 | a call of Send: an unclaimable campaign and everything else stay as they are; a claimable one is executed as above |
| `Campaigns.SendMeans` | backend/internal/campaigns/send.go:35-115 | the claim leaves no trace in what an execution leaves |
| `Campaigns.SendAgain` | backend/internal/campaigns/send.go:49-74 | a campaign sent or failed is never sent again, one put off reaches nobody while quiet hours last, and the same call again changes nothing |
| `Campaigns.WinnersAreListed` | backend/internal/campaigns/send.go:123-152 | the chosen are the listed users under the cap who have not had the campaign, each once |
| `CampaignProtocol.AtMostOnce` | backend/internal/campaigns/send.go:123-167 | over every interleaving of executors, crashes, lost replies, expired leases and repeated sends: nobody is notified twice, the notified are recipients, the gap is at most the crashes and lost replies, a subscription is marked only after its Notify |
| `CampaignProtocol.NotifiedOnce` | backend/internal/campaigns/send.go:190-199 | the log has no pair twice |
| `CampaignCounts.CompletedRow` | backend/internal/campaigns/send.go:121-186 | the final statement in every run: its counts are the users it read, those it notified and those it passed by since its claim; and the campaign is sent, or, when the audience was read in quiet hours, put off to the least instant from then on outside them, nobody notified |
| `CampaignCounts.RunIsQuiet` | backend/internal/campaigns/send.go:121-167 | in every run an execution that read its audience in quiet hours notifies nobody and passes everyone by |
| `CampaignCounts.RunKeepsTimes` | backend/internal/campaigns/send.go:35-47 | in every run a scheduled campaign has its time, so that it comes due, and a draft has none |
| `CampaignCounts.CreatedIsToCome` | backend/internal/campaigns/service.go:149-214 | a campaign is created once, as a draft or for a time to come |
| `CampaignLease.OneExecutor` | backend/internal/campaigns/send.go:26-47 | when every execution ends or dies within its lease, no two run a campaign at a time |
| `CampaignLease.DoneForGood` | backend/internal/campaigns/send.go:169-216 | then sent, failed and cancelled are never left and such a campaign gains no recipient |
| `CampaignLease.TouchedIffLate` | backend/internal/campaigns/send.go:126-216 | without that assumption: a step changes the row of a campaign that is done, or its recipients, exactly when it is a late write, an insert of a new recipient or a final statement that changes the row, by an executor of that campaign |
| `CampaignLease.DoneStaysIff` | backend/internal/campaigns/send.go:126-216 | in any run a campaign that is done stays as it is exactly when no later step is a late write to it |
| `CampaignLease.LateAfterLease` | backend/internal/campaigns/send.go:26-47 | a late write comes only after time has passed beyond some execution's lease |
| `CampaignLease.LateFinish` | backend/internal/campaigns/send.go:169-186 | an executor at the end of its audience always can finish, and never leaves its campaign cancelled or failed |
| `CampaignLease.LateExecutionBreaksCancel` | backend/internal/campaigns/send.go:121-186 | it happens: a run in which an execution that outlived its lease adds a recipient to a cancelled campaign and marks it sent |
| `CampaignCap.DailyBound` | backend/internal/campaigns/send.go:123-152 | with at most k executions at a time no user has more than cap + k - 1 recipient rows in one Damascus day |
| `Promos.EditPromo` | backend/internal/catalog/promos.go:425-519 | an edit is accepted exactly when a row with the stated fields exists, and writes it: each term sent put and each absent one kept, the code on exactly as sent or as it was, off and waiting when it gives more than finance approved; and what becomes of the request |
| `Promos.NewPromoMeans` | backend/internal/catalog/promos.go:324-358 | a new code is the only one with the stated fields, and refused exactly when there is none |
| `Promos.NeedsApprovalMeans` | backend/internal/catalog/promos.go:225-239 | a code needs finance exactly when it may be used more than fifty times or, its cap apart, takes more than a fifth of some order it serves |
| `Promos.MaxCostIsMost` | backend/internal/catalog/promos.go:241-254 | the cost stated in a request is the most the code can take in all its uses, and some order takes that much |
| `Promos.ActiveIffLive` | backend/internal/catalog/promos.go:82-102 | the status is active exactly when the SQL condition counts the code |
| `Promos.UsableIffActive` | backend/internal/orders/service.go:1268-1281 | an order takes a code exactly when its status is active, or at the very instant of its expiry |
| `Promos.CutMeans` | backend/internal/orders/service.go:1330-1356 | what a code takes: an amount up to the goods, a percentage rounded down and up to its cap, or the fee of the delivery |
| `Promos.FreeCutIsSmall` | backend/internal/orders/service.go:1330-1356 | a percentage or amount within the limit takes at most a fifth of any order it serves |
| `Promos.CutIsBounded` | backend/internal/orders/service.go:1330-1356 | no code takes more than the goods, its cap or its amount |
| `PromoRuns.PromoDb.CreatePromo` | backend/internal/catalog/promos.go:324-397 | accepted exactly when such a code can be made and no other has its text; then the code is added, with its waiting request when it is above the limit |
| `PromoRuns.PromoDb.UpdatePromo` | backend/internal/catalog/promos.go:403-542 | accepted exactly when such an edit exists; then the code is changed, and its one pending request written anew under its id, added, left or withdrawn, with all other requests as they were |
| `PromoRuns.PromoDb.DecideApproval` | backend/internal/server/promos_handlers.go:179-231 | accepted exactly for a waiting request; the code is approved and on, or rejected and off, and nothing else of it changes |
| `PromoRuns.StepMeans` | backend/internal/catalog/promos.go:324-542 | every step of a run: what it does when it may, and that it does nothing when it may not |
| `PromoRuns.UseMeans` | backend/internal/orders/service.go:1241-1328 | which orders a code serves, and that serving one adds one use, under that order |
| `PromoRuns.ReleaseMeans` | backend/internal/orders/transitions.go:536-550 | a cancelled order gives its use back, once |
| `PromoRuns.RunKeepsBook` | backend/internal/catalog/promos.go:358-519 | what every run keeps of codes, requests and uses |
| `PromoRuns.ServesOnlyApproved` | backend/internal/catalog/promos.go:425-519 | in every run an active code is approved, a code waits exactly while it has a pending request, and an active code above the limit has the gift finance last approved, for the same people or fewer |
| `PromoRuns.ReadStaysIff` | backend/internal/catalog/promos.go:488-511 | over every run a request that is still waiting is as it was read exactly when no edit between has rewritten it; it keeps its id either way |
| `PromoRuns.FinanceApprovesWhatItRead` | backend/internal/catalog/promos.go:488-511 | approving a request approves the gift it is written from then, for the same people or fewer, at the stated amount; and that is the gift finance read earlier when no edit has rewritten the request since |
| `PromoRuns.StaleApproval` | backend/internal/catalog/promos.go:496-502 | a run in which 51 uses are read and 100 approved under the same request |
| `PromoRuns.UseIsBounded` | backend/internal/orders/service.go:1241-1356 | a code never approved or within the limit takes at most a fifth and is used at most fifty times; one above it takes what the approved terms take |
| `CashDesk.CashDb.ApplyTx` | backend/internal/cashbox/cashbox.go:260-282 | a movement is refused exactly when the box would fall below zero or it is booked once already; otherwise it is in the box and at the end of the ledger, and nothing else changes |
| `CashDesk.CashDb.CollectTx` | backend/internal/cashbox/cashbox.go:294-300 | a collection is such a movement; nothing for no amount |
| `CashDesk.CashDb.TakeTx` | backend/internal/cashbox/cashbox.go:305-357 | a settlement, waiver or reversal is one that takes out, refused without a positive amount |
| `CashDesk.CashDb.ReturnRecipientCashTx` | backend/internal/cashbox/cashbox.go:317-325 | cash given back to the recipient is one that takes out, once per order, and nothing for no amount |
| `CashDesk.CashDb.GuardTx` | backend/internal/cashbox/exposure.go:133-163 | a positive amount passes exactly when the exposure with it is within the driver's own limit, or else the general one, and no receipt from before the cutoff is left when everything handed over pays the oldest first; it is overdue exactly when one is left and the limit is kept; no amount always passes |
| `CashStatement.StatementPage` | backend/internal/cashbox/cashbox.go:142-234 | the two halves of a statement are the exposure the guard compares; the limit in force, the page asked for of the entries newest first, and their number |
| `CashStatement.PagesAreTheLedger` | backend/internal/cashbox/cashbox.go:199-203 | turning the pages shows every entry once, newest first, and their amounts sum to the driver's sum |
| `CashStatement.NewestIsLastFirst` | backend/internal/cashbox/cashbox.go:199-203 | the list of a driver's entries has each of them once, the last first |
| `CashAge.OldestUnpaidIsFirstLeft` | backend/internal/migrate/migrations/0330_cash_section.sql:15-30 | the running totals in order of time give the oldest receipt left when everything handed over pays the oldest receipt first; nothing is left exactly when nothing is held |
| `CashAge.OverdueMeans` | backend/internal/migrate/migrations/0476_account_day_9am.sql:32-45 | the age passes a cutoff exactly when something is left of a receipt from before it |
| `CashAge.OldestUnpaidIsFirstUnsettled` | backend/internal/migrate/migrations/0330_cash_section.sql:5-30 | where receipts are entered in order of time that is the first receipt left when the ledger is paid off entry by entry |
| `CashAge.LateEntryIsOlder` | backend/internal/migrate/migrations/0330_cash_section.sql:15-30 | where they are not it need not be |
| `CashAge.LeftIsPaidOff` | backend/internal/migrate/migrations/0330_cash_section.sql:5-13 | paying off entry by entry leaves what paying everything at once leaves |
| `CashRuns.RunKeepsLedger` | backend/internal/cashbox/cashbox.go:260-357 | in every run a box is the sum of its driver's entries and never below zero, and no more of an order is reversed than was collected |
| `CashRuns.OnlyAssignRaises` | backend/internal/cashbox/exposure.go:66-79 | no collection closing its order, settlement, waiver, return or reversal raises anybody's exposure |
| `CashRuns.LockAfter` | backend/internal/orders/admission.go:80-120 | which driver holds a lock, for which order and under which limit, after any step |
| `CashRuns.OrderAfter` | backend/internal/orders/admission.go:80-120 | with whom an order is and whether it is open, after any step |
| `CashRuns.LimitAfter` | backend/internal/cashbox/exposure.go:133-163 | a driver's own limit is what was last set |
| `CashRuns.MoneyAfter` | backend/internal/cashbox/cashbox.go:260-357 | which movement a step asks for; no other step moves cash |
| `CashRuns.DeliveryConserves` | backend/internal/orders/cash_settlement.go:389-420 | a delivery turns what is due of the order into cash held, less what the driver paid out for it and no more than that; nobody else's moves |
| `CashRuns.ReversalTakesAll` | backend/internal/cashbox/cashbox.go:326-357 | a reversal leaves the driver nothing of what was collected for the order, or nothing at all |
| `CashRuns.AdmissionsAreWithinLimit` | backend/internal/cashbox/exposure.go:133-163 | an admission that read under the driver's lock leaves him within the limit in force when it read, however others interleave before it writes |
| `CashRuns.LockIsNeeded` | backend/internal/cashbox/exposure.go:83-99 | without the lock, two free orders that pass the guard one by one leave the driver above the limit exactly when they do not fit under it together |
| `CashRuns.TwoOrdersOfSixty` | backend/internal/cashbox/exposure.go:83-99 | it happens: two orders of 60 pass a limit of 100 one by one and leave 120 |
| `CashRuns.AgeOverRuns` | backend/internal/migrate/migrations/0330_cash_section.sql:15-30 | in every run, whatever the times of its steps, the age of a driver's cash is that of his oldest receipt by time not paid off, and what is left is what he holds |
| `CleanDev.Pass` | backend/cmd/cleandev/main.go:150-166 | one pass: what was deleted, which tables stay, and progress unless every table was refused |
| `CleanDev.Run` | backend/cmd/cleandev/main.go:148-175 | all targets are emptied exactly when some order of deletions empties them; otherwise nothing is deleted and the tables reported are refused where the passes stopped |
| `CleanDev.NoWayOn` | backend/cmd/cleandev/main.go:148-170 | where every target is empty or refused, no order of deletions gets any further |
| `CleanDev.StaysPossible` | backend/cmd/cleandev/main.go:152-165 | a deletion that is possible stays possible when other tables have gone |
| `CleanDev.DeletionMeans` | backend/cmd/cleandev/main.go:150-166 | a deletion takes the table's rows and what cascades from them, no more, and is refused exactly when a reference of a row it leaves would dangle |
| `CleanDev.PossibleIffNeverStuck` | backend/cmd/cleandev/main.go:148-170 | with any cascades: the targets can be emptied exactly when no part of the rows, closed under what it cascades from, has rows of a target and refuses every target it has rows of |
| `CleanDev.PossibleIffNoKnot` | backend/cmd/cleandev/main.go:148-170 | without cascades that is: no set of targets is knotted, each blocked by a row of another one of them or of a kept table |

## Left out

- Floating-point rounding, integer overflow and the range of a float64: reals and unbounded integers throughout. Distances are compared by their squares, and cosine is a function into (0, 1].
- Unicode tables: lower case, letters, digits and upper case are parameters, about which nothing is assumed; strconv.ParseFloat is one where names of weights are read, assumed to read plain decimals (`OptionModes.ReadsDecimals`). What it returns for NaN counts as not understood.
- The price a weight option gets from the database triggers of migration 0482: the option keeps the difference that was sent.
- `merchant_price` and `price` are always written alike and are one field here; descriptions, images, margins, sort orders, audit rows, samples of a rate jump or a bulk change, and the rows of price_sync_runs are left out.
- Concurrent writes to one menu, which is why the menu results speak of serial runs; the deletion of items; sections other than the set of active ones.
- PriceSync.InsertNewItems: rows inserted by one statement are kept in list order, although the database may give them any; `SyncTheorems.SecondRunCreatesNothing` holds for every order.
- Reading XLSX and CSV files and choosing their columns (`SyncRows`).
- The order of `sorted(st_ways)`: `StreetBuild.Build` holds for streets in any order. Parsing and writing OSM XML.
- StreetBuild.Build: with overlapping id ranges only the second clause speaks, as the source keeps the ranges apart by choice of ids.
- Campaign categories other than engagement, which pass over quiet hours and the cap; the audience queries, destinations and idempotency key of `Create`; the recovery of abandoned rows by a worker, which the source does not have: a resumed campaign is an explicit claim.
- Campaigns.CampaignDb.Execute: the clock stands still and nothing else runs; `CampaignProtocol` has the interleavings.
- Errors when today's count is read pass over the cap in the source; `CampaignProtocol.SkipCap` is that step, and `CampaignCap` excludes it.
- The text of an approval note, of which the terms it was written from are kept; bound codes, phone hashes and the rule about proposers approving their own codes; offers.
- The wallet, merchant payments and the order's own states: an order is its driver, its cash and whether it is open, its cash does not change while it is open, and a delivery collects at most that cash. The cap on active orders.
- ON DELETE RESTRICT is checked like NO ACTION, at the end of a statement; the columns set to NULL before the passes are simply not references.
- The collation of names: an item's place in the order of section, name and id is a number.
- Seeds, permissions, tokens, presets, zones, hours and banners: wrappers, data and single checks.
