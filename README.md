# Atlas filter and page logic of the ryuddi site, modelled in Dafny

`script.js` drives a static craft-portfolio site. This project models the
part of it that makes decisions, outside the browser. Items and chips become
records and sequences. DOM elements that the code updates in place become
classes:

- **Atlas filter pass** (`applyAtlasFilter`). Each catalog item is an `Item`
  record. The active chips give a `FilterState`. The pass runs in
  `AtlasPage.Page.MarkItems` and `AtlasPage.Page.ApplyFilter` over the
  `items` array. It writes one display flag per item into `shown`, collects
  the suppressed wear items in document order, rebuilds the "more" list,
  decides the hint, and relabels the advanced-filter button. Its effect on
  the list and hint is the pure function `PassPanels`, and the lemmas are
  about that function.
- **Chip groups** (`Chips.ChipGroup`). Each group holds the `active` and
  `aria-pressed` flags of its chips. A region click selects the clicked chip.
  A method, author or season click toggles it. `AtlasController.Atlas`
  composes the click listeners. A method click runs the pass twice: once
  before the toggle and once after it.
- **"More" list and hint**. `HintClick` is the state after the hint's button
  has been clicked and its animation has settled. `CloseReset` followed by
  `PassPanels` is the state after the close button has settled, which
  re-runs the pass.
- The **advanced-filter badge label**, the **cart badge** total and text, the
  **header base directory** and link rewriting, the **index.html
  normalisation**, the **related-works** manifest path, site base, `resolve`
  and technique filter, the **stagger schedules** of the list animations,
  the **showreel** rotation and the **petal** population cap.

A missing `data-filter-*` attribute on a chip is modelled as the empty
string. `script.js` treats `null` and `""` alike as a method, author or
season key: both are falsy. As a region key, both are different from
`"all"`, and neither occurs among an item's region tokens, because
`filter(Boolean)` drops empty tokens (script.js:755). `Item` records are
taken to be read that way. `AtlasFilter.WellFormed` states this: no empty
region token, and no empty author or season. `EmptyRegionKeyHidesAll` shows
that for such items a region chip with an empty key hides everything, as
`null` does in the source.

Four behaviours of `script.js` as written are stated as lemmas:

- `AtlasPage.HintCanShowWithoutButton`: only the close button makes the
  hint's button visible again. Open the list, select a method, then clear
  it. The hint comes back with its button still invisible, and the hidden
  list keeps `is-open`.
- `AtlasPage.ReducedMotionStaysAnimating`: on the reduced-motion path,
  opening the list adds `is-animating-more` to the body
  (script.js:874) and never removes it (script.js:924-934). A filter pass
  and the hint's button leave it in place. Only the close button clears it
  (script.js:951).
- Choosing a facet does not always narrow the visible set. Region, author
  and season do narrow it (`RegionNarrows`, `AuthorNarrows`,
  `SeasonNarrows`). Choosing a method narrows only the base filter
  (`MethodNarrowsBase`), because it also releases the suppressed wear items
  (`MethodCanWiden`).
- The close handler computes a settle time that covers the exit animation
  (script.js:1000), but it schedules its finalisation with the literal
  1150 ms (script.js:1015). See Findings.

## Model

| member | source | states |
|---|---|---|
| `AtlasFilter.SuppressedItems` | script.js:752-769 | the suppressed list is no longer than the grid and holds only items that pass the base filter, are tagged wear, are not featured, with no method selected |
| `AtlasFilter.BaseOk` | script.js:760-766 | the region, method, author, season and process tests of one item; how facets narrow it is `RegionNarrows` to `MethodNarrowsBase` |
| `AtlasFilter.IsSuppressed` | script.js:750-768 | a non-featured wear item passing the base test with no method selected; its law is `SuppressionLaw` |
| `AtlasFilter.Shown` | script.js:770 | the display flag of one item; its relation to the other two outcomes is `Trichotomy` |
| `AtlasFilter.WellFormed` | script.js:755-759 | an item as read from its attributes: no empty region token, no empty author or season |
| `AtlasFilter.EmptyRegionKeyHidesAll` | script.js:742-760 | a region chip whose key is empty or missing hides every well-formed item and suppresses none |
| `AtlasFilter.SuppressedMembership` | script.js:768-769 | an item is in the suppressed list exactly when it is in the grid and suppressed (both directions) |
| `AtlasFilter.SuppressedAppend` | script.js:753-769 | collecting over two stretches of the grid concatenates their collections, so document order is kept |
| `AtlasFilter.MethodSuppressesNothing` | script.js:750-769 | with any method selected the suppressed list is empty |
| `AtlasFilter.Trichotomy` | script.js:766-770 | every item is in at least one of three places (shown, suppressed, hidden by the base filter), and no item is in two of them |
| `AtlasFilter.SuppressionLaw` | script.js:767-770 | a non-featured wear item that passes the base filter is hidden exactly when no method is selected |
| `AtlasFilter.RegionNarrows` | script.js:760 | choosing a region instead of "all" never shows an item that was hidden |
| `AtlasFilter.AuthorNarrows` | script.js:762 | choosing an author never shows an item that was hidden |
| `AtlasFilter.SeasonNarrows` | script.js:763 | choosing a season never shows an item that was hidden |
| `AtlasFilter.MethodNarrowsBase` | script.js:761 | choosing a method narrows the base filter |
| `AtlasFilter.MethodCanWiden` | script.js:750-770 | choosing a method can show an item that was hidden: a non-featured wear item |
| `AtlasPage.Page.MarkItems` | script.js:751-771 | display flag of item i is exactly its base test and not-suppressed; the collected list is the suppressed items in document order, with its count |
| `AtlasPage.Page.ApplyFilter` | script.js:740-810 | the new flags, list, hint and button label are those of one pass over the old list and hint state |
| `AtlasPage.Page.UpdateBadge` | script.js:413-435 | the button shows the badge label when the page has both the button and the advanced panel; list and hint are untouched |
| `AtlasPage.PassRebuildsMore` | script.js:785-806 | after a pass the "more" list is exactly the suppressed items, in order, with nothing left from earlier passes |
| `AtlasPage.PassPanels` | script.js:773-807 | the list and hint after one pass; its properties are `PassRebuildsMore`, `PassListState`, `PassHint` and `PassIdempotent` |
| `AtlasPage.HintClick` | script.js:862-939 | the settled state after the hint's button; its traces are `OpenCloseReopen`, `HintCanShowWithoutButton` and `ReducedMotionStaysAnimating` |
| `AtlasPage.CloseReset` | script.js:1001-1013 | what the close finalisation sets before its pass; the state after the pass is `CloseShowsHint` |
| `AtlasPage.ReducedMotionStaysAnimating` | script.js:869-951 | under reduced motion, opening leaves is-animating-more set through passes and hint clicks until the close button clears it; with motion it ends cleared |
| `AtlasPage.PassListState` | script.js:789-805 | a pass never opens the list and never touches is-open; it hides an open list exactly when a method is selected or nothing is suppressed |
| `AtlasPage.PassHint` | script.js:775-783 | after a pass the hint is visible exactly when no method is selected, something is suppressed and the list is hidden |
| `AtlasPage.PassIdempotent` | script.js:740-810 | a second pass with the same chips changes nothing |
| `AtlasPage.DoublePass` | script.js:714-724 | the extra pass of a method click leaves no trace if the list was hidden or the old chips did not force it hidden |
| `AtlasPage.DoublePassMore` | script.js:813-819 | after the two passes of a method click the "more" list is the new chips' suppressed set |
| `AtlasPage.OpenCloseReopen` | script.js:862-1015 | open, close, reopen: the list shows the same suppressed items each time, and the hint is back in between |
| `AtlasPage.CloseShowsHint` | script.js:1001-1014 | after the close settles the list is hidden and not open, and the hint shows exactly when no method is selected and something is suppressed |
| `AtlasPage.HintCanShowWithoutButton` | script.js:877 | a reachable state where the hint is visible, its button is invisible, and the hidden list keeps is-open |
| `AtlasPage.Page.HintButtonClick` | script.js:862-939 | hidden list: opens it, hides hint and button; open list: closes it; nothing without a list |
| `AtlasPage.Page.CloseButtonClick` | script.js:943-1016 | closes the list, restores hint and button, then leaves the state of a pass with the current chips |
| `AtlasPage.Page.constructor` | script.js:751 | the page starts with the given items and list and hint state |
| `Chips.FirstActive` | script.js:741-748 | the first active chip in document order, or none when no chip is active |
| `Chips.FirstActiveUnique` | script.js:741-748 | in a group with at most one active chip, the query finds that chip |
| `Chips.OnlyAtSelects` | script.js:720-722 | a selection leaves exactly the clicked chip active |
| `Chips.ClearLeavesNone` | script.js:817 | clearing the one active chip leaves none active |
| `Chips.ChipGroup.Active` | script.js:741-748 | the group reports no chip exactly when none is active |
| `Chips.ChipGroup.constructor` | script.js:716-717 | a group with the given keys, labels and flags |
| `Chips.ChipGroup.ClearAll` | script.js:720 | every chip loses active and gets aria-pressed false |
| `Chips.ChipGroup.Select` | script.js:719-722 | only the clicked chip is active, aria-pressed equals active, and the group reports that chip |
| `Chips.ChipGroup.Toggle` | script.js:817-818 | clicking the active chip clears only it (none active if at most one was); clicking another selects only that one, with aria-pressed equal to active |
| `AtlasController.KeyOfGroup` | script.js:743-750 | in a group with at most one active chip, the key read is that chip's key, none for an empty key, and none when no chip is active |
| `AtlasController.RegionOfGroup` | script.js:741-742 | in a region group with at most one active chip, the region read is that chip's key, and "all" when no chip is active |
| `AtlasController.Atlas.FilterReadsChips` | script.js:741-748 | with every group single-select, each facet of the filter state is determined by the chip flags: the active chip's key, "all" for no region chip, none for no chip or an empty key |
| `AtlasController.Atlas.Filter` | script.js:741-748 | the filter state the pass reads from the four groups' active chips; characterised by `FilterReadsChips` |
| `AtlasController.Atlas.Labels` | script.js:418-427 | the labels the badge reads from the four groups' active chips, in the order region, method, season, author |
| `AtlasController.RegionLabelIffRegionFilter` | script.js:419-421 | the badge starts with a region label exactly when the pass filters by region |
| `AtlasController.Atlas.constructor` | script.js:713-714 | the listeners over one page and four distinct chip groups |
| `AtlasController.Atlas.Load` | script.js:256-257 | the load-time pass: flags, list, hint and badge become one pass over the markup state with the chips the markup marks active, so non-featured wear items are hidden before any click |
| `AtlasController.Atlas.RegionClick` | script.js:714-725 | the clicked region chip is the only one active; the page is one pass with the new chips |
| `AtlasController.Atlas.MethodClick` | script.js:813-821 | the method chip toggles; the page is a pass with the old chips followed by one with the new chips |
| `AtlasController.Atlas.AuthorClick` | script.js:824-832 | the author chip toggles; the page is one pass with the new chips |
| `AtlasController.Atlas.SeasonClick` | script.js:835-843 | the season chip toggles; the page is one pass with the new chips |
| `AtlasController.Atlas.CloseClick` | script.js:1001-1015 | the close button's final state, using the chips active when it settles: flags, list, hint and the badge relabelled by the final pass; nothing changes without a list |
| `FilterBadge.CollectLabels` | script.js:418-427 | one label per contributing chip, in the order region (only when its key is not "all"), method, season, author: the length is the number of contributors and each contributor's label sits at its index |
| `FilterBadge.Join` | script.js:431-433 | `Array.prototype.join`; its values for one and two labels are spelled out by `BadgeLabelCases` |
| `FilterBadge.BadgeLabel` | script.js:428-434 | the button text for the collected labels; its three cases are `BadgeLabelCases`, the count read back is `BadgeCountRecoverable` |
| `FilterBadge.BadgeLabelCases` | script.js:428-434 | no label: "絞り込み"; one or two: joined by "・"; more: the first two joined, " ほか", then the decimal of the rest |
| `FilterBadge.BadgeCountRecoverable` | script.js:433 | with more than two labels the digits after " ほか" read back as the number of labels beyond two |
| `FilterBadge.DefaultIffNoFacet` | script.js:418-434 | the default phrase shows exactly when no facet is active (region "all" counts as none), if no chip is labelled with it |
| `CartBadge.BadgeText` | script.js:358 | the text is empty exactly when the total is zero |
| `CartBadge.QtyOf` | script.js:356 | the quantity of a non-null entry, 0 when it is missing or falsy |
| `CartBadge.SumQty` | script.js:356 | the reduce over the entries; it splits over concatenation (`SumQtyAppend`) and is zero exactly for zero quantities (`SumQtyZero`) |
| `CartBadge.Total` | script.js:355-357 | the total with every failure read as 0; shown by `BadgeShowsTotal` and `FailuresShowNothing` |
| `CartBadge.SumQtyAppend` | script.js:356 | the reduce splits over concatenation |
| `CartBadge.SumQtyZero` | script.js:356-358 | with non-negative quantities the total is non-negative and zero exactly when every quantity is zero or missing |
| `CartBadge.BadgeShowsTotal` | script.js:355-358 | the badge is empty exactly for a zero total; otherwise it reads back as the total |
| `CartBadge.FailuresShowNothing` | script.js:356 | malformed data, a non-array or a null entry gives an empty badge |
| `CartBadge.Example` | script.js:355-358 | quantities 2, 0, 3 show "5"; an empty cart shows nothing |
| `CartBadge.Badge.constructor` | script.js:351-359 | the badge starts out showing the rendering of the stored total, as the first `render()` leaves it |
| `CartBadge.Badge.Render` | script.js:358 | the badge text is the rendering of the stored total |
| `CartBadge.Badge.OnStorage` | script.js:360 | a storage event for "ohana_cart" re-renders; any other key leaves the text alone |
| `Decimal.NatToString` | script.js:433 | non-empty, all digits, no leading zero |
| `Decimal.IntToString` | script.js:358 | non-empty; starts with '-' exactly for negatives |
| `Decimal.NatRoundTrip` | script.js:433 | parsing the decimal of n gives n |
| `Decimal.IntRoundTrip` | script.js:358 | parsing the decimal of any integer gives it back |
| `Decimal.IntToStringInjective` | script.js:358 | different totals render differently |
| `Links.LastSlash` | script.js:11 | the position of the last '/', or none when there is no '/' |
| `Links.HeaderBase` | script.js:11-12 | the base is non-empty and ends in '/' |
| `Links.HeaderBaseIsDirectory` | script.js:11-12 | the base is the script path up to its last '/', and the rest holds no '/'; a path without '/' gets one appended |
| `Links.KeepsHref` | script.js:23 | the links left alone: empty, "http", "mailto:", "#" and "tel:" prefixes |
| `Links.FixLink` | script.js:21-26 | the href an injected link ends up with; its shape is `FixLinkShape`, its slash rule `FixLinkSlashInsensitive` and `FixLinkSingleSlashAtJoin` |
| `Links.NormalizeIndex` | script.js:31-35 | the `/\/index\.html?$/` replacement; its properties are `NormalizeIndexIdempotent` and `NormalizeIndexVariants` |
| `Links.FixLinkShape` | script.js:21-25 | kept links are unchanged; other links become the base plus the href without one leading '/' |
| `Links.FixLinkSlashInsensitive` | script.js:25 | "x" and "/x" are rewritten to the same link |
| `Links.FixLinkSingleSlashAtJoin` | script.js:11-25 | under a header base a rewritten link has exactly one '/' at the join, unless the href began with "//" |
| `Links.NormalizeIndexIdempotent` | script.js:31 | a changed path ends in '/', and normalising twice equals normalising once |
| `Links.NormalizeIndexVariants` | script.js:31-35 | a directory, its index.html and its index.htm normalise to the same path |
| `RelatedWorks.IndexOfFrom` | script.js:1056 | the first occurrence at or after a position, or none |
| `RelatedWorks.IndexOf` | script.js:1056 | the first occurrence of the pattern, or none when it does not occur |
| `RelatedWorks.ManifestPath` | script.js:1053-1058 | the manifest path of a page; with `SiteBase` described by `SiteBaseOfPage` |
| `RelatedWorks.SiteBase` | script.js:1060 | the manifest path without its file name; characterised by `SiteBaseOfPage` and `SiteBaseRooted` |
| `RelatedWorks.Resolve` | script.js:1071-1076 | a card's link or cover against the site base; its cases are `ResolveCases`, its idempotence `ResolveIdempotent` |
| `RelatedWorks.SiteBaseOfPage` | script.js:1053-1060 | site base plus the manifest file is the manifest path; the base is empty, or the page path up to and including the '/' of its first "/works/" |
| `RelatedWorks.SiteBaseRooted` | script.js:1053-1060 | for a page path starting with '/' the site base is empty or root-relative |
| `RelatedWorks.ResolveCases` | script.js:1071-1076 | empty exactly for an empty path; absolute and root-relative paths kept; others prefixed by the site base |
| `RelatedWorks.ResolveIdempotent` | script.js:1071-1076 | with an empty or root-relative base, resolving twice equals resolving once |
| `RelatedWorks.RelatedTo` | script.js:1067 | a work is listed exactly when it is in the manifest and one of its techniques matches; order and duplicates are `RelatedToAppend` |
| `RelatedWorks.RelatedToAppend` | script.js:1067 | filtering a concatenation concatenates the filtered parts, so manifest order and duplicates are kept |
| `RelatedWorks.RelatedToSingle` | script.js:1067 | a single work is listed exactly when it matches; with `RelatedToAppend` this fixes the result for every manifest |
| `RelatedWorks.WorkMatches` | script.js:1067 | some technique of the work equals the key, or starts with it when the holder carries data-tech-prefix |
| `RelatedWorks.HolderHiddenIffNoMatch` | script.js:1067-1068 | the holder is hidden exactly when no manifest work matches |
| `RelatedWorks.ExactWithinPrefix` | script.js:1066-1067 | every work listed in exact mode is also listed in prefix mode |
| `RelatedWorks.Cards` | script.js:1069-1081 | one card per work, with its title; a card's link or cover is empty exactly when the work's is |
| `MoreListSchedule.EntryTopToBottom` | script.js:382-393 | entry delays grow down the list, starting at 0 |
| `MoreListSchedule.EntryDelays` | script.js:382-393 | the entry delay of each item, in ms; ordered by `EntryTopToBottom` |
| `MoreListSchedule.ExitDelays` | script.js:396-408 | the exit delay of each item, in ms; mirrored by `ExitMirrorsEntry` |
| `MoreListSchedule.ExitTotal` | script.js:409 | the total `animateMoreListOut` returns, in ms; covered by `ExitTotalCoversAll` |
| `MoreListSchedule.FinalizeDelayAsWritten` | script.js:1015 | the delay the close handler actually uses; falls short per `AsWrittenCutsExitShort` |
| `MoreListSchedule.SettleDelay` | script.js:1000 | the `settleMs` the handler computes; it covers the exit per `SettleAfterExit` |
| `MoreListSchedule.ExitMirrorsEntry` | script.js:396-408 | exit delays are entry delays mirrored: the last item leaves first |
| `MoreListSchedule.ExitTotalCoversAll` | script.js:401-409 | the exit total is when the first item, the last to leave, finishes |
| `MoreListSchedule.AsWrittenCutsExitShort` | script.js:1015 | with seven items the fixed 1150 ms finalisation fires before the exit animation ends |
| `MoreListSchedule.AsWrittenSkipsBuffer` | script.js:1015 | from six items on the fixed delay drops the 100 ms buffer |
| `MoreListSchedule.SettleAfterExit` | script.js:1000 | the computed settle time is at least the floor and after every item's exit plus the buffer; it equals 1150 up to five items |
| `Showreel.NextIndex` | script.js:517 | the next index stays in range and wraps from the last slide to the first |
| `Showreel.RotateBy` | script.js:517 | after any number of ticks the index is in range |
| `Showreel.RotateWithinRound` | script.js:517 | before the end of the reel, k ticks move k slides on |
| `Showreel.RotateCompose` | script.js:517 | a + b ticks are a ticks followed by b ticks |
| `Showreel.RotateWraps` | script.js:517 | from slide i, n - i ticks reach the first slide |
| `Showreel.RotationCoversAll` | script.js:517-519 | every slide comes up within one round, and a full round returns to the start |
| `Showreel.Reel.constructor` | script.js:502-518 | the reel starts at slide 0 with only slide 0 active |
| `Showreel.Reel.Activate` | script.js:506-516 | exactly the given slide is active |
| `Showreel.Reel.Next` | script.js:517 | the index advances cyclically and exactly that slide is active |
| `Petals.MaxPetalsMonotone` | script.js:139 | a wider window never gets a smaller cap, and the cap grows by 7 exactly across 768 px |
| `Petals.Step` | script.js:142-168 | one tick or one removal of the petal counter; the cap it keeps is `CapHolds` |
| `Petals.Run` | script.js:142-168 | the counter after a sequence of ticks and removals; bounded by `CapHolds`, filled by `TicksFillToCap` |
| `Petals.CapHolds` | script.js:142-168 | no sequence of ticks and removals takes the population above the cap |
| `Petals.TicksFillToCap` | script.js:143-160 | without removals each visible tick adds a petal until the cap is reached |
| `Petals.Field.constructor` | script.js:139-140 | no petals at start, cap by screen width |
| `Petals.Field.CreatePetal` | script.js:142-160 | a petal is added exactly when the page is visible and the cap is not reached |
| `Petals.Field.RemovePetal` | script.js:163-167 | removing a live petal lowers the count by one |

## Findings

| source | as written | input that shows it | evidently intended | confidence | as-written member | corrected member |
|---|---|---|---|---|---|---|
| script.js:1000-1015 | the close finalisation is scheduled with the literal 1150 ms; the `settleMs` computed just before is never used | seven items in the "more" list: the exit animation ends at 800 + 60·6 = 1160 ms, after the list is hidden at 1150 ms | `setTimeout(…, settleMs)`, as the comment "max of ghost/scroll and items animation" says | medium; not executed | `MoreListSchedule.AsWrittenCutsExitShort` | `MoreListSchedule.SettleAfterExit` |

## Left out

- Network fetches of the header partial and the works manifest, `innerHTML` injection, and `new URL(...)` resolution. Only the string computations around them are modelled. The page and script paths are parameters.
- The `aria-current` mark in the header compares the normalised page path with `new URL(u).pathname`. Only the normalisation is modelled, because URL resolution is a browser API.
- Event-listener wiring, `IntersectionObserver`, `matchMedia`, `visibilitychange`, video play and pause, and hover handlers are left out. They are browser plumbing with no stateable contract. Reduced motion is a parameter of `HintButtonClick`.
- Canvas washes, parallax, `smoothScrollToY` easing, ghost-button motion and `getBoundingClientRect` measurements are left out. They are floating-point animation and layout.
- Timers are left out. Each open or close handler is modelled by the state it settles into. A close-button finalisation always runs the pass with the chips active when it fires. Overlapping open and close sequences are not modelled.
- `Math.random` petal geometry and the field-notes shuffle are left out because they are nondeterministic. Only the petal counter and cap are kept.
- Petals.Field.RemovePetal: requires a live petal. In the source, the removal timer exists only for a petal that was added and is still attached.
- The hint label reset to "もっと見る" and the ghost button's label changes are left out. Neither is state that later logic reads.
- Chip groups: the badge reads the active chips inside `.filters-advanced` (script.js:419-426), while the pass reads them from the whole document (script.js:741-748). The model assumes both find the same four chip groups: `Atlas.Labels` and `Atlas.Filter` read the same `ChipGroup` objects.
- The advanced-panel toggle (script.js:848-857), the custom cursor, navigation styling, media galleries, field notes and the header-on-hero class are outside the modelled core.
- CartBadge.Total: models integer `qty` values only. A string `qty` makes JavaScript concatenate instead of add, and fractional or huge numbers follow floating-point rules. Neither is modelled.
- MoreListSchedule: works in whole milliseconds. The source computes in floating-point seconds (0.06 × k), whose rounding is not modelled.
- Clones in the "more" list are modelled as the items themselves. The model does not capture element identity or the removed `style` attribute.
- Showreel.Reel.constructor: requires at least one slide, because `initShowreel` returns before creating any state when there are no slides.
