/**
 * The document-level click listeners of the Atlas: chip clicks, the hint's
 * "more" button and the list's close button, composed from the chip groups
 * and the page. The filter state is read from the chips on every pass.
 */
module AtlasController {
  import opened Wrappers
  import opened AtlasFilter
  import opened Chips
  import opened AtlasPage
  import FilterBadge

  /** A method, author or season key as the pass tests it: no chip, or an empty key, is none. */
  function KeyOf(c: Option<ActiveChip>): (r: Option<string>)
    ensures r != Some("")
    ensures c.None? ==> r.None?
  {
    if c.Some? && c.value.key != "" then Some(c.value.key) else None
  }

  /** The filter state the pass reads from the active chips. */
  function StateOf(region: Option<ActiveChip>, technique: Option<ActiveChip>,
                   author: Option<ActiveChip>, season: Option<ActiveChip>): (st: FilterState)
    ensures st.tag != Some("") && st.author != Some("") && st.season != Some("")
    ensures technique.None? ==> st.tag.None?
  {
    FilterState(if region.Some? then region.value.key else AllRegions,
                KeyOf(technique), KeyOf(author), KeyOf(season))
  }

  /**
   * With at most one active chip per group, the badge shows a region label
   * exactly when the pass filters by region.
   */
  lemma RegionLabelIffRegionFilter(region: Option<ActiveChip>, technique: Option<ActiveChip>,
                                   author: Option<ActiveChip>, season: Option<ActiveChip>)
    ensures var labels := FilterBadge.CollectLabels(region, technique, season, author);
            var st := StateOf(region, technique, author, season);
            (st.region != AllRegions <==> |labels| > 0 && region.Some? && labels[0] == region.value.text
                                          && region.value.key != AllRegions)
  {
  }

  /**
   * In a group with at most one active chip, the pass reads the active chip's
   * key, none when that key is empty, and none when no chip is active.
   */
  lemma KeyOfGroup(g: ChipGroup)
    requires g.Consistent()
    ensures forall k :: 0 <= k < |g.keys| && g.active[k] ==>
              KeyOf(g.Active()) == if g.keys[k] == "" then None else Some(g.keys[k])
    ensures (forall k :: 0 <= k < |g.keys| ==> !g.active[k]) ==> KeyOf(g.Active()) == None
  {
    forall k | 0 <= k < |g.keys| && g.active[k]
      ensures KeyOf(g.Active()) == if g.keys[k] == "" then None else Some(g.keys[k])
    {
      FirstActiveUnique(g.active, k);
    }
  }

  /**
   * In a region group with at most one active chip, the pass filters by the
   * active chip's key, and by "all" when no chip is active.
   */
  lemma RegionOfGroup(g: ChipGroup)
    requires g.Consistent()
    ensures forall k :: 0 <= k < |g.keys| && g.active[k] ==>
              StateOf(g.Active(), None, None, None).region == g.keys[k]
    ensures (forall k :: 0 <= k < |g.keys| ==> !g.active[k]) ==>
              StateOf(g.Active(), None, None, None).region == AllRegions
  {
    forall k | 0 <= k < |g.keys| && g.active[k]
      ensures StateOf(g.Active(), None, None, None).region == g.keys[k]
    {
      FirstActiveUnique(g.active, k);
    }
  }

  class Atlas {
    const page: Page
    const regions: ChipGroup
    const methods: ChipGroup
    const authors: ChipGroup
    const seasons: ChipGroup

    ghost predicate Valid()
      reads this, page, regions, methods, authors, seasons
    {
      page.Valid() && regions.Valid() && methods.Valid() && authors.Valid() && seasons.Valid()
      && regions != methods && regions != authors && regions != seasons
      && methods != authors && methods != seasons && authors != seasons
    }

    /** What applyAtlasFilter reads from the chips. */
    function Filter(): FilterState
      reads this, regions, methods, authors, seasons
      requires regions.Valid() && methods.Valid() && authors.Valid() && seasons.Valid()
    {
      StateOf(regions.Active(), methods.Active(), authors.Active(), seasons.Active())
    }

    /** What updateAdvancedFilterBadge reads from the chips. */
    function Labels(): seq<string>
      reads this, regions, methods, authors, seasons
      requires regions.Valid() && methods.Valid() && authors.Valid() && seasons.Valid()
    {
      FilterBadge.CollectLabels(regions.Active(), methods.Active(), seasons.Active(), authors.Active())
    }

    /**
     * The state the pass reads is determined by the chip flags: each facet is
     * the key of its group's active chip, a region group with none active
     * reads "all", and the other groups with none active (or an empty key)
     * read as no filter.
     */
    lemma FilterReadsChips()
      requires regions.Consistent() && methods.Consistent() && authors.Consistent() && seasons.Consistent()
      ensures forall k :: 0 <= k < |regions.keys| && regions.active[k] ==> Filter().region == regions.keys[k]
      ensures (forall k :: 0 <= k < |regions.keys| ==> !regions.active[k]) ==> Filter().region == AllRegions
      ensures forall k :: 0 <= k < |methods.keys| && methods.active[k] ==>
                Filter().tag == if methods.keys[k] == "" then None else Some(methods.keys[k])
      ensures (forall k :: 0 <= k < |methods.keys| ==> !methods.active[k]) ==> Filter().tag == None
      ensures forall k :: 0 <= k < |authors.keys| && authors.active[k] ==>
                Filter().author == if authors.keys[k] == "" then None else Some(authors.keys[k])
      ensures (forall k :: 0 <= k < |authors.keys| ==> !authors.active[k]) ==> Filter().author == None
      ensures forall k :: 0 <= k < |seasons.keys| && seasons.active[k] ==>
                Filter().season == if seasons.keys[k] == "" then None else Some(seasons.keys[k])
      ensures (forall k :: 0 <= k < |seasons.keys| ==> !seasons.active[k]) ==> Filter().season == None
    {
      RegionOfGroup(regions);
      KeyOfGroup(methods);
      KeyOfGroup(authors);
      KeyOfGroup(seasons);
    }

    constructor (page: Page, regions: ChipGroup, methods: ChipGroup, authors: ChipGroup, seasons: ChipGroup)
      requires page.Valid() && regions.Valid() && methods.Valid() && authors.Valid() && seasons.Valid()
      requires regions != methods && regions != authors && regions != seasons
      requires methods != authors && methods != seasons && authors != seasons
      ensures Valid()
      ensures this.page == page && this.regions == regions && this.methods == methods
      ensures this.authors == authors && this.seasons == seasons
    {
      this.page, this.regions, this.methods := page, regions, methods;
      this.authors, this.seasons := authors, seasons;
    }

    /**
     * The pass run once on DOMContentLoaded: the markup's display flags, list
     * and hint give way to one pass with the chips the markup marks active,
     * which hides the non-featured wear items before any click.
     */
    method Load()
      requires Valid()
      modifies page, page.shown
      ensures Valid()
      ensures unchanged(regions) && unchanged(methods) && unchanged(authors) && unchanged(seasons)
      ensures page.shown[..] == ShownFlags(page.items[..], Filter())
      ensures page.PanelState() == PassPanels(page.layout, page.items[..], Filter(), old(page.PanelState()))
      ensures page.badge == if page.layout.hasBadge then FilterBadge.BadgeLabel(Labels()) else old(page.badge)
    {
      page.ApplyFilter(Filter(), Labels());
    }

    /** A region chip click: select it, then run the pass. */
    method RegionClick(k: nat)
      requires Valid() && k < |regions.keys|
      modifies regions, page, page.shown
      ensures Valid()
      ensures regions.Consistent() && regions.active == OnlyAt(|regions.keys|, k)
      ensures Filter().region == regions.keys[k]
      ensures unchanged(methods) && unchanged(authors) && unchanged(seasons)
      ensures page.shown[..] == ShownFlags(page.items[..], Filter())
      ensures page.PanelState() == PassPanels(page.layout, page.items[..], Filter(), old(page.PanelState()))
      ensures page.badge == if page.layout.hasBadge then FilterBadge.BadgeLabel(Labels()) else old(page.badge)
    {
      regions.Select(k);
      page.ApplyFilter(Filter(), Labels());
    }

    /**
     * A method chip click. Two listeners fire: the first runs the pass with the
     * chips as they were, the second toggles the chip, runs the pass again and
     * relabels the button.
     */
    method MethodClick(k: nat)
      requires Valid() && k < |methods.keys|
      modifies methods, page, page.shown
      ensures Valid()
      ensures old(methods.active[k]) ==> methods.active == old(methods.active)[k := false]
      ensures !old(methods.active[k]) ==> methods.active == OnlyAt(|methods.keys|, k)
      ensures old(methods.Consistent()) || !old(methods.active[k]) ==> methods.Consistent()
      ensures unchanged(regions) && unchanged(authors) && unchanged(seasons)
      ensures page.shown[..] == ShownFlags(page.items[..], Filter())
      ensures page.PanelState() == PassPanels(page.layout, page.items[..], Filter(),
                PassPanels(page.layout, page.items[..], old(Filter()), old(page.PanelState())))
      ensures page.badge == if page.layout.hasBadge then FilterBadge.BadgeLabel(Labels()) else old(page.badge)
    {
      page.ApplyFilter(Filter(), Labels());
      methods.Toggle(k);
      page.ApplyFilter(Filter(), Labels());
      page.UpdateBadge(Labels());
    }

    /** An author chip click: toggle it, run the pass, relabel the button. */
    method AuthorClick(k: nat)
      requires Valid() && k < |authors.keys|
      modifies authors, page, page.shown
      ensures Valid()
      ensures old(authors.active[k]) ==> authors.active == old(authors.active)[k := false]
      ensures !old(authors.active[k]) ==> authors.active == OnlyAt(|authors.keys|, k)
      ensures old(authors.Consistent()) || !old(authors.active[k]) ==> authors.Consistent()
      ensures unchanged(regions) && unchanged(methods) && unchanged(seasons)
      ensures page.shown[..] == ShownFlags(page.items[..], Filter())
      ensures page.PanelState() == PassPanels(page.layout, page.items[..], Filter(), old(page.PanelState()))
      ensures page.badge == if page.layout.hasBadge then FilterBadge.BadgeLabel(Labels()) else old(page.badge)
    {
      authors.Toggle(k);
      page.ApplyFilter(Filter(), Labels());
      page.UpdateBadge(Labels());
    }

    /** A season chip click: toggle it, run the pass, relabel the button. */
    method SeasonClick(k: nat)
      requires Valid() && k < |seasons.keys|
      modifies seasons, page, page.shown
      ensures Valid()
      ensures old(seasons.active[k]) ==> seasons.active == old(seasons.active)[k := false]
      ensures !old(seasons.active[k]) ==> seasons.active == OnlyAt(|seasons.keys|, k)
      ensures old(seasons.Consistent()) || !old(seasons.active[k]) ==> seasons.Consistent()
      ensures unchanged(regions) && unchanged(methods) && unchanged(authors)
      ensures page.shown[..] == ShownFlags(page.items[..], Filter())
      ensures page.PanelState() == PassPanels(page.layout, page.items[..], Filter(), old(page.PanelState()))
      ensures page.badge == if page.layout.hasBadge then FilterBadge.BadgeLabel(Labels()) else old(page.badge)
    {
      seasons.Toggle(k);
      page.ApplyFilter(Filter(), Labels());
      page.UpdateBadge(Labels());
    }

    /** The close button, once settled: close the list and re-run the pass with the chips of that moment. */
    method CloseClick()
      requires Valid()
      modifies page, page.shown
      ensures Valid()
      ensures page.layout.hasList ==> page.shown[..] == ShownFlags(page.items[..], Filter())
      ensures !page.layout.hasList ==> page.shown[..] == old(page.shown[..])
      ensures page.PanelState() == if page.layout.hasList
        then PassPanels(page.layout, page.items[..], Filter(), CloseReset(page.layout, old(page.PanelState())))
        else old(page.PanelState())
      ensures page.badge == if page.layout.hasList && page.layout.hasBadge
        then FilterBadge.BadgeLabel(Labels()) else old(page.badge)
    {
      page.CloseButtonClick(Filter(), Labels());
    }
  }
}
