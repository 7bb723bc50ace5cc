/**
 * The Atlas page state that the filter pass and the "more" list handlers
 * change: the display flag of every grid item, the "more" list
 * (#atlas-more-list with its .atlas-more-grid), the hint (#atlas-more-hint)
 * and the advanced-filter button's label. Timers, ghost buttons and scrolling
 * are left out; each handler is modelled by the state it settles into.
 */
module AtlasPage {
  import opened Wrappers
  import opened AtlasFilter
  import FilterBadge

  /** Which optional elements the page has; every handler short-circuits on a missing one. */
  datatype Layout = Layout(hasHint: bool, hasList: bool, hasGrid: bool, hasBadge: bool)

  /** The "more" list and hint, as attributes and classes of their elements. */
  datatype Panels = Panels(
    more: seq<Item>,          // children of .atlas-more-grid (clones, style removed)
    listHidden: bool,         // the list carries `hidden`
    listOpen: bool,           // the list carries class is-open
    hintHidden: bool,         // the hint carries `hidden`
    wearButtonVisible: bool,  // the [data-more-wear] button's style.visibility is not 'hidden'
    animatingMore: bool)      // the body carries class is-animating-more

  /** The list and hint after one filter pass with state `st`. */
  function PassPanels(layout: Layout, items: seq<Item>, st: FilterState, prior: Panels): Panels
  {
    var suppressed := SuppressedItems(items, st);
    var offered := st.tag.None? && |suppressed| > 0;
    var hintHidden := if layout.hasHint then !(offered && layout.hasList && prior.listHidden)
                      else prior.hintHidden;
    if layout.hasList && layout.hasGrid then
      prior.(more := (if offered then suppressed else []),
             listHidden := (if offered then prior.listHidden else true),
             hintHidden := hintHidden)
    else
      prior.(hintHidden := hintHidden)
  }

  /** Whether a pass with `st` forces the list hidden. */
  predicate ForcesHidden(layout: Layout, items: seq<Item>, st: FilterState)
  {
    layout.hasList && layout.hasGrid && (st.tag.Some? || SuppressedItems(items, st) == [])
  }

  /**
   * The settled state after a click on the hint's [data-more-wear] button. The
   * motion path clears is-animating-more once its animation ends; the
   * reduced-motion path never does.
   */
  function HintClick(layout: Layout, reduceMotion: bool, p: Panels): Panels
  {
    if !layout.hasList then p
    else if p.listHidden then
      p.(hintHidden := (if layout.hasHint then true else p.hintHidden),
         wearButtonVisible := false,
         listHidden := false,
         listOpen := true,
         animatingMore := reduceMotion)
    else
      p.(listHidden := true, listOpen := false)
  }

  /** What the close button's finalisation sets before it re-runs the pass. */
  function CloseReset(layout: Layout, p: Panels): Panels
  {
    if !layout.hasList then p
    else
      p.(animatingMore := false,
         listHidden := true,
         listOpen := false,
         hintHidden := (if layout.hasHint then false else p.hintHidden),
         wearButtonVisible := (if layout.hasHint then true else p.wearButtonVisible))
  }

  /**
   * After a pass the "more" list holds exactly the suppressed items, in
   * document order, and nothing left over from an earlier pass.
   */
  lemma PassRebuildsMore(layout: Layout, items: seq<Item>, st: FilterState, prior: Panels)
    requires layout.hasList && layout.hasGrid
    ensures PassPanels(layout, items, st, prior).more == SuppressedItems(items, st)
  {
    if st.tag.Some? {
      MethodSuppressesNothing(items, st);
    }
  }

  /**
   * A pass never opens the list and never touches is-open; it hides an open
   * list exactly when a method is selected or nothing is suppressed.
   */
  lemma PassListState(layout: Layout, items: seq<Item>, st: FilterState, prior: Panels)
    requires layout.hasList && layout.hasGrid
    ensures var r := PassPanels(layout, items, st, prior);
            r.listOpen == prior.listOpen
            && (prior.listHidden ==> r.listHidden)
            && (!prior.listHidden ==> (r.listHidden <==> ForcesHidden(layout, items, st)))
  {
  }

  /**
   * After a pass the hint is visible exactly when no method is selected, some
   * item is suppressed and the list is hidden.
   */
  lemma PassHint(layout: Layout, items: seq<Item>, st: FilterState, prior: Panels)
    requires layout.hasHint && layout.hasList
    ensures var r := PassPanels(layout, items, st, prior);
            !r.hintHidden <==> st.tag.None? && |SuppressedItems(items, st)| > 0 && r.listHidden
  {
  }

  /** A second pass with the same chips changes nothing. */
  lemma PassIdempotent(layout: Layout, items: seq<Item>, st: FilterState, prior: Panels)
    ensures var once := PassPanels(layout, items, st, prior);
            PassPanels(layout, items, st, once) == once
  {
  }

  /**
   * A method-chip click runs the pass before and after the toggle. The first
   * pass leaves no trace when the list was already hidden or the old chips did
   * not force it hidden.
   */
  lemma DoublePass(layout: Layout, items: seq<Item>, st1: FilterState, st2: FilterState, prior: Panels)
    requires prior.listHidden || !ForcesHidden(layout, items, st1)
    ensures PassPanels(layout, items, st2, PassPanels(layout, items, st1, prior))
            == PassPanels(layout, items, st2, prior)
  {
  }

  /**
   * Whatever the first pass did, the grid's "more" list after the second pass
   * is the second chips' suppressed set.
   */
  lemma DoublePassMore(layout: Layout, items: seq<Item>, st1: FilterState, st2: FilterState, prior: Panels)
    requires layout.hasList && layout.hasGrid
    ensures PassPanels(layout, items, st2, PassPanels(layout, items, st1, prior)).more
            == SuppressedItems(items, st2)
  {
    PassRebuildsMore(layout, items, st2, PassPanels(layout, items, st1, prior));
  }

  /**
   * Open, close, open again: the list shows the same suppressed items each
   * time, with no duplicate and no loss, and the hint comes back in between.
   */
  lemma OpenCloseReopen(layout: Layout, items: seq<Item>, st: FilterState, reduceMotion: bool, p0: Panels)
    requires layout.hasHint && layout.hasList && layout.hasGrid
    requires st.tag.None? && |SuppressedItems(items, st)| > 0 && p0.listHidden
    ensures var p1 := PassPanels(layout, items, st, p0);
            var p2 := HintClick(layout, reduceMotion, p1);
            var p3 := PassPanels(layout, items, st, CloseReset(layout, p2));
            var p4 := HintClick(layout, reduceMotion, p3);
            !p1.hintHidden && p1.listHidden
            && !p2.listHidden && p2.listOpen && p2.hintHidden && p2.more == SuppressedItems(items, st)
            && p3.listHidden && !p3.listOpen && !p3.hintHidden && p3.wearButtonVisible
            && !p4.listHidden && p4.listOpen && p4.more == SuppressedItems(items, st)
  {
  }

  /**
   * Opening the list under reduced motion leaves is-animating-more on the
   * body. Neither a filter pass nor the hint's button clears it again; only
   * the close button does. With motion, the cleanup timer clears it.
   */
  lemma ReducedMotionStaysAnimating(layout: Layout, items: seq<Item>, st: FilterState, p: Panels)
    requires layout.hasList && p.listHidden
    ensures var q := HintClick(layout, true, p);
            q.animatingMore
            && PassPanels(layout, items, st, q).animatingMore
            && HintClick(layout, true, q).animatingMore
            && HintClick(layout, false, q).animatingMore
            && !CloseReset(layout, q).animatingMore
    ensures !HintClick(layout, false, p).animatingMore
  {
  }

  /** After the close button settles the hint shows exactly when there is something to reveal. */
  lemma CloseShowsHint(layout: Layout, items: seq<Item>, st: FilterState, p: Panels)
    requires layout.hasHint && layout.hasList
    ensures var r := PassPanels(layout, items, st, CloseReset(layout, p));
            r.listHidden && !r.listOpen && !r.animatingMore
            && (!r.hintHidden <==> st.tag.None? && |SuppressedItems(items, st)| > 0)
  {
  }

  /**
   * The button's visibility is restored only by the close button. Open the
   * list from the hint, select a method (the pass forces the list hidden but
   * keeps is-open), clear it again: the hint is back while its button is
   * still invisible, and the hidden list still carries is-open.
   */
  lemma HintCanShowWithoutButton()
    ensures var layout := Layout(true, true, true, true);
            var x := Item([], [WearTag], None, None, "work", false);
            var plain := FilterState(AllRegions, None, None, None);
            var p0 := Panels([x], true, false, false, true, false);
            var p1 := HintClick(layout, false, p0);
            var p2 := PassPanels(layout, [x], plain.(tag := Some("dye")), p1);
            var p3 := PassPanels(layout, [x], plain, p2);
            p1.listOpen && !p1.listHidden
            && p2.listHidden && p2.hintHidden
            && !p3.hintHidden && !p3.wearButtonVisible && p3.listHidden && p3.listOpen
  {
    var x := Item([], [WearTag], None, None, "work", false);
    var plain := FilterState(AllRegions, None, None, None);
    assert [x][..0] == [];
    assert IsSuppressed(x, plain);
    assert SuppressedItems([x], plain) == [x];
  }

  class Page {
    const layout: Layout
    const items: array<Item>   // .atlas-grid .atlas-item, fixed at load
    const shown: array<bool>   // style.display of each item: '' (true) or 'none' (false)
    var more: seq<Item>
    var listHidden: bool
    var listOpen: bool
    var hintHidden: bool
    var wearButtonVisible: bool
    var animatingMore: bool
    var badge: string          // text of the [data-toggle-advanced] button

    ghost predicate Valid()
      reads this
    {
      shown.Length == items.Length
    }

    function PanelState(): Panels
      reads this
    {
      Panels(more, listHidden, listOpen, hintHidden, wearButtonVisible, animatingMore)
    }

    constructor (layout: Layout, items: seq<Item>, p: Panels, badge: string)
      ensures Valid() && fresh(this.items) && fresh(this.shown)
      ensures this.layout == layout && this.items[..] == items && this.badge == badge
      ensures PanelState() == p
    {
      this.layout := layout;
      this.items := new Item[|items|](i requires 0 <= i < |items| => items[i]);
      this.shown := new bool[|items|](i => true);
      more, listHidden, listOpen := p.more, p.listHidden, p.listOpen;
      hintHidden, wearButtonVisible, animatingMore := p.hintHidden, p.wearButtonVisible, p.animatingMore;
      this.badge := badge;
    }

    /**
     * The item loop of applyAtlasFilter: write every item's display flag and
     * collect the suppressed items in document order.
     */
    method MarkItems(st: FilterState) returns (suppressed: seq<Item>, suppressedCount: nat)
      requires Valid()
      modifies shown
      ensures shown[..] == ShownFlags(items[..], st)
      ensures suppressed == SuppressedItems(items[..], st) && suppressedCount == |suppressed|
    {
      var wearSuppressed := st.tag.None?;
      suppressedCount := 0;
      suppressed := [];
      var i := 0;
      while i < items.Length
        invariant 0 <= i <= items.Length
        invariant suppressedCount == |suppressed|
        invariant suppressed == SuppressedItems(items[..i], st)
        invariant forall j :: 0 <= j < i ==> shown[j] == Shown(items[j], st)
      {
        var el := items[i];
        var regionOk := st.region == AllRegions || st.region in el.regions;
        var tagOk := st.tag.None? || st.tag.value in el.tags;
        var authorOk := st.author.None? || el.author == st.author;
        var seasonOk := st.season.None? || el.season == st.season;
        var processOk := el.kind != ProcessKind;
        var baseOk := regionOk && tagOk && authorOk && seasonOk && processOk;
        var suppressedWear := wearSuppressed && baseOk && WearTag in el.tags && !el.featuredWear;
        assert baseOk == BaseOk(el, st) && suppressedWear == IsSuppressed(el, st);
        if suppressedWear {
          suppressedCount := suppressedCount + 1;
          suppressed := suppressed + [el];
        }
        shown[i] := baseOk && !suppressedWear;
        assert items[..i + 1][..i] == items[..i];
        i := i + 1;
      }
      assert items[..i] == items[..];
    }

    /**
     * applyAtlasFilter: mark the items, update the hint, rebuild the "more"
     * list and relabel the advanced-filter button with `labels`.
     */
    method ApplyFilter(st: FilterState, labels: seq<string>)
      requires Valid()
      modifies this, shown
      ensures Valid()
      ensures shown[..] == ShownFlags(items[..], st)
      ensures PanelState() == PassPanels(layout, items[..], st, old(PanelState()))
      ensures badge == if layout.hasBadge then FilterBadge.BadgeLabel(labels) else old(badge)
    {
      var suppressed, suppressedCount := MarkItems(st);
      if layout.hasHint {
        if st.tag.None? && suppressedCount > 0 {
          hintHidden := !(layout.hasList && listHidden);
        } else {
          hintHidden := true;
        }
      }
      if layout.hasList && layout.hasGrid {
        more := [];
        if st.tag.None? && |suppressed| > 0 {
          more := suppressed;
        } else {
          listHidden := true;
        }
      }
      UpdateBadge(labels);
    }

    /** updateAdvancedFilterBadge: relabel the button if the page has one. */
    method UpdateBadge(labels: seq<string>)
      modifies this
      ensures badge == if layout.hasBadge then FilterBadge.BadgeLabel(labels) else old(badge)
      ensures PanelState() == old(PanelState())
    {
      if layout.hasBadge {
        badge := FilterBadge.BadgeLabel(labels);
      }
    }

    /** A click on the hint's [data-more-wear] button, once its animation has settled. */
    method HintButtonClick(reduceMotion: bool)
      modifies this
      ensures PanelState() == HintClick(layout, reduceMotion, old(PanelState()))
      ensures badge == old(badge)
    {
      if !layout.hasList {
        return;
      }
      if listHidden {
        animatingMore := true;
        if layout.hasHint {
          hintHidden := true;
        }
        wearButtonVisible := false;
        listHidden := false;
        listOpen := true;
        if !reduceMotion {
          animatingMore := false;
        }
      } else {
        listHidden := true;
        listOpen := false;
      }
    }

    /**
     * A click on the [data-more-close] button, once its finalisation has run:
     * the list is closed, the hint restored, and the pass re-run with the
     * chips active at that moment (`st`, `labels`).
     */
    method CloseButtonClick(st: FilterState, labels: seq<string>)
      requires Valid()
      modifies this, shown
      ensures Valid()
      ensures layout.hasList ==> shown[..] == ShownFlags(items[..], st)
      ensures !layout.hasList ==> shown[..] == old(shown[..])
      ensures PanelState() == if layout.hasList then PassPanels(layout, items[..], st, CloseReset(layout, old(PanelState())))
                          else old(PanelState())
      ensures badge == if layout.hasList && layout.hasBadge then FilterBadge.BadgeLabel(labels) else old(badge)
    {
      if !layout.hasList {
        return;
      }
      animatingMore := false;
      listHidden := true;
      listOpen := false;
      if layout.hasHint {
        hintHidden := false;
        wearButtonVisible := true;
      }
      ApplyFilter(st, labels);
    }
  }
}
