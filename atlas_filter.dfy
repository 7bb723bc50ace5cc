/**
 * The per-item decision logic of the Atlas filter pass (applyAtlasFilter in
 * script.js), lifted out of the DOM: a catalog item is a record of its data
 * attributes, and the active chips are a FilterState.
 */
module AtlasFilter {
  import opened Wrappers

  /** One `.atlas-grid .atlas-item` element, read through its attributes. */
  datatype Item = Item(
    regions: seq<string>,    // data-region split on whitespace, empty tokens dropped
    tags: seq<string>,       // data-tags split on whitespace
    author: Option<string>,  // data-author; None when absent or empty (solo works only)
    season: Option<string>,  // data-season; None when absent or empty
    kind: string,            // data-kind; "work" when absent or empty
    featuredWear: bool)      // carries the class featured-wear

  /**
   * What the pass reads from the active chips: the region key ("all" when no
   * region chip is active) and the method, author and season keys, None when
   * no chip of that group is active or its key is empty.
   */
  datatype FilterState = FilterState(
    region: string,
    tag: Option<string>,       // the method (technique) key
    author: Option<string>,
    season: Option<string>)

  /**
   * An item as the pass reads it from its attributes: `filter(Boolean)` drops
   * empty region tokens, and `|| null` turns an empty author or season into
   * none.
   */
  predicate WellFormed(x: Item)
  {
    "" !in x.regions
    && (x.author.Some? ==> x.author.value != "")
    && (x.season.Some? ==> x.season.value != "")
  }

  const AllRegions: string := "all"
  const WearTag: string := "wear"
  const ProcessKind: string := "process"

  predicate RegionOk(x: Item, st: FilterState) { st.region == AllRegions || st.region in x.regions }
  predicate TagOk(x: Item, st: FilterState) { st.tag.None? || st.tag.value in x.tags }
  predicate AuthorOk(x: Item, st: FilterState) { st.author.None? || x.author == st.author }
  predicate SeasonOk(x: Item, st: FilterState) { st.season.None? || x.season == st.season }
  /** Process items never show in the Atlas (they are presented on the technique pages). */
  predicate ProcessOk(x: Item) { x.kind != ProcessKind }

  predicate BaseOk(x: Item, st: FilterState)
  {
    RegionOk(x, st) && TagOk(x, st) && AuthorOk(x, st) && SeasonOk(x, st) && ProcessOk(x)
  }

  /**
   * With no method selected, wear items that pass the base filter and are not
   * featured are held back from the grid and offered in the "more" list.
   */
  predicate IsSuppressed(x: Item, st: FilterState)
  {
    st.tag.None? && BaseOk(x, st) && WearTag in x.tags && !x.featuredWear
  }

  /** The display flag the pass writes: '' (shown) or 'none'. */
  predicate Shown(x: Item, st: FilterState)
  {
    BaseOk(x, st) && !IsSuppressed(x, st)
  }

  /** The display flags of a whole grid, in document order. */
  function ShownFlags(items: seq<Item>, st: FilterState): seq<bool>
  {
    seq(|items|, i requires 0 <= i < |items| => Shown(items[i], st))
  }

  /** The suppressed items, in document order. */
  function SuppressedItems(items: seq<Item>, st: FilterState): (r: seq<Item>)
    ensures |r| <= |items|
    ensures forall x :: x in r ==> IsSuppressed(x, st)
  {
    if items == [] then []
    else
      var last := items[|items| - 1];
      SuppressedItems(items[..|items| - 1], st) + (if IsSuppressed(last, st) then [last] else [])
  }

  /** The suppressed list is exactly the suppressed items of the grid, nothing more. */
  lemma {:induction false} SuppressedMembership(items: seq<Item>, st: FilterState, x: Item)
    ensures x in SuppressedItems(items, st) <==> x in items && IsSuppressed(x, st)
  {
    if items != [] {
      var init := items[..|items| - 1];
      SuppressedMembership(init, st, x);
      assert items == init + [items[|items| - 1]];
    }
  }

  /** Filtering commutes with concatenation, so document order is kept. */
  lemma {:induction false} SuppressedAppend(a: seq<Item>, b: seq<Item>, st: FilterState)
    ensures SuppressedItems(a + b, st) == SuppressedItems(a, st) + SuppressedItems(b, st)
    decreases |b|
  {
    if b == [] {
      assert a + b == a;
    } else {
      var init := b[..|b| - 1];
      assert (a + b)[..|a + b| - 1] == a + init;
      assert (a + b)[|a + b| - 1] == b[|b| - 1];
      SuppressedAppend(a, init, st);
    }
  }

  /** Selecting any method switches suppression off: nothing is suppressed. */
  lemma {:induction false} MethodSuppressesNothing(items: seq<Item>, st: FilterState)
    requires st.tag.Some?
    ensures SuppressedItems(items, st) == []
  {
    if items != [] {
      MethodSuppressesNothing(items[..|items| - 1], st);
    }
  }

  /**
   * Every item is in exactly one of three places after a pass: the grid, the
   * "more" list, or hidden by the base filter.
   */
  lemma Trichotomy(x: Item, st: FilterState)
    ensures Shown(x, st) || IsSuppressed(x, st) || !BaseOk(x, st)
    ensures !(Shown(x, st) && IsSuppressed(x, st))
    ensures !(Shown(x, st) && !BaseOk(x, st))
    ensures !(IsSuppressed(x, st) && !BaseOk(x, st))
  {
  }

  /**
   * The suppression law: a non-featured wear item that passes the base filter
   * is hidden exactly when no method is selected.
   */
  lemma SuppressionLaw(x: Item, st: FilterState)
    requires BaseOk(x, st) && WearTag in x.tags && !x.featuredWear
    ensures Shown(x, st) <==> st.tag.Some?
    ensures IsSuppressed(x, st) <==> st.tag.None?
  {
  }

  /** Choosing a region, an author or a season can only narrow what is shown. */
  lemma RegionNarrows(x: Item, st: FilterState, r: string)
    requires st.region == AllRegions
    ensures Shown(x, st.(region := r)) ==> Shown(x, st)
  {
  }

  lemma AuthorNarrows(x: Item, st: FilterState, a: string)
    requires st.author.None?
    ensures Shown(x, st.(author := Some(a))) ==> Shown(x, st)
  {
  }

  lemma SeasonNarrows(x: Item, st: FilterState, s: string)
    requires st.season.None?
    ensures Shown(x, st.(season := Some(s))) ==> Shown(x, st)
  {
  }

  /**
   * A region chip with an empty or missing key (read as "") hides every
   * well-formed item, since no item carries an empty region token.
   */
  lemma EmptyRegionKeyHidesAll(x: Item, st: FilterState)
    requires WellFormed(x) && st.region == ""
    ensures !Shown(x, st) && !IsSuppressed(x, st)
  {
  }

  /** Choosing a method narrows the base filter ... */
  lemma MethodNarrowsBase(x: Item, st: FilterState, m: string)
    requires st.tag.None?
    ensures BaseOk(x, st.(tag := Some(m))) ==> BaseOk(x, st)
  {
  }

  /** ... but not the shown set: it releases the suppressed wear items. */
  lemma MethodCanWiden()
    ensures var x := Item([], [WearTag], None, None, "work", false);
            var st := FilterState(AllRegions, None, None, None);
            !Shown(x, st) && Shown(x, st.(tag := Some(WearTag)))
  {
  }
}
