/**
 * The label of the advanced-filter button (updateAdvancedFilterBadge): a short
 * summary of the active chips instead of a raw count.
 */
module FilterBadge {
  import opened Wrappers
  import opened Chips
  import Decimal
  import AtlasFilter

  const DefaultLabel: string := "絞り込み"
  const Separator: string := "・"
  const MoreMarker: string := " ほか"

  /** JavaScript's `Array.prototype.join`. */
  function Join(parts: seq<string>, sep: string): string
  {
    if |parts| == 0 then ""
    else if |parts| == 1 then parts[0]
    else Join(parts[..|parts| - 1], sep) + sep + parts[|parts| - 1]
  }

  /** Whether the active region chip, if any, contributes a label: only a key other than "all" does. */
  predicate RegionContributes(region: Option<ActiveChip>)
  {
    region.Some? && region.value.key != AtlasFilter.AllRegions
  }

  function Count(b: bool): nat { if b then 1 else 0 }

  /**
   * The labels the button summarises, in the order region, method, season,
   * author; the region chip contributes only when its key is not "all".
   */
  function CollectLabels(region: Option<ActiveChip>, technique: Option<ActiveChip>,
                         season: Option<ActiveChip>, author: Option<ActiveChip>): (r: seq<string>)
    ensures var rc, tc, sc := Count(RegionContributes(region)), Count(technique.Some?), Count(season.Some?);
            |r| == rc + tc + sc + Count(author.Some?) && |r| <= 4
            && (RegionContributes(region) ==> r[0] == region.value.text)
            && (technique.Some? ==> r[rc] == technique.value.text)
            && (season.Some? ==> r[rc + tc] == season.value.text)
            && (author.Some? ==> r[rc + tc + sc] == author.value.text)
  {
    (if region.Some? && region.value.key != AtlasFilter.AllRegions then [region.value.text] else [])
    + (if technique.Some? then [technique.value.text] else [])
    + (if season.Some? then [season.value.text] else [])
    + (if author.Some? then [author.value.text] else [])
  }

  /** The button text for the collected labels. */
  function BadgeLabel(labels: seq<string>): string
  {
    if |labels| == 0 then DefaultLabel
    else if |labels| <= 2 then Join(labels, Separator)
    else Join(labels[..2], Separator) + MoreMarker + Decimal.NatToString(|labels| - 2)
  }

  /** The three cases of the label, spelled out element by element. */
  lemma BadgeLabelCases(labels: seq<string>)
    ensures |labels| == 0 ==> BadgeLabel(labels) == DefaultLabel
    ensures |labels| == 1 ==> BadgeLabel(labels) == labels[0]
    ensures |labels| == 2 ==> BadgeLabel(labels) == labels[0] + Separator + labels[1]
    ensures |labels| > 2 ==>
      BadgeLabel(labels) == labels[0] + Separator + labels[1] + MoreMarker + Decimal.NatToString(|labels| - 2)
  {
    if |labels| >= 2 {
      var two := labels[..2];
      assert two[..1] == [labels[0]];
      assert Join(two, Separator) == labels[0] + Separator + labels[1];
      if |labels| == 2 {
        assert labels[..1] == [labels[0]];
      }
    }
  }

  /** When more than two facets are active, the number of the others can be read back. */
  lemma BadgeCountRecoverable(labels: seq<string>)
    requires |labels| > 2
    ensures var head := labels[0] + Separator + labels[1] + MoreMarker;
            var r := BadgeLabel(labels);
            head <= r && |r| > |head|
            && (forall i :: |head| <= i < |r| ==> Decimal.IsDigit(r[i]))
            && Decimal.ParseDigits(r[|head|..]) == |labels| - 2
  {
    BadgeLabelCases(labels);
    var head := labels[0] + Separator + labels[1] + MoreMarker;
    var digits := Decimal.NatToString(|labels| - 2);
    assert (head + digits)[|head|..] == digits;
    Decimal.NatRoundTrip(|labels| - 2);
  }

  /**
   * The default phrase appears exactly when no facet is active, as long as no
   * chip is itself labelled with that phrase.
   */
  lemma {:induction false} DefaultIffNoFacet(region: Option<ActiveChip>, technique: Option<ActiveChip>,
                                             season: Option<ActiveChip>, author: Option<ActiveChip>)
    requires region.Some? ==> region.value.text != DefaultLabel
    requires technique.Some? ==> technique.value.text != DefaultLabel
    requires season.Some? ==> season.value.text != DefaultLabel
    requires author.Some? ==> author.value.text != DefaultLabel
    ensures BadgeLabel(CollectLabels(region, technique, season, author)) == DefaultLabel
            <==> (region.None? || region.value.key == AtlasFilter.AllRegions) && technique.None? && season.None? && author.None?
  {
    var labels := CollectLabels(region, technique, season, author);
    BadgeLabelCases(labels);
    if |labels| == 1 {
      assert labels[0] != DefaultLabel;
    } else if |labels| >= 2 {
      var r := BadgeLabel(labels);
      var at := |labels[0]|;
      assert r[at] == Separator[0];
    }
  }
}
