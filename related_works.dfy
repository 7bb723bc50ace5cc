/**
 * The related-works loader (initRelatedWorks) without its fetch: where the
 * works manifest lives relative to the current page, the site base used to
 * resolve card links, and which manifest entries a holder shows.
 */
module RelatedWorks {
  import opened Wrappers
  import Links

  const ManifestFile: string := "data/works-manifest.json"
  const WorksSegment: string := "/works/"

  /** `pat` occurs in `s` at position `j`. */
  predicate OccursAt(s: string, pat: string, j: nat)
  {
    j + |pat| <= |s| && s[j..j + |pat|] == pat
  }

  /** `s.indexOf(pat, from)`: the first occurrence at or after `from`. */
  function IndexOfFrom(s: string, pat: string, from: nat): (r: Option<nat>)
    ensures r.Some? ==> from <= r.value && OccursAt(s, pat, r.value)
    ensures r.Some? ==> forall j :: from <= j < r.value ==> !OccursAt(s, pat, j)
    ensures r.None? ==> forall j :: from <= j ==> !OccursAt(s, pat, j)
    decreases |s| - from
  {
    if from + |pat| > |s| then None
    else if s[from..from + |pat|] == pat then Some(from)
    else IndexOfFrom(s, pat, from + 1)
  }

  function IndexOf(s: string, pat: string): (r: Option<nat>)
    ensures r.Some? ==> OccursAt(s, pat, r.value) && forall j :: 0 <= j < r.value ==> !OccursAt(s, pat, j)
    ensures r.None? ==> forall j :: !OccursAt(s, pat, j)
  {
    IndexOfFrom(s, pat, 0)
  }

  /**
   * The manifest path: on a page under "/works/" it is rooted just before that
   * segment; elsewhere it is relative to the page.
   */
  function ManifestPath(pathname: string): string
  {
    match IndexOf(pathname, WorksSegment)
    case Some(i) => pathname[..i + 1] + ManifestFile
    case None => ManifestFile
  }

  /** `manifestPath.replace(/data\/works-manifest\.json$/, '')` */
  function SiteBase(manifestPath: string): string
  {
    if Links.EndsWith(manifestPath, ManifestFile) then manifestPath[..|manifestPath| - |ManifestFile|]
    else manifestPath
  }

  /**
   * The site base is the part of the page's path before its first "works/"
   * segment, or empty when there is none; appending the manifest file to it
   * gives the manifest path back.
   */
  lemma SiteBaseOfPage(pathname: string)
    ensures var base := SiteBase(ManifestPath(pathname));
            base + ManifestFile == ManifestPath(pathname)
            && (IndexOf(pathname, WorksSegment).None? ==> base == "")
            && (IndexOf(pathname, WorksSegment).Some? ==>
                  base <= pathname && Links.EndsWith(base, "/")
                  && OccursAt(pathname, WorksSegment, |base| - 1)
                  && forall j :: 0 <= j < |base| - 1 ==> !OccursAt(pathname, WorksSegment, j))
  {
    var m := ManifestPath(pathname);
    assert m[|m| - |ManifestFile|..] == ManifestFile;
    match IndexOf(pathname, WorksSegment)
    case Some(i) =>
      var base := pathname[..i + 1];
      assert (base + ManifestFile)[..|base|] == base;
      assert pathname[i..i + |WorksSegment|] == WorksSegment;
      assert pathname[i] == pathname[i..i + |WorksSegment|][0] == '/';
      assert base[|base| - 1..] == [base[|base| - 1]] == "/";
    case None =>
  }

  predicate IsAbsoluteUrl(path: string)
  {
    Links.StartsWith(path, "http://") || Links.StartsWith(path, "https://")
  }

  /** `resolve(path)` for a card's link or cover. */
  function Resolve(siteBase: string, path: string): string
  {
    if path == "" then ""
    else if IsAbsoluteUrl(path) || Links.StartsWith(path, "/") then path
    else siteBase + path
  }

  /** Empty stays empty, absolute and root-relative paths are kept, everything else is put under the base. */
  lemma ResolveCases(siteBase: string, path: string)
    ensures Resolve(siteBase, path) == "" <==> path == ""
    ensures path != "" && (IsAbsoluteUrl(path) || path[0] == '/') ==> Resolve(siteBase, path) == path
    ensures path != "" && !IsAbsoluteUrl(path) && path[0] != '/' ==>
              Resolve(siteBase, path) == siteBase + path && Links.EndsWith(Resolve(siteBase, path), path)
  {
    if path != "" && !IsAbsoluteUrl(path) && path[0] != '/' {
      var r := siteBase + path;
      assert r[|r| - |path|..] == path;
    }
  }

  /** Resolving twice is resolving once, for a base that is empty or root-relative. */
  lemma ResolveIdempotent(siteBase: string, path: string)
    requires siteBase == "" || siteBase[0] == '/'
    ensures Resolve(siteBase, Resolve(siteBase, path)) == Resolve(siteBase, path)
  {
    var r := Resolve(siteBase, path);
    if siteBase != "" && path != "" && r == siteBase + path {
      assert r[0] == '/';
      assert Links.StartsWith(r, "/");
    }
  }

  /** The site base of a real page (whose path starts with '/') is empty or root-relative. */
  lemma SiteBaseRooted(pathname: string)
    requires |pathname| > 0 && pathname[0] == '/'
    ensures var base := SiteBase(ManifestPath(pathname));
            base == "" || base[0] == '/'
  {
    SiteBaseOfPage(pathname);
    var base := SiteBase(ManifestPath(pathname));
    if base != "" {
      assert base[0] == pathname[0];
    }
  }

  /** One entry of works-manifest.json; a missing `techs` is the empty list. */
  datatype Work = Work(title: string, url: string, cover: string, techs: seq<string>)

  /** A holder's test on one technique: exact, or prefix when it carries data-tech-prefix. */
  predicate TechMatches(t: string, techKey: string, startsWith: bool)
  {
    if startsWith then Links.StartsWith(t, techKey) else t == techKey
  }

  predicate WorkMatches(w: Work, techKey: string, startsWith: bool)
  {
    exists i :: 0 <= i < |w.techs| && TechMatches(w.techs[i], techKey, startsWith)
  }

  /** The works a holder shows, in manifest order. */
  function RelatedTo(list: seq<Work>, techKey: string, startsWith: bool): (r: seq<Work>)
    ensures |r| <= |list|
    ensures forall w :: w in r <==> w in list && WorkMatches(w, techKey, startsWith)
  {
    if list == [] then []
    else
      var rest := RelatedTo(list[1..], techKey, startsWith);
      assert forall w :: w in list <==> w == list[0] || w in list[1..];
      if WorkMatches(list[0], techKey, startsWith) then [list[0]] + rest else rest
  }

  /**
   * `list.filter` keeps manifest order and duplicates: filtering a
   * concatenation concatenates the filtered parts.
   */
  lemma {:induction false} RelatedToAppend(a: seq<Work>, b: seq<Work>, techKey: string, startsWith: bool)
    ensures RelatedTo(a + b, techKey, startsWith) == RelatedTo(a, techKey, startsWith) + RelatedTo(b, techKey, startsWith)
    decreases |a|
  {
    if a == [] {
      assert a + b == b;
    } else {
      assert (a + b)[0] == a[0];
      assert (a + b)[1..] == a[1..] + b;
      RelatedToAppend(a[1..], b, techKey, startsWith);
    }
  }

  /** A one-work manifest is listed exactly when that work matches. */
  lemma RelatedToSingle(w: Work, techKey: string, startsWith: bool)
    ensures RelatedTo([w], techKey, startsWith) == if WorkMatches(w, techKey, startsWith) then [w] else []
  {
    assert [w][1..] == [];
  }

  /** The holder is hidden exactly when no work in the manifest matches. */
  lemma HolderHiddenIffNoMatch(list: seq<Work>, techKey: string, startsWith: bool)
    ensures RelatedTo(list, techKey, startsWith) == []
            <==> forall w :: w in list ==> !WorkMatches(w, techKey, startsWith)
  {
    var r := RelatedTo(list, techKey, startsWith);
    if r != [] {
      assert r[0] in r;
    }
  }

  /** Every work a holder shows in exact mode it also shows in prefix mode. */
  lemma ExactWithinPrefix(list: seq<Work>, techKey: string)
    ensures forall w :: w in RelatedTo(list, techKey, false) ==> w in RelatedTo(list, techKey, true)
  {
    forall w | w in RelatedTo(list, techKey, false)
      ensures w in RelatedTo(list, techKey, true)
    {
      var i :| 0 <= i < |w.techs| && TechMatches(w.techs[i], techKey, false);
      assert TechMatches(w.techs[i], techKey, true);
    }
  }

  /** A link card: its href and cover resolved against the site base. */
  datatype Card = Card(href: string, cover: string, title: string)

  function Cards(siteBase: string, works: seq<Work>): (cards: seq<Card>)
    ensures |cards| == |works|
    ensures forall i :: 0 <= i < |works| ==>
              cards[i].title == works[i].title
              && (cards[i].href == "" <==> works[i].url == "")
              && (cards[i].cover == "" <==> works[i].cover == "")
  {
    seq(|works|, i requires 0 <= i < |works| =>
      ResolveCases(siteBase, works[i].url);
      ResolveCases(siteBase, works[i].cover);
      Card(Resolve(siteBase, works[i].url), Resolve(siteBase, works[i].cover), works[i].title))
  }
}
