/**
 * The string logic of the shared-header loader (injectSharedHeader): the base
 * directory computed from the script's path, the rewriting of the injected
 * header's links under that base, and the index.html normalisation used to
 * mark the current page.
 */
module Links {
  import opened Wrappers

  predicate StartsWith(s: string, prefix: string) { prefix <= s }

  predicate EndsWith(s: string, suffix: string)
  {
    |suffix| <= |s| && s[|s| - |suffix|..] == suffix
  }

  /** Position of the last '/' of `s`. */
  function LastSlash(s: string): (r: Option<nat>)
    ensures r.Some? ==> r.value < |s| && s[r.value] == '/'
    ensures r.Some? ==> forall j :: r.value < j < |s| ==> s[j] != '/'
    ensures r.None? ==> forall j :: 0 <= j < |s| ==> s[j] != '/'
  {
    if s == [] then None
    else if s[|s| - 1] == '/' then Some(|s| - 1)
    else LastSlash(s[..|s| - 1])
  }

  /**
   * The header base: the script's path with its last segment replaced by
   * '/' (`replace(/\/[^\/]*$/, '/')`), with a '/' appended if still missing.
   */
  function HeaderBase(scriptPath: string): (base: string)
    ensures |base| > 0 && base[|base| - 1] == '/'
  {
    var dir := match LastSlash(scriptPath)
               case Some(k) => scriptPath[..k + 1]
               case None => scriptPath;
    if EndsWith(dir, "/") then dir else dir + "/"
  }

  /**
   * The base is the directory part of the path: the path is the base followed
   * by a last segment that contains no '/'. A path without '/' gets one added.
   */
  lemma HeaderBaseIsDirectory(scriptPath: string)
    ensures var base := HeaderBase(scriptPath);
            (exists j :: 0 <= j < |scriptPath| && scriptPath[j] == '/')
            ==> base <= scriptPath && forall j :: |base| <= j < |scriptPath| ==> scriptPath[j] != '/'
    ensures (forall j :: 0 <= j < |scriptPath| ==> scriptPath[j] != '/')
            ==> HeaderBase(scriptPath) == scriptPath + "/"
  {
    match LastSlash(scriptPath)
    case Some(k) =>
      var dir := scriptPath[..k + 1];
      assert dir[|dir| - 1..] == "/";
    case None =>
  }

  /** Links that fixLink leaves alone: empty, external, mail, fragment and phone links. */
  predicate KeepsHref(href: string)
  {
    href == "" || StartsWith(href, "http") || StartsWith(href, "mailto:")
    || StartsWith(href, "#") || StartsWith(href, "tel:")
  }

  /** `href.replace(/^\/?/, '')`: at most one leading '/' removed. */
  function StripLeadingSlash(href: string): (r: string)
    ensures |href| - 1 <= |r| <= |href|
    ensures href[|href| - |r|..] == r
  {
    if |href| > 0 && href[0] == '/' then href[1..] else href
  }

  /** The href an injected header link ends up with. */
  function FixLink(base: string, href: string): string
  {
    if KeepsHref(href) then href else base + StripLeadingSlash(href)
  }

  /**
   * A rewritten link is the base followed by the href without its leading
   * '/'; a kept one is untouched.
   */
  lemma FixLinkShape(base: string, href: string)
    ensures KeepsHref(href) ==> FixLink(base, href) == href
    ensures !KeepsHref(href) ==> StartsWith(FixLink(base, href), base)
    ensures !KeepsHref(href) && href[0] == '/' ==> FixLink(base, href) == base + href[1..]
    ensures !KeepsHref(href) && href[0] != '/' ==> FixLink(base, href) == base + href
  {
  }

  /** "page.html" and "/page.html" resolve to the same link under the base. */
  lemma FixLinkSlashInsensitive(base: string, href: string)
    requires !KeepsHref(href) && href[0] != '/'
    ensures !KeepsHref("/" + href)
    ensures FixLink(base, "/" + href) == FixLink(base, href)
  {
    assert ("/" + href)[0] == '/';
    assert ("/" + href)[1..] == href;
  }

  /**
   * Under a header base (which ends in '/') a rewritten link never has a
   * doubled '/' at the join, unless the href itself began with "//".
   */
  lemma FixLinkSingleSlashAtJoin(scriptPath: string, href: string)
    requires !KeepsHref(href) && !StartsWith(href, "//")
    ensures var base := HeaderBase(scriptPath);
            var r := FixLink(base, href);
            r[|base| - 1] == '/' && (|r| > |base| ==> r[|base|] != '/')
  {
    var base := HeaderBase(scriptPath);
  }

  /** `path.replace(/\/index\.html?$/, '/')` */
  function NormalizeIndex(path: string): string
  {
    if EndsWith(path, "/index.html") then path[..|path| - 11] + "/"
    else if EndsWith(path, "/index.htm") then path[..|path| - 10] + "/"
    else path
  }

  /** A normalised path ends in '/' when it was changed, and normalising twice changes nothing more. */
  lemma NormalizeIndexIdempotent(path: string)
    ensures NormalizeIndex(path) != path ==> EndsWith(NormalizeIndex(path), "/")
    ensures NormalizeIndex(NormalizeIndex(path)) == NormalizeIndex(path)
  {
    var r := NormalizeIndex(path);
    if r != path {
      var last := r[|r| - 1];
      assert last == '/';
      assert r[|r| - 1..] == "/";
    }
  }

  /** The directory, its index.html and its index.htm normalise to the same path. */
  lemma NormalizeIndexVariants(dir: string)
    requires EndsWith(dir, "/") && !EndsWith(dir, "/index.html") && !EndsWith(dir, "/index.htm")
    ensures NormalizeIndex(dir + "index.html") == dir
    ensures NormalizeIndex(dir + "index.htm") == dir
    ensures NormalizeIndex(dir) == dir
  {
    var d := dir[..|dir| - 1];
    assert dir == d + "/";
    assert dir + "index.html" == d + "/index.html";
    assert dir + "index.htm" == d + "/index.htm";
    assert (d + "/index.html")[..|d + "/index.html"| - 11] == d;
    assert (d + "/index.htm")[..|d + "/index.htm"| - 10] == d;
    var s := d + "/index.html";
    assert s[|s| - 11..] == "/index.html";
    var t := d + "/index.htm";
    assert t[|t| - 10..] == "/index.htm";
    assert t[|t| - 1] == 'm';
  }
}
