/**
 * The resource naming and reference rewriting of the page loader (lib/lib.js): the page's name
 * stem and domain token, the same-host test, extension detection, the local file path of a
 * resource, and the in-place rewrite of a document's `img`, `link` and `script` references.
 */
module Lib {
  import opened Wrappers
  import opened Text
  import opened Url
  import opened Dom

  /**
   * `normalizePath`: the pathname of an absolute URL, otherwise the string itself, in both cases
   * without one leading slash.
   */
  function NormalizePath(path: string): (r: string)
    ensures Parse(path).Some? ==> "/" + r == Parse(path).value.pathname
    ensures Parse(path).None? ==> if StartsWith(path, "/") then "/" + r == path else r == path
  {
    match Parse(path)
    case Some(u) => StripLeadingSlash(u.pathname)
    case None => StripLeadingSlash(path)
  }

  /** `url.replace(/^https?:\/\//, '')`: a leading `http://` or `https://` is removed, nothing else. */
  function StripProtocol(url: string): (r: string)
    ensures StartsWith(url, "http://") ==> "http://" + r == url
    ensures StartsWith(url, "https://") ==> "https://" + r == url
    ensures !StartsWith(url, "http://") && !StartsWith(url, "https://") ==> r == url
  {
    if StartsWith(url, "http://") then
      assert url[..7][4] == ':';
      url[7..]
    else if StartsWith(url, "https://") then url[8..]
    else url
  }

  /** The result of `formatUrl`: the domain token and the name stem of the page file and folder. */
  datatype PageName = PageName(domain: string, fullUrl: string)

  /**
   * `formatUrl`: without the protocol, `fullUrl` is the rest of the URL with every `.` and `/`
   * turned into `-`, and `domain` is the same for the host part (up to the first `/`).
   */
  function FormatUrl(url: string): (r: PageName)
    ensures |r.fullUrl| == |StripProtocol(url)|
    ensures forall i :: 0 <= i < |r.fullUrl| ==>
      r.fullUrl[i] == if StripProtocol(url)[i] in {'.', '/'} then '-' else StripProtocol(url)[i]
    ensures '.' !in r.fullUrl && '/' !in r.fullUrl
    ensures '.' !in r.domain && '/' !in r.domain
    ensures r.domain <= r.fullUrl
    ensures var rest := StripProtocol(url);
      |r.domain| <= |rest| && '/' !in rest[..|r.domain|] && (|r.domain| == |rest| || rest[|r.domain|] == '/')
  {
    var rest := StripProtocol(url);
    var domainPart := PrefixBefore(rest, {'/'});
    var domain := ReplaceAll(domainPart, '.', '-');
    var fullUrl := ReplaceAll(ReplaceAll(rest, '.', '-'), '/', '-');
    assert forall i :: 0 <= i < |domain| ==> domain[i] == fullUrl[i] && domain[i] != '/' by {
      forall i | 0 <= i < |domain| ensures domain[i] == fullUrl[i] && domain[i] != '/' {
        assert domainPart[i] == rest[i] && domainPart[i] != '/';
      }
    }
    assert rest[..|domain|] == domainPart;
    PageName(domain, fullUrl)
  }

  /** Both URLs parse and name the same host. */
  predicate SameHost(a: string, b: string) {
    Parse(a).Some? && Parse(b).Some? && Parse(a).value.hostname == Parse(b).value.hostname
  }

  /**
   * `isLocalResource`: a reference that does not start with `http` is local; one that does is
   * local exactly when it and the page parse with equal hostnames (a parse failure of either
   * makes it foreign).
   */
  function IsLocalResource(resourceUrl: string, pageUrl: string): (r: bool)
    ensures !StartsWith(resourceUrl, "http") ==> r
    ensures StartsWith(resourceUrl, "http") ==> (r <==> SameHost(resourceUrl, pageUrl))
  {
    if !StartsWith(resourceUrl, "http") then true
    else
      match (Parse(pageUrl), Parse(resourceUrl))
      case (Some(page), Some(resource)) => resource.hostname == page.hostname
      case _ => false
  }

  /**
   * The extension test of `getFileExtension` on a pathname: the lower-cased text after the last
   * `.`, or `None` when there is no `.`, the last `.` precedes the last `/`, or the `.` is the
   * final character.
   */
  function ExtensionOf(pathname: string): (r: Option<string>)
    ensures r.None? <==>
      '.' !in pathname || LastIndexOf(pathname, '.') < LastIndexOf(pathname, '/') || pathname[|pathname| - 1] == '.'
    ensures r.Some? ==>
      var n := |pathname| - |r.value|;
      0 < n && pathname[n - 1] == '.' && r.value == Lower(pathname[n..])
    ensures r.Some? ==> r.value != [] && '/' !in r.value && '.' !in r.value
  {
    var lastDot := LastIndexOf(pathname, '.');
    var lastSlash := LastIndexOf(pathname, '/');
    if lastDot == -1 || lastDot < lastSlash || lastDot == |pathname| - 1 then None
    else
      var tail := pathname[lastDot + 1..];
      assert '.' !in tail && '/' !in tail by {
        forall i | 0 <= i < |tail| ensures tail[i] != '.' && tail[i] != '/' {
          assert tail[i] == pathname[lastDot + 1 + i];
        }
      }
      LowerAbsent(tail, '.');
      LowerAbsent(tail, '/');
      Some(Lower(tail))
  }

  /**
   * A pathname whose last segment is `base.ext`, with a non-empty `ext` free of `.` and `/`, has
   * the extension `ext`, lower-cased.
   */
  lemma ExtensionOfLastSegment(pathname: string, dir: string, base: string, ext: string)
    requires pathname == dir + ['/'] + base + ['.'] + ext
    requires '/' !in base && ext != [] && '.' !in ext && '/' !in ext
    ensures ExtensionOf(pathname) == Some(Lower(ext))
  {
    assert pathname == (dir + ['/'] + base) + ['.'] + ext;
    LastIndexOfSplit(dir + ['/'] + base, '.', ext);
    assert pathname == dir + ['/'] + (base + ['.'] + ext);
    LastIndexOfSplit(dir, '/', base + ['.'] + ext);
    assert pathname[|dir| + 1 + |base| + 1..] == ext;
  }

  /**
   * `getFileExtension`: the extension of the pathname that the reference resolves to against
   * `http://example.com`, or `None` when resolution fails (the query never reaches the pathname,
   * so dropping it changes nothing).
   */
  function GetFileExtension(url: string): (r: Option<string>)
    ensures ResolvePathname(url).None? ==> r.None?
    ensures ResolvePathname(url).Some? ==> r == ExtensionOf(ResolvePathname(url).value)
  {
    match ResolvePathname(url)
    case None => None
    case Some(full) =>
      PrefixBeforeAbsent(full, '?');
      ExtensionOf(PrefixBefore(full, {'?'}))
  }

  /**
   * `getResourceType`: `"html"` for a `link` whose reference has no extension; the element type
   * itself for everything else.
   */
  function GetResourceType(url: string, elementType: string): (r: string)
    ensures elementType == "link" && GetFileExtension(url).None? ==> r == "html"
    ensures elementType != "link" || GetFileExtension(url).Some? ==> r == elementType
  {
    if GetFileExtension(url).None? then (if elementType == "link" then "html" else elementType)
    else elementType
  }

  /**
   * The file name that `generateResourcePath` puts after `domain-`: the normalized path with
   * every `/` turned into `-`, followed by `.html` exactly when the reference has no extension.
   */
  function ResourceName(originalUrl: string): (name: string)
    ensures var p := NormalizePath(originalUrl);
      |name| == |p| + (if GetFileExtension(originalUrl).None? then 5 else 0) &&
      (forall i :: 0 <= i < |p| ==> name[i] == if p[i] == '/' then '-' else p[i]) &&
      (GetFileExtension(originalUrl).None? ==> name[|p|..] == ".html")
    ensures '/' !in name
  {
    DashedName(NormalizePath(originalUrl), GetFileExtension(originalUrl).None?)
  }

  /** `path` with every `/` turned into `-`, followed by `.html` when `html` holds. */
  function DashedName(path: string, html: bool): (name: string)
    ensures |name| == |path| + (if html then 5 else 0)
    ensures forall i :: 0 <= i < |path| ==> name[i] == if path[i] == '/' then '-' else path[i]
    ensures html ==> name[|path|..] == ".html"
    ensures '/' !in name
  {
    var pathWithDashes := ReplaceAll(path, '/', '-');
    if html then
      assert (pathWithDashes + ".html")[..|path|] == pathWithDashes;
      pathWithDashes + ".html"
    else pathWithDashes
  }

  /**
   * `generateResourcePath`: `folderName/domain-name` with `name` from `ResourceName`; with a
   * domain token free of `/`, the file sits directly inside the folder.
   */
  function GenerateResourcePath(originalUrl: string, domain: string, folderName: string): (r: string)
    ensures StartsWith(r, folderName + "/") && StartsWith(r, folderName + "/" + domain + "-")
    ensures r[|folderName| + |domain| + 2..] == ResourceName(originalUrl)
    ensures '/' !in domain ==> '/' !in r[|folderName| + 1..]
  {
    var name := ResourceName(originalUrl);
    FolderPathShape(folderName, domain, name);
    folderName + "/" + domain + "-" + name
  }

  /** The shape of `folderName/domain-name` for a name without `/`. */
  lemma FolderPathShape(folderName: string, domain: string, name: string)
    requires '/' !in name
    ensures var r := folderName + "/" + domain + "-" + name;
      StartsWith(r, folderName + "/") && StartsWith(r, folderName + "/" + domain + "-") &&
      r[|folderName| + |domain| + 2..] == name &&
      ('/' !in domain ==> '/' !in r[|folderName| + 1..])
  {
    var r := folderName + "/" + domain + "-" + name;
    assert r[|folderName| + 1..] == domain + "-" + name;
    assert r[..|folderName| + 1] == folderName + "/";
  }

  /**
   * `createTransformPath`: the rewrite applied to each local reference, which is the download
   * target path of that reference.
   */
  function CreateTransformPath(folderName: string, domain: string): (transform: string -> string)
    ensures forall u :: transform(u) == GenerateResourcePath(u, domain, folderName)
  {
    u => GenerateResourcePath(u, domain, folderName)
  }

  /**
   * A reference that starts with `/`, protocol-relative ones included, is not an absolute URL:
   * it is normalized by dropping one slash, and its file name is the rest, dashed, with `.html`
   * when it has no extension.
   */
  lemma SlashLedReference(s: string)
    requires StartsWith(s, "/")
    ensures Parse(s).None? && NormalizePath(s) == s[1..]
    ensures ResourceName(s) == DashedName(s[1..], GetFileExtension(s).None?)
  {
    StartsWithSplit(s, "/");
    var scheme := PrefixBefore(s, {':'});
    assert scheme == [] || scheme[0] == '/';
    assert !IsScheme(scheme);
  }

  /**
   * A root-relative reference (one slash, no query or fragment) resolves to itself, so its
   * extension is that of the reference itself.
   */
  lemma RootRelativeReference(s: string)
    requires StartsWith(s, "/") && !StartsWith(s, "//")
    requires '?' !in s && '#' !in s
    ensures Parse(s).None? && NormalizePath(s) == s[1..] && ResolvePathname(s) == Some(s)
  {
    SlashLedReference(s);
    PrefixBeforeSplit(s, [], {'?', '#'});
    assert s + [] == s;
  }

  /**
   * The file name of such a reference: its extension is that of the reference itself, and its
   * name is the reference without the slash, dashed, with `.html` when it has no extension.
   */
  lemma RootRelativeName(s: string)
    requires StartsWith(s, "/") && !StartsWith(s, "//")
    requires '?' !in s && '#' !in s
    ensures GetFileExtension(s) == ExtensionOf(s)
    ensures ResourceName(s) == DashedName(s[1..], ExtensionOf(s).None?)
  {
    RootRelativeReference(s);
    SlashLedReference(s);
  }

  /**
   * A root-relative reference followed by a query or fragment, such as `/img/a.png?v=1`: the
   * query never reaches the pathname, so the extension is that of the path alone, while the file
   * name is made from the whole reference, query included.
   */
  lemma RootRelativeQueryName(s: string, p: string, q: string)
    requires s == p + q
    requires StartsWith(p, "/") && !StartsWith(p, "//") && '?' !in p && '#' !in p
    requires q == [] || q[0] in {'?', '#'}
    ensures GetFileExtension(s) == ExtensionOf(p)
    ensures ResourceName(s) == DashedName(s[1..], ExtensionOf(p).None?)
  {
    RootRelativeQuery(s, p, q);
    SlashLedReference(s);
  }

  /** An entry of the list `transformResources` returns: the reference as written and its type. */
  datatype Resource = Resource(url: string, kind: string)

  /** The locality filter of `transformResources` for one page. */
  function LocalTo(pageUrl: string): string -> bool {
    s => IsLocalResource(s, pageUrl)
  }

  /** The entry recorded for a reference found on an element of type `elementType`. */
  function AsResource(elementType: string): string -> Resource {
    s => Resource(s, GetResourceType(s, elementType))
  }

  /**
   * The list the three passes of `transformResources` collect with filter `keep`: the `img`
   * sources, then the `link` targets, then the `script` sources that pass it, each group in
   * document order.
   */
  function Scan(d: seq<Element>, keep: string -> bool): (r: seq<Resource>)
    ensures |r| == |RefIndices(d, keep)|
    ensures forall j :: 0 <= j < |r| ==> r[j].url != "" && keep(r[j].url)
  {
    ThreePassEntries(d, keep, "img", "src", AsResource("img"), "link", "href", AsResource("link"),
                     "script", "src", AsResource("script"));
    Hits(d, "img", "src", keep, AsResource("img")) +
    Hits(d, "link", "href", keep, AsResource("link")) +
    Hits(d, "script", "src", keep, AsResource("script"))
  }

  /**
   * The resource list of `transformResources` for a page: `Scan` with the locality filter, so
   * every entry is a non-empty local reference.
   */
  function ResourcesOf(d: seq<Element>, pageUrl: string): (r: seq<Resource>)
    ensures |r| == |RefIndices(d, LocalTo(pageUrl))|
    ensures forall j :: 0 <= j < |r| ==> r[j].url != "" && IsLocalResource(r[j].url, pageUrl)
  {
    Scan(d, LocalTo(pageUrl))
  }

  /** The attribute through which an element with this tag references a resource. */
  function RefAttr(tag: string): Option<string> {
    if tag == "img" || tag == "script" then Some("src")
    else if tag == "link" then Some("href")
    else None
  }

  /** The reference an element carries, if its tag has one. */
  function Reference(e: Element): Option<string> {
    if RefAttr(e.tag).Some? then Attr(e, RefAttr(e.tag).value) else None
  }

  /** An element one of the passes acts on: its reference is non-empty and passes `keep`. */
  predicate IsRefHit(e: Element, keep: string -> bool) {
    RefAttr(e.tag).Some? && IsHit(e, e.tag, RefAttr(e.tag).value, keep)
  }

  /** An element that `transformResources` rewrites: a non-empty local reference. */
  predicate IsLocalRef(e: Element, pageUrl: string) {
    IsRefHit(e, LocalTo(pageUrl))
  }

  /**
   * What the passes do to one element: a reference they act on is replaced by its transform and
   * every other attribute is kept; any other element is left as it is.
   */
  function RewriteRef(e: Element, keep: string -> bool, transform: string -> string): (r: Element)
    ensures r.tag == e.tag
    ensures IsRefHit(e, keep) ==> Reference(r) == Some(transform(Reference(e).value))
    ensures IsRefHit(e, keep) ==>
      forall other :: other != RefAttr(e.tag).value ==> Attr(r, other) == Attr(e, other)
    ensures !IsRefHit(e, keep) ==> r == e
  {
    if IsRefHit(e, keep) then
      var name := RefAttr(e.tag).value;
      SetAttr(e, name, transform(e.attrs[name]))
    else e
  }

  /** The document after the passes. */
  function RewriteRefs(d: seq<Element>, keep: string -> bool, transform: string -> string): (r: seq<Element>)
    ensures |r| == |d|
    ensures forall k :: 0 <= k < |d| ==> r[k] == RewriteRef(d[k], keep, transform)
  {
    seq(|d|, k requires 0 <= k < |d| => RewriteRef(d[k], keep, transform))
  }

  /**
   * What `transformResources` does to one element: a non-empty local reference is replaced by
   * its transform and every other attribute is kept; any other element is left as it is.
   */
  function Localize(e: Element, pageUrl: string, transform: string -> string): (r: Element)
    ensures r.tag == e.tag
    ensures IsLocalRef(e, pageUrl) ==> Reference(r) == Some(transform(Reference(e).value))
    ensures IsLocalRef(e, pageUrl) ==>
      forall other :: other != RefAttr(e.tag).value ==> Attr(r, other) == Attr(e, other)
    ensures !IsLocalRef(e, pageUrl) ==> r == e
  {
    RewriteRef(e, LocalTo(pageUrl), transform)
  }

  /** The document after `transformResources`. */
  function LocalizeAll(d: seq<Element>, pageUrl: string, transform: string -> string): (r: seq<Element>)
    ensures r == RewriteRefs(d, LocalTo(pageUrl), transform)
    ensures forall k :: 0 <= k < |d| ==> r[k] == Localize(d[k], pageUrl, transform)
  {
    RewriteRefs(d, LocalTo(pageUrl), transform)
  }

  /** The positions of the elements the passes act on, listed in the order of `Scan`. */
  function RefIndices(d: seq<Element>, keep: string -> bool): seq<nat> {
    Concat3Indices(d, keep, "img", "src", "link", "href", "script", "src")
  }

  /** The pass of `transformResources` in which an element with this tag is handled. */
  function ScanRank(tag: string): nat {
    if tag == "img" then 0 else if tag == "link" then 1 else 2
  }

  /**
   * `Scan` enumerates the elements the passes act on: entry `j` is the reference of element
   * `RefIndices(d, keep)[j]`, typed by `GetResourceType`; images come before links before
   * scripts and each group is in document order; and every element acted on is listed.
   */
  lemma ScanOrder(d: seq<Element>, keep: string -> bool)
    ensures var res := Scan(d, keep);
      var idx := RefIndices(d, keep);
      |idx| == |res| &&
      (forall j :: 0 <= j < |idx| ==>
        idx[j] < |d| && IsRefHit(d[idx[j]], keep) && Reference(d[idx[j]]) == Some(res[j].url) &&
        res[j].kind == GetResourceType(res[j].url, d[idx[j]].tag)) &&
      (forall j, j' :: 0 <= j < j' < |idx| ==>
        ScanRank(d[idx[j]].tag) < ScanRank(d[idx[j']].tag) ||
        (d[idx[j]].tag == d[idx[j']].tag && idx[j] < idx[j'])) &&
      (forall k :: 0 <= k < |d| && IsRefHit(d[k], keep) ==> k in idx)
  {
    ThreePassEntries(d, keep, "img", "src", AsResource("img"), "link", "href", AsResource("link"),
                     "script", "src", AsResource("script"));
    ThreePassOrder(d, keep, "img", "src", "link", "href", "script", "src");
  }

  /**
   * The resource list of `transformResources` enumerates the rewritten elements, images before
   * links before scripts, each group in document order, every rewritten element once.
   */
  lemma ResourcesFollowScanOrder(d: seq<Element>, pageUrl: string)
    ensures var res := ResourcesOf(d, pageUrl);
      var idx := RefIndices(d, LocalTo(pageUrl));
      |idx| == |res| &&
      (forall j :: 0 <= j < |idx| ==>
        idx[j] < |d| && IsLocalRef(d[idx[j]], pageUrl) && Reference(d[idx[j]]) == Some(res[j].url) &&
        res[j].kind == GetResourceType(res[j].url, d[idx[j]].tag)) &&
      (forall j, j' :: 0 <= j < j' < |idx| ==>
        ScanRank(d[idx[j]].tag) < ScanRank(d[idx[j']].tag) ||
        (d[idx[j]].tag == d[idx[j']].tag && idx[j] < idx[j'])) &&
      (forall k :: 0 <= k < |d| && IsLocalRef(d[k], pageUrl) ==> k in idx)
  {
    ScanOrder(d, LocalTo(pageUrl));
  }

  /**
   * A page with no non-empty local reference yields no resources, and `transformResources`
   * leaves its document as it was.
   */
  lemma NothingLocalNothingChanges(d: seq<Element>, pageUrl: string, transform: string -> string)
    requires forall k :: 0 <= k < |d| ==> !IsLocalRef(d[k], pageUrl)
    ensures ResourcesOf(d, pageUrl) == []
    ensures LocalizeAll(d, pageUrl, transform) == d
  {
    NoHits(d, "img", "src", LocalTo(pageUrl), AsResource("img"));
    NoHits(d, "link", "href", LocalTo(pageUrl), AsResource("link"));
    NoHits(d, "script", "src", LocalTo(pageUrl), AsResource("script"));
  }

  /** The three passes of `transformResources`, applied one after the other, localize an element. */
  lemma ThreePassesLocalize(e: Element, pageUrl: string, transform: string -> string)
    ensures Rewritten(Rewritten(Rewritten(e, "img", "src", LocalTo(pageUrl), transform),
                                "link", "href", LocalTo(pageUrl), transform),
                      "script", "src", LocalTo(pageUrl), transform)
            == Localize(e, pageUrl, transform)
  {
  }

  /**
   * `transformResources`: scans the `img`, `link` and `script` elements in three passes,
   * rewrites every non-empty local reference in place with `transform`, and returns the list of
   * the references it rewrote.
   */
  method TransformResources(doc: array<Element>, pageUrl: string, transform: string -> string)
    returns (resources: seq<Resource>)
    modifies doc
    ensures resources == ResourcesOf(old(doc[..]), pageUrl)
    ensures doc[..] == LocalizeAll(old(doc[..]), pageUrl, transform)
  {
    ghost var d0 := doc[..];
    var local := LocalTo(pageUrl);
    var images := Pass(doc, "img", "src", local, transform, AsResource("img"));
    ghost var d1 := doc[..];
    var links := Pass(doc, "link", "href", local, transform, AsResource("link"));
    ghost var d2 := doc[..];
    var scripts := Pass(doc, "script", "src", local, transform, AsResource("script"));
    resources := images + links + scripts;

    HitsAfterOtherPass(d0, "link", "href", "img", "src", local, transform, AsResource("link"));
    HitsAfterOtherPass(d0, "script", "src", "img", "src", local, transform, AsResource("script"));
    HitsAfterOtherPass(d1, "script", "src", "link", "href", local, transform, AsResource("script"));
    forall k | 0 <= k < doc.Length ensures doc[k] == Localize(d0[k], pageUrl, transform) {
      ThreePassesLocalize(d0[k], pageUrl, transform);
    }
  }
}
