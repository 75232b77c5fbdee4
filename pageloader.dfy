/**
 * The earlier loader of lib/pageLoader.js: its own `formatUrl` (the page file name), the
 * `transformPath` it wires in with the naming of one fixed page, and `transformImagePaths`,
 * which rewrites only the `img` sources of a document and keeps every one of them, local or not.
 */
module PageLoader {
  import opened Wrappers
  import opened Text
  import opened Url
  import opened Dom
  import Lib
  import App

  /**
   * `formatUrl` of the earlier loader: the URL without its protocol, every `.` and `/` turned
   * into `-`, then `.html`.
   */
  function FormatUrl(url: string): (name: string)
    ensures EndsWith(name, ".html") && |name| == |Lib.StripProtocol(url)| + 5
    ensures forall i :: 0 <= i < |name| - 5 ==>
      var c := Lib.StripProtocol(url)[i];
      name[i] == if c in {'.', '/'} then '-' else c
    ensures '.' !in name[..|name| - 5] && '/' !in name[..|name| - 5]
  {
    var stem := ReplaceAll(ReplaceAll(Lib.StripProtocol(url), '.', '-'), '/', '-');
    assert (stem + ".html")[..|stem|] == stem;
    stem + ".html"
  }

  /** The earlier `formatUrl` names the page file exactly as the entry point does. */
  lemma FormatUrlIsPageFileName(url: string)
    ensures FormatUrl(url) == App.PageFileName(url)
  {
  }

  /** The fixed prefix `transformPath` puts before every name: the folder and domain token of one page. */
  const FixedPrefix := "ru-hexlet-io-courses_files/ru-hexlet-io-"

  /**
   * `transformPath`: the fixed prefix, then the reference without one leading slash and with
   * every other `/` turned into `-`.
   */
  function TransformPath(originalPath: string): (r: string)
    ensures StartsWith(r, FixedPrefix)
    ensures var clean := StripLeadingSlash(originalPath);
      |r| == |FixedPrefix| + |clean| &&
      forall i :: 0 <= i < |clean| ==> r[|FixedPrefix| + i] == if clean[i] == '/' then '-' else clean[i]
    ensures '/' !in r[|FixedPrefix|..]
  {
    var tail := ReplaceAll(StripLeadingSlash(originalPath), '/', '-');
    assert (FixedPrefix + tail)[|FixedPrefix|..] == tail;
    FixedPrefix + tail
  }

  /**
   * For a reference that is not an absolute URL (root-relative, protocol-relative and
   * path-relative ones, with or without a query), `transformPath` agrees with `generateResourcePath` for the page its prefix was
   * written for when the reference has an extension, and lacks only the `.html` suffix when it
   * has none.
   */
  lemma TransformPathAgreesWithGenerate(originalPath: string, domain: string, folderName: string)
    requires domain == "ru-hexlet-io" && folderName == "ru-hexlet-io-courses_files"
    requires Parse(originalPath).None?
    ensures Lib.GetFileExtension(originalPath).Some? ==>
      TransformPath(originalPath) == Lib.GenerateResourcePath(originalPath, domain, folderName)
    ensures Lib.GetFileExtension(originalPath).None? ==>
      TransformPath(originalPath) + ".html" == Lib.GenerateResourcePath(originalPath, domain, folderName)
  {
    assert Lib.NormalizePath(originalPath) == StripLeadingSlash(originalPath);
    var tail := ReplaceAll(StripLeadingSlash(originalPath), '/', '-');
    PrefixJoin(folderName, domain);
    assert TransformPath(originalPath) == FixedPrefix + tail;
    if Lib.GetFileExtension(originalPath).Some? {
      assert Lib.ResourceName(originalPath) == tail;
    } else {
      assert Lib.ResourceName(originalPath) == tail + ".html";
    }
  }

  /** The fixed prefix is the folder, a slash, the domain token and a dash. */
  lemma PrefixJoin(folderName: string, domain: string)
    requires domain == "ru-hexlet-io" && folderName == "ru-hexlet-io-courses_files"
    ensures folderName + "/" + domain + "-" == FixedPrefix
  {
  }

  /** The filter of `transformImagePaths`: every non-empty source is taken, local or not. */
  predicate AnySource(src: string) {
    true
  }

  /** The value `transformImagePaths` records for a source: the source itself. */
  function Verbatim(src: string): string {
    src
  }

  /** The sources `transformImagePaths` collects: every non-empty `img` source, in document order. */
  function ImageSources(d: seq<Element>): seq<string> {
    Hits(d, "img", "src", AnySource, Verbatim)
  }

  /** The document `transformImagePaths` leaves: every non-empty `img` source rewritten by `transform`. */
  function RewriteImages(d: seq<Element>, transform: string -> string): seq<Element> {
    RewriteAll(d, "img", "src", AnySource, transform)
  }

  /**
   * `transformImagePaths`: one pass over the `img` elements that replaces each non-empty `src` by
   * `transform` of it, in place, and returns the original sources in document order.
   */
  method TransformImagePaths(doc: array<Element>, transform: string -> string) returns (originalPaths: seq<string>)
    modifies doc
    ensures originalPaths == ImageSources(old(doc[..]))
    ensures doc[..] == RewriteImages(old(doc[..]), transform)
  {
    originalPaths := Pass(doc, "img", "src", AnySource, transform, Verbatim);
  }

  /**
   * The collected sources are exactly the non-empty `img` sources: the `j`-th is the source of the
   * `j`-th such element, which now holds `transform` of it; the positions increase and every such
   * element is among them; every other element is unchanged.
   */
  lemma ImageSourcesAreRewritten(d: seq<Element>, transform: string -> string)
    ensures var paths, out := ImageSources(d), RewriteImages(d, transform);
      var idx := HitIndices(d, "img", "src", AnySource);
      |paths| == |idx| && |out| == |d| &&
      (forall j :: 0 <= j < |idx| ==>
        idx[j] < |d| && d[idx[j]].tag == "img" && Attr(d[idx[j]], "src") == Some(paths[j]) && paths[j] != "" &&
        Attr(out[idx[j]], "src") == Some(transform(paths[j]))) &&
      (forall j, j' :: 0 <= j < j' < |idx| ==> idx[j] < idx[j']) &&
      (forall k :: 0 <= k < |d| && d[k].tag == "img" && Attr(d[k], "src").Some? && Attr(d[k], "src") != Some("") ==> k in idx) &&
      (forall k :: 0 <= k < |d| && k !in idx ==> out[k] == d[k])
  {
    HitsAtHitIndices(d, "img", "src", AnySource, Verbatim);
  }
}
