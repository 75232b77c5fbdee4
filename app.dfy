/**
 * The naming glue of the page loader's entry point (app.js): the page file and resource folder
 * names it derives from `formatUrl`, and the paths it downloads the collected resources to. The
 * fetching, writing and directory creation around them are not part of this model.
 */
module App {
  import opened Wrappers
  import opened Text
  import opened Dom
  import opened Lib

  /** The page file name, `${fullUrl}.html`. */
  function PageFileName(url: string): (name: string)
    ensures EndsWith(name, ".html") && |name| == |StripProtocol(url)| + 5
    ensures '.' !in name[..|name| - 5] && '/' !in name[..|name| - 5]
  {
    FormatUrl(url).fullUrl + ".html"
  }

  /** The resource folder name, `${fullUrl}_files`. */
  function ResourceFolderName(url: string): (name: string)
    ensures EndsWith(name, "_files") && '/' !in name
    ensures name[..|name| - 6] == PageFileName(url)[..|PageFileName(url)| - 5]
  {
    var fullUrl := FormatUrl(url).fullUrl;
    assert (fullUrl + ".html")[..|fullUrl|] == fullUrl;
    fullUrl + "_files"
  }

  /** The path each collected resource is downloaded to: `generateResourcePath(resource.url, domain, folderName)`. */
  function DownloadPaths(resources: seq<Resource>, domain: string, folderName: string): (paths: seq<string>)
    ensures |paths| == |resources|
    ensures forall j :: 0 <= j < |resources| ==> paths[j] == GenerateResourcePath(resources[j].url, domain, folderName)
  {
    seq(|resources|, j requires 0 <= j < |resources| => GenerateResourcePath(resources[j].url, domain, folderName))
  }

  /** With a domain token free of `/`, every download path lies directly inside the resource folder. */
  lemma DownloadPathsInFolder(resources: seq<Resource>, domain: string, folder: string)
    requires '/' !in domain
    ensures forall j :: 0 <= j < |resources| ==>
      var path := DownloadPaths(resources, domain, folder)[j];
      StartsWith(path, folder + "/") && '/' !in path[|folder| + 1..]
  {
  }

  /**
   * For any filter and naming, the `j`-th element the passes rewrite (in the order of the list
   * they collect) now holds the `j`-th download path, and every rewritten element is one of them.
   */
  lemma RewrittenRefsAreDownloadPaths(d: seq<Element>, keep: string -> bool, domain: string, folder: string)
    ensures var out := RewriteRefs(d, keep, CreateTransformPath(folder, domain));
      var paths := DownloadPaths(Scan(d, keep), domain, folder);
      var idx := RefIndices(d, keep);
      |idx| == |paths| &&
      (forall j :: 0 <= j < |idx| ==> idx[j] < |d| && Reference(out[idx[j]]) == Some(paths[j])) &&
      (forall k :: 0 <= k < |d| && IsRefHit(d[k], keep) ==> k in idx)
  {
    ScanOrder(d, keep);
  }

  /**
   * The reference written into the document is the file the resource is downloaded to: with the
   * naming the entry point derives from the page URL, the `j`-th rewritten element (in the order
   * of the resource list) now holds the `j`-th download path, every rewritten element is one of
   * them, and every download path lies directly inside the resource folder.
   */
  lemma RewrittenPathsAreDownloadPaths(d: seq<Element>, url: string)
    ensures var domain, folder := FormatUrl(url).domain, ResourceFolderName(url);
      var out := LocalizeAll(d, url, CreateTransformPath(folder, domain));
      var paths := DownloadPaths(ResourcesOf(d, url), domain, folder);
      var idx := RefIndices(d, LocalTo(url));
      |idx| == |paths| &&
      (forall j :: 0 <= j < |idx| ==> idx[j] < |d| && Reference(out[idx[j]]) == Some(paths[j])) &&
      (forall k :: 0 <= k < |d| && IsLocalRef(d[k], url) ==> k in idx) &&
      (forall j :: 0 <= j < |paths| ==> StartsWith(paths[j], folder + "/") && '/' !in paths[j][|folder| + 1..])
  {
    var domain, folder := FormatUrl(url).domain, ResourceFolderName(url);
    RewrittenRefsAreDownloadPaths(d, LocalTo(url), domain, folder);
    DownloadPathsInFolder(ResourcesOf(d, url), domain, folder);
  }
}
