# Page loader naming and reference rewriting, in Dafny

This project models the core of a command-line page loader. The loader downloads a web page,
saves it under a name derived from its URL, and rewrites the page's local `img`, `link` and
`script` references to files in a side folder. Those files are then downloaded.

The model covers the pure naming rules of `lib/lib.js`:
- the page's name stem and domain token (`formatUrl`);
- the same-host test (`isLocalResource`);
- extension detection and resource typing (`getFileExtension`, `getResourceType`);
- the local file path of a resource (`normalizePath`, `generateResourcePath`, `createTransformPath`).

It also covers the in-place rewrite of a document (`transformResources`). That is a method over an
`array<Element>`, proved against specification functions: which references are collected, in
which order, and what each element becomes. The entry point `app.js` uses these rules to name the
page file (`${fullUrl}.html`) and the folder (`${fullUrl}_files`), and to choose each download
path. Its naming glue is modelled too. The key lemma, `App.RewrittenPathsAreDownloadPaths`, shows
that the reference written into the page is exactly the file the resource is downloaded to, and
that this file lies directly inside the folder.

`lib/pageLoader.js` is an earlier version of the loader. Its `formatUrl`, its fixed-prefix
`transformPath` and its `transformImagePaths` are modelled in module `PageLoader`. Lemmas there
compare it with the current rules.

Modules:
- `Wrappers`: `Option`.
- `Text`: the JavaScript string operations used by the source (`startsWith`, global
  `replace` of one character, `split(c)[0]`, `lastIndexOf`, ASCII `toLowerCase`).
- `Url`: the parts of `new URL(...)` the source reads: hostname and pathname.
- `Dom`: elements, attributes and one generic `.each` pass.
- `Lib`: `lib/lib.js`.
- `App`: the naming glue of `app.js`.
- `PageLoader`: `lib/pageLoader.js`.
- `Examples`: the project's own test URL and a few references, worked through.

Behaviours of the source that may surprise are stated as they are written, not corrected. For
example, `isLocalResource` only tests `startsWith('http')`. So a relative file named
`http-logo.png` counts as foreign, and `ftp://…` or `//cdn…` references count as local
(`Examples.LocalityEdgeCases`).

## Model

| member | source | states |
|---|---|---|
| Lib.StripProtocol | lib/lib.js:15 | `replace(/^https?:\/\//, '')`: a leading `http://` or `https://` is removed (the result with it put back is the URL), and any other URL is kept as it is. |
| Lib.NormalizePath | lib/lib.js:4-12 | For an absolute URL, the result is its pathname without the leading slash. Otherwise it is the string without one leading slash, if it has one. |
| Lib.FormatUrl | lib/lib.js:14-23 | Drops the protocol. `fullUrl` has the length of the rest and maps each `.`/`/` of it to `-`. Neither part contains `.` or `/`. `domain` is a prefix of `fullUrl` and covers exactly the protocol-less URL up to its first `/` (or all of it when there is none). |
| Lib.IsLocalResource | lib/lib.js:25-37 | A reference not starting with `http` is local. One starting with `http` is local iff it and the page both parse with equal hostnames; a parse failure makes it foreign. |
| Lib.ExtensionOf | lib/lib.js:42-51 | None iff the pathname has no `.`, or its last `.` precedes its last `/`, or ends it. Otherwise: the lower-cased text after the last `.`, non-empty, without `/` or `.`. |
| Lib.ExtensionOfLastSegment | lib/lib.js:43-51 | A pathname ending in `/base.ext`, with a non-empty `ext` free of `.` and `/` and a `/`-free `base`, has extension `ext` lower-cased. |
| Lib.GetFileExtension | lib/lib.js:39-56 | None when the reference does not resolve against `http://example.com`. Otherwise the extension of the resolved pathname. |
| Lib.GetResourceType | lib/lib.js:59-69 | `html` for a `link` without an extension. The element type itself in every other case. |
| Lib.ResourceName | lib/lib.js:73-81 | The normalized path with each `/` turned into `-` (same length, character by character). `.html` is appended exactly when there is no extension. It contains no `/`. |
| Lib.DashedName | lib/lib.js:76-81 | A path with every `/` turned into `-` (same length, character by character), with `.html` appended when asked. It contains no `/`. |
| Lib.GenerateResourcePath | lib/lib.js:72-84 | Starts with `folderName/` and with `folderName/domain-`, followed by `ResourceName` of the reference. With a `/`-free domain, nothing after the folder's slash is a `/`. |
| Lib.FolderPathShape | lib/lib.js:83 | The shape of `folder/domain-name`: its prefix, its tail, and no further `/` when the domain and name have none. |
| Lib.CreateTransformPath | lib/lib.js:86 | The returned function gives, for every reference, `generateResourcePath(u, domain, folderName)`. |
| Lib.SlashLedReference | lib/lib.js:4-12 | A reference starting with `/`, protocol-relative ones included, is not an absolute URL. It normalizes to itself minus one slash, and its file name is that text dashed, with `.html` exactly when it has no extension. |
| Lib.RootRelativeReference | lib/lib.js:4-12 | A reference starting with one `/`, with no `?` or `#`, resolves against `http://example.com` to itself. |
| Lib.RootRelativeName | lib/lib.js:72-81 | For such a reference, the extension is that of the reference itself. Its file name is the reference without the slash, dashed, with `.html` exactly when it has no extension. |
| Lib.RootRelativeQueryName | lib/lib.js:39-56 | For a root-relative reference with a query or fragment, the extension is that of the path without the query, and the file name is made from the whole reference, query included, with `.html` exactly when that path has no extension. |
| Lib.Scan | lib/lib.js:90-121 | The list the three passes collect under a filter: one entry per element acted on, and each entry's reference is non-empty and passes the filter. |
| Lib.ResourcesOf | lib/lib.js:88-124 | The `resources` list of `transformResources`: one entry per rewritten element, and each entry's reference is non-empty and local to the page. |
| Lib.RewriteRef | lib/lib.js:96-98 | An element the passes act on gets its reference replaced by the transform, with every other attribute kept. Any other element is unchanged. |
| Lib.RewriteRefs | lib/lib.js:92-121 | Same length as the document; each element as `RewriteRef` leaves it. |
| Lib.Localize | lib/lib.js:96-119 | A non-empty local reference is replaced by its transform, with other attributes kept. Every other element is unchanged. |
| Lib.LocalizeAll | lib/lib.js:88-124 | The document after the three passes, element by element. |
| Lib.ScanOrder | lib/lib.js:92-121 | For any filter: the collected entries are exactly the elements acted on. Entry `j` is element `idx[j]`'s reference, typed by `getResourceType`. Images come before links before scripts, each in document order, and every element acted on is listed. |
| Lib.ResourcesFollowScanOrder | lib/lib.js:88-124 | The resource list of `transformResources` enumerates the rewritten elements: one entry per element, in pass order, then document order. |
| Lib.NothingLocalNothingChanges | lib/lib.js:96-121 | A document with no non-empty local reference yields no resources and is left unchanged. |
| Lib.ThreePassesLocalize | lib/lib.js:92-121 | The img, link and script passes, applied in turn to one element, give exactly `Localize`. |
| Lib.TransformResources | lib/lib.js:88-124 | Rewrites the document in place to `LocalizeAll` of the old document. Returns `ResourcesOf` of the old document. |
| Dom.Attr | lib/lib.js:95 | `$el.attr(name)`: undefined exactly when the element has no such attribute, otherwise that attribute's value. |
| Dom.Hits | lib/lib.js:93-100 | The `resources.push` sequence of one pass. Its content is stated by `Dom.HitsStep` and `Dom.HitsAtHitIndices`. |
| Dom.SetAttr | lib/lib.js:98 | `$el.attr(name, value)`: the tag is kept, the attribute is set, and other attributes are untouched. |
| Dom.Rewritten | lib/lib.js:93-100 | What one pass does to one element: a hit gets its attribute transformed, with other attributes kept. Anything else is unchanged. |
| Dom.HitIndices | lib/lib.js:93-100 | The positions one pass acts on: in range, all hits, strictly increasing, and covering every hit. |
| Dom.HitsStep | lib/lib.js:93-100 | Scanning one more element adds that element's value exactly when it is a hit. |
| Dom.HitsAtHitIndices | lib/lib.js:93-100 | The `j`-th value a pass records comes from the `j`-th hit position, and there are as many values as hits. |
| Dom.NoHits | lib/lib.js:96 | A pass over a document without hits records nothing. |
| Dom.ThreePassEntries | lib/lib.js:92-121 | Entry `j` of three concatenated passes is made from the element at position `j` of the concatenated hit positions. |
| Dom.ThreePassOrder | lib/lib.js:92-121 | With distinct tags, those positions are in pass order (`InPassOrder`: an earlier pass, or the same pass and earlier in the document) and cover every hit of every pass. |
| Dom.ConcatOrder | lib/lib.js:92-121 | Increasing positions of `t1`, then `t2`, then `t3` elements, concatenated, are pairwise in pass order. |
| Dom.RewriteAll | lib/lib.js:93-100 | The document after one pass: same length, each element as `Rewritten`. |
| Dom.HitsAfterOtherPass | lib/lib.js:103-121 | A pass over another tag does not change what a later pass collects. |
| Dom.Pass | lib/lib.js:93-100 | One `.each` pass in place: returns the values recorded for the hits in document order, and leaves `RewriteAll` of the old document. |
| Url.SchemeAuthority | lib/lib.js:6 | Recognises `scheme://`: the authority it finds holds no `/`, `?` or `#`, and what follows it is empty or starts with one of them. |
| Url.Parse | lib/lib.js:6 | The model of `new URL(s)` accepts only `scheme://authority…` with a non-empty host and a valid port. The hostname has no `/` or `:`. The pathname starts with `/` and holds no `?` or `#`. |
| Url.AuthorityHost | lib/lib.js:30-31 | The host of an authority is found exactly when the text before its first `:` is non-empty and any text after it is a port (digits, at most 65535). It is that text lower-cased, with no `/` or `:`. |
| Url.BadPortFails | lib/lib.js:30-35 | `scheme://host:port…` whose port is not digits of value at most 65535, such as `http://host:abc/x`, does not parse, with or without a base. |
| Url.PortedHostParses | lib/lib.js:30-31 | `scheme://host:port…` with a non-empty host and a valid port parses to the lower-cased host and the path before any `?` or `#`. |
| Url.EmptyHostFails | lib/lib.js:30-31 | A URL whose authority starts with the port separator (`ftp://:21/…`) has an empty host and does not parse, with or without a base. |
| Url.PlainHostParses | lib/lib.js:30-31 | `scheme://host…` without a port parses to the lower-cased host and the path before any `?` or `#`. |
| Url.ResolvePathname | lib/lib.js:41 | The pathname of `new URL(s, 'http://example.com')`: that of `s` itself when absolute. None for `scheme://` with an authority that names no host. Present for every other reference that is not protocol-relative. It starts with `/` and has no `?` or `#`. |
| Url.ProtocolRelativeResolution | lib/lib.js:41 | A protocol-relative reference `//…` does not parse on its own and is not refused; it resolves exactly as `http:` followed by itself does, or not at all when that fails. |
| Url.NoSchemeReference | lib/lib.js:6 | A reference whose text before its first `:` is not a scheme neither parses nor is refused. |
| Url.PathRelativeReference | lib/lib.js:41 | A path-relative reference without query or fragment, such as `img/a.png`, resolves to `/` followed by itself. |
| Url.PathOfQuery | lib/lib.js:41-42 | The pathname of a `/`-led path without `?` or `#`, followed by a query or fragment, is that path alone. |
| Url.RootRelativeQuery | lib/lib.js:41-42 | A root-relative reference followed by a query or fragment, such as `/img/a.png?v=1`, resolves to its path alone (`/img/a.png`). |
| Url.PathRelativeQuery | lib/lib.js:41-42 | A path-relative reference followed by a query or fragment, such as `img/a.png?v=1`, resolves to `/` followed by its path alone. |
| App.PageFileName | app.js:73 | `${fullUrl}.html` ends in `.html`, with no `.` or `/` before it. |
| App.ResourceFolderName | app.js:64 | `${fullUrl}_files` ends in `_files`, has no `/`, and shares its stem with the page file name. |
| App.DownloadPaths | app.js:45-51 | The `j`-th download path is `generateResourcePath` of the `j`-th resource. |
| App.DownloadPathsInFolder | app.js:47 | With a `/`-free domain, each download path lies directly inside the folder. |
| App.RewrittenRefsAreDownloadPaths | lib/lib.js:86-124 | For any filter and naming, the `j`-th rewritten element holds the `j`-th download path, and every rewritten element is one of them. |
| App.RewrittenPathsAreDownloadPaths | app.js:63-71 | With the naming the entry point derives from the page URL, every rewritten reference is the download path of its resource, directly inside the resource folder. |
| Examples.HexletFormatUrl | __tests__/index.test.js:8 | `https://ru.hexlet.io/courses` has domain token `ru-hexlet-io` and stem `ru-hexlet-io-courses`. |
| Examples.HexletPageFileName | __tests__/index.test.js:30 | That page is saved as `ru-hexlet-io-courses.html`, its resources in `ru-hexlet-io-courses_files`. |
| Examples.PngExtension | lib/lib.js:43-51 | The extension of `/img/a.png` is `png`. |
| Examples.ImagePathExample | lib/lib.js:72-84 | `/img/a.png` on that page is stored as `ru-hexlet-io-courses_files/ru-hexlet-io-img-a.png`. |
| Examples.QueryImagePathExample | lib/lib.js:39-84 | `/img/a.png?v=1` on that page has extension `png`, so no `.html` is added, and it is stored as `ru-hexlet-io-courses_files/ru-hexlet-io-img-a.png?v=1`. |
| Examples.ExtensionlessLinkExample | lib/lib.js:59-84 | The link `/about` is typed `html` and stored as `…/ru-hexlet-io-about.html`. |
| Examples.LocalityEdgeCases | lib/lib.js:27-35 | `http-logo.png` is foreign. `//cdn.example.org/app.js` and `ftp://…` are local whatever the page. |
| Examples.BadPortForeign | lib/lib.js:30-35 | `http://host:abc/x` makes `new URL` throw, so it is foreign to every page. |
| Examples.BadPortNoExtension | lib/lib.js:39-56 | `//host:abc/a.png` does not resolve, so it has no extension. |
| Examples.EmptyHostNoExtension | lib/lib.js:25-56 | `ftp://:21/a.png` is local but does not resolve, so it has no extension. |
| Examples.PathRelativeExtension | lib/lib.js:39-56 | `img/a.png` resolves to `/img/a.png`, with extension `png`. |
| Examples.HexletParse | lib/lib.js:30-31 | `https://ru.hexlet.io/courses` parses to host `ru.hexlet.io` and path `/courses`. |
| Examples.TransformPathOmitsHtml | lib/pageLoader.js:19-25 | The earlier `transformPath` maps `/about` to the fixed prefix plus `about`, with no `.html`, unlike `generateResourcePath`. |
| Examples.TransformPathProtocolRelative | lib/pageLoader.js:20-23 | `//cdn.example.org/a.png` loses only its first slash: the name is `-cdn.example.org-a.png`. |
| PageLoader.FormatUrl | lib/pageLoader.js:6-16 | Ends in `.html`, length of the protocol-less URL plus 5. Each `.`/`/` becomes `-`, and none remains before the suffix. |
| PageLoader.FormatUrlIsPageFileName | lib/pageLoader.js:6-16 | The earlier `formatUrl` equals `lib/lib.js`'s `fullUrl + ".html"`, the file name the entry point uses. |
| PageLoader.TransformPath | lib/pageLoader.js:19-25 | Starts with `ru-hexlet-io-courses_files/ru-hexlet-io-`. The rest is the reference without one leading `/`, each other `/` turned into `-`, so it has no `/`. |
| PageLoader.TransformPathAgreesWithGenerate | lib/pageLoader.js:19-25 | For every reference that is not an absolute URL (root-relative, protocol-relative and path-relative ones, with or without a query or fragment), it equals `generateResourcePath` for that page's domain token and folder when the reference has an extension, and lacks only the `.html` suffix when it has none. |
| PageLoader.TransformImagePaths | lib/pageLoader.js:27-50 | Rewrites every non-empty `img` source in place with `transformFn`. Returns those sources in document order, with no locality filter. |
| PageLoader.ImageSourcesAreRewritten | lib/pageLoader.js:32-44 | The `j`-th collected path is the source of the `j`-th `img` with a non-empty `src`, which now holds `transformFn` of it. The positions increase and cover all such images. Every other element is unchanged. |
| Text.ReplaceAll | lib/lib.js:17 | `replace(/c/g, d)`: same length. Each `c` becomes `d`, every other character is kept, and no `c` remains. |
| Text.StartsWithSplit | lib/lib.js:27 | `startsWith(p)`: a string that starts with `p` is `p` followed by the rest of it. |
| Text.StartsWithAppend | lib/lib.js:27 | `startsWith(p)` holds for `p` followed by anything. |
| Text.StripLeadingSlash | lib/lib.js:7 | `replace(/^\//, '')` removes exactly one leading `/`, if there is one. |
| Text.PrefixBefore | lib/lib.js:16 | `split(c)[0]`: a prefix free of the stop characters, ended by one of them or by the end. |
| Text.LastIndexOf | lib/lib.js:43-44 | `lastIndexOf(c)`: `-1` iff `c` is absent. Otherwise a position holding `c` with no `c` after it. |
| Text.Lower | lib/lib.js:51 | `toLowerCase` on ASCII: same length, no upper-case letter left, and other characters kept. |
| Text.LowerIdentity | lib/lib.js:51 | A string without upper-case ASCII letters is its own lower case. |
| Text.LowerAbsent | lib/lib.js:51 | Lower-casing introduces no character other than a lower-case letter. |

## Left out

- HTTP fetching, file writing, `mkdir`, the `Promise.all` fan-out and logging in `app.js` and in the `pageLoader` export of `lib/pageLoader.js`. These are I/O and concurrency.
- The empty-list short-circuit of `downloadAllResources` in `app.js`: with no local resource it logs and returns before `mkdir`, so no resource folder is created. That directory creation is left out with `mkdir`. The success/failure tally only logs and does not affect names or paths.
- `resolveResourceUrl` in `app.js` (full WHATWG resolution of a reference against the page); client/client.js, bin/page-loader.js and logger/index.js are not part of this model.
- cheerio's HTML parsing and `$.html()` serialisation. A document is an array of elements (tag and attribute map) in document order, and the returned HTML is that array after the passes.
- Url.Parse: a simplified WHATWG parser. Opaque URLs such as `mailto:` or `data:` are treated as failures, so a local `data:image/png;base64,…` reference keeps its scheme in its file name (the standard's pathname would be `image/png;base64,…`). A `file:` URL with an empty host (`file:///a.png`) and other non-special URLs with an empty host parse in the standard but are refused here, so `file:///a.png` is named `file:---a.png` instead of `a.png`. The host of a non-special URL is lower-cased here, but the standard keeps it as written. Its empty path is `/` here, but the standard keeps it empty. Forbidden host code points, IPv4 address normalisation (`127.1`) and IDNA mapping are not checked or applied, so hosts the standard refuses or rewrites are kept as written. A port is checked (digits, at most 65535) but not normalised. Userinfo is not split off. `user:pass@host` is refused because its port text is not digits. `user@host` keeps `user@` in the hostname. Also not modelled: IPv6 hosts, percent-encoding, dot-segment removal, backslashes, whitespace trimming, the special-scheme forms `http:foo` and the extra slashes a special scheme skips (`http:///a.png`, which the model refuses).
- Text.Lower: ASCII only, not Unicode `toLowerCase`.
- Lib.ScanOrder: the `img` and `script` entries are typed by `getResourceType` rather than by the literal `'img'` and `'script'` of the source. `Lib.GetResourceType` proves that these are equal for every element type other than `link`.
- The `try`/`catch` around `startsWith` in `isLocalResource` never triggers for string references, so it is not modelled.
