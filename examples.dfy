/**
 * Worked examples of the naming and locality rules on the page of the project's own test,
 * `https://ru.hexlet.io/courses`. Each example takes its literal input as a parameter fixed by
 * `requires`, so that the verifier does not evaluate the recursive string functions on a
 * literal without bound; the larger ones are split into evaluation steps.
 */
module Examples {
  import opened Wrappers
  import opened Text
  import opened Url
  import opened Lib
  import opened App
  import PageLoader

  /**
   * The page of the project's own test: `https://ru.hexlet.io/courses` has the name stem
   * `ru-hexlet-io-courses` and the domain token `ru-hexlet-io`.
   */
  lemma HexletFormatUrl(url: string)
    requires url == "https://ru.hexlet.io/courses"
    ensures FormatUrl(url) == PageName("ru-hexlet-io", "ru-hexlet-io-courses")
  {
    var rest := "ru.hexlet.io/courses";
    HexletStripProtocol(url, rest);
    HexletHostPart(rest);
    HexletDomainDashes(PrefixBefore(rest, {'/'}));
    HexletDotDashes(rest);
    HexletSlashDashes(ReplaceAll(rest, '.', '-'));
  }

  /** Evaluation step of `HexletFormatUrl`: the protocol is stripped. */
  lemma HexletStripProtocol(url: string, rest: string)
    requires url == "https://ru.hexlet.io/courses" && rest == "ru.hexlet.io/courses"
    ensures StripProtocol(url) == rest
  {
    assert url[..7][4] == 's';
    assert url == "https://" + rest;
    StartsWithAppend("https://", rest);
  }

  /** Evaluation step of `HexletFormatUrl`: the host part ends at the first `/`. */
  lemma HexletHostPart(rest: string)
    requires rest == "ru.hexlet.io/courses"
    ensures PrefixBefore(rest, {'/'}) == "ru.hexlet.io"
  {
    var host, path := "ru.hexlet.io", "/courses";
    assert host + path == rest;
    PrefixBeforeSplit(host, path, {'/'});
  }

  /** Evaluation step of `HexletFormatUrl`: the dots of the host part become dashes. */
  lemma HexletDomainDashes(host: string)
    requires host == "ru.hexlet.io"
    ensures ReplaceAll(host, '.', '-') == "ru-hexlet-io"
  {
  }

  /** Evaluation step of `HexletFormatUrl`: the dots of the whole rest become dashes. */
  lemma HexletDotDashes(rest: string)
    requires rest == "ru.hexlet.io/courses"
    ensures ReplaceAll(rest, '.', '-') == "ru-hexlet-io/courses"
  {
  }

  /** Evaluation step of `HexletFormatUrl`: then its slashes do. */
  lemma HexletSlashDashes(dotless: string)
    requires dotless == "ru-hexlet-io/courses"
    ensures ReplaceAll(dotless, '/', '-') == "ru-hexlet-io-courses"
  {
  }

  /** The extension of `/img/a.png` is `png`. */
  lemma PngExtension(s: string)
    requires s == "/img/a.png"
    ensures ExtensionOf(s) == Some("png")
  {
    PngParts(s, "/img", "a", "png");
    PngLower("png");
  }

  /** Evaluation step of `PngExtension`: the directory, base name and extension. */
  lemma PngParts(s: string, dir: string, base: string, ext: string)
    requires s == "/img/a.png" && dir == "/img" && base == "a" && ext == "png"
    ensures ExtensionOf(s) == Some(Lower(ext))
  {
    assert s == dir + ['/'] + base + ['.'] + ext;
    ExtensionOfLastSegment(s, dir, base, ext);
  }

  /** Evaluation step of `PngExtension`: the extension is already lower-case. */
  lemma PngLower(ext: string)
    requires ext == "png"
    ensures Lower(ext) == ext
  {
    LowerIdentity(ext);
  }

  /**
   * A root-relative image reference of that page, `/img/a.png`, is stored as
   * `ru-hexlet-io-courses_files/ru-hexlet-io-img-a.png`: one slash stripped, the other turned
   * into `-`, and no `.html` since it has an extension.
   */
  lemma ImagePathExample(ref: string, domain: string, folderName: string)
    requires ref == "/img/a.png"
    requires domain == "ru-hexlet-io" && folderName == "ru-hexlet-io-courses_files"
    ensures GenerateResourcePath(ref, domain, folderName)
            == "ru-hexlet-io-courses_files/ru-hexlet-io-img-a.png"
  {
    ImageResourceName(ref);
    ImagePathJoin(folderName, domain, ResourceName(ref));
  }

  /** Evaluation step of `ImagePathExample`: the file name. */
  lemma ImageResourceName(ref: string)
    requires ref == "/img/a.png"
    ensures ResourceName(ref) == "img-a.png"
  {
    assert ref[..2][1] == 'i';
    RootRelativeName(ref);
    PngExtension(ref);
    ImageDashes(ref[1..]);
  }

  /** Evaluation step of `ImagePathExample`: the slash of the name becomes a dash. */
  lemma ImageDashes(path: string)
    requires path == "img/a.png"
    ensures DashedName(path, false) == "img-a.png"
  {
  }

  /** Evaluation step of `ImagePathExample`: the concatenation. */
  lemma ImagePathJoin(folderName: string, domain: string, name: string)
    requires domain == "ru-hexlet-io" && folderName == "ru-hexlet-io-courses_files" && name == "img-a.png"
    ensures folderName + "/" + domain + "-" + name == "ru-hexlet-io-courses_files/ru-hexlet-io-img-a.png"
  {
  }

  /**
   * An image with a query, `/img/a.png?v=1`: the extension is still `png`, so no `.html` is
   * added, and the query stays in the file name.
   */
  lemma QueryImagePathExample(ref: string, domain: string, folderName: string)
    requires ref == "/img/a.png?v=1"
    requires domain == "ru-hexlet-io" && folderName == "ru-hexlet-io-courses_files"
    ensures GetFileExtension(ref) == Some("png")
    ensures GenerateResourcePath(ref, domain, folderName)
            == "ru-hexlet-io-courses_files/ru-hexlet-io-img-a.png?v=1"
  {
    QueryResourceName(ref, "/img/a.png", "?v=1");
    QueryPathJoin(folderName, domain, ResourceName(ref));
  }

  /** Evaluation step of `QueryImagePathExample`: the extension and the file name. */
  lemma QueryResourceName(ref: string, path: string, query: string)
    requires ref == "/img/a.png?v=1" && path == "/img/a.png" && query == "?v=1"
    ensures GetFileExtension(ref) == Some("png")
    ensures ResourceName(ref) == "img-a.png?v=1"
  {
    QueryParts(ref, path, query);
    RootRelativeQueryName(ref, path, query);
    PngExtension(path);
    QueryDashes(ref[1..]);
  }

  /** Evaluation step of `QueryImagePathExample`: the path and the query. */
  lemma QueryParts(ref: string, path: string, query: string)
    requires ref == "/img/a.png?v=1" && path == "/img/a.png" && query == "?v=1"
    ensures ref == path + query && StartsWith(path, "/") && !StartsWith(path, "//")
    ensures '?' !in path && '#' !in path && query[0] == '?'
  {
    assert path[..2][1] == 'i';
    forall i | 0 <= i < |path| ensures path[i] != '?' && path[i] != '#' { }
  }

  /** Evaluation step of `QueryImagePathExample`: the slash of the name becomes a dash. */
  lemma QueryDashes(path: string)
    requires path == "img/a.png?v=1"
    ensures DashedName(path, false) == "img-a.png?v=1"
  {
  }

  /** Evaluation step of `QueryImagePathExample`: the concatenation. */
  lemma QueryPathJoin(folderName: string, domain: string, name: string)
    requires domain == "ru-hexlet-io" && folderName == "ru-hexlet-io-courses_files" && name == "img-a.png?v=1"
    ensures folderName + "/" + domain + "-" + name == "ru-hexlet-io-courses_files/ru-hexlet-io-img-a.png?v=1"
  {
  }

  /**
   * A link to `/about`, which has no extension, is typed `html` and stored as
   * `ru-hexlet-io-courses_files/ru-hexlet-io-about.html`.
   */
  lemma ExtensionlessLinkExample(ref: string, domain: string, folderName: string)
    requires ref == "/about"
    requires domain == "ru-hexlet-io" && folderName == "ru-hexlet-io-courses_files"
    ensures GetResourceType(ref, "link") == "html"
    ensures GenerateResourcePath(ref, domain, folderName)
            == "ru-hexlet-io-courses_files/ru-hexlet-io-about.html"
  {
    assert ref[..2][1] == 'a';
    assert '.' !in ref;
    RootRelativeName(ref);
    AboutDashes(ref[1..]);
    AboutJoin(folderName, domain, ResourceName(ref));
  }

  /** Evaluation step of `ExtensionlessLinkExample`: the name gains `.html`. */
  lemma AboutDashes(path: string)
    requires path == "about"
    ensures DashedName(path, true) == "about.html"
  {
  }

  /** Evaluation step of `ExtensionlessLinkExample`: the concatenation. */
  lemma AboutJoin(folderName: string, domain: string, name: string)
    requires domain == "ru-hexlet-io" && folderName == "ru-hexlet-io-courses_files" && name == "about.html"
    ensures folderName + "/" + domain + "-" + name == "ru-hexlet-io-courses_files/ru-hexlet-io-about.html"
  {
  }

  /**
   * What the `startsWith('http')` test does at its edges: a relative file name that happens to
   * begin with `http` fails to parse and is foreign, while a protocol-relative reference to
   * another host and a reference with another scheme are local whatever the page.
   */
  lemma LocalityEdgeCases(httpNamed: string, protocolRelative: string, otherScheme: string, pageUrl: string)
    requires httpNamed == "http-logo.png"
    requires protocolRelative == "//cdn.example.org/app.js"
    requires otherScheme == "ftp://files.example.org/a.png"
    ensures !IsLocalResource(httpNamed, pageUrl)
    ensures IsLocalResource(protocolRelative, pageUrl)
    ensures IsLocalResource(otherScheme, pageUrl)
  {
    PrefixBeforeAbsent(httpNamed, ':');
    assert httpNamed[..4] == "http";
    assert protocolRelative[..4][0] == '/';
    assert otherScheme[..4][0] == 'f';
  }

  /** A port that is not a number makes `new URL` throw, so `http://host:abc/x` is foreign to every page. */
  lemma BadPortForeign(resourceUrl: string, pageUrl: string)
    requires resourceUrl == "http://host:abc/x"
    ensures !IsLocalResource(resourceUrl, pageUrl)
  {
    BadPortParse(resourceUrl, "http", "host", "abc", "/x");
    assert resourceUrl[..4] == "http";
  }

  /**
   * The protocol-relative `//host:abc/a.png` does not resolve either, so it has no extension and
   * its file gets `.html` appended.
   */
  lemma BadPortNoExtension(ref: string)
    requires ref == "//host:abc/a.png"
    ensures GetFileExtension(ref).None?
  {
    BadPortParse("http:" + ref, "http", "host", "abc", "/a.png");
    assert ref[..2] == "//";
    ProtocolRelativeResolution(ref);
  }

  /**
   * `ftp://:21/a.png` does not start with `http`, so it is local, but `new URL` refuses its empty
   * host even against a base: it has no extension and its file gets `.html` appended.
   */
  lemma EmptyHostNoExtension(ref: string, pageUrl: string)
    requires ref == "ftp://:21/a.png"
    ensures IsLocalResource(ref, pageUrl)
    ensures GetFileExtension(ref).None?
  {
    EmptyHostRefused(ref, "ftp", "21/a.png");
    assert ref[..4][0] == 'f';
  }

  /** Evaluation step of `EmptyHostNoExtension`: the authority is refused. */
  lemma EmptyHostRefused(ref: string, scheme: string, rest: string)
    requires ref == "ftp://:21/a.png" && scheme == "ftp" && rest == "21/a.png"
    ensures ResolvePathname(ref).None?
  {
    assert IsAlpha(scheme[0]) && IsSchemeChar(scheme[1]) && IsSchemeChar(scheme[2]);
    assert ref == scheme + "://:" + rest;
    EmptyHostFails(scheme, rest);
  }

  /** The path-relative `img/a.png` resolves to `/img/a.png`, so its extension is `png`. */
  lemma PathRelativeExtension(ref: string)
    requires ref == "img/a.png"
    ensures GetFileExtension(ref) == Some("png")
  {
    ImgReference(ref);
    NoSchemeReference(ref);
    PathRelativeReference(ref);
    PngExtension("/" + ref);
  }

  /** Evaluation step of `PathRelativeExtension`: no scheme, no leading `/`, no query or fragment. */
  lemma ImgReference(ref: string)
    requires ref == "img/a.png"
    ensures !IsScheme(PrefixBefore(ref, {':'})) && !StartsWith(ref, "/")
    ensures '?' !in ref && '#' !in ref
  {
    PrefixBeforeAbsent(ref, ':');
    assert !IsSchemeChar(ref[3]);
    assert ref[..1][0] == 'i';
    forall i | 0 <= i < |ref| ensures ref[i] != '?' && ref[i] != '#' { }
  }

  /** The page of the project's own test parses to host `ru.hexlet.io` and path `/courses`. */
  lemma HexletParse(url: string)
    requires url == "https://ru.hexlet.io/courses"
    ensures Parse(url).Some? && Parse(url).value.hostname == "ru.hexlet.io" && Parse(url).value.pathname == "/courses"
  {
    HexletParseParts(url, "https", "ru.hexlet.io", "/courses");
    HexletHostLower("ru.hexlet.io");
    HexletPath("/courses");
  }

  /** Evaluation step of `HexletParse`: the host is already lower-case. */
  lemma HexletHostLower(host: string)
    requires host == "ru.hexlet.io"
    ensures Lower(host) == host
  {
    LowerIdentity(host);
  }

  /** Evaluation step of `HexletParse`: scheme, host and path. */
  lemma HexletParseParts(url: string, scheme: string, host: string, rest: string)
    requires url == "https://ru.hexlet.io/courses"
    requires scheme == "https" && host == "ru.hexlet.io" && rest == "/courses"
    ensures Parse(url).Some? && Parse(url).value.hostname == Lower(host) && Parse(url).value.pathname == PathOf(rest)
  {
    assert url == scheme + "://" + (host + rest);
    HttpsScheme(scheme);
    HexletHostChars(host);
    PlainHostParses(scheme, host, rest);
  }

  /** Evaluation step of `HexletParse`: `https` is a scheme. */
  lemma HttpsScheme(scheme: string)
    requires scheme == "https"
    ensures IsScheme(scheme)
  {
    assert forall i :: 0 <= i < |scheme| ==> IsAlpha(scheme[i]);
  }

  /** Evaluation step of `HexletParse`: the host holds no `:`, `/`, `?` or `#`. */
  lemma HexletHostChars(host: string)
    requires host == "ru.hexlet.io"
    ensures forall i :: 0 <= i < |host| ==> host[i] !in {':', '/', '?', '#'}
  {
  }

  /** Evaluation step of `HexletParse`: the path has no query or fragment. */
  lemma HexletPath(rest: string)
    requires rest == "/courses"
    ensures PathOf(rest) == rest
  {
    PrefixBeforeSplit(rest, [], {'?', '#'});
    assert rest + [] == rest;
  }

  /** Evaluation step of `BadPortForeign` and `BadPortNoExtension`: the URL does not parse. */
  lemma BadPortParse(s: string, scheme: string, host: string, port: string, rest: string)
    requires scheme == "http" && host == "host" && port == "abc"
    requires rest == "/x" || rest == "/a.png"
    requires s == scheme + "://" + (host + ":" + port + rest)
    ensures Parse(s).None?
  {
    assert IsAlpha(scheme[0]) && !('0' <= port[0] <= '9');
    BadPortFails(scheme, host, port, rest);
  }

  /** The page file of the project's own test: `https://ru.hexlet.io/courses` is saved as `ru-hexlet-io-courses.html`. */
  lemma HexletPageFileName(url: string)
    requires url == "https://ru.hexlet.io/courses"
    ensures PageFileName(url) == "ru-hexlet-io-courses.html"
    ensures ResourceFolderName(url) == "ru-hexlet-io-courses_files"
  {
    HexletFormatUrl(url);
    HexletSuffixes(FormatUrl(url).fullUrl);
  }

  /** Evaluation step of `HexletPageFileName`: the two suffixes. */
  lemma HexletSuffixes(stem: string)
    requires stem == "ru-hexlet-io-courses"
    ensures stem + ".html" == "ru-hexlet-io-courses.html"
    ensures stem + "_files" == "ru-hexlet-io-courses_files"
  {
  }

  /**
   * Where the earlier `transformPath` parts from `generateResourcePath`: for the extensionless
   * link `/about` it adds no `.html`.
   */
  lemma TransformPathOmitsHtml(ref: string)
    requires ref == "/about"
    ensures PageLoader.TransformPath(ref) == PageLoader.FixedPrefix + "about"
    ensures PageLoader.TransformPath(ref) != GenerateResourcePath(ref, "ru-hexlet-io", "ru-hexlet-io-courses_files")
  {
    ExtensionlessLinkExample(ref, "ru-hexlet-io", "ru-hexlet-io-courses_files");
    TransformPathTail(ref, "about");
    var r := PageLoader.TransformPath(ref);
    assert r[|r| - 1] == 't';
  }

  /**
   * A protocol-relative source loses only its first slash: `//cdn.example.org/a.png` is stored
   * under the name `-cdn.example.org-a.png`.
   */
  lemma TransformPathProtocolRelative(ref: string)
    requires ref == "//cdn.example.org/a.png"
    ensures PageLoader.TransformPath(ref) == PageLoader.FixedPrefix + "-cdn.example.org-a.png"
  {
    TransformPathTail(ref, "-cdn.example.org-a.png");
  }

  /** Evaluation step of the `transformPath` examples: the name after the fixed prefix. */
  lemma TransformPathTail(ref: string, name: string)
    requires StartsWith(ref, "/") && ReplaceAll(ref[1..], '/', '-') == name
    ensures PageLoader.TransformPath(ref) == PageLoader.FixedPrefix + name
  {
  }
}
