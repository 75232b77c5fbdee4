/**
 * A simplified model of the WHATWG URL Standard's basic URL parser (section 4.4), covering what
 * the page loader reads from it: `new URL(s).hostname`, `new URL(s).pathname`, and the pathname
 * of `new URL(s, 'http://example.com')`.
 *
 * A string parses as an absolute URL when it is `scheme "://" authority rest`: the scheme is a
 * letter followed by letters, digits, `+`, `-` or `.`, and the host (the authority up to `:`)
 * is non-empty, and what follows the host's `:`, if anything, is a port: ASCII digits of value
 * at most 65535. The hostname is lower-cased; the pathname runs from the authority up to the
 * first `?` or `#` and is `/` when empty, so it always starts with `/`.
 */
module Url {
  import opened Wrappers
  import opened Text

  datatype Url = Url(hostname: string, pathname: string)

  predicate IsAlpha(c: char) { 'a' <= c <= 'z' || 'A' <= c <= 'Z' }

  predicate IsSchemeChar(c: char) {
    IsAlpha(c) || '0' <= c <= '9' || c == '+' || c == '-' || c == '.'
  }

  predicate IsScheme(s: string) {
    |s| > 0 && IsAlpha(s[0]) && forall i :: 0 <= i < |s| ==> IsSchemeChar(s[i])
  }

  /** A path that the parser can return: it starts with a slash. */
  predicate IsPathname(p: string) { |p| > 0 && p[0] == '/' }

  /**
   * The pathname of what follows the authority (which ends at `/`, `?`, `#` or the end):
   * everything up to the query or fragment, or `/` when that is empty.
   */
  function PathOf(rest: string): (p: string)
    requires rest == [] || rest[0] in {'/', '?', '#'}
    ensures IsPathname(p)
    ensures '?' !in p && '#' !in p
    ensures p == "/" || p <= rest
  {
    var q := PrefixBefore(rest, {'?', '#'});
    if q == [] then "/" else q
  }

  /** A port as the parser accepts it: ASCII digits (possibly none) of value at most 65535. */
  predicate IsPort(p: string) {
    (forall i :: 0 <= i < |p| ==> '0' <= p[i] <= '9') && DecimalValue(p) <= 65535
  }

  /** The value of a string of decimal digits. */
  function DecimalValue(p: string): nat
    requires forall i :: 0 <= i < |p| ==> '0' <= p[i] <= '9'
  {
    if p == [] then 0 else 10 * DecimalValue(p[..|p| - 1]) + (p[|p| - 1] as int - '0' as int)
  }

  /** The text after the host's `:` in an authority, empty when there is no `:`. */
  function PortText(authority: string): string {
    var host := PrefixBefore(authority, {':'});
    if |host| < |authority| then authority[|host| + 1..] else []
  }

  /**
   * The host an authority names, lower-cased: the text before its first `:`, refused when it is
   * empty or when what follows the `:` is not a port.
   */
  function AuthorityHost(authority: string): (host: Option<string>)
    requires forall i :: 0 <= i < |authority| ==> authority[i] != '/'
    ensures host.Some? ==> host.value == Lower(PrefixBefore(authority, {':'}))
    ensures host.Some? ==> host.value != [] && '/' !in host.value && ':' !in host.value
    ensures host.Some? <==> PrefixBefore(authority, {':'}) != [] && IsPort(PortText(authority))
  {
    var raw := PrefixBefore(authority, {':'});
    if raw == [] || !IsPort(PortText(authority)) then None
    else
      var host := Lower(raw);
      assert forall i :: 0 <= i < |host| ==> host[i] != '/' && host[i] != ':' by {
        forall i | 0 <= i < |host| ensures host[i] != '/' && host[i] != ':' {
          assert raw[i] == authority[i];
        }
      }
      Some(host)
  }

  /**
   * The authority of `scheme://authority rest`, which ends at the first `/`, `?` or `#`, and the
   * start of what follows it; `None` when the string does not begin with a scheme and `://`.
   */
  function SchemeAuthority(s: string): (r: Option<(string, nat)>)
    ensures r.Some? ==> exists n :: 0 < n <= |s| - 3 && IsScheme(s[..n]) && s[n..n + 3] == "://"
    ensures r.Some? ==> r.value.1 <= |s| && forall i :: 0 <= i < |r.value.0| ==> r.value.0[i] !in {'/', '?', '#'}
    ensures r.Some? ==> r.value.1 == |s| || s[r.value.1] in {'/', '?', '#'}
  {
    var scheme := PrefixBefore(s, {':'});
    if !IsScheme(scheme) || !StartsWith(s[|scheme|..], "://") then None
    else
      var n := |scheme|;
      var after := s[n + 3..];
      var authority := PrefixBefore(after, {'/', '?', '#'});
      assert s[n..][..3] == s[n..n + 3] && s[..n] == scheme;
      assert 0 < n <= |s| - 3 && IsScheme(s[..n]) && s[n..n + 3] == "://";
      assert |authority| < |after| ==> s[n + 3 + |authority|] == after[|authority|];
      Some((authority, n + 3 + |authority|))
  }

  /** `new URL(s)`: `None` where the constructor throws or the string is not of the modelled form. */
  function Parse(s: string): (r: Option<Url>)
    ensures r.Some? ==> IsPathname(r.value.pathname) && '?' !in r.value.pathname && '#' !in r.value.pathname
    ensures r.Some? ==> r.value.hostname != [] && '/' !in r.value.hostname && ':' !in r.value.hostname
    ensures r.Some? ==> exists n :: 0 < n <= |s| - 3 && IsScheme(s[..n]) && s[n..n + 3] == "://"
  {
    match SchemeAuthority(s)
    case None => None
    case Some((authority, end)) =>
      match AuthorityHost(authority)
      case None => None
      case Some(host) => Some(Url(host, PathOf(s[end..])))
  }

  /**
   * `scheme://authority…` with a non-empty authority that names no host (its host is empty or its
   * port is not a port): `new URL` throws on it, with or without a base.
   */
  predicate RefusedAuthority(s: string) {
    SchemeAuthority(s).Some? && SchemeAuthority(s).value.0 != [] &&
    AuthorityHost(SchemeAuthority(s).value.0).None?
  }

  /** The scheme of `scheme://tail` ends at its first `:`, which starts the `://`. */
  lemma SchemeParts(s: string, scheme: string, tail: string)
    requires s == scheme + "://" + tail && IsScheme(scheme)
    ensures PrefixBefore(s, {':'}) == scheme && StartsWith(s[|scheme|..], "://") && s[|scheme| + 3..] == tail
  {
    assert forall i :: 0 <= i < |scheme| ==> scheme[i] != ':' by {
      forall i | 0 <= i < |scheme| ensures scheme[i] != ':' {
        assert IsSchemeChar(scheme[i]);
      }
    }
    assert s == scheme + ("://" + tail);
    PrefixBeforeSplit(scheme, "://" + tail, {':'});
    assert s[|scheme|..][..3] == "://";
  }

  /** The authority of `scheme://authority rest`, for an authority ended by `rest`. */
  lemma SchemeAuthorityOf(s: string, scheme: string, authority: string, rest: string, end: nat)
    requires s == scheme + "://" + (authority + rest) && end == |scheme| + 3 + |authority|
    requires IsScheme(scheme)
    requires forall i :: 0 <= i < |authority| ==> authority[i] !in {'/', '?', '#'}
    requires rest == [] || rest[0] in {'/', '?', '#'}
    ensures SchemeAuthority(s) == Some((authority, end))
    ensures s[end..] == rest
  {
    SchemeParts(s, scheme, authority + rest);
    PrefixBeforeSplit(authority, rest, {'/', '?', '#'});
    SchemeAuthorityFrom(s, scheme, authority, end);
    assert s[end..] == (authority + rest)[|authority|..];
  }

  /** `SchemeAuthority` of a string whose scheme, `://` and authority have been found. */
  lemma SchemeAuthorityFrom(s: string, scheme: string, authority: string, end: nat)
    requires PrefixBefore(s, {':'}) == scheme && IsScheme(scheme) && StartsWith(s[|scheme|..], "://")
    requires |scheme| + 3 <= |s| && PrefixBefore(s[|scheme| + 3..], {'/', '?', '#'}) == authority
    requires end == |scheme| + 3 + |authority|
    ensures SchemeAuthority(s).Some? && SchemeAuthority(s).value.0 == authority && SchemeAuthority(s).value.1 == end
  {
  }

  /** The host and port text of an authority `host:port` whose host has no `:`. */
  lemma HostPortParts(host: string, port: string)
    requires forall i :: 0 <= i < |host| ==> host[i] != ':'
    ensures PrefixBefore(host + ":" + port, {':'}) == host
    ensures PortText(host + ":" + port) == port
  {
    var authority := host + ":" + port;
    assert authority == host + (":" + port);
    PrefixBeforeSplit(host, ":" + port, {':'});
    assert authority[|host| + 1..] == port;
  }

  /**
   * A URL whose authority starts with the port separator, such as `ftp://:21/a.png`, has an
   * empty host: it is refused, with or without a base.
   */
  lemma EmptyHostFails(scheme: string, rest: string)
    requires IsScheme(scheme)
    ensures Parse(scheme + "://:" + rest).None?
    ensures RefusedAuthority(scheme + "://:" + rest)
  {
    var s := scheme + "://:" + rest;
    assert s == scheme + "://" + (":" + rest);
    SchemeParts(s, scheme, ":" + rest);
    var authority := PrefixBefore(":" + rest, {'/', '?', '#'});
    assert |authority| > 0 && authority[0] == ':';
    assert authority == [] + authority;
    PrefixBeforeSplit([], authority, {':'});
  }

  /**
   * A URL whose text after the host's `:` is not a port (a non-digit, or a value above 65535),
   * such as `http://host:abc/x`, is refused, with or without a base.
   */
  lemma BadPortFails(scheme: string, host: string, port: string, rest: string)
    requires IsScheme(scheme)
    requires forall i :: 0 <= i < |host| ==> host[i] !in {':', '/', '?', '#'}
    requires forall i :: 0 <= i < |port| ==> port[i] !in {'/', '?', '#'}
    requires rest == [] || rest[0] in {'/', '?', '#'}
    requires !IsPort(port)
    ensures Parse(scheme + "://" + (host + ":" + port + rest)).None?
    ensures RefusedAuthority(scheme + "://" + (host + ":" + port + rest))
  {
    var authority := host + ":" + port;
    AuthorityChars(host, port);
    SchemeAuthorityOf(scheme + "://" + (authority + rest), scheme, authority, rest, |scheme| + 3 + |authority|);
    HostPortParts(host, port);
  }

  /** `host:port` holds no `/`, `?` or `#` when neither part does. */
  lemma AuthorityChars(host: string, port: string)
    requires forall i :: 0 <= i < |host| ==> host[i] !in {':', '/', '?', '#'}
    requires forall i :: 0 <= i < |port| ==> port[i] !in {'/', '?', '#'}
    ensures forall i :: 0 <= i < |host + ":" + port| ==> (host + ":" + port)[i] !in {'/', '?', '#'}
  {
    var authority := host + ":" + port;
    forall i | 0 <= i < |authority| ensures authority[i] !in {'/', '?', '#'} {
      if i > |host| { assert authority[i] == port[i - |host| - 1]; }
    }
  }

  /** The host that `host:port` names, for a non-empty host without `:` and a port. */
  lemma PortedAuthorityHost(host: string, port: string)
    requires forall i :: 0 <= i < |host| ==> host[i] !in {':', '/', '?', '#'}
    requires forall i :: 0 <= i < |port| ==> port[i] !in {'/', '?', '#'}
    requires host != [] && IsPort(port)
    ensures forall i :: 0 <= i < |host + ":" + port| ==> (host + ":" + port)[i] != '/'
    ensures AuthorityHost(host + ":" + port) == Some(Lower(host))
  {
    AuthorityChars(host, port);
    HostPortParts(host, port);
  }

  /**
   * A URL with a non-empty host and a port, such as `http://Host:8080/x?q`, parses to the
   * lower-cased host and the path before the query or fragment.
   */
  lemma PortedHostParses(scheme: string, host: string, port: string, rest: string)
    requires IsScheme(scheme)
    requires forall i :: 0 <= i < |host| ==> host[i] !in {':', '/', '?', '#'}
    requires forall i :: 0 <= i < |port| ==> port[i] !in {'/', '?', '#'}
    requires rest == [] || rest[0] in {'/', '?', '#'}
    requires host != [] && IsPort(port)
    ensures Parse(scheme + "://" + (host + ":" + port + rest)) == Some(Url(Lower(host), PathOf(rest)))
  {
    AuthorityChars(host, port);
    PortedAuthorityHost(host, port);
    ParsedAuthority(scheme + "://" + (host + ":" + port + rest), scheme, host + ":" + port, rest, Lower(host));
  }

  /**
   * A URL without a port, such as `https://ru.hexlet.io/courses`, parses to the lower-cased host
   * and the path before the query or fragment.
   */
  lemma PlainHostParses(scheme: string, host: string, rest: string)
    requires IsScheme(scheme)
    requires host != [] && forall i :: 0 <= i < |host| ==> host[i] !in {':', '/', '?', '#'}
    requires rest == [] || rest[0] in {'/', '?', '#'}
    ensures Parse(scheme + "://" + (host + rest)) == Some(Url(Lower(host), PathOf(rest)))
  {
    PlainAuthorityHost(host);
    ParsedAuthority(scheme + "://" + (host + rest), scheme, host, rest, Lower(host));
  }

  /** The host that a non-empty authority without `:` names. */
  lemma PlainAuthorityHost(host: string)
    requires host != [] && forall i :: 0 <= i < |host| ==> host[i] !in {':', '/', '?', '#'}
    ensures AuthorityHost(host) == Some(Lower(host))
  {
    PrefixBeforeSplit(host, [], {':'});
    assert host + [] == host;
    assert IsPort(PortText(host));
  }

  /** `scheme://authority rest` parses to the host the authority names and the path of `rest`. */
  lemma ParsedAuthority(s: string, scheme: string, authority: string, rest: string, host: string)
    requires s == scheme + "://" + (authority + rest)
    requires IsScheme(scheme)
    requires forall i :: 0 <= i < |authority| ==> authority[i] !in {'/', '?', '#'}
    requires rest == [] || rest[0] in {'/', '?', '#'}
    requires AuthorityHost(authority) == Some(host)
    ensures Parse(s) == Some(Url(host, PathOf(rest)))
  {
    var end := |scheme| + 3 + |authority|;
    SchemeAuthorityOf(s, scheme, authority, rest, end);
    ParseOf(s, authority, end, host, rest);
  }

  /** `Parse` assembled from the authority split and the host it names. */
  lemma ParseOf(s: string, authority: string, end: nat, host: string, rest: string)
    requires SchemeAuthority(s) == Some((authority, end)) && s[end..] == rest
    requires AuthorityHost(authority) == Some(host)
    ensures rest == [] || rest[0] in {'/', '?', '#'}
    ensures Parse(s) == Some(Url(host, PathOf(rest)))
  {
  }

  /**
   * `new URL(s, 'http://example.com').pathname`, or `None` where that throws. An absolute URL
   * keeps its own pathname; one with a scheme and an authority naming no host throws; a
   * protocol-relative one (`//host/...`) takes the base's scheme; any other reference is resolved
   * against the base's path `/`.
   */
  function ResolvePathname(s: string): (r: Option<string>)
    ensures r.Some? ==> IsPathname(r.value) && '?' !in r.value && '#' !in r.value
    ensures Parse(s).Some? ==> r == Some(Parse(s).value.pathname)
    ensures Parse(s).None? && !StartsWith(s, "//") && !RefusedAuthority(s) ==> r.Some?
    ensures RefusedAuthority(s) ==> r.None?
  {
    match Parse(s)
    case Some(u) => Some(u.pathname)
    case None =>
      if RefusedAuthority(s) then None
      else if StartsWith(s, "//") then
        match Parse("http:" + s)
        case Some(u) => Some(u.pathname)
        case None => None
      else if StartsWith(s, "/") then Some(PathOf(s))
      else
        var q := PrefixBefore(s, {'?', '#'});
        assert '?' !in q && '#' !in q by {
          forall i | 0 <= i < |q| ensures q[i] != '?' && q[i] != '#' { }
        }
        Some("/" + q)
  }

  /** A reference whose text before the first `:` is not a scheme neither parses nor is refused. */
  lemma NoSchemeReference(s: string)
    requires !IsScheme(PrefixBefore(s, {':'}))
    ensures Parse(s).None? && !RefusedAuthority(s)
  {
    assert SchemeAuthority(s).None?;
  }

  /**
   * A protocol-relative reference `//…` neither parses nor is refused on its own; it resolves to
   * the pathname of `http:` followed by itself, the base's scheme.
   */
  lemma ProtocolRelativeResolution(s: string)
    requires StartsWith(s, "//")
    ensures Parse(s).None? && !RefusedAuthority(s)
    ensures Parse("http:" + s).None? ==> ResolvePathname(s).None?
    ensures Parse("http:" + s).Some? ==> ResolvePathname(s) == Some(Parse("http:" + s).value.pathname)
  {
    assert s[0] == s[..2][0] == '/';
    var scheme := PrefixBefore(s, {':'});
    assert scheme == [] || scheme[0] == '/';
    NoSchemeReference(s);
  }

  /** The pathname of `p` followed by a query or fragment `q` is `p`: the query never reaches it. */
  lemma PathOfQuery(p: string, q: string)
    requires StartsWith(p, "/") && '?' !in p && '#' !in p
    requires q == [] || q[0] in {'?', '#'}
    ensures (p + q)[0] == '/' && PathOf(p + q) == p
  {
    assert p[0] == p[..1][0];
    forall i | 0 <= i < |p| ensures p[i] !in {'?', '#'} {
      assert p[i] in p;
    }
    PrefixBeforeSplit(p, q, {'?', '#'});
  }

  /**
   * A root-relative reference followed by a query or fragment, such as `/img/a.png?v=1`,
   * resolves to its path alone.
   */
  lemma RootRelativeQuery(s: string, p: string, q: string)
    requires s == p + q
    requires StartsWith(p, "/") && !StartsWith(p, "//") && '?' !in p && '#' !in p
    requires q == [] || q[0] in {'?', '#'}
    ensures StartsWith(s, "/") && ResolvePathname(s) == Some(p)
  {
    PathOfQuery(p, q);
    StartsWithAppend(p, q);
    assert StartsWith(s, "/") by {
      assert s[..1] == s[..|p|][..1];
    }
    assert !StartsWith(s, "//") by {
      if |s| >= 2 {
        if |p| >= 2 { assert s[..2] == p[..2]; } else { assert s[1] == q[0]; }
      }
    }
    var scheme := PrefixBefore(s, {':'});
    assert scheme == [] || scheme[0] == '/';
    NoSchemeReference(s);
  }

  /**
   * A path-relative reference followed by a query or fragment, such as `img/a.png?v=1`,
   * resolves to `/` followed by its path alone.
   */
  lemma PathRelativeQuery(s: string, p: string, q: string)
    requires s == p + q
    requires p != [] && !StartsWith(p, "/") && '?' !in p && '#' !in p
    requires q == [] || q[0] in {'?', '#'}
    requires Parse(s).None? && !RefusedAuthority(s)
    ensures ResolvePathname(s) == Some("/" + p)
  {
    assert !StartsWith(s, "/") by {
      assert s[..1] == p[..1];
    }
    assert !StartsWith(s, "//") by {
      if |s| >= 2 { assert s[..1] == s[..2][..1]; }
    }
    forall i | 0 <= i < |p| ensures p[i] !in {'?', '#'} {
      assert p[i] in p;
    }
    PrefixBeforeSplit(p, q, {'?', '#'});
    assert PrefixBefore(s, {'?', '#'}) == p;
  }

  /** A path-relative reference without query or fragment, such as `img/a.png`, resolves to `/` followed by itself. */
  lemma PathRelativeReference(s: string)
    requires !StartsWith(s, "/") && Parse(s).None? && !RefusedAuthority(s)
    requires '?' !in s && '#' !in s
    ensures ResolvePathname(s) == Some("/" + s)
  {
    assert !StartsWith(s, "//") by {
      if |s| >= 2 { assert s[..1] == s[..2][..1]; }
    }
    PrefixBeforeSplit(s, [], {'?', '#'});
    assert s + [] == s;
    assert PrefixBefore(s, {'?', '#'}) == s;
  }
}
