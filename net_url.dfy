/**
 * The part of Go's `net/url.Parse` (reached through `http.NewRequest`)
 * that the description resolver reads: the `Scheme` and `Host` fields
 * of an advertised Location.
 */
module NetUrl {
  import opened GoStrings

  predicate IsAsciiLetter(c: char)
  {
    'a' <= c <= 'z' || 'A' <= c <= 'Z'
  }

  /** The characters a URL scheme may be made of (RFC 3986, section 3.1). */
  predicate IsSchemeChar(c: char)
  {
    IsAsciiLetter(c) || '0' <= c <= '9' || c == '+' || c == '-' || c == '.'
  }

  /** The length of the longest prefix of `s` made of scheme characters. */
  function SchemeSpan(s: string): (n: nat)
    ensures n <= |s|
    ensures forall i :: 0 <= i < n ==> IsSchemeChar(s[i])
    ensures n < |s| ==> !IsSchemeChar(s[n])
  {
    if |s| == 0 || !IsSchemeChar(s[0]) then 0 else 1 + SchemeSpan(s[1..])
  }

  function ToLowerAscii(c: char): (r: char)
  {
    if 'A' <= c <= 'Z' then (c as int + 32) as char else c
  }

  /** `strings.ToLower`, restricted to the ASCII letters a scheme can hold. */
  function Lower(s: string): (r: string)
    ensures |r| == |s|
    ensures forall i :: 0 <= i < |s| ==> r[i] == ToLowerAscii(s[i])
  {
    if |s| == 0 then [] else [ToLowerAscii(s[0])] + Lower(s[1..])
  }

  /**
   * `getScheme` followed by lower-casing: a scheme is a run of scheme
   * characters that starts with a letter and is ended by ':'; without one
   * the scheme is empty and the whole text is the rest.
   */
  function SplitScheme(u: string): (string, string)
  {
    var n := SchemeSpan(u);
    if 0 < n < |u| && u[n] == ':' && IsAsciiLetter(u[0]) then
      (Lower(u[..n]), u[n + 1..])
    else
      ("", u)
  }

  /**
   * The `Scheme` and `Host` that `url.Parse` gives `raw`: the fragment
   * and then the query are cut off; an authority follows "//" (for a
   * URL without a scheme, only when not "///"), runs to the next '/',
   * and its host is what follows the last '@'.
   */
  function SchemeAndHost(raw: string): (string, string)
  {
    var u := BeforeChar(raw, '#');
    var (scheme, afterScheme) := SplitScheme(u);
    var rest := BeforeChar(afterScheme, '?');
    if "//" <= rest && (scheme != "" || !("///" <= rest)) then
      var authority := BeforeChar(rest[2..], '/');
      (scheme, authority[LastIndex(authority, '@') + 1..])
    else
      (scheme, "")
  }

  /** A scheme as `url.Parse` reports it: a lower-case letter, then scheme characters, none upper-case. */
  predicate IsLowerScheme(s: string)
  {
    && |s| > 0
    && 'a' <= s[0] <= 'z'
    && forall i :: 0 <= i < |s| ==> IsSchemeChar(s[i]) && !('A' <= s[i] <= 'Z')
  }

  /** A host as it appears in an authority without user information. */
  predicate IsHost(h: string)
  {
    '/' !in h && '?' !in h && '#' !in h && '@' !in h
  }

  /** A path part: empty or absolute. */
  predicate IsPathPart(p: string)
  {
    p == [] || p[0] == '/'
  }

  lemma {:induction false} SchemeSpanStops(a: string, b: string)
    requires forall i :: 0 <= i < |a| ==> IsSchemeChar(a[i])
    requires b != [] && !IsSchemeChar(b[0])
    ensures SchemeSpan(a + b) == |a|
  {
    if a != [] {
      assert (a + b)[1..] == a[1..] + b;
      SchemeSpanStops(a[1..], b);
    } else {
      assert a + b == b;
    }
  }

  /** The scheme of `scheme:rest` is split off and kept as it is. */
  lemma SplitsLowerScheme(scheme: string, rest: string)
    requires IsLowerScheme(scheme)
    ensures SplitScheme(scheme + ":" + rest) == (scheme, rest)
  {
    var u := scheme + ":" + rest;
    assert u == scheme + (":" + rest);
    SchemeSpanStops(scheme, ":" + rest);
    assert u[..|scheme|] == scheme;
    assert Lower(scheme) == scheme;
    assert u[|scheme| + 1..] == rest;
  }

  /** The authority of `//host` followed by a path part is `host`. */
  lemma AuthorityIsHost(host: string, p: string)
    requires IsHost(host) && IsPathPart(p)
    ensures SchemeAndHostOfRest(p, host)
  {
    var rest := "//" + host + p;
    assert rest[2..] == host + p;
    BeforeCharSkips(host, p, '/');
    assert BeforeChar(p, '/') == [];
    assert host + [] == host;
    assert LastIndex(host, '@') == -1;
    assert host[0..] == host;
  }

  /** What the last step of `SchemeAndHost` computes from `//host` + `p`. */
  predicate SchemeAndHostOfRest(p: string, host: string)
  {
    var rest := "//" + host + p;
    "//" <= rest
    && var authority := BeforeChar(rest[2..], '/');
    authority[LastIndex(authority, '@') + 1..] == host
  }

  /**
   * Parsing recovers the scheme and host from `scheme://host/path`: the
   * round trip behind normalising an absolute-path control URL.
   */
  lemma ParsesComposedUrl(scheme: string, host: string, path: string)
    requires IsLowerScheme(scheme) && IsHost(host) && IsPathPart(path)
    ensures SchemeAndHost(scheme + "://" + host + path) == (scheme, host)
  {
    var head := scheme + "://" + host;
    assert scheme + "://" + host + path == head + path;
    BeforeCharSkips(head, path, '#');
    var p1 := BeforeChar(path, '#');
    var afterScheme := "//" + host + p1;
    assert head + p1 == scheme + ":" + afterScheme;
    SplitsLowerScheme(scheme, afterScheme);
    var p2 := BeforeChar(p1, '?');
    BeforeCharSkips("//" + host, p1, '?');
    AuthorityIsHost(host, p2);
  }

  /** The scheme of `scheme:rest` is `scheme`, whatever follows it. */
  lemma SchemeOfSchemePrefix(scheme: string, rest: string)
    requires IsLowerScheme(scheme)
    ensures SchemeAndHost(scheme + ":" + rest).0 == scheme
  {
    assert '#' !in scheme + ":" by {
      assert forall i :: 0 <= i < |scheme| ==> (scheme + ":")[i] == scheme[i];
    }
    BeforeCharSkips(scheme + ":", rest, '#');
    SplitsLowerScheme(scheme, BeforeChar(rest, '#'));
  }

  /**
   * `removeEmptyPort`, which `http.NewRequest` applies to the parsed host:
   * when the host has a port part (a ':' after its last ']'), a trailing
   * ':' is cut off.
   */
  function RemoveEmptyPort(host: string): string
  {
    if LastIndex(host, ':') > LastIndex(host, ']') && host != [] && host[|host| - 1] == ':' then
      host[..|host| - 1]
    else
      host
  }

  /** Exactly a host ending in ':' loses that ':'; the test for ']' never stops it. */
  lemma RemoveEmptyPortTrims(host: string)
    ensures host != [] && host[|host| - 1] == ':' ==> RemoveEmptyPort(host) == host[..|host| - 1]
    ensures host == [] || host[|host| - 1] != ':' ==> RemoveEmptyPort(host) == host
  {
    if host != [] && host[|host| - 1] == ':' {
      assert LastIndex(host, ':') == |host| - 1;
      assert LastIndex(host, ']') != |host| - 1;
    }
  }
}
