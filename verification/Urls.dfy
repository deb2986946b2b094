/** The REST client's and the WebSocket client's URL parsers. */
module Urls {
  import opened Wrappers
  import opened Strings

  datatype RestUrl = RestUrl(scheme: string, host: string, port: string)
  datatype WssUrl = WssUrl(host: string, port: string)

  /** `ParsedUrl::from`; no "://" is the invalid-argument error. */
  function ParseRestUrl(url: string): Option<RestUrl> {
    match FindString(url, "://")
    case None => None
    case Some(pos) => Some(RestUrlAt(url, pos))
  }

  function DefaultPort(scheme: string): string {
    if scheme == "https" then "443" else "80"
  }

  function RestUrlAt(url: string, pos: nat): RestUrl
    requires pos + 3 <= |url|
  {
    var scheme := url[..pos];
    var hostStart := pos + 3;
    var portPos := FindFrom(url, ':', hostStart);
    var pathPos := match FindFrom(url, '/', hostStart) case Some(i) => i case None => |url|;
    if portPos.Some? && portPos.value < pathPos then
      RestUrl(scheme, url[hostStart..portPos.value], url[portPos.value + 1..pathPos])
    else
      RestUrl(scheme, url[hostStart..pathPos], DefaultPort(scheme))
  }

  /** `ParsedWssUrl::from`. */
  function ParseWssUrl(url: string): Option<WssUrl> {
    match FindString(url, "://")
    case None => None
    case Some(pos) => Some(WssUrlAt(url, pos))
  }

  function WssUrlAt(url: string, pos: nat): WssUrl
    requires pos + 3 <= |url|
  {
    var hostStart := pos + 3;
    var portPos := FindFrom(url, ':', hostStart);
    var pathPos := match FindFrom(url, '/', hostStart) case Some(i) => i case None => |url|;
    if portPos.Some? && portPos.value < pathPos then
      WssUrl(url[hostStart..portPos.value], url[portPos.value + 1..pathPos])
    else
      WssUrl(url[hostStart..pathPos], "443")
  }

  /** A URL from its parts; a missing port is left to the scheme's default. */
  function Print(scheme: string, host: string, port: Option<string>, path: string): string {
    scheme + "://" + (host + (match port case Some(p) => ":" + p case None => "") + path)
  }

  /** Followed by "://", this is the text before the first "://". */
  ghost predicate FirstSeparator(scheme: string) {
    forall j: nat :: j < |scheme| ==> !OccursAt(scheme + "://", "://", j)
  }

  ghost predicate Printable(scheme: string, host: string, port: Option<string>, path: string) {
    && FirstSeparator(scheme) && ':' !in host && '/' !in host
    && (port.Some? ==> '/' !in port.value)
    && (path == "" || path[0] == '/')
  }

  lemma FindScheme(scheme: string, rest: string)
    requires FirstSeparator(scheme)
    ensures FindString(scheme + "://" + rest, "://") == Some(|scheme|)
  {
    var url := scheme + "://" + rest;
    FindStringIsFirst(url, "://");
    assert OccursAt(url, "://", |scheme|);
    forall j: nat | j < |scheme| ensures !OccursAt(url, "://", j) {
      assert url[j..j + 3] == (scheme + "://")[j..j + 3];
      assert !OccursAt(scheme + "://", "://", j);
    }
  }

  /** A colon comes after the scheme and before the path. */
  predicate HasPortAt(url: string, pos: nat)
    requires pos + 3 <= |url|
  {
    match (FindFrom(url, ':', pos + 3), FindFrom(url, '/', pos + 3))
    case (None, _) => false
    case (Some(_), None) => true
    case (Some(p), Some(q)) => p < q
  }

  /** The end of the authority in what follows the scheme. */
  function PathStart(rest: string): (i: nat)
    ensures i <= |rest|
  {
    match Find(rest, '/') case Some(i) => i case None => |rest|
  }

  lemma Slice(s: string, start: nat, i: nat, j: nat)
    requires i <= j && start + j <= |s|
    ensures s[start..][i..j] == s[start + i..start + j]
  {
  }

  /** The WebSocket parser, in terms of what follows the scheme. */
  lemma WssWithPort(url: string, pos: nat, port: nat)
    requires pos + 3 <= |url|
    requires Find(url[pos + 3..], ':') == Some(port) && port < PathStart(url[pos + 3..])
    ensures HasPortAt(url, pos)
    ensures var rest := url[pos + 3..]; WssUrlAt(url, pos) == WssUrl(rest[..port], rest[port + 1..PathStart(rest)])
  {
    Slice(url, pos + 3, 0, port);
    Slice(url, pos + 3, port + 1, PathStart(url[pos + 3..]));
  }

  lemma WssWithoutPort(url: string, pos: nat)
    requires pos + 3 <= |url|
    requires Find(url[pos + 3..], ':').Some? ==> Find(url[pos + 3..], ':').value >= PathStart(url[pos + 3..])
    ensures !HasPortAt(url, pos)
    ensures var rest := url[pos + 3..]; WssUrlAt(url, pos) == WssUrl(rest[..PathStart(rest)], "443")
  {
    Slice(url, pos + 3, 0, PathStart(url[pos + 3..]));
  }

  /** The REST parser finds the same host and explicit port, and has its own default port. */
  lemma RestLikeWss(url: string, pos: nat)
    requires pos + 3 <= |url|
    ensures var wss := WssUrlAt(url, pos);
      var port := if HasPortAt(url, pos) then wss.port else DefaultPort(url[..pos]);
      RestUrlAt(url, pos) == RestUrl(url[..pos], wss.host, port)
  {
  }

  lemma Authority(scheme: string, rest: string)
    requires FirstSeparator(scheme)
    ensures var url := scheme + "://" + rest;
      FindString(url, "://") == Some(|scheme|) && url[..|scheme|] == scheme && url[|scheme| + 3..] == rest
  {
    FindScheme(scheme, rest);
  }

  lemma FindIn(a: string, b: string, c: char)
    requires c !in a && (b == "" || b[0] == c)
    ensures Find(a + b, c) == if b == "" then None else Some(|a|)
  {
    if b == "" {
      assert a + b == a;
      FindIsFirst(a, c);
    } else {
      var tail := b[1..];
      assert b == [c] + tail;
      assert a + b == a + [c] + tail;
      FindAt(a, c, tail);
    }
  }

  lemma {:induction false} FindNotBefore(a: string, b: string, c: char)
    requires c !in a
    ensures Find(a + b, c) == match Find(b, c) case None => None case Some(i) => Some(|a| + i)
  {
    if a == "" {
      assert a + b == b;
    } else {
      assert (a + b)[1..] == a[1..] + b;
      FindNotBefore(a[1..], b, c);
    }
  }

  lemma SplitWithPort(host: string, port: string, path: string, rest: string)
    requires ':' !in host && '/' !in host && '/' !in port && (path == "" || path[0] == '/')
    requires rest == host + (":" + port) + path
    ensures Find(rest, ':') == Some(|host|) && PathStart(rest) == |host| + 1 + |port|
    ensures rest[..|host|] == host && rest[|host| + 1..|host| + 1 + |port|] == port
  {
    FindAt(host, ':', port + path);
    assert rest == host + [':'] + (port + path);
    FindIn(host + (":" + port), path, '/');
  }

  lemma ExplicitPort(scheme: string, host: string, port: string, path: string)
    requires Printable(scheme, host, Some(port), path)
    ensures ParseRestUrl(Print(scheme, host, Some(port), path)) == Some(RestUrl(scheme, host, port))
    ensures ParseWssUrl(Print(scheme, host, Some(port), path)) == Some(WssUrl(host, port))
  {
    var rest := host + (":" + port) + path;
    Authority(scheme, rest);
    SplitWithPort(host, port, path, rest);
    RestLikeWss(scheme + "://" + rest, |scheme|);
    WssWithPort(scheme + "://" + rest, |scheme|, |host|);
  }

  lemma MissingPort(scheme: string, host: string, path: string)
    requires Printable(scheme, host, None, path)
    ensures ParseRestUrl(Print(scheme, host, None, path))
         == Some(RestUrl(scheme, host, if scheme == "https" then "443" else "80"))
    ensures ParseWssUrl(Print(scheme, host, None, path)) == Some(WssUrl(host, "443"))
  {
    var rest := host + "" + path;
    assert rest == host + path;
    Authority(scheme, rest);
    FindNotBefore(host, path, ':');
    FindIn(host, path, '/');
    RestLikeWss(scheme + "://" + rest, |scheme|);
    WssWithoutPort(scheme + "://" + rest, |scheme|);
    assert rest[..|host|] == host;
  }

  /** Parsing undoes printing, whatever follows in the path. */
  lemma ParseOfPrint(scheme: string, host: string, port: Option<string>, path: string)
    requires Printable(scheme, host, port, path)
    ensures ParseRestUrl(Print(scheme, host, port, path))
         == Some(RestUrl(scheme, host,
                         match port case Some(p) => p case None => if scheme == "https" then "443" else "80"))
    ensures ParseWssUrl(Print(scheme, host, port, path))
         == Some(WssUrl(host, match port case Some(p) => p case None => "443"))
  {
    match port
    case Some(p) => ExplicitPort(scheme, host, p, path);
    case None => MissingPort(scheme, host, path);
  }

  /** The parsers reject a string iff "://" does not occur in it. */
  lemma RejectedIffNoSeparator(url: string)
    ensures ParseRestUrl(url).None? <==> forall j: nat :: !OccursAt(url, "://", j)
    ensures ParseWssUrl(url).None? <==> forall j: nat :: !OccursAt(url, "://", j)
  {
    FindStringIsFirst(url, "://");
  }

  /** What follows the scheme, taken apart at its first slash and a colon before that. */
  lemma SplitAuthority(rest: string) returns (host: string, port: Option<string>, path: string)
    ensures ':' !in host && '/' !in host && (port.Some? ==> '/' !in port.value) && (path == "" || path[0] == '/')
    ensures rest == host + (match port case Some(p) => ":" + p case None => "") + path
  {
    FindIsFirst(rest, '/');
    var authority := rest[..PathStart(rest)];
    path := rest[PathStart(rest)..];
    assert rest == authority + path && '/' !in authority;
    FindIsFirst(authority, ':');
    match Find(authority, ':')
    case None => host, port := authority, None;
    case Some(i) =>
      host, port := authority[..i], Some(authority[i + 1..]);
      assert authority == host + (":" + port.value);
  }

  lemma SplitScheme(url: string, pos: nat)
    requires FindString(url, "://") == Some(pos)
    ensures url == url[..pos] + "://" + url[pos + 3..] && FirstSeparator(url[..pos])
  {
    FindStringIsFirst(url, "://");
    var prefix := url[..pos] + "://";
    assert url[pos..pos + 3] == "://";
    assert url == prefix + url[pos + 3..];
    forall j: nat | j < pos ensures !OccursAt(prefix, "://", j) {
      assert prefix[j..j + 3] == url[j..j + 3];
      assert !OccursAt(url, "://", j);
    }
  }

  /** Every accepted URL is a printed one, so `ParseOfPrint` covers them all. */
  lemma EveryUrlIsPrinted(url: string) returns (scheme: string, host: string, port: Option<string>, path: string)
    requires ParseRestUrl(url).Some?
    ensures Printable(scheme, host, port, path) && url == Print(scheme, host, port, path)
  {
    var pos := FindString(url, "://").value;
    SplitScheme(url, pos);
    scheme := url[..pos];
    host, port, path := SplitAuthority(url[pos + 3..]);
  }

  predicate HasPort(url: string) {
    match FindString(url, "://")
    case None => false
    case Some(pos) => HasPortAt(url, pos)
  }

  /** On every string the parsers accept the same URLs and agree on the host, and on the port unless it is defaulted. */
  lemma ParsersAgree(url: string)
    ensures ParseRestUrl(url).Some? <==> ParseWssUrl(url).Some?
    ensures ParseRestUrl(url).Some? ==>
      && ParseRestUrl(url).value.host == ParseWssUrl(url).value.host
      && (ParseRestUrl(url).value.port == ParseWssUrl(url).value.port
          <==> HasPort(url) || ParseRestUrl(url).value.scheme == "https")
  {
    assert |"80"| != |"443"|;
    match FindString(url, "://")
    case None =>
    case Some(pos) =>
      RestLikeWss(url, pos);
      var rest := url[pos + 3..];
      if HasPortAt(url, pos) { WssWithPort(url, pos, Find(rest, ':').value); } else { WssWithoutPort(url, pos); }
  }
}
