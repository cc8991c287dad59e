/**
 * parse_uri: split an absolute-form request target "http://host[:port][/path]"
 * into the origin's host, port and the path that the rewritten origin-form
 * request line carries (a simplified form of sections 5.3.1 and 5.3.2 of
 * RFC 7230).
 */
module Uri {
  import opened Wrappers
  import opened Text

  datatype Target = Target(host: string, port: string, path: string)

  /** The two ways parse_uri returns -1. */
  datatype UriError =
    | SchemeError    // the target does not start with "http://" (any case)
    | HostUnbounded  // no delimiter ends the host name

  const Scheme := "http://"
  const DefaultPort := "80"

  predicate HasHttpScheme(uri: string) { StartsWithIgnoreCase(uri, Scheme) }

  /** A host name as the URI carries it: no delimiter inside. */
  predicate IsHostName(h: string) { forall i :: 0 <= i < |h| ==> !IsHostDelimiter(h[i]) }

  /**
   * What parse_uri computes: the host is the text between the scheme and
   * the first delimiter; after a ':' that ends the host the port is the run
   * of digits that follows (possibly empty), otherwise it is "80"; the path
   * is everything after the first '/' behind the scheme, or empty.
   */
  function Decompose(uri: string): Result<Target, UriError>
  {
    if !HasHttpScheme(uri) then Failure(SchemeError)
    else
      var e := Find(uri, |Scheme|, HostDelimiter);
      if e == |uri| then Failure(HostUnbounded)
      else
        var port := if uri[e] == ':' then uri[e + 1..Find(uri, e + 1, NonDigit)] else DefaultPort;
        var slash := Find(uri, |Scheme|, Slash);
        var path := if slash < |uri| then uri[slash + 1..] else [];
        Success(Target(uri[|Scheme|..e], port, path))
  }

  /** parse_uri fails exactly on a foreign scheme and on a host that no delimiter ends. */
  lemma DecomposeErrors(uri: string)
    ensures Decompose(uri) == Failure(SchemeError) <==> !HasHttpScheme(uri)
    ensures Decompose(uri) == Failure(HostUnbounded) <==>
      HasHttpScheme(uri) && forall j :: |Scheme| <= j < |uri| ==> !IsHostDelimiter(uri[j])
  {
    if HasHttpScheme(uri) {
      var e := Find(uri, |Scheme|, HostDelimiter);
      if e < |uri| {
        assert IsHostDelimiter(uri[e]);
      }
    }
  }

  /** A decomposed host is the delimiter-free text after the scheme, up to a delimiter. */
  lemma DecomposeHost(uri: string)
    requires Decompose(uri).Success?
    ensures var t := Decompose(uri).value; var e := |Scheme| + |t.host|;
      && e < |uri| && uri[|Scheme|..e] == t.host && IsHostName(t.host) && IsHostDelimiter(uri[e])
  {
    var e := Find(uri, |Scheme|, HostDelimiter);
    var host := uri[|Scheme|..e];
    assert forall i :: 0 <= i < |host| ==> host[i] == uri[|Scheme| + i];
  }

  /**
   * The port is "80" unless the host ends at a ':', and then it is the
   * maximal run of digits after the ':' (possibly empty).
   */
  lemma DecomposePort(uri: string)
    requires Decompose(uri).Success?
    ensures var t := Decompose(uri).value; var e := Find(uri, |Scheme|, HostDelimiter);
      && (uri[e] != ':' ==> t.port == DefaultPort)
      && (uri[e] == ':' ==>
            var q := e + 1 + |t.port|;
            q <= |uri| && uri[e + 1..q] == t.port && AllDigits(t.port)
            && (q == |uri| || NotDigit(uri[q])))
  {
    var e := Find(uri, |Scheme|, HostDelimiter);
    var t := Decompose(uri).value;
    if uri[e] == ':' {
      var q := Find(uri, e + 1, NonDigit);
      var port := uri[e + 1..q];
      assert t.port == port && |port| == q - e - 1;
      assert forall i :: 0 <= i < |port| ==> port[i] == uri[e + 1 + i];
    } else {
      assert t.port == DefaultPort;
    }
  }

  /** s is the first '/' after the scheme. */
  predicate FirstSlash(uri: string, s: int)
  {
    |Scheme| <= s < |uri| && uri[s] == '/' && forall j :: |Scheme| <= j < s ==> uri[j] != '/'
  }

  /** The path is what follows the first '/' after the scheme, and empty when there is none. */
  lemma DecomposePath(uri: string)
    requires Decompose(uri).Success?
    ensures (forall j :: |Scheme| <= j < |uri| ==> uri[j] != '/') ==> Decompose(uri).value.path == []
    ensures forall s :: FirstSlash(uri, s) ==> Decompose(uri).value.path == uri[s + 1..]
  {
    forall s | FirstSlash(uri, s)
      ensures Decompose(uri).value.path == uri[s + 1..]
    {
      FindIs(uri, |Scheme|, Slash, s);
    }
  }

  /** parse_uri as the C code runs it: strpbrk, the digit-copy loop, strchr. */
  method ParseUri(uri: string) returns (r: Result<Target, UriError>)
    ensures r == Decompose(uri)
  {
    if !HasHttpScheme(uri) {
      return Failure(SchemeError);
    }
    var hostEnd := Find(uri, |Scheme|, HostDelimiter);
    if hostEnd == |uri| {
      return Failure(HostUnbounded);
    }
    var host := uri[|Scheme|..hostEnd];
    var port := DefaultPort;
    if uri[hostEnd] == ':' {
      port := [];
      var p := hostEnd + 1;
      while p < |uri| && IsDigit(uri[p])
        invariant hostEnd + 1 <= p <= |uri|
        invariant port == uri[hostEnd + 1..p]
        invariant forall j :: hostEnd + 1 <= j < p ==> IsDigit(uri[j])
      {
        port := port + [uri[p]];
        p := p + 1;
      }
      FindIs(uri, hostEnd + 1, NonDigit, p);
    }
    var slash := Find(uri, |Scheme|, Slash);
    var path := if slash < |uri| then uri[slash + 1..] else [];
    return Success(Target(host, port, path));
  }

  lemma SchemePrefix(rest: string)
    ensures HasHttpScheme(Scheme + rest)
  {
    assert (Scheme + rest)[..|Scheme|] == Scheme;
  }

  /** "http://host:port/path" decomposes into exactly its three parts. */
  lemma DecomposeWithPort(host: string, port: string, path: string)
    requires IsHostName(host) && AllDigits(port)
    ensures Decompose(Scheme + host + ":" + port + "/" + path) == Success(Target(host, port, path))
  {
    var u := Scheme + host + ":" + port + "/" + path;
    SchemePrefix(host + ":" + port + "/" + path);
    assert u == Scheme + (host + ":" + port + "/" + path);
    var e := |Scheme| + |host|;
    var q := e + 1 + |port|;
    assert u[|Scheme|..e] == host;
    assert u[e] == ':' && u[q] == '/';
    assert u[e + 1..q] == port;
    assert forall j :: |Scheme| <= j < e ==> u[j] == host[j - |Scheme|];
    assert forall j :: e < j < q ==> u[j] == port[j - e - 1];
    FindIs(u, |Scheme|, HostDelimiter, e);
    FindIs(u, e + 1, NonDigit, q);
    FindIs(u, |Scheme|, Slash, q);
    assert u[q + 1..] == path;
  }

  /** "http://host/path" decomposes with the default port "80". */
  lemma DecomposeDefaultPort(host: string, path: string)
    requires IsHostName(host)
    ensures Decompose(Scheme + host + "/" + path) == Success(Target(host, DefaultPort, path))
  {
    var u := Scheme + host + "/" + path;
    SchemePrefix(host + "/" + path);
    assert u == Scheme + (host + "/" + path);
    var e := |Scheme| + |host|;
    assert u[|Scheme|..e] == host;
    assert u[e] == '/';
    assert forall j :: |Scheme| <= j < e ==> u[j] == host[j - |Scheme|];
    FindIs(u, |Scheme|, HostDelimiter, e);
    FindIs(u, |Scheme|, Slash, e);
    assert u[e + 1..] == path;
  }

  /** "http://host" with nothing after the host is rejected: no delimiter bounds it. */
  lemma BareHostRejected(host: string)
    requires IsHostName(host)
    ensures Decompose(Scheme + host) == Failure(HostUnbounded)
  {
    var u := Scheme + host;
    SchemePrefix(host);
    assert forall j :: |Scheme| <= j < |u| ==> u[j] == host[j - |Scheme|];
  }
}
