/** OIDC discovery of the JWKS URL and its per-issuer cache. */
module Discovery {
  import opened Strings
  import opened Operands
  import A = ApiComponent

  const DISCOVERY_PATH := "/.well-known/openid-configuration"

  datatype Parsed = Parsed(scheme: string, host: string)

  /** What one HTTP request came back with; `Document` is a body that unmarshals. */
  datatype Response =
    | RequestFailed
    | BadStatus(code: nat)
    | BodyUnreadable
    | BodyMalformed
    | Document(issuer: string, jwksURI: string)

  /** The network as one reconcile finds it, and `url.Parse`. */
  datatype Net = Net(fetch: string -> Response, parse: string -> Option<Parsed>)

  function DiscoveryURL(issuer: string): string {
    TrimSlash(issuer) + DISCOVERY_PATH
  }

  /** A document is accepted when its issuer is the one asked for, one trailing slash apart
      (section 4.3 of OpenID Connect Discovery 1.0), and its key URL is https with a host. */
  ghost predicate Acceptable(parse: string -> Option<Parsed>, issuer: string, r: Response) {
    && r.Document? && TrimSlash(r.issuer) == TrimSlash(issuer) && r.jwksURI != ""
    && parse(r.jwksURI).Some? && parse(r.jwksURI).value.scheme == "https" && parse(r.jwksURI).value.host != ""
  }

  /** `discoverJWKSURL`, check by check. */
  method DiscoverJWKSURL(net: Net, issuer: string) returns (r: Result<string>)
    ensures r == Discovered(net, issuer)
  {
    var normalized := TrimSlash(issuer);
    var response := net.fetch(normalized + DISCOVERY_PATH);
    match response
    case RequestFailed => return Failed;
    case BadStatus(_) => return Failed;
    case BodyUnreadable => return Failed;
    case BodyMalformed => return Failed;
    case Document(docIssuer, jwksURI) =>
      if TrimSlash(docIssuer) != normalized {
        return Failed;
      }
      if jwksURI == "" {
        return Failed;
      }
      var u := net.parse(jwksURI);
      if u.None? {
        return Failed;
      }
      if u.value.scheme != "https" || u.value.host == "" {
        return Failed;
      }
      return Ok(jwksURI);
  }

  ghost function Discovered(net: Net, issuer: string): (r: Result<string>)
    ensures r.Ok? ==> r.value != ""
  {
    var response := net.fetch(DiscoveryURL(issuer));
    if Acceptable(net.parse, issuer, response) then Ok(response.jwksURI) else Failed
  }

  /** What it takes for a document to be accepted, down to the characters: it was found under the
      issuer's well-known path, names that issuer with or without one trailing slash, and points to an
      https URL with a host. */
  lemma AcceptedIff(net: Net, issuer: string, url: string)
    ensures var t := TrimSlash(issuer);
            Discovered(net, issuer) == Ok(url) <==>
            && url != "" && net.parse(url).Some?
            && net.parse(url).value.scheme == "https" && net.parse(url).value.host != ""
            && exists named ::
                 net.fetch(t + "/.well-known/openid-configuration") == Document(named, url)
                 && (named == t + "/" || (named == t && (t == "" || t[|t| - 1] != '/')))
  {
    var t := TrimSlash(issuer);
    forall named
      ensures TrimSlash(named) == t <==> named == t + "/" || (named == t && (t == "" || t[|t| - 1] != '/'))
    {
      TrimSlashIs(t);
      if |named| > 0 && named[|named| - 1] == '/' {
        assert named == named[..|named| - 1] + "/";
      }
    }
  }

  // ----- the cache -----

  predicate NeedsDiscovery(spec: Spec) {
    A.AuthEnabled(spec) && spec.auth.jwkCertSecret.None?
  }

  /** One resolution: the URL handed to the renderer, and the cache afterwards. */
  ghost function Resolution(cache: map<string, string>, spec: Spec, net: Net): (Result<string>, map<string, string>) {
    var issuer := spec.auth.issuer;
    if !NeedsDiscovery(spec) then (Ok(""), cache)
    else match Discovered(net, issuer)
      case Ok(url) => (Ok(url), cache[issuer := url])
      case Failed => (if issuer in cache then Ok(cache[issuer]) else Failed, cache)
  }

  /** Discovery is looked to exactly when auth is not switched off and no Secret is pinned. */
  predicate Looked(spec: Spec) {
    spec.auth.enabled != Some(false) && spec.auth.jwkCertSecret == None
  }

  class DiscoveryCache {
    var discoveryCache: map<string, string>

    constructor ()
      ensures discoveryCache == map[]
    {
      discoveryCache := map[];
    }

    method CachedDiscovery(issuer: string) returns (uri: string, ok: bool)
      ensures ok <==> issuer in discoveryCache
      ensures ok ==> uri == discoveryCache[issuer]
    {
      ok := issuer in discoveryCache;
      uri := if ok then discoveryCache[issuer] else "";
    }

    method CacheDiscovery(issuer: string, jwksURI: string)
      modifies this
      ensures discoveryCache == old(discoveryCache)[issuer := jwksURI]
    {
      discoveryCache := discoveryCache[issuer := jwksURI];
    }

    /** `resolveJWKSURL`: a failed discovery falls back on the last success for the issuer. */
    method ResolveJWKSURL(net: Net, spec: Spec) returns (r: Result<string>)
      modifies this
      ensures (r, discoveryCache) == Resolution(old(discoveryCache), spec, net)
      ensures var document := net.fetch(DiscoveryURL(spec.auth.issuer));
              Looked(spec) && Acceptable(net.parse, spec.auth.issuer, document) ==> r == Ok(document.jwksURI)
      ensures !Looked(spec) ==> r == Ok("") && discoveryCache == old(discoveryCache)
    {
      if !A.AuthEnabled(spec) {
        return Ok("");
      }
      if spec.auth.jwkCertSecret.Some? {
        return Ok("");
      }
      var jwksURI := DiscoverJWKSURL(net, spec.auth.issuer);
      if jwksURI.Failed? {
        var cached, ok := CachedDiscovery(spec.auth.issuer);
        if ok {
          return Ok(cached);
        }
        return Failed;
      }
      CacheDiscovery(spec.auth.issuer, jwksURI.value);
      return Ok(jwksURI.value);
    }
  }

  // ----- runs -----

  /** One call of `ResolveJWKSURL`. */
  datatype Attempt = Attempt(spec: Spec, net: Net)

  ghost function CacheAfter(attempts: seq<Attempt>): map<string, string> {
    if |attempts| == 0 then map[]
    else
      var n := |attempts| - 1;
      Resolution(CacheAfter(attempts[..n]), attempts[n].spec, attempts[n].net).1
  }

  ghost predicate Succeeds(a: Attempt, issuer: string) {
    NeedsDiscovery(a.spec) && a.spec.auth.issuer == issuer && Discovered(a.net, issuer).Ok?
  }

  /** Attempt `i` is the latest successful discovery for exactly this issuer string. */
  ghost predicate LatestSuccess(attempts: seq<Attempt>, i: nat, issuer: string) {
    && i < |attempts| && Succeeds(attempts[i], issuer)
    && forall j | i < j < |attempts| :: !Succeeds(attempts[j], issuer)
  }

  function Cached(cache: map<string, string>, issuer: string): Result<string> {
    if issuer in cache then Ok(cache[issuer]) else Failed
  }

  lemma CacheStep(attempts: seq<Attempt>, issuer: string)
    requires attempts != []
    ensures var n := |attempts| - 1;
            Cached(CacheAfter(attempts), issuer) ==
            if Succeeds(attempts[n], issuer) then Discovered(attempts[n].net, issuer)
            else Cached(CacheAfter(attempts[..n]), issuer)
  {
  }

  lemma LatestShrinks(attempts: seq<Attempt>, i: nat, issuer: string)
    requires LatestSuccess(attempts, i, issuer)
    ensures i == |attempts| - 1 || LatestSuccess(attempts[..|attempts| - 1], i, issuer)
    ensures Succeeds(attempts[|attempts| - 1], issuer) ==> i == |attempts| - 1
  {
  }

  lemma {:induction false} CacheIsLatest(attempts: seq<Attempt>, i: nat, issuer: string)
    requires LatestSuccess(attempts, i, issuer)
    ensures Cached(CacheAfter(attempts), issuer) == Discovered(attempts[i].net, issuer)
  {
    var n := |attempts| - 1;
    CacheStep(attempts, issuer);
    LatestShrinks(attempts, i, issuer);
    if i == n {
    } else {
      CacheIsLatest(attempts[..n], i, issuer);
    }
  }

  lemma {:induction false} CachedHasSucceeded(attempts: seq<Attempt>, issuer: string)
    requires issuer in CacheAfter(attempts)
    ensures exists i :: 0 <= i < |attempts| && Succeeds(attempts[i], issuer)
  {
    var n := |attempts| - 1;
    CacheStep(attempts, issuer);
    if !Succeeds(attempts[n], issuer) {
      CachedHasSucceeded(attempts[..n], issuer);
      var i :| 0 <= i < n && Succeeds(attempts[..n][i], issuer);
      assert Succeeds(attempts[i], issuer);
    }
  }

  /** Over every run, an issuer is cached exactly when it has succeeded, and the cached URL
      is the one of its latest success. */
  lemma CacheHoldsLatest(attempts: seq<Attempt>, issuer: string)
    ensures issuer in CacheAfter(attempts) <==> exists i :: 0 <= i < |attempts| && Succeeds(attempts[i], issuer)
    ensures forall i | 0 <= i && LatestSuccess(attempts, i, issuer) ::
              issuer in CacheAfter(attempts) && Discovered(attempts[i].net, issuer) == Ok(CacheAfter(attempts)[issuer])
  {
    if issuer in CacheAfter(attempts) {
      CachedHasSucceeded(attempts, issuer);
    }
    if exists i :: 0 <= i < |attempts| && Succeeds(attempts[i], issuer) {
      var i := LastSuccess(attempts, issuer);
      CacheIsLatest(attempts, i, issuer);
    }
    forall i | 0 <= i && LatestSuccess(attempts, i, issuer)
      ensures issuer in CacheAfter(attempts) && Discovered(attempts[i].net, issuer) == Ok(CacheAfter(attempts)[issuer])
    {
      CacheIsLatest(attempts, i, issuer);
    }
  }

  /** Every cached URL was accepted from the document of its issuer: non-empty, https, and
      issuer-matched up to one trailing slash. */
  lemma CachedIsAcceptable(attempts: seq<Attempt>, issuer: string)
    requires issuer in CacheAfter(attempts)
    ensures exists a, r :: a in attempts && r == a.net.fetch(DiscoveryURL(issuer))
              && Acceptable(a.net.parse, issuer, r) && CacheAfter(attempts)[issuer] == r.jwksURI
  {
  }

  lemma {:induction false} LastSuccess(attempts: seq<Attempt>, issuer: string) returns (i: nat)
    requires exists k :: 0 <= k < |attempts| && Succeeds(attempts[k], issuer)
    ensures LatestSuccess(attempts, i, issuer)
  {
    var n := |attempts| - 1;
    if Succeeds(attempts[n], issuer) {
      i := n;
    } else {
      i := LastSuccess(attempts[..n], issuer);
      assert attempts[..n][i] == attempts[i];
      assert forall j | i < j < n :: attempts[..n][j] == attempts[j];
    }
  }

  /** Once an issuer has succeeded, resolution never fails for it again, whatever the network
      does; and before that it fails exactly with discovery. */
  lemma NeverFailsAgain(attempts: seq<Attempt>, spec: Spec, net: Net)
    ensures Resolution(CacheAfter(attempts), spec, net).0 == Failed <==>
            && NeedsDiscovery(spec) && Discovered(net, spec.auth.issuer).Failed?
            && forall a | a in attempts :: !Succeeds(a, spec.auth.issuer)
  {
    CacheHoldsLatest(attempts, spec.auth.issuer);
    assert forall i | 0 <= i < |attempts| :: attempts[i] in attempts;
  }

  /** Where the URL of a resolution comes from: the document just fetched, if acceptable; else the
      document of the latest success for this issuer; nowhere when discovery is not looked to. */
  ghost predicate SourceURL(attempts: seq<Attempt>, spec: Spec, net: Net, url: string) {
    var issuer := spec.auth.issuer;
    var location := TrimSlash(issuer) + "/.well-known/openid-configuration";
    if !Looked(spec) then url == ""
    else if Acceptable(net.parse, issuer, net.fetch(location)) then url == net.fetch(location).jwksURI
    else
      exists i :: 0 <= i && LatestSuccess(attempts, i, issuer)
                  && Acceptable(attempts[i].net.parse, issuer, attempts[i].net.fetch(location))
                  && url == attempts[i].net.fetch(location).jwksURI
  }

  /** Over every run a resolution returns exactly that URL, and fails when there is none. */
  lemma ResolvesTo(attempts: seq<Attempt>, spec: Spec, net: Net, url: string)
    ensures Resolution(CacheAfter(attempts), spec, net).0 == Ok(url) <==> SourceURL(attempts, spec, net, url)
  {
    var issuer := spec.auth.issuer;
    CacheHoldsLatest(attempts, issuer);
    if issuer in CacheAfter(attempts) {
      var i := LastSuccess(attempts, issuer);
      assert Discovered(attempts[i].net, issuer) == Ok(CacheAfter(attempts)[issuer]);
    }
  }

  /** A fresh document wins over whatever is cached. */
  lemma FreshWins(cache: map<string, string>, spec: Spec, net: Net)
    requires Looked(spec) && Acceptable(net.parse, spec.auth.issuer, net.fetch(DiscoveryURL(spec.auth.issuer)))
    ensures Resolution(cache, spec, net).0 == Ok(net.fetch(DiscoveryURL(spec.auth.issuer)).jwksURI)
  {
  }

  ghost predicate NonEmptyURLs(cache: map<string, string>) {
    forall i | i in cache :: cache[i] != ""
  }

  lemma {:induction false} CacheNonEmpty(attempts: seq<Attempt>)
    ensures NonEmptyURLs(CacheAfter(attempts))
  {
    if attempts == [] {
    } else {
      CacheNonEmpty(attempts[..|attempts| - 1]);
    }
  }

  /** After a resolution that succeeded, the renderer always has its JWKS source. */
  lemma SourceResolved(cache: map<string, string>, spec: Spec, net: Net, entities: seq<A.EntityDescriptor>)
    requires NonEmptyURLs(cache) && Resolution(cache, spec, net).0.Ok?
    ensures A.ConfigFor(A.InputFor(spec, entities, Resolution(cache, spec, net).0.value)).Ok?
    ensures NonEmptyURLs(Resolution(cache, spec, net).1)
  {
  }
}
