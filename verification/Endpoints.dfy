/** Authority endpoints: what one discovery decides, and the cache that keeps the result. */
module Endpoints {
  import opened Wrappers
  import opened Strings
  import MapOrder

  /** The parts of a URL that matter.  Parsing is not modelled: whatever holds a URL also holds what
      parsing it gives, `None` being a failure. */
  datatype Url = Url(scheme: string, host: string)

  datatype AuthorityType = AAD | ADFS | DSTS

  datatype Info = Info(
    host: string, canonicalAuthorityURI: string, authorityURL: Option<Url>, authorityType: AuthorityType,
    validateAuthority: bool, tenant: string, region: string, metadata: seq<seq<string>>)

  datatype Endpoints = Endpoints(authorizationEndpoint: string, tokenEndpoint: string, selfSignedJwtAudience: string,
    authorityHost: string)

  /** The OpenID configuration document. */
  datatype Configuration = Configuration(authorizationEndpoint: string, tokenEndpoint: string, issuer: string,
    issuerURL: Option<Url>)

  /** What the network answers to one caller: instance discovery (metadata as lists of aliases) and the
      configuration document; `None` is a failed request. */
  datatype Replies = Replies(instance: Option<seq<seq<string>>>, configuration: Option<Configuration>)

  const TRUSTED_HOSTS := {
    "login.windows.net", "login.partner.microsoftonline.cn", "login.chinacloudapi.cn", "login.microsoftonline.de",
    "login-us.microsoftonline.com", "login.microsoftonline.us", "login.microsoftonline.com", "login.microsoft.com",
    "sts.windows.net", "login.usgovcloudapi.net", "login.sovcloud-identity.fr", "login.sovcloud-identity.de",
    "login.sovcloud-identity.sg"
  }

  const TENANT_PLACEHOLDER := "{tenant}"

  predicate HasSuffix(s: string, t: string) { |t| <= |s| && s[|s| - |t|..] == t }

  function ReplaceAll(s: string, what: string, with: string): string
    requires what != ""
  {
    if s == "" then ""
    else if |what| <= |s| && s[..|what|] == what then with + ReplaceAll(s[|what|..], what, with)
    else [s[0]] + ReplaceAll(s[1..], what, with)
  }

  lemma OccursLater(s: string, what: string, k: nat)
    requires s != ""
    ensures OccursAt(s[1..], what, k) <==> OccursAt(s, what, k + 1)
  {
    if k + 1 + |what| <= |s| { assert s[1..][k..k + |what|] == s[k + 1..k + 1 + |what|]; }
  }

  lemma OccursFirst(s: string, what: string)
    ensures OccursAt(s, what, 0) <==> |what| <= |s| && s[..|what|] == what
  {
    if |what| <= |s| { assert s[0..0 + |what|] == s[..|what|]; }
  }

  /** Where the text first occurs, it is replaced, and the rest is dealt with in the same way. */
  lemma {:induction false} ReplaceFirst(s: string, what: string, with: string, i: nat)
    requires what != "" && OccursAt(s, what, i) && forall k: nat | k < i :: !OccursAt(s, what, k)
    ensures i + |what| <= |s| && ReplaceAll(s, what, with) == s[..i] + with + ReplaceAll(s[i + |what|..], what, with)
    decreases i
  {
    OccursFirst(s, what);
    if i == 0 {
      assert s[..0] == "" && "" + with == with;
    } else {
      assert !OccursAt(s, what, 0);
      var t, rest := s[1..], s[i + |what|..];
      OccursLater(s, what, i - 1);
      forall k: nat | k < i - 1 ensures !OccursAt(t, what, k) { OccursLater(s, what, k); }
      hide OccursAt;
      ReplaceFirst(t, what, with, i - 1);
      assert t[i - 1 + |what|..] == rest;
      assert ReplaceAll(s, what, with) == [s[0]] + ReplaceAll(t, what, with);
      Prepend(s, t[..i - 1] + with, ReplaceAll(rest, what, with), i, with);
    }
  }

  lemma Prepend(s: string, head: string, tail: string, i: nat, with: string)
    requires 0 < i <= |s| && head == s[1..][..i - 1] + with
    ensures [s[0]] + (head + tail) == s[..i] + with + tail
  {
    assert [s[0]] + s[1..][..i - 1] == s[..i];
    assert [s[0]] + (s[1..][..i - 1] + with) == s[..i] + with;
  }

  lemma {:induction false} ReplaceNone(s: string, what: string, with: string)
    requires what != "" && !Contains(s, what)
    ensures ReplaceAll(s, what, with) == s
  {
    if s != "" {
      OccursFirst(s, what);
      assert !OccursAt(s, what, 0);
      forall k: nat | k <= |s| - 1 ensures !OccursAt(s[1..], what, k) {
        OccursLater(s, what, k);
      }
      ReplaceNone(s[1..], what, with);
    }
  }

  /** Whether the issuer may speak for the authority. */
  predicate IssuerMatches(c: Configuration, authorityURI: string, authorityURL: Option<Url>, aliases: set<string>) {
    && authorityURI != "" && c.issuer != "" && c.issuerURL.Some? && authorityURL.Some?
    && var i, a := c.issuerURL.value, authorityURL.value;
    || (i.scheme == a.scheme && EqualFold(i.host, a.host))
    || (exists alias | alias in aliases :: EqualFold(alias, i.host))
    || ToLower(i.host) in TRUSTED_HOSTS
    || HasSuffix(ToLower(a.host), "." + ToLower(i.host))
  }

  /** Whatever the authority, and without any aliases: the issuers that may speak for it are those of the
      public and the national clouds. */
  lemma AlwaysTrusted(c: Configuration)
    requires c.issuer != "" && c.issuerURL.Some?
    ensures (forall uri, url | uri != "" :: IssuerMatches(c, uri, Some(url), {})) <==>
      var host := ToLower(c.issuerURL.value.host);
      || host == "login.microsoftonline.com" || host == "login.microsoft.com" || host == "login.windows.net"
      || host == "sts.windows.net" || host == "login-us.microsoftonline.com" || host == "login.microsoftonline.us"
      || host == "login.usgovcloudapi.net" || host == "login.microsoftonline.de" || host == "login.chinacloudapi.cn"
      || host == "login.partner.microsoftonline.cn" || host == "login.sovcloud-identity.fr"
      || host == "login.sovcloud-identity.de" || host == "login.sovcloud-identity.sg"
  {
    var i := c.issuerURL.value;
    var other := Url(i.scheme + "x", "");
    assert other.scheme != i.scheme && !HasSuffix(ToLower(other.host), "." + ToLower(i.host));
    assert IssuerMatches(c, "x", Some(other), {}) <==> ToLower(i.host) in TRUSTED_HOSTS;
  }

  predicate Complete(c: Configuration) { c.authorizationEndpoint != "" && c.tokenEndpoint != "" && c.issuer != "" }

  predicate AsksInstance(info: Info) {
    info.authorityType == AAD && ((info.validateAuthority && info.host !in TRUSTED_HOSTS) || info.region != "")
  }

  predicate Mentions(aliases: seq<string>, host: string) { exists a | a in aliases :: EqualFold(a, host) }

  /** The aliases of the first metadata entry that mentions the host. */
  function AliasesOf(metadata: seq<seq<string>>, host: string): set<string> {
    if metadata == [] then {}
    else if Mentions(metadata[0], host) then set a | a in metadata[0]
    else AliasesOf(metadata[1..], host)
  }

  function EndpointsFrom(c: Configuration, info: Info): Endpoints {
    Endpoints(ReplaceAll(c.authorizationEndpoint, TENANT_PLACEHOLDER, info.tenant),
              ReplaceAll(c.tokenEndpoint, TENANT_PLACEHOLDER, info.tenant),
              ReplaceAll(c.issuer, TENANT_PLACEHOLDER, info.tenant), info.host)
  }

  /** The pieces of a URL around its tenant placeholders. */
  predicate Cut(url: string, parts: seq<string>) {
    parts != [] && url == Join(parts, TENANT_PLACEHOLDER) && forall p | p in parts :: !Contains(p, TENANT_PLACEHOLDER)
  }

  /** In front of the first placeholder there is none, not even one that overlaps it. */
  lemma FirstPlaceholder(part: string, rest: string, k: nat)
    requires !Contains(part, TENANT_PLACEHOLDER)
    ensures OccursAt(part + TENANT_PLACEHOLDER + rest, TENANT_PLACEHOLDER, |part|)
    ensures k < |part| ==> !OccursAt(part + TENANT_PLACEHOLDER + rest, TENANT_PLACEHOLDER, k)
  {
    var s, n := part + TENANT_PLACEHOLDER + rest, |TENANT_PLACEHOLDER|;
    assert s[|part|..|part| + n] == TENANT_PLACEHOLDER;
    if k < |part| {
      if k + n <= |part| {
        assert part[k..k + n] == s[k..k + n];
        assert !OccursAt(part, TENANT_PLACEHOLDER, k);
      } else {
        assert s[k..k + n][|part| - k] == s[|part|] == '{';
        assert TENANT_PLACEHOLDER[|part| - k] != '{';
      }
    }
  }

  lemma {:induction false} PartsFilledIn(url: string, parts: seq<string>, tenant: string)
    requires Cut(url, parts)
    ensures ReplaceAll(url, TENANT_PLACEHOLDER, tenant) == Join(parts, tenant)
    decreases |parts|
  {
    if |parts| == 1 {
      ReplaceNone(url, TENANT_PLACEHOLDER, tenant);
    } else {
      var rest := Join(parts[1..], TENANT_PLACEHOLDER);
      assert url == parts[0] + TENANT_PLACEHOLDER + rest;
      forall k: nat
        ensures k < |parts[0]| ==> !OccursAt(url, TENANT_PLACEHOLDER, k)
      {
        FirstPlaceholder(parts[0], rest, k);
      }
      FirstPlaceholder(parts[0], rest, 0);
      ReplaceFirst(url, TENANT_PLACEHOLDER, tenant, |parts[0]|);
      assert url[|parts[0]| + |TENANT_PLACEHOLDER|..] == rest && url[..|parts[0]|] == parts[0];
      PartsFilledIn(rest, parts[1..], tenant);
    }
  }

  /** Every URL can be cut in this way. */
  lemma {:induction false} EveryUrlCuts(url: string) returns (parts: seq<string>)
    ensures Cut(url, parts)
    decreases |url|
  {
    if Contains(url, TENANT_PLACEHOLDER) {
      var i := FirstIn(url, TENANT_PLACEHOLDER);
      var n := |TENANT_PLACEHOLDER|;
      var rest := EveryUrlCuts(url[i + n..]);
      forall k: nat ensures !OccursAt(url[..i], TENANT_PLACEHOLDER, k) {
        if k + n <= i {
          assert !OccursAt(url, TENANT_PLACEHOLDER, k) && url[..i][k..k + n] == url[k..k + n];
        }
      }
      parts := [url[..i]] + rest;
      assert parts[1..] == rest && url == url[..i] + TENANT_PLACEHOLDER + url[i + n..];
      assert forall p | p in parts :: p == url[..i] || p in rest;
    } else {
      parts := [url];
    }
  }

  lemma {:induction false} FirstIn(s: string, what: string) returns (i: nat)
    requires Contains(s, what)
    ensures OccursAt(s, what, i) && forall k: nat | k < i :: !OccursAt(s, what, k)
  {
    i := 0;
    while !OccursAt(s, what, i)
      invariant i <= |s| && forall k: nat | k < i :: !OccursAt(s, what, k)
      decreases |s| - i
    {
      assert exists k: nat | k <= |s| :: OccursAt(s, what, k);
      i := i + 1;
    }
  }

  /** However often the placeholder occurs in a URL of the document, and in whichever of them, the tenant
      takes its place everywhere, and nothing else changes. */
  lemma {:induction false} TenantFilledIn(c: Configuration, info: Info, authorization: seq<string>, token: seq<string>,
    issuer: seq<string>)
    requires Cut(c.authorizationEndpoint, authorization) && Cut(c.tokenEndpoint, token) && Cut(c.issuer, issuer)
    ensures EndpointsFrom(c, info) ==
      Endpoints(Join(authorization, info.tenant), Join(token, info.tenant), Join(issuer, info.tenant), info.host)
  {
    PartsFilledIn(c.authorizationEndpoint, authorization, info.tenant);
    PartsFilledIn(c.tokenEndpoint, token, info.tenant);
    PartsFilledIn(c.issuer, issuer, info.tenant);
  }

  /** `e` is what a complete configuration document, from an issuer that matches the authority, says. */
  predicate Validated(info: Info, r: Replies, e: Endpoints) {
    && (AsksInstance(info) ==> r.instance.Some?) && r.configuration.Some?
    && var metadata := if AsksInstance(info) then r.instance.value else info.metadata;
    && Complete(r.configuration.value)
    && IssuerMatches(r.configuration.value, info.canonicalAuthorityURI, info.authorityURL,
        AliasesOf(metadata, info.host))
    && e == EndpointsFrom(r.configuration.value, info)
  }

  /** The endpoints that a discovery yields, if it yields any. */
  function Resolved(info: Info, r: Replies): (e: Option<Endpoints>)
    ensures forall x :: Validated(info, r, x) <==> e == Some(x)
  {
    if r.configuration.Some? && Validated(info, r, EndpointsFrom(r.configuration.value, info))
    then Some(EndpointsFrom(r.configuration.value, info)) else None
  }

  method AliasesFromMetadata(metadata: seq<seq<string>>, authorityHost: string) returns (aliases: map<string, bool>)
    ensures aliases == map a | a in AliasesOf(metadata, authorityHost) :: true
  {
    for i := 0 to |metadata|
      invariant AliasesOf(metadata, authorityHost) == AliasesOf(metadata[i..], authorityHost)
    {
      var entry := metadata[i];
      assert metadata[i..][0] == entry && metadata[i..][1..] == metadata[i + 1..];
      for k := 0 to |entry|
        invariant forall x | 0 <= x < k :: !EqualFold(entry[x], authorityHost)
      {
        if EqualFold(entry[k], authorityHost) {
          aliases := map[];
          for j := 0 to |entry|
            invariant aliases == map a | a in entry[..j] :: true
          {
            aliases := aliases[entry[j] := true];
          }
          assert entry[..|entry|] == entry && entry[k] in entry;
          return;
        }
      }
    }
    assert metadata[|metadata|..] == [];
    aliases := map[];
  }

  method ValidateIssuerMatchesAuthority(c: Configuration, authorityURI: string, authority: Option<Url>,
    aliases: map<string, bool>)
    returns (ok: bool)
    ensures ok <==> IssuerMatches(c, authorityURI, authority, set a | a in aliases && aliases[a])
  {
    if authorityURI == "" || c.issuer == "" || c.issuerURL.None? || authority.None? { return false; }
    var issuerURL, authorityURL := c.issuerURL.value, authority.value;
    if issuerURL.scheme == authorityURL.scheme && EqualFold(issuerURL.host, authorityURL.host) { return true; }
    var order := MapOrder.Range(aliases);
    for i := 0 to |order|
      invariant forall x | 0 <= x < i :: !(aliases[order[x]] && EqualFold(order[x], issuerURL.host))
    {
      if aliases[order[i]] && EqualFold(order[i], issuerURL.host) { return true; }
    }
    if ToLower(issuerURL.host) in TRUSTED_HOSTS { return true; }
    ok := HasSuffix(ToLower(authorityURL.host), "." + ToLower(issuerURL.host));
  }

  datatype CacheEntry = CacheEntry(endpoints: Endpoints, validForDomains: set<string>)

  function AdfsDomain(upn: string): Option<string> {
    var parts := Split(upn, '@');
    if |parts| < 2 then None else Some(parts[1])
  }

  /** It is what follows the first `@`, up to the next one if there is another. */
  lemma {:induction false} AdfsDomainIs(parts: seq<string>)
    requires parts != [] && forall p | p in parts :: '@' !in p
    ensures AdfsDomain(Join(parts, "@")) == if |parts| == 1 then None else Some(parts[1])
  {
    SplitJoin(parts, '@');
  }

  /** The cache with an entry for this authority, and no other change: valid for the domains of the old
      entry and the caller's own, if it is an ADFS authority, and for none otherwise. */
  predicate AddedTo(cache: map<string, CacheEntry>, cache': map<string, CacheEntry>, info: Info, upn: string,
    endpoints: Endpoints) {
    var uri := info.canonicalAuthorityURI;
    && uri in cache' && cache' == cache[uri := cache'[uri]] && cache'[uri].endpoints == endpoints
    && cache'[uri].validForDomains ==
         if info.authorityType != ADFS then {}
         else (if uri in cache then cache[uri].validForDomains else {})
              + if AdfsDomain(upn).Some? then {AdfsDomain(upn).value} else {}
  }

  class AuthorityEndpoint {
    var cache: map<string, CacheEntry>

    constructor ()
      ensures cache == map[]
    {
      cache := map[];
    }

    /** Whatever the list of domains says, a cached entry is a hit. */
    method CachedEndpoints(info: Info, upn: string) returns (r: Option<Endpoints>)
      ensures r ==
        if info.canonicalAuthorityURI in cache then Some(cache[info.canonicalAuthorityURI].endpoints) else None
    {
      if info.canonicalAuthorityURI in cache {
        var entry := cache[info.canonicalAuthorityURI];
        if info.authorityType == ADFS {
          var domain := AdfsDomain(upn);
          if domain.Some? && domain.value in entry.validForDomains { return Some(entry.endpoints); }
        }
        return Some(entry.endpoints);
      }
      r := None;
    }

    /** Domains seen earlier for the same ADFS authority are kept, and the caller's own is added. */
    method AddCachedEndpoints(info: Info, upn: string, endpoints: Endpoints)
      modifies this
      ensures AddedTo(old(cache), cache, info, upn, endpoints)
    {
      var domains := {};
      if info.authorityType == ADFS {
        if info.canonicalAuthorityURI in cache { domains := cache[info.canonicalAuthorityURI].validForDomains; }
        var domain := AdfsDomain(upn);
        if domain.Some? { domains := domains + {domain.value}; }
      }
      cache := cache[info.canonicalAuthorityURI := CacheEntry(endpoints, domains)];
    }

    /** The part that runs inside the singleflight group: a hit is returned as it is; otherwise only
        validated endpoints are returned and cached, and exactly when the replies validate. */
    method Discover(info: Info, upn: string, replies: Replies) returns (r: Option<Endpoints>)
      modifies this
      ensures info.canonicalAuthorityURI in old(cache) ==>
        r == Some(old(cache[info.canonicalAuthorityURI].endpoints)) && cache == old(cache)
      ensures info.canonicalAuthorityURI !in old(cache) ==>
        && r == Resolved(info, replies) && (r.None? ==> cache == old(cache))
        && (r.Some? ==> AddedTo(old(cache), cache, info, upn, r.value))
    {
      var hit := CachedEndpoints(info, upn);
      if hit.Some? { return hit; }
      var metadata := info.metadata;
      if info.authorityType == AAD && ((info.validateAuthority && info.host !in TRUSTED_HOSTS) || info.region != "") {
        if replies.instance.None? { return None; }
        metadata := replies.instance.value;
      }
      if replies.configuration.None? { return None; }
      var c := replies.configuration.value;
      if c.authorizationEndpoint == "" || c.tokenEndpoint == "" || c.issuer == "" { return None; }
      var endpoints := EndpointsFrom(c, info);
      var aliases := AliasesFromMetadata(metadata, info.host);
      assert (set a | a in aliases && aliases[a]) == AliasesOf(metadata, info.host);
      var ok := ValidateIssuerMatchesAuthority(c, info.canonicalAuthorityURI, info.authorityURL, aliases);
      if !ok { return None; }
      AddCachedEndpoints(info, upn, endpoints);
      r := Some(endpoints);
    }
  }
}
