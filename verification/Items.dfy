/** What the token cache stores, and the keys it stores it under. */
module Items {
  import opened Strings

  const KEY_SEPARATOR := "-"
  const BEARER := "Bearer"
  const ZERO_TIME := -62135596800
  const EXPIRY_MARGIN := 300

  datatype AccessToken = AccessToken(
    homeAccountID: string, environment: string, realm: string, credentialType: string, clientID: string,
    secret: string, scopes: string, refreshOn: int, expiresOn: int, extendedExpiresOn: int, cachedAt: int,
    userAssertionHash: string, tokenType: string, authnSchemeKeyID: string, extCacheKey: string)

  datatype RefreshToken = RefreshToken(
    homeAccountID: string, environment: string, credentialType: string, clientID: string, familyID: string,
    secret: string, userAssertionHash: string)

  datatype IDToken = IDToken(
    homeAccountID: string, environment: string, realm: string, credentialType: string, clientID: string,
    secret: string, userAssertionHash: string)

  datatype Account = Account(
    homeAccountID: string, environment: string, realm: string, localAccountID: string, authorityType: string,
    preferredUsername: string, userAssertionHash: string)

  datatype AppMetaData = AppMetaData(familyID: string, clientID: string, environment: string)

  function AccessKeyParts(a: AccessToken): seq<string> {
    [a.homeAccountID, a.environment, if a.extCacheKey != "" then "atext" else a.credentialType,
     a.clientID, a.realm, a.scopes]
    + (if EqualFold(a.tokenType, BEARER) then [] else [a.tokenType])
    + (if a.extCacheKey != "" then [a.extCacheKey] else [])
  }

  function AccessKey(a: AccessToken): string { ToLower(Join(AccessKeyParts(a), KEY_SEPARATOR)) }

  function RefreshKeyParts(rt: RefreshToken): seq<string> {
    [rt.homeAccountID, rt.environment, rt.credentialType, if rt.familyID == "" then rt.clientID else rt.familyID]
  }

  function RefreshKey(rt: RefreshToken): string { ToLower(Join(RefreshKeyParts(rt), KEY_SEPARATOR)) }

  function IDTokenKeyParts(id: IDToken): seq<string> {
    [id.homeAccountID, id.environment, id.credentialType, id.clientID, id.realm]
  }

  function IDTokenKey(id: IDToken): string { ToLower(Join(IDTokenKeyParts(id), KEY_SEPARATOR)) }

  function AccountKeyParts(acc: Account): seq<string> { [acc.homeAccountID, acc.environment, acc.realm] }

  function AccountKey(acc: Account): string { ToLower(Join(AccountKeyParts(acc), KEY_SEPARATOR)) }

  function AppKeyParts(a: AppMetaData): seq<string> { ["AppMetaData", a.environment, a.clientID] }

  function AppKey(a: AppMetaData): string { ToLower(Join(AppKeyParts(a), KEY_SEPARATOR)) }

  /** The token may be cached and handed out at time `now`. */
  predicate Usable(a: AccessToken, now: int) {
    a.cachedAt <= now && a.expiresOn >= now + EXPIRY_MARGIN && a.cachedAt != ZERO_TIME
  }

  lemma JoinThree(x: string, y: string, z: string)
    ensures Join([x, y, z], "-") == x + "-" + y + "-" + z
  {
    assert [x, y] == [x] + [y] && [x, y, z] == [x, y] + [z];
    JoinLast([x], y, "-");
    JoinLast([x, y], z, "-");
  }

  lemma {:induction false} JoinMore(parts: seq<string>, y: string, z: string)
    requires parts != []
    ensures Join(parts + [y], "-") == Join(parts, "-") + "-" + y
    ensures Join(parts + [y, z], "-") == Join(parts, "-") + "-" + y + "-" + z
  {
    assert parts + [y, z] == parts + [y] + [z];
    JoinLast(parts, y, "-");
    JoinLast(parts + [y], z, "-");
  }

  lemma JoinSix(x: string, y: string, z: string, u: string, v: string, w: string)
    ensures Join([x, y, z, u, v, w], "-") == x + "-" + y + "-" + z + "-" + u + "-" + v + "-" + w
  {
    JoinThree(x, y, z);
    hide Join;
    assert [x, y, z, u] == [x, y, z] + [u] && [x, y, z, u, v, w] == [x, y, z, u] + [v, w];
    JoinMore([x, y, z], u, v);
    JoinMore([x, y, z, u], v, w);
  }

  /** The keys as text, which other libraries that share a cache rely on. */
  lemma AccessKeyText(a: AccessToken)
    ensures
      var kind := if a.extCacheKey == "" then a.credentialType else "atext";
      var who := a.homeAccountID + "-" + a.environment + "-" + kind;
      var text := who + "-" + a.clientID + "-" + a.realm + "-" + a.scopes;
      var typed := if EqualFold(a.tokenType, "Bearer") then text else text + "-" + a.tokenType;
      AccessKey(a) == ToLower(if a.extCacheKey == "" then typed else typed + "-" + a.extCacheKey)
  {
    var kind := if a.extCacheKey == "" then a.credentialType else "atext";
    var six := [a.homeAccountID, a.environment, kind, a.clientID, a.realm, a.scopes];
    JoinSix(six[0], six[1], six[2], six[3], six[4], six[5]);
    JoinMore(six, a.tokenType, a.extCacheKey);
    JoinMore(six, a.extCacheKey, a.tokenType);
    hide Join, EqualFold, ToLower;
    if EqualFold(a.tokenType, BEARER) {
      assert AccessKeyParts(a) == if a.extCacheKey == "" then six else six + [a.extCacheKey];
    } else {
      assert AccessKeyParts(a) == six + if a.extCacheKey == "" then [a.tokenType] else [a.tokenType, a.extCacheKey];
    }
  }

  lemma OtherKeysText(rt: RefreshToken, id: IDToken, acc: Account, app: AppMetaData)
    ensures var last := if rt.familyID == "" then rt.clientID else rt.familyID;
      RefreshKey(rt) == ToLower(rt.homeAccountID + "-" + rt.environment + "-" + rt.credentialType + "-" + last)
    ensures var text := id.homeAccountID + "-" + id.environment + "-" + id.credentialType + "-" + id.clientID;
      IDTokenKey(id) == ToLower(text + "-" + id.realm)
    ensures AccountKey(acc) == ToLower(acc.homeAccountID + "-" + acc.environment + "-" + acc.realm)
    ensures AppKey(app) == ToLower("AppMetaData" + "-" + app.environment + "-" + app.clientID)
  {
    JoinThree(rt.homeAccountID, rt.environment, rt.credentialType);
    var last := if rt.familyID == "" then rt.clientID else rt.familyID;
    JoinMore([rt.homeAccountID, rt.environment, rt.credentialType], last, "");
    JoinThree(id.homeAccountID, id.environment, id.credentialType);
    JoinMore([id.homeAccountID, id.environment, id.credentialType], id.clientID, id.realm);
    JoinThree(acc.homeAccountID, acc.environment, acc.realm);
    JoinThree("AppMetaData", app.environment, app.clientID);
    hide Join, ToLower;
    assert RefreshKeyParts(rt) == [rt.homeAccountID, rt.environment, rt.credentialType] + [last];
    assert IDTokenKeyParts(id) == [id.homeAccountID, id.environment, id.credentialType] + [id.clientID, id.realm];
  }

  /** The key of a token shows its extra cache key, in lower case. */
  lemma KeyShowsExtra(a: AccessToken)
    requires a.extCacheKey != ""
    ensures Contains(AccessKey(a), ToLower(a.extCacheKey))
  {
    var parts := AccessKeyParts(a);
    var n := |parts| - 1;
    assert parts[n] == a.extCacheKey && parts == parts[..n] + [parts[n]];
    JoinLast(parts[..n], parts[n], KEY_SEPARATOR);
    var before := Join(parts[..n], KEY_SEPARATOR) + KEY_SEPARATOR;
    LowerConcat(before, a.extCacheKey);
    assert OccursAt(AccessKey(a), ToLower(a.extCacheKey), |before|);
  }

  lemma {:induction false} JoinLast(parts: seq<string>, last: string, sep: string)
    requires parts != []
    ensures Join(parts + [last], sep) == Join(parts, sep) + sep + last
  {
    if |parts| > 1 {
      assert (parts + [last])[1..] == parts[1..] + [last];
      JoinLast(parts[1..], last, sep);
    }
  }
}
