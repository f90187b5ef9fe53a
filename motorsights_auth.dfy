/**
 * The SSO token cache of the Motorsights authentication client. The login
 * request is an oracle (`LoginReply`), and the wall clock is a parameter in
 * seconds.
 */
module MotorsightsAuth {
  import opened Wrappers
  import opened Text
  import opened JsonValue

  /** What the login request yields: a `RequestException` (including a bad status or body), or the decoded body. */
  datatype LoginReply = RequestFailed | Body(data: Json)

  datatype AuthError =
    | MissingCredentials   // the constructor's ValueError
    | LoginFailed          // the RequestException, re-raised as Exception
    | MalformedResponse    // `.get` on something that is not a dict
    | TokenNotFound        // no truthy token candidate: the ValueError
    | NonStringToken       // a truthy token that is not a string
    | BadExpiry            // `timedelta(seconds=...)` on a value that is not a number
    | ExpiryOverflow       // the OverflowError of an expiry outside datetime's range

  const DefaultExpiresIn: int := 82800

  /**
   * The clock counts seconds from `datetime.min` (0001-01-01 00:00:00), so a
   * `datetime` lies between 0 and the second of `datetime.max`
   * (9999-12-31 23:59:59), 3652058 days and 86399 seconds later.
   */
  const MaxClock: int := 3652058 * 86400 + 86399

  /** `datetime.now() + timedelta(seconds=s)` is a datetime rather than an OverflowError. */
  predicate InClockRange(t: int) {
    0 <= t <= MaxClock
  }

  /** `j.get(key, default)`, which needs `j` to be a dict. */
  function GetIn(j: Json, key: string, default: Json): (r: Result<Json, AuthError>)
    ensures r.Success? <==> j.JObj?
    ensures j.JObj? && key in j.fields ==> r == Success(j.fields[key])
    ensures j.JObj? && key !in j.fields ==> r == Success(default)
  {
    if j.JObj? then Success(Get(j.fields, key, default)) else Failure(MalformedResponse)
  }

  /** The fields of `data.get("data", {}).get("oauth", {})`, on which `.get` is then called. */
  function OAuth(data: Json): (r: Result<map<string, Json>, AuthError>)
    ensures r.Success? ==> data.JObj?
  {
    match GetIn(data, "data", JObj(map[]))
    case Failure(e) => Failure(e)
    case Success(inner) =>
      match GetIn(inner, "oauth", JObj(map[]))
      case Failure(e) => Failure(e)
      case Success(oauth) => if oauth.JObj? then Success(oauth.fields) else Failure(MalformedResponse)
  }

  /** Python's `a or b or ...`: the first truthy operand, or else the last one. */
  function FirstTruthy(xs: seq<Json>): (r: Json)
    requires xs != []
    ensures r in xs
    ensures Truthy(r) <==> exists x :: x in xs && Truthy(x)
    decreases |xs|
  {
    if |xs| == 1 || Truthy(xs[0]) then xs[0] else FirstTruthy(xs[1..])
  }

  /** The token candidates, in the order the `or` chain tries them. */
  function TokenCandidates(oauthFields: map<string, Json>, fields: map<string, Json>): seq<Json> {
    [Get(oauthFields, "sso_token", JNull), Get(fields, "sso_token", JNull), Get(fields, "token", JNull), Get(fields, "access_token", JNull)]
  }

  /** The token the login response carries. */
  function TokenFrom(data: Json): (r: Result<string, AuthError>)
    ensures r.Success? ==> r.value != []
  {
    match OAuth(data)
    case Failure(e) => Failure(e)
    case Success(oauth) =>
      var v := FirstTruthy(TokenCandidates(oauth, data.fields));
      if !Truthy(v) then Failure(TokenNotFound)
      else if v.JStr? then Success(v.s)
      else Failure(NonStringToken)
  }

  /** `timedelta(seconds=v)` accepts integers and booleans. */
  function Seconds(v: Json): Option<int> {
    match v
    case JNum(n) => Some(n)
    case JBool(b) => Some(if b then 1 else 0)
    case _ => None
  }

  /** `oauth.get("expires_in") or data.get("expires_in", 82800)`, read once the token was found. */
  function ExpiresIn(oauthFields: map<string, Json>, fields: map<string, Json>): Json {
    var nested := Get(oauthFields, "expires_in", JNull);
    if Truthy(nested) then nested else Get(fields, "expires_in", JNum(DefaultExpiresIn))
  }

  /** The token's lifetime in seconds as the login response gives it; `None` when it is not a number. */
  function Lifetime(data: Json): Option<int> {
    match OAuth(data)
    case Failure(_) => None
    case Success(oauth) => Seconds(ExpiresIn(oauth, data.fields))
  }

  /** The cache after a fetch at time `now`, and what the fetch returns. */
  datatype Fetched = Fetched(token: Option<string>, expiry: Option<int>, result: Result<string, AuthError>)

  /**
   * `_fetch_new_token`. The token is stored before the expiry is computed, so
   * an expiry that is not a number, or one past datetime's range, leaves the
   * new token beside the old expiry.
   */
  function Fetch(token: Option<string>, expiry: Option<int>, reply: LoginReply, now: int): (f: Fetched)
    ensures f.result.Success? <==>
      && reply.Body? && TokenFrom(reply.data).Success?
      && Lifetime(reply.data).Some? && InClockRange(now + Lifetime(reply.data).value)
    ensures f.result.Success? ==>
      && reply.Body? && f.result == TokenFrom(reply.data) && f.token == Some(f.result.value)
      && f.expiry == Some(now + Lifetime(reply.data).value)
    ensures f.result.Failure? && f.result.error in {BadExpiry, ExpiryOverflow} ==>
      && reply.Body? && TokenFrom(reply.data).Success?
      && f.token == Some(TokenFrom(reply.data).value) && f.expiry == expiry
    ensures f.result.Failure? && f.result.error == BadExpiry ==> Lifetime(reply.data).None?
    ensures f.result.Failure? && f.result.error == ExpiryOverflow ==>
      Lifetime(reply.data).Some? && !InClockRange(now + Lifetime(reply.data).value)
    ensures f.result.Failure? && f.result.error !in {BadExpiry, ExpiryOverflow} ==>
      f.token == token && f.expiry == expiry
  {
    match reply
    case RequestFailed => Fetched(token, expiry, Failure(LoginFailed))
    case Body(data) =>
      match TokenFrom(data)
      case Failure(e) => Fetched(token, expiry, Failure(e))
      case Success(t) =>
        match Lifetime(data)
        case None => Fetched(Some(t), expiry, Failure(BadExpiry))
        case Some(s) =>
          if InClockRange(now + s) then Fetched(Some(t), Some(now + s), Success(t))
          else Fetched(Some(t), expiry, Failure(ExpiryOverflow))
  }

  /** The cached token is returned without a fetch. */
  predicate UsesCache(forceRefresh: bool, token: Option<string>, expiry: Option<int>, now: int) {
    !forceRefresh && token.Some? && token.value != [] && expiry.Some? && now < expiry.value
  }

  class AuthClient {
    const gatewayUrl: string
    const email: string
    const password: string
    var token: Option<string>
    var expiry: Option<int>

    constructor (gatewayUrl: string, email: string, password: string)
      requires email != [] && password != []
      ensures this.gatewayUrl == RStripChar(gatewayUrl, '/')
      ensures this.email == email && this.password == password
      ensures token == None && expiry == None
    {
      this.gatewayUrl := RStripChar(gatewayUrl, '/');
      this.email := email;
      this.password := password;
      token := None;
      expiry := None;
    }

    /** `__init__` with its credential check. */
    static method Create(gatewayUrl: string, email: Option<string>, password: Option<string>)
      returns (r: Result<AuthClient, AuthError>)
      ensures r.Success? <==> email.Some? && email.value != [] && password.Some? && password.value != []
      ensures r.Failure? ==> r.error == MissingCredentials
      ensures r.Success? ==> fresh(r.value) && r.value.token == None && r.value.expiry == None
      ensures r.Success? ==> r.value.gatewayUrl == RStripChar(gatewayUrl, '/')
    {
      if email.None? || email.value == [] || password.None? || password.value == [] {
        return Failure(MissingCredentials);
      }
      var c := new AuthClient(gatewayUrl, email.value, password.value);
      r := Success(c);
    }

    /** `get_bearer_token(force_refresh)` at time `now`; `reply` is what the login request would yield. */
    method GetBearerToken(forceRefresh: bool, now: int, reply: LoginReply) returns (r: Result<string, AuthError>)
      modifies this
      ensures UsesCache(forceRefresh, old(token), old(expiry), now) ==>
        r == Success(old(token).value) && token == old(token) && expiry == old(expiry)
      ensures !UsesCache(forceRefresh, old(token), old(expiry), now) ==>
        Fetched(token, expiry, r) == Fetch(old(token), old(expiry), reply, now)
    {
      if !forceRefresh && token.Some? && token.value != [] && expiry.Some? && now < expiry.value {
        return Success(token.value);
      }
      r := FetchNewToken(now, reply);
    }

    /** `_fetch_new_token`: the fields are written as the response is read. */
    method FetchNewToken(now: int, reply: LoginReply) returns (r: Result<string, AuthError>)
      modifies this
      ensures Fetched(token, expiry, r) == Fetch(old(token), old(expiry), reply, now)
    {
      if reply.RequestFailed? {
        return Failure(LoginFailed);
      }
      var data := reply.data;
      var t := TokenFrom(data);
      if t.Failure? {
        return Failure(t.error);
      }
      token := Some(t.value);
      var seconds := Lifetime(data);
      if seconds.None? {
        return Failure(BadExpiry);
      }
      if !InClockRange(now + seconds.value) {
        return Failure(ExpiryOverflow);
      }
      expiry := Some(now + seconds.value);
      r := Success(t.value);
    }

    /** `invalidate_token` */
    method InvalidateToken()
      modifies this
      ensures token == None && expiry == None
      ensures forall forceRefresh, now :: !UsesCache(forceRefresh, token, expiry, now)
    {
      token := None;
      expiry := None;
    }
  }

  /** The module-level `get_bearer_token`: a new client always fetches. */
  method GetBearerTokenOnce(gatewayUrl: string, email: string, password: string, now: int, reply: LoginReply)
    returns (r: Result<string, AuthError>)
    ensures email == [] || password == [] ==> r == Failure(MissingCredentials)
    ensures email != [] && password != [] ==> r == Fetch(None, None, reply, now).result
  {
    var client := AuthClient.Create(gatewayUrl, Some(email), Some(password));
    if client.Failure? {
      return Failure(client.error);
    }
    r := client.value.GetBearerToken(false, now, reply);
  }

  // ---------------------------------------------------------------------
  // Properties
  // ---------------------------------------------------------------------

  /** Force-refresh, an empty cache or a reached expiry always fetch. */
  lemma WhenFetched(forceRefresh: bool, token: Option<string>, expiry: Option<int>, now: int)
    ensures forceRefresh ==> !UsesCache(forceRefresh, token, expiry, now)
    ensures token.None? || expiry.None? ==> !UsesCache(forceRefresh, token, expiry, now)
    ensures expiry.Some? && now >= expiry.value ==> !UsesCache(forceRefresh, token, expiry, now)
  {
  }

  /**
   * A token fetched at `now` from a response with lifetime `s` is served
   * from the cache exactly until `now + s`, and is the token the fetch returned.
   */
  lemma FetchedTokenCached(token: Option<string>, expiry: Option<int>, reply: LoginReply, now: int, later: int)
    requires Fetch(token, expiry, reply, now).result.Success?
    ensures reply.Body? && Lifetime(reply.data).Some? && InClockRange(now + Lifetime(reply.data).value)
    ensures var f := Fetch(token, expiry, reply, now);
      && (UsesCache(false, f.token, f.expiry, later) <==> later < now + Lifetime(reply.data).value)
      && f.token == Some(f.result.value)
  {
    var f := Fetch(token, expiry, reply, now);
    assert f.token == Some(f.result.value);
    assert reply.Body? && TokenFrom(reply.data).Success?;
  }

  /**
   * A lifetime that takes the expiry past datetime's range raises after the
   * new token was stored: the new token is then served from the cache under
   * the old expiry, and not at all when there was none.
   */
  lemma ExpiryOverflowKeepsOldExpiry(token: Option<string>, expiry: Option<int>, data: Json, now: int, later: int)
    requires TokenFrom(data).Success? && Lifetime(data).Some?
    requires !InClockRange(now + Lifetime(data).value)
    ensures Fetch(token, expiry, Body(data), now) == Fetched(Some(TokenFrom(data).value), expiry, Failure(ExpiryOverflow))
    ensures var f := Fetch(token, expiry, Body(data), now);
      UsesCache(false, f.token, f.expiry, later) <==> expiry.Some? && later < expiry.value
  {
  }

  /** Ten thousand years of "expires_in" overflow whatever the clock reads. */
  lemma TenThousandYearsOverflow(token: Option<string>, expiry: Option<int>, now: int)
    requires InClockRange(now)
    ensures var data := JObj(map["token" := JStr("t"), "expires_in" := JNum(10000 * 366 * 86400)]);
      Fetch(token, expiry, Body(data), now).result == Failure(ExpiryOverflow)
  {
    var data := JObj(map["token" := JStr("t"), "expires_in" := JNum(10000 * 366 * 86400)]);
    assert TokenCandidates(OAuth(data).value, data.fields)[2] == JStr("t");
    FirstTruthyIsFirst(TokenCandidates(OAuth(data).value, data.fields), 2);
    assert Lifetime(data) == Some(10000 * 366 * 86400);
  }

  /** Without any "expires_in" in the response, a fetched token is cached for 23 hours. */
  lemma DefaultLifetime(token: Option<string>, expiry: Option<int>, data: Json, now: int)
    requires Fetch(token, expiry, Body(data), now).result.Success?
    requires "expires_in" !in data.fields && "expires_in" !in OAuth(data).value
    ensures Fetch(token, expiry, Body(data), now).expiry == Some(now + 82800)
  {
  }

  /** The first truthy candidate wins; the chain only moves on past falsy values. */
  lemma {:induction false} FirstTruthyIsFirst(xs: seq<Json>, i: nat)
    requires i < |xs| && Truthy(xs[i])
    requires forall j :: 0 <= j < i ==> !Truthy(xs[j])
    ensures FirstTruthy(xs) == xs[i]
    decreases i
  {
    if i > 0 {
      FirstTruthyIsFirst(xs[1..], i - 1);
    }
  }

  /**
   * The token is the first non-empty of oauth.sso_token, sso_token, token and
   * access_token, when that value is a string.
   */
  lemma TokenSourceOrder(data: Json, i: nat)
    requires data.JObj? && OAuth(data).Success?
    requires var cs := TokenCandidates(OAuth(data).value, data.fields);
      i < |cs| && cs[i].JStr? && cs[i].s != [] && forall j :: 0 <= j < i ==> !Truthy(cs[j])
    ensures TokenFrom(data) == Success(TokenCandidates(OAuth(data).value, data.fields)[i].s)
  {
    FirstTruthyIsFirst(TokenCandidates(OAuth(data).value, data.fields), i);
  }

  /** No truthy candidate: the fetch fails and the cache is untouched. */
  lemma NoTokenKeepsCache(token: Option<string>, expiry: Option<int>, data: Json, now: int)
    requires data.JObj? && OAuth(data).Success?
    requires forall c :: c in TokenCandidates(OAuth(data).value, data.fields) ==> !Truthy(c)
    ensures Fetch(token, expiry, Body(data), now) == Fetched(token, expiry, Failure(TokenNotFound))
  {
  }

  /** The lifetime: a truthy nested value, else the top-level value, else 23 hours. */
  lemma ExpiresInRule(oauthFields: map<string, Json>, fields: map<string, Json>)
    ensures "expires_in" in oauthFields && Truthy(oauthFields["expires_in"]) ==>
      ExpiresIn(oauthFields, fields) == oauthFields["expires_in"]
    ensures !("expires_in" in oauthFields && Truthy(oauthFields["expires_in"])) && "expires_in" in fields ==>
      ExpiresIn(oauthFields, fields) == fields["expires_in"]
    ensures !("expires_in" in oauthFields && Truthy(oauthFields["expires_in"])) && "expires_in" !in fields ==>
      ExpiresIn(oauthFields, fields) == JNum(82800)
  {
  }
}
