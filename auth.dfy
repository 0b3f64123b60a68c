/**
 * The session/auth bridge: the Auth0 SPA cache key, login option merging,
 * the shape check on cached entries, session validation over the browser's
 * local storage, and the cache write a programmatic login performs.
 */
module Auth {
  import opened Wrappers
  import opened JsValue
  import opened CypressEnv
  import opened Intercept
  import opened Misc
  import opened Runner

  /** The prefix the Auth0 SPA client puts on its cache keys. */
  const KeyPrefix: string := "@@auth0spajs@@"

  /** `auth0Key`: the key the token bundle for a client, audience and scope is stored under. */
  function Auth0Key(clientId: string, audience: string, scope: string): (k: string)
    ensures |k| == |KeyPrefix| + 6 + |clientId| + |audience| + |scope|
    ensures k[..|KeyPrefix| + 2] == KeyPrefix + "::"
  {
    KeyPrefix + "::" + clientId + "::" + audience + "::" + scope
  }

  /** Every ':' in `s` is followed by a character other than ':'. */
  predicate SeparatorFree(s: string)
  {
    forall i :: 0 <= i < |s| && s[i] == ':' ==> i + 1 < |s| && s[i + 1] != ':'
  }

  /** In `a + "::" + b` with `a` separator-free, the first "::" sits right after `a`. */
  lemma FirstDoubleColon(a: string, b: string)
    requires SeparatorFree(a)
    ensures var s := a + "::" + b;
      && s[|a|] == ':' && s[|a| + 1] == ':'
      && forall i :: 0 <= i < |a| ==> !(s[i] == ':' && s[i + 1] == ':')
  {
    var s := a + "::" + b;
    forall i | 0 <= i < |a|
      ensures !(s[i] == ':' && s[i + 1] == ':')
    {
      if i + 1 < |a| {
        assert s[i + 1] == a[i + 1];
      }
    }
  }

  /** A "::"-joined pair splits back uniquely when its left part is separator-free. */
  lemma SplitAtFirstSeparator(a1: string, b1: string, a2: string, b2: string)
    requires SeparatorFree(a1) && SeparatorFree(a2)
    requires a1 + "::" + b1 == a2 + "::" + b2
    ensures a1 == a2 && b1 == b2
  {
    var s := a1 + "::" + b1;
    FirstDoubleColon(a1, b1);
    FirstDoubleColon(a2, b2);
    assert |a1| == |a2|;
    assert a1 == s[..|a1|] == a2;
    assert b1 == s[|a1| + 2..] == b2;
  }

  /**
   * Distinct logins never share a cache entry: when client ids and
   * audiences are separator-free, the key determines all three parts.
   */
  lemma Auth0KeyInjective(c1: string, a1: string, s1: string, c2: string, a2: string, s2: string)
    requires SeparatorFree(c1) && SeparatorFree(c2) && SeparatorFree(a1) && SeparatorFree(a2)
    requires Auth0Key(c1, a1, s1) == Auth0Key(c2, a2, s2)
    ensures c1 == c2 && a1 == a2 && s1 == s2
  {
    var p := |KeyPrefix| + 2;
    var k1 := Auth0Key(c1, a1, s1);
    var k2 := Auth0Key(c2, a2, s2);
    assert k1[p..] == c1 + "::" + (a1 + "::" + s1);
    assert k2[p..] == c2 + "::" + (a2 + "::" + s2);
    SplitAtFirstSeparator(c1, a1 + "::" + s1, c2, a2 + "::" + s2);
    SplitAtFirstSeparator(a1, s1, a2, s2);
  }

  /** `ILoginCommandOpts`: every field optional. */
  datatype LoginCommandOpts = LoginCommandOpts(email: Option<string>, password: Option<string>, withSession: Option<bool>)

  /** The merged options a login command runs with. */
  datatype LoginOpts = LoginOpts(email: string, password: string, withSession: Option<bool>)

  function OrElse(x: Option<string>, default: string): string
  {
    match x
    case Some(v) => v
    case None => default
  }

  /** `mergeLoginOpts`: the caller's fields over the environment's credentials. */
  function MergeLoginOpts(opts: Option<LoginCommandOpts>, env: Env): (m: LoginOpts)
    ensures opts.Some? && opts.value.email.Some? ==> m.email == opts.value.email.value
    ensures (opts.None? || opts.value.email.None?) ==> m.email == env.userEmail
    ensures opts.Some? && opts.value.password.Some? ==> m.password == opts.value.password.value
    ensures (opts.None? || opts.value.password.None?) ==> m.password == env.userPassword
    ensures m.withSession.Some? <==> opts.Some? && opts.value.withSession.Some?
    ensures m.withSession.Some? ==> m.withSession == opts.value.withSession
  {
    var given := if opts.Some? then opts.value else LoginCommandOpts(None, None, None);
    LoginOpts(OrElse(given.email, env.userEmail), OrElse(given.password, env.userPassword), given.withSession)
  }

  /** Whether a cached session is validated before reuse. */
  datatype SessionValidator = NoValidation | ValidateTokenCheck

  /** How a login command runs: directly, or inside a session keyed by the credentials. */
  datatype LoginRun =
    | RunDirect(email: string, password: string)
    | RunInSession(email: string, password: string, validator: SessionValidator)

  /** The `loginWithApi` command: in a session validated by `validateToken` when `withSession` is truthy. */
  function LoginWithApiCommand(opts: Option<LoginCommandOpts>, env: Env): (r: LoginRun)
    ensures r.email == MergeLoginOpts(opts, env).email && r.password == MergeLoginOpts(opts, env).password
    ensures r.RunInSession? <==> opts.Some? && opts.value.withSession == Some(true)
    ensures r.RunInSession? ==> r.validator == ValidateTokenCheck
  {
    var m := MergeLoginOpts(opts, env);
    if m.withSession == Some(true) then RunInSession(m.email, m.password, ValidateTokenCheck)
    else RunDirect(m.email, m.password)
  }

  /** The `loginWithAuth0Ui` command: in an unvalidated session when `withSession` is truthy. */
  function LoginWithAuth0UiCommand(opts: Option<LoginCommandOpts>, env: Env): (r: LoginRun)
    ensures r.email == MergeLoginOpts(opts, env).email && r.password == MergeLoginOpts(opts, env).password
    ensures r.RunInSession? <==> opts.Some? && opts.value.withSession == Some(true)
    ensures r.RunInSession? ==> r.validator == NoValidation
  {
    var m := MergeLoginOpts(opts, env);
    if m.withSession == Some(true) then RunInSession(m.email, m.password, NoValidation)
    else RunDirect(m.email, m.password)
  }

  /** A cached value has a body object holding a string access token. */
  predicate HasStringToken(v: Value)
  {
    && v.Obj? && "body" in v.fields && v.fields["body"].Obj?
    && "access_token" in v.fields["body"].fields && v.fields["body"].fields["access_token"].Str?
  }

  /**
   * `isEntryWithToken`. `None` stands for the TypeError thrown when `body`
   * is `null` (`typeof null` is "object", so the access-token read is reached).
   */
  function IsEntryWithToken(v: Value): (r: Option<bool>)
    ensures r.None? <==> v.Obj? && "body" in v.fields && v.fields["body"].Null?
    ensures r == Some(true) <==> HasStringToken(v)
  {
    if !Truthy(v) then Some(false)
    else
      var body := GetProp(v, "body").value;
      if TypeOf(body) != "object" then Some(false)
      else match GetProp(body, "access_token")
        case None => None
        case Some(token) => Some(TypeOf(token) == "string")
  }

  /** One record of local storage. */
  datatype CacheRecord = CacheRecord(key: string, value: Value)

  predicate UniqueKeys(entries: seq<CacheRecord>)
  {
    forall i, j :: 0 <= i < j < |entries| ==> entries[i].key != entries[j].key
  }

  /** The stored keys, in storage order. */
  function Keys(entries: seq<CacheRecord>): (keys: seq<string>)
    ensures |keys| == |entries| && forall i :: 0 <= i < |entries| ==> keys[i] == entries[i].key
  {
    seq(|entries|, i requires 0 <= i < |entries| => entries[i].key)
  }

  /** The value stored under `key`, or `undefined`. */
  function Lookup(entries: seq<CacheRecord>, key: string): Value
  {
    if entries == [] then Undefined
    else if entries[0].key == key then entries[0].value
    else Lookup(entries[1..], key)
  }

  /** Storing `value` under `key`: an existing key keeps its place, a new key goes last. */
  function SetEntry(entries: seq<CacheRecord>, key: string, value: Value): seq<CacheRecord>
  {
    if entries == [] then [CacheRecord(key, value)]
    else if entries[0].key == key then [CacheRecord(key, value)] + entries[1..]
    else [entries[0]] + SetEntry(entries[1..], key, value)
  }

  /** Reading a key just set gives the value set. */
  lemma {:induction false} LookupSetSame(entries: seq<CacheRecord>, key: string, value: Value)
    ensures Lookup(SetEntry(entries, key, value), key) == value
  {
    if entries != [] && entries[0].key != key {
      LookupSetSame(entries[1..], key, value);
    }
  }

  /** Setting one key leaves every other key's value as it was. */
  lemma {:induction false} LookupSetOther(entries: seq<CacheRecord>, key: string, value: Value, other: string)
    requires other != key
    ensures Lookup(SetEntry(entries, key, value), other) == Lookup(entries, other)
  {
    if entries != [] && entries[0].key != key && entries[0].key != other {
      LookupSetOther(entries[1..], key, value, other);
    }
  }

  /** The keys of a record followed by more records. */
  lemma KeysCons(e: CacheRecord, rest: seq<CacheRecord>)
    ensures Keys([e] + rest) == [e.key] + Keys(rest)
  {
    var l, r := Keys([e] + rest), [e.key] + Keys(rest);
    forall i | 0 <= i < |l|
      ensures l[i] == r[i]
    {
      if i > 0 {
        assert ([e] + rest)[i] == rest[i - 1];
      }
    }
  }

  /**
   * With distinct keys, looking a key up gives the value of the one record
   * under it, and `undefined` when no record has it.
   */
  lemma {:induction false} LookupFinds(entries: seq<CacheRecord>, key: string)
    requires UniqueKeys(entries)
    ensures forall i :: 0 <= i < |entries| && entries[i].key == key ==> Lookup(entries, key) == entries[i].value
    ensures (forall i :: 0 <= i < |entries| ==> entries[i].key != key) ==> Lookup(entries, key) == Undefined
  {
    if entries != [] {
      var rest := entries[1..];
      assert UniqueKeys(rest) by {
        forall i, j | 0 <= i < j < |rest|
          ensures rest[i].key != rest[j].key
        {
          assert rest[i] == entries[i + 1] && rest[j] == entries[j + 1];
        }
      }
      LookupFinds(rest, key);
      forall i | 0 < i < |entries| && entries[i].key == key
        ensures Lookup(entries, key) == entries[i].value
      {
        assert entries[i] == rest[i - 1];
      }
      if forall i :: 0 <= i < |entries| ==> entries[i].key != key {
        assert forall i :: 0 <= i < |rest| ==> rest[i] == entries[i + 1];
      }
    }
  }

  /** Setting a key adds it at the end when new, and keeps the key order otherwise. */
  lemma {:induction false} KeysAfterSet(entries: seq<CacheRecord>, key: string, value: Value)
    ensures Keys(SetEntry(entries, key, value)) == if key in Keys(entries) then Keys(entries) else Keys(entries) + [key]
  {
    if entries != [] {
      var e, rest := entries[0], entries[1..];
      assert entries == [e] + rest;
      KeysCons(e, rest);
      if e.key != key {
        var tail := SetEntry(rest, key, value);
        KeysAfterSet(rest, key, value);
        KeysCons(e, tail);
        assert SetEntry(entries, key, value) == [e] + tail;
      } else {
        KeysCons(CacheRecord(key, value), rest);
      }
    }
  }

  /** Storage keeps its keys distinct. */
  lemma SetKeepsUniqueKeys(entries: seq<CacheRecord>, key: string, value: Value)
    requires UniqueKeys(entries)
    ensures UniqueKeys(SetEntry(entries, key, value))
  {
    KeysAfterSet(entries, key, value);
    var after := SetEntry(entries, key, value);
    forall i, j | 0 <= i < j < |after|
      ensures after[i].key != after[j].key
    {
      assert Keys(after)[i] == after[i].key && Keys(after)[j] == after[j].key;
    }
  }

  /** The browser's local storage, seen through Auth0's `LocalStorageCache`. */
  class LocalStorageCache {
    var entries: seq<CacheRecord>

    ghost predicate Valid()
      reads this
    {
      UniqueKeys(entries)
    }

    constructor (initial: seq<CacheRecord>)
      requires UniqueKeys(initial)
      ensures Valid() && entries == initial
    {
      entries := initial;
    }

    /** `allKeys()`. */
    method AllKeys() returns (keys: seq<string>)
      ensures keys == Keys(entries)
    {
      keys := Keys(entries);
    }

    /** `get(key)`: with distinct keys, the value of the one record under `key`, or `undefined`. */
    method Get(key: string) returns (v: Value)
      requires Valid()
      ensures v == Lookup(entries, key)
      ensures forall i :: 0 <= i < |entries| && entries[i].key == key ==> v == entries[i].value
      ensures (forall i :: 0 <= i < |entries| ==> entries[i].key != key) ==> v == Undefined
    {
      v := Lookup(entries, key);
      LookupFinds(entries, key);
    }

    /** `set(key, value)`. */
    method Set(key: string, value: Value)
      requires Valid()
      modifies this
      ensures Valid()
      ensures entries == SetEntry(old(entries), key, value)
    {
      SetKeepsUniqueKeys(entries, key, value);
      entries := SetEntry(entries, key, value);
    }
  }

  /** Why `validateToken` rejects a cached session. */
  datatype TokenError = NoCachedKey | EntryCheckThrew | NotAnEntry | TokenExpired

  /** `checkExp(value.expiresAt)`, where a non-numeric `expiresAt` is NaN and fails. */
  predicate ExpiryValid(v: Value, now: int)
  {
    match GetProp(v, "expiresAt")
    case None => false
    case Some(at) =>
      match ToNumber(at)
      case None => false
      case Some(x) => CheckExp(x, now)
  }

  /** The verdict of `validateToken` on a storage state, at clock value `now`. */
  function TokenVerdict(entries: seq<CacheRecord>, now: int): (o: Outcome<TokenError>)
    ensures |entries| == 0 <==> o == Fail(NoCachedKey)
    ensures |entries| > 0 ==> (o == Fail(EntryCheckThrew) <==> IsEntryWithToken(entries[0].value).None?)
    ensures o.Pass? <==> |entries| > 0 && HasStringToken(entries[0].value) && ExpiryValid(entries[0].value, now)
  {
    if |entries| == 0 then Fail(NoCachedKey)
    else
      var value := Lookup(entries, entries[0].key);
      match IsEntryWithToken(value)
      case None => Fail(EntryCheckThrew)
      case Some(false) => Fail(NotAnEntry)
      case Some(true) => if ExpiryValid(value, now) then Pass else Fail(TokenExpired)
  }

  /**
   * `validateToken`: inspects only the first stored key; passes exactly when
   * its entry has a string access token and has not expired.
   */
  method ValidateToken(cache: LocalStorageCache, now: int) returns (o: Outcome<TokenError>)
    requires cache.Valid()
    ensures o == TokenVerdict(cache.entries, now)
    ensures |cache.entries| == 0 ==> o == Fail(NoCachedKey)
    ensures o.Pass? <==> |cache.entries| > 0 && HasStringToken(cache.entries[0].value)
                         && ExpiryValid(cache.entries[0].value, now)
  {
    var keys := cache.AllKeys();
    if |keys| == 0 {
      return Fail(NoCachedKey);
    }
    var value := cache.Get(keys[0]);
    var isEntry := IsEntryWithToken(value);
    match isEntry
    case None => o := Fail(EntryCheckThrew);
    case Some(ok) =>
      if !ok {
        o := Fail(NotAnEntry);
      } else if !ExpiryValid(value, now) {
        o := Fail(TokenExpired);
      } else {
        o := Pass;
      }
  }

  /** Entries after the first never affect the verdict. */
  lemma FirstEntryDecides(a: seq<CacheRecord>, b: seq<CacheRecord>, now: int)
    requires |a| > 0 && |b| > 0 && a[0] == b[0]
    ensures TokenVerdict(a, now) == TokenVerdict(b, now)
  {
  }

  /** The token endpoint's reply, as `cy.request` yields it. */
  datatype TokenResponse = TokenResponse(status: int, body: map<string, Value>)

  /** The decoded ID token: the user payload and the claims. */
  datatype DecodedToken = DecodedToken(user: Value, claims: Value)

  /** Why a programmatic login fails before writing the cache. */
  datatype LoginError =
    | TokenRequestFailed(status: int)
    | IdTokenNotString
    | DecodeFailed
    /** A non-scalar `scope`, whose rendering in the key is not modelled. */
    | ScopeNotScalar
    /** A string or structured `expires_in`, which `+` would concatenate; not modelled. */
    | ExpiresInNotNumeric

  /** A field of the response body; a missing one reads as `undefined`. */
  function Field(body: map<string, Value>, key: string): Value
  {
    if key in body then body[key] else Undefined
  }

  /**
   * The stored `expiresAt`: `serialiseExp(expires_in)` with JavaScript's
   * numeric `+` (`null` adds 0, booleans add 0 or 1). A missing
   * `expires_in` gives NaN, which JSON storage writes back as `null`.
   */
  function StoredExpiry(expiresIn: Value, now: int): (r: Option<Value>)
    ensures expiresIn.Num? ==> r == Some(Num(SerialiseExp(expiresIn.n, now)))
    ensures expiresIn.Undefined? ==> r == Some(Null)
    ensures r.None? <==> (expiresIn.Str? || expiresIn.Arr? || expiresIn.Obj? || expiresIn.RegExp?)
  {
    if expiresIn.Undefined? then Some(Null)
    else match ToNumber(expiresIn)
      case Some(n) => Some(Num(SerialiseExp(n, now)))
      case None => None
  }

  /**
   * The record `loginWithApi` stores: the response body without `user`,
   * plus `client_id`, `decodedToken` and `audience`, expiring `expires_in`
   * seconds after `now`, under the key for the client, audience and scope.
   */
  function LoginCacheWrite(clientId: string, audience: string, res: TokenResponse, decoded: Option<DecodedToken>, now: int): (r: Result<CacheRecord, LoginError>)
    ensures !(200 <= res.status < 400) ==> r == Err(TokenRequestFailed(res.status))
    ensures 200 <= res.status < 400 && !Field(res.body, "id_token").Str? ==> r == Err(IdTokenNotString)
    ensures r.Ok? <==>
      && 200 <= res.status < 400
      && Field(res.body, "id_token").Str?
      && decoded.Some?
      && ScalarText(Field(res.body, "scope")).Some?
      && StoredExpiry(Field(res.body, "expires_in"), now).Some?
  {
    if !(200 <= res.status < 400) then Err(TokenRequestFailed(res.status))
    else
      var body := res.body - {"user"};
      if !Field(body, "id_token").Str? then Err(IdTokenNotString)
      else if decoded.None? then Err(DecodeFailed)
      else if ScalarText(Field(body, "scope")).None? then Err(ScopeNotScalar)
      else if StoredExpiry(Field(body, "expires_in"), now).None? then Err(ExpiresInNotNumeric)
      else
        var stored := body + map[
          "client_id" := Str(clientId),
          "decodedToken" := Obj(map["user" := decoded.value.user, "claims" := decoded.value.claims]),
          "audience" := Str(audience)];
        Ok(CacheRecord(
          Auth0Key(clientId, audience, ScalarText(Field(body, "scope")).value),
          Obj(map["body" := Obj(stored), "expiresAt" := StoredExpiry(Field(body, "expires_in"), now).value])))
  }

  /** The `userHasAccess` stub `loginWithApi` installs: a single GET answered with "OK". */
  function UserHasAccessStub(env: Env): Registration
  {
    Registration(
      PathToRouteMatcher(env, "/users/userHasAccess", Some(map[MethodKey := Str("GET"), TimesKey := Num(1)]), None),
      StaticResponse("OK"),
      Some("userHasAccess"))
  }

  /**
   * `loginWithApi`: installs the `userHasAccess` stub, then, given the
   * token response and the decoded ID token, writes one cache record.
   */
  method LoginWithApi(run: TestRun, cache: LocalStorageCache, env: Env, res: TokenResponse, decoded: Option<DecodedToken>, now: int)
    returns (o: Outcome<LoginError>)
    requires cache.Valid()
    modifies run, cache
    ensures cache.Valid()
    ensures run.registry == old(run.registry) + [UserHasAccessStub(env)]
    ensures run.waits == old(run.waits)
    ensures LoginCacheWrite(env.auth0ClientId, env.auth0Audience, res, decoded, now).Ok? ==>
      o == Pass && cache.entries == SetEntry(old(cache.entries),
        LoginCacheWrite(env.auth0ClientId, env.auth0Audience, res, decoded, now).value.key,
        LoginCacheWrite(env.auth0ClientId, env.auth0Audience, res, decoded, now).value.value)
    ensures LoginCacheWrite(env.auth0ClientId, env.auth0Audience, res, decoded, now).Err? ==>
      o == Fail(LoginCacheWrite(env.auth0ClientId, env.auth0Audience, res, decoded, now).error)
      && cache.entries == old(cache.entries)
  {
    var stub := UserHasAccessStub(env);
    run.Intercept(stub.matcher, stub.handler, stub.alias);
    var write := LoginCacheWrite(env.auth0ClientId, env.auth0Audience, res, decoded, now);
    match write
    case Err(e) => o := Fail(e);
    case Ok(record) =>
      cache.Set(record.key, record.value);
      o := Pass;
  }

  /**
   * The stored record is under `auth0Key(client_id, audience, scope)` and
   * holds exactly a body and an expiry. The expiry is the serialised one.
   * The body is the response body without `user`, with `client_id`,
   * `audience` and the decoded token set on top; every other response
   * field passes through unchanged.
   */
  lemma LoginRecordShape(clientId: string, audience: string, res: TokenResponse, decoded: Option<DecodedToken>, now: int)
    requires LoginCacheWrite(clientId, audience, res, decoded, now).Ok?
    ensures var rec := LoginCacheWrite(clientId, audience, res, decoded, now).value;
      && 200 <= res.status < 400
      && decoded.Some?
      && rec.key == Auth0Key(clientId, audience, ScalarText(Field(res.body, "scope")).value)
      && rec.value.Obj? && rec.value.fields.Keys == {"body", "expiresAt"}
      && Some(rec.value.fields["expiresAt"]) == StoredExpiry(Field(res.body, "expires_in"), now)
      && rec.value.fields["body"].Obj?
      && var b := rec.value.fields["body"].fields;
      && b.Keys == (res.body.Keys - {"user"}) + {"client_id", "audience", "decodedToken"}
      && b["client_id"] == Str(clientId)
      && b["audience"] == Str(audience)
      && b["decodedToken"] == Obj(map["user" := decoded.value.user, "claims" := decoded.value.claims])
      && (forall k :: k in res.body && k !in {"user", "client_id", "audience", "decodedToken"} ==> k in b && b[k] == res.body[k])
  {
    assert "scope" != "user" && "expires_in" != "user";
  }

  /** The stored record passes the shape check exactly when the response carried a string access token. */
  lemma LoginRecordHasTokenIff(clientId: string, audience: string, res: TokenResponse, decoded: Option<DecodedToken>, now: int)
    requires LoginCacheWrite(clientId, audience, res, decoded, now).Ok?
    ensures var rec := LoginCacheWrite(clientId, audience, res, decoded, now).value;
      IsEntryWithToken(rec.value) == Some(true) <==> Field(res.body, "access_token").Str?
  {
    LoginRecordShape(clientId, audience, res, decoded, now);
  }

  /**
   * Login with a numeric `expires_in` into empty storage, then validation
   * at a later clock value: it passes exactly when the response carried a
   * string access token and the serialised expiry still passes `checkExp`.
   */
  lemma LoginThenValidate(clientId: string, audience: string, res: TokenResponse, decoded: Option<DecodedToken>, now: int, later: int)
    requires LoginCacheWrite(clientId, audience, res, decoded, now).Ok?
    requires Field(res.body, "expires_in").Num?
    ensures var rec := LoginCacheWrite(clientId, audience, res, decoded, now).value;
      TokenVerdict(SetEntry([], rec.key, rec.value), later).Pass? <==>
        (Field(res.body, "access_token").Str? && CheckExp(SerialiseExp(Field(res.body, "expires_in").n, now), later))
  {
    LoginRecordHasTokenIff(clientId, audience, res, decoded, now);
    LoginRecordShape(clientId, audience, res, decoded, now);
    var rec := LoginCacheWrite(clientId, audience, res, decoded, now).value;
    assert SetEntry([], rec.key, rec.value) == [rec];
  }

  /** A login whose response has no `expires_in` never validates at a non-negative clock value. */
  lemma LoginWithoutExpiryNeverValidates(clientId: string, audience: string, res: TokenResponse, decoded: Option<DecodedToken>, now: int, later: int)
    requires LoginCacheWrite(clientId, audience, res, decoded, now).Ok?
    requires "expires_in" !in res.body
    requires later >= 0
    ensures var rec := LoginCacheWrite(clientId, audience, res, decoded, now).value;
      TokenVerdict(SetEntry([], rec.key, rec.value), later).Fail?
  {
    LoginRecordShape(clientId, audience, res, decoded, now);
    var rec := LoginCacheWrite(clientId, audience, res, decoded, now).value;
    assert SetEntry([], rec.key, rec.value) == [rec];
    assert rec.value.fields["expiresAt"] == Null;
    assert !CheckExp(0, later);
  }

  /** A login whose key is not first in storage does not change what `validateToken` sees. */
  lemma LoginBehindOtherEntry(entries: seq<CacheRecord>, rec: CacheRecord, now: int)
    requires |entries| > 0 && entries[0].key != rec.key
    ensures TokenVerdict(SetEntry(entries, rec.key, rec.value), now) == TokenVerdict(entries, now)
  {
    FirstEntryDecides(SetEntry(entries, rec.key, rec.value), entries, now);
  }

  /** A login whose key is first in storage makes the verdict that of the new record alone. */
  lemma LoginOverFirstEntry(entries: seq<CacheRecord>, rec: CacheRecord, now: int)
    requires |entries| > 0 && entries[0].key == rec.key
    ensures TokenVerdict(SetEntry(entries, rec.key, rec.value), now) == TokenVerdict([rec], now)
  {
    FirstEntryDecides(SetEntry(entries, rec.key, rec.value), [rec], now);
  }
}
