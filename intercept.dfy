/**
 * Route-matcher translation: turns a path template relative to one of the
 * application's APIs into the matcher object the network stubbing engine uses.
 */
module Intercept {
  import opened Wrappers
  import opened JsValue
  import opened CypressEnv
  import opened Runner

  /** What `parseUrl` keeps of a base URL. */
  datatype ApiBase = ApiBase(hostname: string, isHttps: bool, basePath: string)

  /** The API a path is relative to: 'beam', 'onboarding' or 'unleash'. */
  datatype ApiTag = Beam | Onboarding | Unleash

  /** The `{ api }` option naming which base URL a path is relative to. */
  datatype ApiOpts = ApiOpts(api: ApiTag)

  /** The keys `pathToRouteMatcher` computes before spreading the caller's parts. */
  const ComputedKeys: set<MatcherKey> := {PathnameKey, HostnameKey, HttpsKey}

  /** `parseUrl`: the hostname, whether the scheme is HTTPS, and the base path with the root collapsed to "". */
  function ParseUrl(url: UrlParts): (r: ApiBase)
    ensures r.hostname == url.hostname
    ensures r.isHttps <==> url.protocol == "https:"
    ensures r.basePath == "" <==> url.pathname == "/" || url.pathname == ""
    ensures r.basePath != "" ==> r.basePath == url.pathname
  {
    ApiBase(url.hostname, url.protocol == "https:", if url.pathname == "/" then "" else url.pathname)
  }

  predicate EndsWithSlash(path: string)
  {
    |path| > 0 && path[|path| - 1] == '/'
  }

  predicate EndsWithDoubleSlash(path: string)
  {
    |path| > 1 && path[|path| - 1] == '/' && path[|path| - 2] == '/'
  }

  /** `normalizePath`: drops one trailing slash, if there is one. */
  function NormalizePath(path: string): (r: string)
    ensures EndsWithSlash(path) ==> r + "/" == path
    ensures !EndsWithSlash(path) ==> r == path
  {
    if EndsWithSlash(path) then path[..|path| - 1] else path
  }

  /** Only one slash goes: the root path becomes empty. */
  lemma NormalizeRoot()
    ensures NormalizePath("/") == ""
  {
  }

  /** A path ending in "//" still ends in a slash after normalisation. */
  lemma NormalizeKeepsSecondSlash(path: string)
    requires EndsWithDoubleSlash(path)
    ensures EndsWithSlash(NormalizePath(path))
  {
    assert NormalizePath(path) + "/" == path;
    assert NormalizePath(path)[|path| - 2] == path[|path| - 2];
  }

  /** Normalising twice is the same as once exactly when the path does not end in "//". */
  lemma NormalizeIdempotentIff(path: string)
    ensures NormalizePath(NormalizePath(path)) == NormalizePath(path) <==> !EndsWithDoubleSlash(path)
  {
    var n := NormalizePath(path);
    if EndsWithDoubleSlash(path) {
      NormalizeKeepsSecondSlash(path);
      assert |NormalizePath(n)| == |n| - 1;
    } else if EndsWithSlash(path) {
      assert n + "/" == path;
    }
  }

  /** `getApi`: the API tag chooses the base URL; 'beam', or no tag, chooses the primary API. */
  function SelectApi(env: Env, api: Option<ApiOpts>): (r: UrlParts)
    ensures api == Some(ApiOpts(Onboarding)) ==> r == env.onboardingApiUrl
    ensures api == Some(ApiOpts(Unleash)) ==> r == env.unleashUrl
    ensures api == None || api == Some(ApiOpts(Beam)) ==> r == env.apiUrl
  {
    match api
    case Some(ApiOpts(Onboarding)) => env.onboardingApiUrl
    case Some(ApiOpts(Unleash)) => env.unleashUrl
    case _ => env.apiUrl
  }

  /** The source string compiled for the path pattern. */
  function PatternSource(base: ApiBase, path: string): string
  {
    base.basePath + NormalizePath(path)
  }

  /** The caller's matcher parts; an absent argument spreads nothing. */
  function Parts(matcherParts: Option<RouteMatcher>): RouteMatcher
  {
    match matcherParts
    case None => map[]
    case Some(m) => m
  }

  /**
   * `pathToRouteMatcher`: the computed `pathname` pattern (not anchored at
   * the start), `hostname` and `https`, with the caller's parts spread on
   * top. Its keys are stated here; the value under each is stated by `MatcherSpread`.
   */
  function PathToRouteMatcher(env: Env, path: string, matcherParts: Option<RouteMatcher>, api: Option<ApiOpts>): (r: RouteMatcher)
    ensures r.Keys == ComputedKeys + Parts(matcherParts).Keys
  {
    var base := ParseUrl(SelectApi(env, api));
    var computed := map[
      PathnameKey := RegExp(PathPattern(PatternSource(base, path), false)),
      HostnameKey := Str(base.hostname),
      HttpsKey := Bool(base.isHttps)];
    computed + Parts(matcherParts)
  }

  /**
   * The spread is right-biased: every key the caller passes keeps the
   * caller's value, and each computed key the caller leaves out keeps the
   * computed value.
   */
  lemma MatcherSpread(env: Env, path: string, parts: Option<RouteMatcher>, api: Option<ApiOpts>)
    ensures var r := PathToRouteMatcher(env, path, parts, api);
      && (forall k :: k in Parts(parts) ==> k in r && r[k] == Parts(parts)[k])
      && (PathnameKey !in Parts(parts) ==>
            r[PathnameKey] == RegExp(PathPattern(ParseUrl(SelectApi(env, api)).basePath + NormalizePath(path), false)))
      && (HostnameKey !in Parts(parts) ==> r[HostnameKey] == Str(SelectApi(env, api).hostname))
      && (HttpsKey !in Parts(parts) ==> r[HttpsKey] == Bool(SelectApi(env, api).protocol == "https:"))
  {
  }

  /** Omitting the matcher parts is the same as passing an empty object. */
  lemma NoPartsIsEmptyParts(env: Env, path: string, api: Option<ApiOpts>)
    ensures PathToRouteMatcher(env, path, None, api) == PathToRouteMatcher(env, path, Some(map[]), api)
  {
  }

  /** A path and the same path with one trailing slash added translate to the same matcher. */
  lemma TrailingSlashInsensitive(env: Env, path: string, parts: Option<RouteMatcher>, api: Option<ApiOpts>)
    requires !EndsWithSlash(path)
    ensures PathToRouteMatcher(env, path + "/", parts, api) == PathToRouteMatcher(env, path, parts, api)
  {
    assert NormalizePath(path + "/") == path;
  }

  /**
   * Translating the normalised path gives the same matcher as translating
   * the path itself exactly when the path does not end in "//" (when the
   * caller does not override the pattern).
   */
  lemma TranslateNormalizedIff(env: Env, path: string, parts: Option<RouteMatcher>, api: Option<ApiOpts>)
    requires PathnameKey !in Parts(parts)
    ensures PathToRouteMatcher(env, NormalizePath(path), parts, api) == PathToRouteMatcher(env, path, parts, api)
            <==> !EndsWithDoubleSlash(path)
  {
    var url := ParseUrl(SelectApi(env, api));
    var n := NormalizePath(path);
    NormalizeIdempotentIff(path);
    if EndsWithDoubleSlash(path) {
      MatcherSpread(env, n, parts, api);
      MatcherSpread(env, path, parts, api);
      assert PathToRouteMatcher(env, n, parts, api)[PathnameKey] != PathToRouteMatcher(env, path, parts, api)[PathnameKey];
    } else {
      assert PatternSource(url, n) == PatternSource(url, path);
    }
  }
}
