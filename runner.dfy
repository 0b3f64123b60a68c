/**
 * The test runner's network commands, made explicit: `cy.intercept(...).as(...)`
 * appends to an ordered registry, `cy.wait(...)` appends to a wait log, and an
 * intercepted request is an object whose alias a request handler may assign.
 * Matching, timeouts and the command queue itself are outside the model.
 */
module Runner {
  import opened Wrappers
  import opened JsValue

  /** What a rule does with a matching request besides aliasing it. */
  datatype Handler =
    | NoHandler
    | StaticResponse(body: string)
    /** A request callback; its behaviour is the handler method of the module that registers it. */
    | RequestCallback(name: string)

  /** The property names of a route matcher object (`RouteMatcherOptions`). */
  datatype MatcherKey =
    | AuthKey | HeadersKey | HostnameKey | HttpsKey | MethodKey | MiddlewareKey
    | PathKey | PathnameKey | PortKey | QueryKey | ResourceTypeKey | TimesKey | UrlKey

  /** A route matcher object: property to value. */
  type RouteMatcher = map<MatcherKey, Value>

  /** The matcher has property `k`, bound to `v`. */
  predicate Binds(m: RouteMatcher, k: MatcherKey, v: Value)
  {
    k in m && m[k] == v
  }

  /** One interception rule, with the alias given by `.as(...)`, if any. */
  datatype Registration = Registration(matcher: RouteMatcher, handler: Handler, alias: Option<string>)

  /** One `cy.wait` command: the aliases it names ("@" included) and whether it asserts status 200. */
  datatype WaitStep = WaitStep(aliases: seq<string>, checksStatus: bool)

  /** A response as the runner reports it. */
  datatype Response = Response(statusCode: int, body: Value)

  /** An exchange yielded by a wait; `response` is absent when none arrived. */
  datatype Interception = Interception(response: Option<Response>)

  /** The reference `cy.wait` uses for an alias. */
  function AliasRef(alias: string): (r: string)
    ensures |r| == |alias| + 1 && r[0] == '@' && r[1..] == alias
  {
    "@" + alias
  }

  /** `expect(x.response).to.have.property('statusCode').equals(200)` holds. */
  predicate HasStatus200(x: Interception)
  {
    x.response.Some? && x.response.value.statusCode == 200
  }

  /**
   * Whether a wait's assertion holds of the exchanges it yielded: a wait
   * that asserts status 200 needs it on every exchange; any other wait
   * passes whatever the responses were.
   */
  predicate StepPasses(step: WaitStep, exchanges: seq<Interception>)
  {
    step.checksStatus ==> forall i :: 0 <= i < |exchanges| ==> HasStatus200(exchanges[i])
  }

  /** The aliases given to rules of the registry (static aliases only). */
  function RegisteredAliases(registry: seq<Registration>): (r: set<string>)
    ensures forall a :: a in r <==> exists i :: 0 <= i < |registry| && registry[i].alias == Some(a)
  {
    set i | 0 <= i < |registry| && registry[i].alias.Some? :: registry[i].alias.value
  }

  /** The state of one test case's network commands. */
  class TestRun {
    var registry: seq<Registration>
    var waits: seq<WaitStep>

    constructor ()
      ensures registry == [] && waits == []
    {
      registry := [];
      waits := [];
    }

    /** `cy.intercept(matcher, handler).as(alias)`. */
    method Intercept(matcher: RouteMatcher, handler: Handler, alias: Option<string>)
      modifies this
      ensures registry == old(registry) + [Registration(matcher, handler, alias)]
      ensures waits == old(waits)
    {
      registry := registry + [Registration(matcher, handler, alias)];
    }

    /** `cy.wait(aliases)`, optionally followed by a status assertion. */
    method Wait(aliases: seq<string>, checksStatus: bool)
      modifies this
      ensures waits == old(waits) + [WaitStep(aliases, checksStatus)]
      ensures registry == old(registry)
    {
      waits := waits + [WaitStep(aliases, checksStatus)];
    }
  }

  /** The request object passed to a request callback. Only its alias can change. */
  class InterceptedRequest {
    const url: string
    const query: map<string, string>
    var alias: Option<string>

    constructor (url: string, query: map<string, string>)
      ensures this.url == url && this.query == query && alias == None
    {
      this.url := url;
      this.query := query;
      alias := None;
    }
  }
}
