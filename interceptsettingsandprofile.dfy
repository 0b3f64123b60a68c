/**
 * The bootstrap synchronisation every authenticated page load goes through:
 * six fixed registrations and a fixed, ordered wait sequence.
 */
module InterceptSettingsAndProfile {
  import opened Wrappers
  import opened JsValue
  import opened CypressEnv
  import opened Intercept
  import opened Runner

  /** The matcher parts every bootstrap rule passes: `{ method: 'GET' }`. */
  const GetOnly: RouteMatcher := map[MethodKey := Str("GET")]

  /** One bootstrap call: the path, the API option and the alias it is registered under. */
  datatype Route = Route(path: string, api: Option<ApiOpts>, alias: string)

  /** The six `cy.intercept(pathToRouteMatcher(path, { method: 'GET' }, api)).as(alias)` calls, in order. */
  const BootstrapRoutes: seq<Route> :=
    [ Route("/", Some(ApiOpts(Unleash)), "getFlags"),
      Route("/users/userHasAccess", None, "userHasAccess"),
      Route("/auth0/cookie", None, "auth0Cookie"),
      Route("/profile", None, "profile"),
      Route("/settings", None, "settings"),
      Route("/ticketType", None, "ticketType") ]

  /** The registration one bootstrap call makes: a GET rule with no handler under its alias. */
  function GetRule(env: Env, r: Route): Registration
  {
    Registration(PathToRouteMatcher(env, r.path, Some(GetOnly), r.api), NoHandler, Some(r.alias))
  }

  /** The six rules `interceptSettingsAndProfile` registers, in order. */
  function BootstrapRegistrations(env: Env): seq<Registration>
  {
    seq(|BootstrapRoutes|, i requires 0 <= i < |BootstrapRoutes| => GetRule(env, BootstrapRoutes[i]))
  }

  /** `interceptSettingsAndProfile`: appends the six bootstrap rules to the registry. */
  method InterceptSettingsAndProfileRules(run: TestRun, env: Env)
    modifies run
    ensures run.registry == old(run.registry) + BootstrapRegistrations(env)
    ensures run.waits == old(run.waits)
  {
    ghost var before := run.registry;
    var rules := BootstrapRegistrations(env);
    run.Intercept(rules[0].matcher, rules[0].handler, rules[0].alias);
    run.Intercept(rules[1].matcher, rules[1].handler, rules[1].alias);
    run.Intercept(rules[2].matcher, rules[2].handler, rules[2].alias);
    run.Intercept(rules[3].matcher, rules[3].handler, rules[3].alias);
    run.Intercept(rules[4].matcher, rules[4].handler, rules[4].alias);
    run.Intercept(rules[5].matcher, rules[5].handler, rules[5].alias);
    AppendSix(before, rules);
  }

  /** Appending six elements one at a time appends the whole sequence. */
  lemma AppendSix<T>(before: seq<T>, rs: seq<T>)
    requires |rs| == 6
    ensures before + [rs[0]] + [rs[1]] + [rs[2]] + [rs[3]] + [rs[4]] + [rs[5]] == before + rs
  {
    assert rs == [rs[0], rs[1], rs[2], rs[3], rs[4], rs[5]];
  }

  /** A single-alias wait. */
  function WaitOn(alias: string, checksStatus: bool): WaitStep
  {
    WaitStep([AliasRef(alias)], checksStatus)
  }

  /** The seven waits `waitForSettingsAndProfile` issues, in order, with their status checks. */
  function BootstrapWaits(): seq<WaitStep>
  {
    [ WaitOn("getFlags", false),
      WaitOn("userHasAccess", true),
      WaitOn("auth0Cookie", true),
      WaitOn("profile", true),
      WaitOn("getFlags", false),
      WaitOn("settings", true),
      WaitOn("ticketType", false) ]
  }

  /** `waitForSettingsAndProfile`: appends the seven bootstrap waits to the wait log. */
  method WaitForSettingsAndProfile(run: TestRun)
    modifies run
    ensures run.waits == old(run.waits) + BootstrapWaits()
    ensures run.registry == old(run.registry)
  {
    ghost var before := run.waits;
    run.Wait([AliasRef("getFlags")], false);
    run.Wait([AliasRef("userHasAccess")], true);
    run.Wait([AliasRef("auth0Cookie")], true);
    run.Wait([AliasRef("profile")], true);
    run.Wait([AliasRef("getFlags")], false);
    run.Wait([AliasRef("settings")], true);
    run.Wait([AliasRef("ticketType")], false);
    assert run.waits == before + BootstrapWaits();
  }

  /** The aliases the bootstrap registers, in order. */
  const BootstrapAliasNames: seq<string> :=
    ["getFlags", "userHasAccess", "auth0Cookie", "profile", "settings", "ticketType"]

  /** Exactly six GET rules, under the six bootstrap aliases in this order. */
  lemma BootstrapAliases(env: Env)
    ensures |BootstrapRegistrations(env)| == 6
    ensures forall i :: 0 <= i < 6 ==> BootstrapRegistrations(env)[i].alias == Some(BootstrapAliasNames[i])
    ensures forall i :: 0 <= i < 6 ==> BootstrapRegistrations(env)[i].handler == NoHandler
    ensures forall i :: 0 <= i < 6 ==> Binds(BootstrapRegistrations(env)[i].matcher, MethodKey, Str("GET"))
  {
    var rs := BootstrapRegistrations(env);
    forall i | 0 <= i < 6
      ensures Binds(rs[i].matcher, MethodKey, Str("GET"))
    {
      var r := BootstrapRoutes[i];
      MatcherSpread(env, r.path, Some(GetOnly), r.api);
    }
  }

  /** A bootstrap rule is on its selected API's host and under that API's base path. */
  lemma GetRuleTargets(env: Env, r: Route)
    ensures Binds(GetRule(env, r).matcher, HostnameKey, Str(SelectApi(env, r.api).hostname))
    ensures Binds(GetRule(env, r).matcher, PathnameKey,
                  RegExp(PathPattern(ParseUrl(SelectApi(env, r.api)).basePath + NormalizePath(r.path), false)))
  {
    MatcherSpread(env, r.path, Some(GetOnly), r.api);
    assert HostnameKey !in GetOnly && PathnameKey !in GetOnly;
  }

  /** A rule with no API option is on the primary API's host and under its base path. */
  lemma GetRuleTargetsPrimaryApi(env: Env, r: Route)
    requires r.api == None
    ensures Binds(GetRule(env, r).matcher, HostnameKey, Str(env.apiUrl.hostname))
    ensures Binds(GetRule(env, r).matcher, PathnameKey,
                  RegExp(PathPattern(ParseUrl(env.apiUrl).basePath + NormalizePath(r.path), false)))
  {
    GetRuleTargets(env, r);
  }

  /** getFlags targets the feature-flag service at its root. */
  lemma FlagsRuleTargetsUnleash(env: Env)
    ensures Binds(BootstrapRegistrations(env)[0].matcher, HostnameKey, Str(env.unleashUrl.hostname))
    ensures Binds(BootstrapRegistrations(env)[0].matcher, PathnameKey, RegExp(PathPattern(ParseUrl(env.unleashUrl).basePath, false)))
  {
    var r := BootstrapRoutes[0];
    assert r.path == "/" && r.api == Some(ApiOpts(Unleash));
    GetRuleTargets(env, r);
    RootPatternIsBase(ParseUrl(env.unleashUrl).basePath);
  }

  /** Under any base path, the root path adds nothing to the pattern. */
  lemma RootPatternIsBase(base: string)
    ensures base + NormalizePath("/") == base
  {
    NormalizeRoot();
  }

  /** The five other bootstrap rules target the primary API. */
  lemma BootstrapTargets(env: Env)
    ensures forall i :: 1 <= i < 6 ==> Binds(BootstrapRegistrations(env)[i].matcher, HostnameKey, Str(env.apiUrl.hostname))
  {
    forall i | 1 <= i < 6
      ensures Binds(BootstrapRegistrations(env)[i].matcher, HostnameKey, Str(env.apiUrl.hostname))
    {
      GetRuleTargetsPrimaryApi(env, BootstrapRoutes[i]);
    }
  }

  /** The indices of the waits that name `alias`. */
  function WaitIndices(steps: seq<WaitStep>, alias: string): set<nat>
  {
    set i: nat | i < |steps| && AliasRef(alias) in steps[i].aliases
  }

  /** The seven waits each name one alias, in the bootstrap order. */
  lemma BootstrapWaitOrder()
    ensures |BootstrapWaits()| == 7
    ensures forall i :: 0 <= i < 7 ==>
      (BootstrapWaits()[i].aliases ==
         [AliasRef(["getFlags", "userHasAccess", "auth0Cookie", "profile", "getFlags", "settings", "ticketType"][i])])
  {
  }

  /** getFlags is awaited exactly twice, first and fifth; settings exactly once. */
  lemma BootstrapFlagsAwaitedTwice()
    ensures WaitIndices(BootstrapWaits(), "getFlags") == {0, 4}
    ensures WaitIndices(BootstrapWaits(), "settings") == {5}
  {
    var ws := BootstrapWaits();
    assert AliasRef("getFlags")[1] == 'g' && AliasRef("settings")[1] == 's';
    assert forall i :: 0 <= i < 7 ==> |ws[i].aliases| == 1;
    assert AliasRef("getFlags") != AliasRef("settings");
  }

  /** Status 200 is asserted for userHasAccess, auth0Cookie, profile and settings only. */
  lemma BootstrapStatusChecks()
    ensures forall i :: 0 <= i < 7 ==>
      (BootstrapWaits()[i].checksStatus <==>
        BootstrapWaits()[i].aliases[0] in {AliasRef("userHasAccess"), AliasRef("auth0Cookie"), AliasRef("profile"), AliasRef("settings")})
  {
    assert AliasRef("getFlags")[1] == 'g' && AliasRef("settings")[1] == 's';
    assert AliasRef("getFlags") != AliasRef("settings");
  }

  /**
   * Given the one exchange each bootstrap wait yields, the sequence of
   * waits passes exactly when userHasAccess, auth0Cookie, profile and
   * settings answered with status 200; getFlags and ticketType may answer
   * with anything.
   */
  lemma BootstrapPassesIff(xs: seq<Interception>)
    requires |xs| == 7
    ensures (forall i :: 0 <= i < 7 ==> StepPasses(BootstrapWaits()[i], [xs[i]])) <==>
      HasStatus200(xs[1]) && HasStatus200(xs[2]) && HasStatus200(xs[3]) && HasStatus200(xs[5])
  {
    var ws := BootstrapWaits();
    forall i | 0 <= i < 7
      ensures StepPasses(ws[i], [xs[i]]) <==> (ws[i].checksStatus ==> HasStatus200(xs[i]))
    {
      assert [xs[i]][0] == xs[i];
    }
    assert ws[1].checksStatus && ws[2].checksStatus && ws[3].checksStatus && ws[5].checksStatus;
    assert !ws[0].checksStatus && !ws[4].checksStatus && !ws[6].checksStatus;
  }

  /** Every alias the bootstrap waits on ("@" dropped) is one the bootstrap registered. */
  lemma BootstrapWaitsAreRegistered(env: Env, before: seq<Registration>)
    ensures forall i :: 0 <= i < 7 ==>
      |BootstrapWaits()[i].aliases| == 1 &&
      BootstrapWaits()[i].aliases[0][1..] in RegisteredAliases(before + BootstrapRegistrations(env))
  {
    var after := before + BootstrapRegistrations(env);
    BootstrapAliases(env);
    forall j | 0 <= j < 6
      ensures BootstrapAliasNames[j] in RegisteredAliases(after)
    {
      assert after[|before| + j].alias == Some(BootstrapAliasNames[j]);
    }
    var waitedIndex := [0, 1, 2, 3, 0, 4, 5];
    forall i | 0 <= i < 7
      ensures |BootstrapWaits()[i].aliases| == 1 && BootstrapWaits()[i].aliases[0][1..] in RegisteredAliases(after)
    {
      var a := BootstrapAliasNames[waitedIndex[i]];
      assert BootstrapWaits()[i].aliases == [AliasRef(a)];
      assert AliasRef(a)[1..] == a;
    }
  }
}
