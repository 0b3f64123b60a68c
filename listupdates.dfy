/**
 * The list-updates test's aliasing: a request callback aliases each updates
 * query by its status type (or as "assigned to me"), and each tab is
 * awaited under the alias its query should receive.
 */
module ListUpdates {
  import opened Wrappers
  import opened JsValue
  import opened CypressEnv
  import opened Intercept
  import opened Runner
  import InterceptSettingsAndProfile

  const AliasPrefix: string := "studioUpdatesRaw-"
  const AssignedToMeAlias: string := "studioUpdatesRaw-assignedToMe"

  /** `updatesAlias`: the "assigned to me" alias when the flag is true, else the status type's alias. */
  function UpdatesAlias(statusType: string, isAssignedToMe: Option<bool>): (r: string)
    ensures AliasPrefix <= r
  {
    if isAssignedToMe == Some(true) then AssignedToMeAlias else AliasPrefix + statusType
  }

  /** An "assigned to me" view gets the fixed alias; any other view, the prefix followed by its status type. */
  lemma UpdatesAliasShape(statusType: string, isAssignedToMe: Option<bool>)
    ensures isAssignedToMe == Some(true) ==> UpdatesAlias(statusType, isAssignedToMe) == AssignedToMeAlias
    ensures isAssignedToMe != Some(true) ==>
      var a := UpdatesAlias(statusType, isAssignedToMe);
      |a| == |AliasPrefix| + |statusType| && a[..|AliasPrefix|] == AliasPrefix && a[|AliasPrefix|..] == statusType
  {
  }

  /** For views that are not "assigned to me", the alias determines the status type. */
  lemma StatusAliasInjective(s1: string, s2: string, b1: Option<bool>, b2: Option<bool>)
    requires b1 != Some(true) && b2 != Some(true)
    requires UpdatesAlias(s1, b1) == UpdatesAlias(s2, b2)
    ensures s1 == s2
  {
    UpdatesAliasShape(s1, b1);
    UpdatesAliasShape(s2, b2);
  }

  /** The "assigned to me" alias collides with a status alias only for the status type "assignedToMe". */
  lemma AssignedAliasDistinct(s: string, b: Option<bool>)
    requires b != Some(true)
    ensures UpdatesAlias(s, b) == AssignedToMeAlias <==> s == "assignedToMe"
  {
    UpdatesAliasShape(s, b);
    if UpdatesAlias(s, b) == AssignedToMeAlias {
      assert s == AssignedToMeAlias[|AliasPrefix|..];
    }
  }

  /** `req.query.type` as the alias renders it: a missing type renders as "undefined". */
  function StatusTypeOf(query: map<string, string>): string
  {
    if "type" in query then query["type"] else "undefined"
  }

  /** `req.query.assignedToMe === 'true'`. */
  predicate IsAssignedToMeQuery(query: map<string, string>)
  {
    "assignedToMe" in query && query["assignedToMe"] == "true"
  }

  /** The alias the request callback gives an updates query. */
  function RequestAlias(query: map<string, string>): (a: string)
    ensures IsAssignedToMeQuery(query) ==> a == AssignedToMeAlias
    ensures !IsAssignedToMeQuery(query) && "type" in query ==> a == AliasPrefix + query["type"]
    ensures !IsAssignedToMeQuery(query) && "type" !in query ==> a == AliasPrefix + "undefined"
  {
    UpdatesAlias(StatusTypeOf(query), Some(IsAssignedToMeQuery(query)))
  }

  /** The request callback: every updates query is aliased. */
  method HandleUpdatesRequest(req: InterceptedRequest)
    modifies req`alias
    ensures req.alias == Some(RequestAlias(req.query))
  {
    var isAssignedToMe := "assignedToMe" in req.query && req.query["assignedToMe"] == "true";
    var statusType := if "type" in req.query then req.query["type"] else "undefined";
    req.alias := Some(UpdatesAlias(statusType, Some(isAssignedToMe)));
  }

  /** The rule the test's setup registers: GETs of `/:id/updates` on the primary API, with the callback. */
  function UpdatesRule(env: Env): Registration
  {
    Registration(PathToRouteMatcher(env, "/:id/updates", Some(InterceptSettingsAndProfile.GetOnly), None),
                 RequestCallback("updatesAlias"), None)
  }

  /** The setup's `cy.intercept` of the updates query with the aliasing callback. */
  method InterceptUpdates(run: TestRun, env: Env)
    modifies run
    ensures run.registry == old(run.registry) + [UpdatesRule(env)]
    ensures run.waits == old(run.waits)
  {
    var rule := UpdatesRule(env);
    run.Intercept(rule.matcher, rule.handler, rule.alias);
  }

  /** The updates rule matches GETs on the primary API and has no static alias. */
  lemma UpdatesRuleTargetsPrimaryApi(env: Env)
    ensures Binds(UpdatesRule(env).matcher, MethodKey, Str("GET"))
    ensures Binds(UpdatesRule(env).matcher, HostnameKey, Str(env.apiUrl.hostname))
    ensures UpdatesRule(env).alias.None?
  {
    MatcherSpread(env, "/:id/updates", Some(InterceptSettingsAndProfile.GetOnly), None);
  }

  /** The values of the status-type enumeration the views use. */
  datatype StatusTypes = StatusTypes(newType: string, prioritized: string, completed: string, dismissed: string)

  /** One tab of the updates page. */
  datatype UpdateView = UpdateView(name: string, statusType: string, isAssignedToMe: Option<bool>)

  /** `updateViews`, in declaration order; "assigned to me" shows prioritized updates. */
  function UpdateViews(st: StatusTypes): seq<UpdateView>
  {
    [ UpdateView("new", st.newType, None),
      UpdateView("prioritized", st.prioritized, None),
      UpdateView("completed", st.completed, None),
      UpdateView("dismissed", st.dismissed, None),
      UpdateView("assignedToMe", st.prioritized, Some(true)) ]
  }

  /** The alias the test waits on for a tab. */
  function ViewWaitAlias(v: UpdateView): string
  {
    AliasRef(UpdatesAlias(v.statusType, v.isAssignedToMe))
  }

  /**
   * The query a tab sends, as the callback reads it: its status type, and
   * `assignedToMe=true` for the "assigned to me" tab.
   */
  function ViewQuery(v: UpdateView): map<string, string>
  {
    map["type" := v.statusType] + (if v.isAssignedToMe == Some(true) then map["assignedToMe" := "true"] else map[])
  }

  /** The callback gives each tab's query exactly the alias the test waits on for that tab. */
  lemma HandlerServesEveryTab(v: UpdateView)
    ensures AliasRef(RequestAlias(ViewQuery(v))) == ViewWaitAlias(v)
  {
    assert "type" != "assignedToMe";
  }

  /**
   * With distinct status types, none of them "assignedToMe", the five tab
   * waits name five distinct aliases, so each wait is for its own tab.
   */
  lemma TabAliasesDistinct(st: StatusTypes)
    requires st.newType != st.prioritized && st.newType != st.completed && st.newType != st.dismissed
    requires st.prioritized != st.completed && st.prioritized != st.dismissed && st.completed != st.dismissed
    requires st.newType != "assignedToMe" && st.prioritized != "assignedToMe"
    requires st.completed != "assignedToMe" && st.dismissed != "assignedToMe"
    ensures forall i, j :: 0 <= i < j < 5 ==> ViewWaitAlias(UpdateViews(st)[i]) != ViewWaitAlias(UpdateViews(st)[j])
  {
    var vs := UpdateViews(st);
    forall i, j | 0 <= i < j < 5
      ensures ViewWaitAlias(vs[i]) != ViewWaitAlias(vs[j])
    {
      ViewAliasesDistinct(vs[i], vs[j]);
    }
  }

  /**
   * Two plain views with different status types wait on different aliases,
   * and a plain view waits on a different alias from an "assigned to me" view
   * unless its status type is "assignedToMe".
   */
  lemma ViewAliasesDistinct(v: UpdateView, w: UpdateView)
    requires v.isAssignedToMe == None
    requires w.isAssignedToMe == None ==> v.statusType != w.statusType
    requires w.isAssignedToMe == Some(true) ==> v.statusType != "assignedToMe"
    requires w.isAssignedToMe == None || w.isAssignedToMe == Some(true)
    ensures ViewWaitAlias(v) != ViewWaitAlias(w)
  {
    var a := UpdatesAlias(v.statusType, v.isAssignedToMe);
    var b := UpdatesAlias(w.statusType, w.isAssignedToMe);
    assert ViewWaitAlias(v)[1..] == a && ViewWaitAlias(w)[1..] == b;
    if w.isAssignedToMe == Some(true) {
      AssignedAliasDistinct(v.statusType, v.isAssignedToMe);
    } else if a == b {
      StatusAliasInjective(v.statusType, w.statusType, v.isAssignedToMe, w.isAssignedToMe);
    }
  }

  /** The "assigned to me" view shares the prioritized view's status type, yet waits on a different alias. */
  lemma AssignedViewDistinctFromPrioritized(st: StatusTypes)
    requires st.prioritized != "assignedToMe"
    ensures UpdateViews(st)[4].statusType == UpdateViews(st)[1].statusType
    ensures ViewWaitAlias(UpdateViews(st)[4]) != ViewWaitAlias(UpdateViews(st)[1])
  {
    var vs := UpdateViews(st);
    AssignedAliasDistinct(st.prioritized, None);
    assert ViewWaitAlias(vs[4])[1..] == UpdatesAlias(vs[4].statusType, vs[4].isAssignedToMe);
    assert ViewWaitAlias(vs[1])[1..] == UpdatesAlias(vs[1].statusType, vs[1].isAssignedToMe);
  }
}
