/**
 * Onboarding file-status synchronisation: a request callback gives every
 * file-status request an alias carrying the file id the test is waiting
 * for, and the wait checks that the awaited response lists that file.
 */
module Onboarding {
  import opened Wrappers
  import opened JsValue
  import opened CypressEnv
  import opened Intercept
  import opened Runner
  import Lodash
  import InterceptSettingsAndProfile

  /** The shared context; the test sets `fileId` once it knows the file. */
  class FileIdCtx {
    var fileId: Option<string>

    constructor ()
      ensures fileId == None
    {
      fileId := None;
    }
  }

  const StatusPath: string := "/api/v1/file/status"
  const StatusAliasPrefix: string := "onboardingFileStatus-"

  /** The alias the request callback gives a file-status request, if any. */
  function FileStatusAlias(fileId: Option<string>): (a: Option<string>)
    ensures a.None? <==> fileId.None? || fileId.value == ""
    ensures a.Some? ==> |a.value| > |StatusAliasPrefix|
                        && a.value[..|StatusAliasPrefix|] == StatusAliasPrefix
                        && a.value[|StatusAliasPrefix|..] == fileId.value
  {
    match fileId
    case None => None
    case Some(id) => if id == "" then None else Some(StatusAliasPrefix + id)
  }

  /** The rule `interceptFileStatusId` registers: GET on the onboarding API, with the callback and no static alias. */
  function StatusRule(env: Env): Registration
  {
    Registration(
      PathToRouteMatcher(env, StatusPath, Some(InterceptSettingsAndProfile.GetOnly), Some(ApiOpts(Onboarding))),
      RequestCallback("fileStatusId"),
      None)
  }

  /** `interceptFileStatusId`: registers the file-status rule. */
  method InterceptFileStatusId(run: TestRun, env: Env)
    modifies run
    ensures run.registry == old(run.registry) + [StatusRule(env)]
    ensures run.waits == old(run.waits)
  {
    var rule := StatusRule(env);
    run.Intercept(rule.matcher, rule.handler, rule.alias);
  }

  /** The file-status rule matches GETs of the status path on the onboarding host. */
  lemma StatusRuleTargetsOnboarding(env: Env)
    ensures var m := StatusRule(env).matcher;
      && Binds(m, MethodKey, Str("GET"))
      && Binds(m, HostnameKey, Str(env.onboardingApiUrl.hostname))
      && Binds(m, PathnameKey, RegExp(PathPattern(ParseUrl(env.onboardingApiUrl).basePath + StatusPath, false)))
      && StatusRule(env).alias.None?
  {
    MatcherSpread(env, StatusPath, Some(InterceptSettingsAndProfile.GetOnly), Some(ApiOpts(Onboarding)));
    assert !EndsWithSlash(StatusPath);
  }

  /**
   * The request callback: reads the context when the request arrives and,
   * when a non-empty id is set, aliases the request with it; otherwise the
   * request keeps its alias.
   */
  method HandleFileStatusRequest(ctx: FileIdCtx, req: InterceptedRequest)
    modifies req`alias
    ensures FileStatusAlias(ctx.fileId).Some? ==> req.alias == FileStatusAlias(ctx.fileId)
    ensures FileStatusAlias(ctx.fileId).None? ==> req.alias == old(req.alias)
  {
    var a := FileStatusAlias(ctx.fileId);
    if a.Some? {
      req.alias := a;
    }
  }

  /** The alias `waitAndVerifyFileId` waits on; an unset id renders as "undefined". */
  function WaitAlias(fileId: Option<string>): (r: string)
    ensures r == AliasRef(StatusAliasPrefix + ScalarText(if fileId.Some? then Str(fileId.value) else Undefined).value)
  {
    AliasRef(StatusAliasPrefix + (if fileId.Some? then fileId.value else "undefined"))
  }

  /** Whenever the callback aliases a request, the wait for the same context names exactly that alias. */
  lemma WaitMatchesHandler(fileId: Option<string>)
    ensures FileStatusAlias(fileId).Some? ==> AliasRef(FileStatusAlias(fileId).value) == WaitAlias(fileId)
  {
  }

  /** Different ids give different aliases, so a wait is tied to one file whatever else is polled. */
  lemma HandlerAliasInjective(a: Option<string>, b: Option<string>)
    requires FileStatusAlias(a).Some? && FileStatusAlias(a) == FileStatusAlias(b)
    ensures a == b
  {
    assert a.value == FileStatusAlias(a).value[|StatusAliasPrefix|..];
  }

  /** With an empty id no callback alias ever matches the wait, whatever id the callback sees. */
  lemma EmptyIdNeverAwaitable(other: Option<string>)
    ensures FileStatusAlias(other).Some? ==> AliasRef(FileStatusAlias(other).value) != WaitAlias(Some(""))
  {
  }

  /** With no id set, the wait names the alias a context holding the literal id "undefined" would produce. */
  lemma UnsetIdAwaitsLiteralUndefined()
    ensures FileStatusAlias(Some("undefined")).Some?
    ensures WaitAlias(None) == AliasRef(FileStatusAlias(Some("undefined")).value)
  {
  }

  /**
   * `_.find` with the shorthand `{ fileId }`: an object element whose
   * `fileId` is that id; with no id set, whose `fileId` key is present and
   * `undefined`.
   */
  predicate FileMatches(item: Value, fileId: Option<string>)
    ensures FileMatches(item, fileId) ==> GetProp(item, "fileId") == Some(if fileId.Some? then Str(fileId.value) else Undefined)
    ensures fileId.Some? ==> (FileMatches(item, fileId) <==> item.Obj? && GetProp(item, "fileId") == Some(Str(fileId.value)))
    ensures fileId.None? && item.Obj? && "fileId" !in item.fields ==> !FileMatches(item, fileId)
  {
    && item.Obj? && "fileId" in item.fields
    && item.fields["fileId"] == (if fileId.Some? then Str(fileId.value) else Undefined)
  }

  /** `_.find($body.files, { fileId })` finds something; over an object it searches the values. */
  predicate FilesContain(files: Value, fileId: Option<string>)
    ensures files.Arr? ==>
      (FilesContain(files, fileId) <==> exists i :: 0 <= i < |files.items| && FileMatches(files.items[i], fileId))
    ensures !files.Arr? && !files.Obj? ==> !FilesContain(files, fileId)
  {
    match files
    case Arr(items) => Lodash.FindIndex(items, (x: Value) => FileMatches(x, fileId)).Some?
    case Obj(fields) => exists k | k in fields :: FileMatches(fields[k], fileId)
    case _ => false
  }

  /** Why the awaited file-status response is rejected. */
  datatype FileCheckError = BodyNotObject | FileNotListed

  /** The checks on the awaited response body: it is an object, and its `files` list the file. */
  function VerifyFile(body: Value, fileId: Option<string>): (o: Outcome<FileCheckError>)
    ensures o == Fail(BodyNotObject) <==> !body.Obj?
    ensures o.Pass? <==> body.Obj? && "files" in body.fields && FilesContain(body.fields["files"], fileId)
  {
    if !body.Obj? then Fail(BodyNotObject)
    else
      var files := GetProp(body, "files").value;
      if FilesContain(files, fileId) then Pass else Fail(FileNotListed)
  }

  /** For a list of files, the check passes exactly when some element matches. */
  lemma VerifyFileListIff(items: seq<Value>, rest: map<string, Value>, fileId: Option<string>)
    ensures VerifyFile(Obj(rest["files" := Arr(items)]), fileId).Pass?
            <==> exists i :: 0 <= i < |items| && FileMatches(items[i], fileId)
  {
    var r := Lodash.FindIndex(items, (x: Value) => FileMatches(x, fileId));
    if r.Some? {
      assert FileMatches(items[r.value], fileId);
    }
  }

  /**
   * `waitAndVerifyFileId`: waits on the context's alias (read when the wait
   * runs) and checks the body of the awaited response.
   */
  method WaitAndVerifyFileId(run: TestRun, ctx: FileIdCtx, body: Value) returns (o: Outcome<FileCheckError>)
    modifies run
    ensures run.waits == old(run.waits) + [WaitStep([WaitAlias(ctx.fileId)], false)]
    ensures run.registry == old(run.registry)
    ensures o == VerifyFile(body, ctx.fileId)
  {
    run.Wait([WaitAlias(ctx.fileId)], false);
    o := VerifyFile(body, ctx.fileId);
  }
}
