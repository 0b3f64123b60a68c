# Cypress support helpers, modelled in Dafny

This project models the logic inside the support layer of an end-to-end test suite written for the Cypress runner. The suite's helpers do five things that can be stated precisely:

- **Route-matcher translation.** A path template relative to one of the application's APIs (the primary API, the onboarding API or the feature-flag service) becomes a route matcher. The matcher carries a path pattern, a hostname and an HTTPS flag. The caller's extra matcher parts are spread over it.
- **Token-expiry arithmetic.** `serialiseExp` turns a lifetime in seconds into an absolute expiry in seconds. `checkExp` decides whether that expiry is still valid, allowing a leeway.
- **The session cache bridge.**
  - The Auth0 SPA cache key.
  - Login option merging, and the choice between a direct login and a session.
  - The `isEntryWithToken` shape check.
  - `validateToken`, which inspects the first entry of local storage.
  - The single cache write that a programmatic login performs.
- **Alias registry and waits.** Rules are registered under aliases (`cy.intercept(...).as(...)`) and later awaited (`cy.wait('@alias')`), sometimes with a status-200 assertion. This covers the batched helpers and the fixed bootstrap sequence that every authenticated page load goes through.
- **Dynamic aliases and lookups.**
  - Request callbacks that alias file-status requests by the file id in a mutable context.
  - Request callbacks that alias updates queries by their `type` and `assignedToMe` parameters.
  - The membership check on the awaited file-status body.
  - Extraction of an update id from a list item's test id, and lookup of that update.

The runner is represented explicitly:
- `Runner.TestRun` is a class with an ordered registry of registrations and an ordered wait log. `cy.intercept` appends to the registry and `cy.wait` appends to the wait log.
- An intercepted request is a class whose only mutable field is its alias.
- The browser's local storage, as Auth0's `LocalStorageCache` sees it, is a class holding an ordered sequence of key/value records.

These are parameters of the model:
- the already-parsed base URLs (`CypressEnv.Env`);
- the clock value `Date.now()` (`now`, in milliseconds);
- the token endpoint's response;
- the decoded ID token;
- the bodies of the awaited responses.

JavaScript values that the helpers inspect are `JsValue.Value`. The model keeps the language's rules that the helpers rely on:
- truthiness;
- `typeof null` is "object";
- property access on `null` throws;
- object spread is right-biased;
- template literals render `undefined` as "undefined";
- `split` cuts at successive leftmost occurrences;
- `_.find` returns the first match.

Where the code and its own comments disagree, the model follows the code:
- `checkExp` compares a millisecond delta against 10. Its comment calls the leeway seconds. `Misc.LeewayIsMilliseconds` states what the code does: a token 11 ms from expiry still passes.
- Trailing-slash normalisation is not idempotent: the code strips exactly one slash, so on a path ending in "//" normalising twice differs from normalising once. The same holds for translating such a path. `Intercept.NormalizeIdempotentIff` and `Intercept.TranslateNormalizedIff` give the exact condition.

## Model

| member | source | states |
|---|---|---|
| Intercept.ParseUrl | cypress/support/utils/intercept.ts:8-16 | keeps the hostname; isHttps exactly when the protocol is "https:"; the base path is "" exactly for the root pathname, otherwise the pathname verbatim |
| Intercept.NormalizePath | cypress/support/utils/intercept.ts:21-26 | a path ending in '/' loses exactly that last character; any other path is returned unchanged |
| Intercept.NormalizeRoot | cypress/support/utils/intercept.ts:22-25 | the root path "/" normalises to "" |
| Intercept.NormalizeKeepsSecondSlash | cypress/support/utils/intercept.ts:22-25 | a path ending in "//" still ends in '/' after normalisation |
| Intercept.NormalizeIdempotentIff | cypress/support/utils/intercept.ts:21-26 | normalising twice equals normalising once if and only if the path does not end in "//" |
| Intercept.SelectApi | cypress/support/utils/intercept.ts:39-48 | tag 'onboarding' selects the onboarding URL, 'unleash' the feature-flag URL, 'beam' or no tag the primary API URL |
| Intercept.MatcherSpread | cypress/support/utils/intercept.ts:49-59 | every caller key keeps the caller's value; an absent pathname is the pattern base path + normalised path with start false; an absent hostname or https is the selected API's |
| Intercept.PathToRouteMatcher | cypress/support/utils/intercept.ts:34-61 | the matcher's keys are exactly pathname, hostname, https and the caller's keys |
| Intercept.NoPartsIsEmptyParts | cypress/support/utils/intercept.ts:34-38 | omitting matcherParts gives the same matcher as passing an empty object |
| Intercept.TrailingSlashInsensitive | cypress/support/utils/intercept.ts:49-53 | a path and the same path plus one trailing slash translate to the same matcher |
| Intercept.TranslateNormalizedIff | cypress/support/utils/intercept.ts:49-53 | translating the normalised path equals translating the path if and only if it does not end in "//" (pathname not overridden) |
| Misc.SerialiseExp | cypress/support/utils/misc.ts:62-64 | the result minus the lifetime is the whole second in which now falls |
| Misc.CheckExp | cypress/support/utils/misc.ts:51-58 | true exactly when now < expiresAt*1000 - 10 |
| Misc.CheckExpAtLeeway | cypress/support/utils/misc.ts:56-57 | a delta of exactly 10 fails: the comparison is strict |
| Misc.CheckExpAntitone | cypress/support/utils/misc.ts:52-57 | once false at some clock value, false at every later one |
| Misc.LeewayIsMilliseconds | cypress/support/utils/misc.ts:52-57 | a token 11 ms before its expiry instant passes |
| Misc.SerialiseExpShift | cypress/support/utils/misc.ts:63 | adding k to the lifetime adds exactly k to the serialised expiry |
| Misc.SerialisedCheckIff | cypress/support/utils/misc.ts:51-64 | a just-serialised expiry passes at the same clock value if and only if lifetime*1000 - now mod 1000 > 10 |
| Misc.SerialisedFreshPasses | cypress/support/utils/misc.ts:51-64 | at the same clock value, every lifetime of 2 s or more passes |
| Misc.SerialisedNonPositiveFails | cypress/support/utils/misc.ts:51-64 | at the same clock value, every lifetime of 0 s or less fails |
| Misc.SerialisedOneSecondDependsOnPhase | cypress/support/utils/misc.ts:51-64 | a 1 s lifetime passes at now = 0 and fails at now = 990 |
| Misc.SerialisedExpiresInTime | cypress/support/utils/misc.ts:51-64 | a token serialised at now fails from now + lifetime*1000 - 10 on |
| JsValue.ScalarText | cypress/support/commands/auth.ts:27 | a string interpolates as itself; arrays, objects and regular expressions are the cases left unrendered |
| Auth.Auth0Key | cypress/support/commands/auth.ts:25-28 | every key starts with "@@auth0spajs@@::" and has the length of the three parts plus the fixed text |
| Auth.Auth0KeyInjective | cypress/support/commands/auth.ts:25-28 | with colon-pair-free client ids and audiences, equal keys mean equal client id, audience and scope |
| Auth.MergeLoginOpts | cypress/support/commands/auth.ts:29-36 | supplied email and password override the environment's; omitted ones fall back to it; withSession is present exactly when supplied |
| Auth.LoginWithApiCommand | cypress/support/commands/auth.ts:173-182 | runs in a session keyed by the merged credentials, validated by validateToken, exactly when withSession is true; otherwise directly |
| Auth.LoginWithAuth0UiCommand | cypress/support/commands/auth.ts:151-158 | runs in an unvalidated session exactly when withSession is true; otherwise directly |
| Auth.IsEntryWithToken | cypress/support/commands/auth.ts:144-150 | true exactly when the value is an object whose body is an object with a string access_token; throws exactly when body is null |
| Auth.LookupSetSame | cypress/support/commands/auth.ts:91 | reading a key just set gives the value set |
| Auth.LookupSetOther | cypress/support/commands/auth.ts:91 | setting one key leaves every other key's value unchanged |
| Auth.KeysAfterSet | cypress/support/commands/auth.ts:91 | a new key is appended after the existing keys; an existing key keeps the key order |
| Auth.SetKeepsUniqueKeys | cypress/support/commands/auth.ts:91 | storage keys stay distinct |
| Auth.LocalStorageCache.AllKeys | cypress/support/commands/auth.ts:163 | the stored keys in storage order |
| Auth.LookupFinds | cypress/support/commands/auth.ts:166 | with distinct keys, a lookup gives the value of the one record under the key, and undefined when no record has it |
| Auth.LocalStorageCache.Get | cypress/support/commands/auth.ts:166 | the value of the one record under the key, undefined when absent |
| Auth.LocalStorageCache.Set | cypress/support/commands/auth.ts:91 | the new storage is the old with the key set; keys stay distinct |
| Auth.TokenVerdict | cypress/support/commands/auth.ts:161-171 | fails with NoCachedKey exactly on empty storage; throws exactly when the first entry's check throws; passes exactly when the first entry has a string token and its expiresAt passes checkExp |
| Auth.ValidateToken | cypress/support/commands/auth.ts:161-171 | fails on empty storage; passes exactly when the first entry has a string token and its expiresAt passes checkExp |
| Auth.FirstEntryDecides | cypress/support/commands/auth.ts:163-166 | storages with the same first record get the same verdict |
| Auth.StoredExpiry | cypress/support/commands/auth.ts:89 | a numeric lifetime stores serialiseExp of it; a missing one stores null, the storage form of NaN |
| Auth.LoginCacheWrite | cypress/support/commands/auth.ts:70-91 | a status outside 2xx and 3xx fails the login, as does a non-string id_token; a record is written exactly when the status is accepted, id_token is a string, the token decodes, scope renders and expires_in converts |
| Auth.LoginRecordShape | cypress/support/commands/auth.ts:71-91 | the record is keyed by auth0Key(client_id, audience, scope) and holds exactly body and expiresAt; expiresAt is the serialised expiry; the body has exactly the response's keys without user plus client_id, audience and decodedToken, with the client, the audience and the decoded user and claims under them, and every other response field unchanged |
| Auth.LoginRecordHasTokenIff | cypress/support/commands/auth.ts:71-91 | the stored record passes isEntryWithToken exactly when the response's access_token is a string |
| Auth.LoginThenValidate | cypress/support/commands/auth.ts:70-171 | after a login into empty storage, validateToken passes exactly when the access token is a string and checkExp accepts the serialised expiry |
| Auth.LoginWithoutExpiryNeverValidates | cypress/support/commands/auth.ts:89 | a login without expires_in never validates at a non-negative clock value |
| Auth.LoginBehindOtherEntry | cypress/support/commands/auth.ts:91 | a login whose key is not first leaves the verdict as it was |
| Auth.LoginOverFirstEntry | cypress/support/commands/auth.ts:91 | a login whose key is first makes the verdict that of the new record alone |
| Auth.LoginWithApi | cypress/support/commands/auth.ts:59-92 | registers the one-shot userHasAccess stub, then writes exactly the login record or, on error, leaves storage unchanged |
| Runner.AliasRef | cypress/support/utils/interceptMatchTuple.ts:11 | "@" followed by the alias |
| Runner.TestRun.Intercept | cypress/support/utils/interceptMatchTuple.ts:7 | appends one registration; the wait log is unchanged |
| Runner.TestRun.Wait | cypress/support/utils/interceptMatchTuple.ts:12 | appends one wait step; the registry is unchanged |
| InterceptMatchTuple.Registrations | cypress/support/utils/interceptMatchTuple.ts:4-9 | one registration per tuple, in order, with its matcher, no handler and its alias |
| InterceptMatchTuple.InterceptMatchTuples | cypress/support/utils/interceptMatchTuple.ts:4-9 | the registry becomes the old registry followed by the batch's registrations; waits unchanged |
| InterceptMatchTuple.WaitAliases | cypress/support/utils/interceptMatchTuple.ts:11 | one "@"+alias per tuple, in order, duplicates kept |
| InterceptMatchTuple.CheckStatuses | cypress/support/utils/interceptMatchTuple.ts:12-16 | passes exactly when every exchange has status 200; otherwise fails at the first that does not |
| InterceptMatchTuple.WaitForMatchTuples | cypress/support/utils/interceptMatchTuple.ts:10-17 | given one exchange per alias, appends one status-checked wait on the alias list and passes exactly when that step's assertion holds, that is when every exchange has status 200 |
| InterceptMatchTuple.BatchesCompose | cypress/support/utils/interceptMatchTuple.ts:4-11 | a concatenated batch registers and waits as its parts do in turn |
| InterceptMatchTuple.EmptyBatch | cypress/support/utils/interceptMatchTuple.ts:4-11 | an empty batch registers nothing and waits on nothing |
| InterceptMatchTuple.WaitedAliasesAreRegistered | cypress/support/utils/interceptMatchTuple.ts:4-12 | every alias a batch waits on is registered by the same batch |
| InterceptSettingsAndProfile.InterceptSettingsAndProfileRules | cypress/support/utils/interceptSettingsAndProfile.ts:11-29 | appends exactly the six bootstrap rules in order; waits unchanged |
| InterceptSettingsAndProfile.WaitForSettingsAndProfile | cypress/support/utils/interceptSettingsAndProfile.ts:31-51 | appends exactly the seven bootstrap waits in order; registry unchanged |
| InterceptSettingsAndProfile.BootstrapAliases | cypress/support/utils/interceptSettingsAndProfile.ts:11-29 | six GET rules without handlers under getFlags, userHasAccess, auth0Cookie, profile, settings, ticketType |
| InterceptSettingsAndProfile.GetRuleTargets | cypress/support/utils/interceptSettingsAndProfile.ts:12-28 | each bootstrap rule matches its selected API's host, under that API's base path followed by the normalised path |
| InterceptSettingsAndProfile.GetRuleTargetsPrimaryApi | cypress/support/utils/interceptSettingsAndProfile.ts:15-28 | a rule without an API option matches the primary API's host under its base path |
| InterceptSettingsAndProfile.FlagsRuleTargetsUnleash | cypress/support/utils/interceptSettingsAndProfile.ts:12-14 | getFlags matches the feature-flag host at its base path (the root "/" normalises away) |
| InterceptSettingsAndProfile.BootstrapTargets | cypress/support/utils/interceptSettingsAndProfile.ts:15-28 | the five other rules match the primary API's host |
| InterceptSettingsAndProfile.BootstrapWaitOrder | cypress/support/utils/interceptSettingsAndProfile.ts:33-50 | the waits are getFlags, userHasAccess, auth0Cookie, profile, getFlags, settings, ticketType, one alias each |
| InterceptSettingsAndProfile.BootstrapFlagsAwaitedTwice | cypress/support/utils/interceptSettingsAndProfile.ts:33-47 | getFlags is awaited exactly at steps 0 and 4; settings only at step 5 |
| InterceptSettingsAndProfile.BootstrapStatusChecks | cypress/support/utils/interceptSettingsAndProfile.ts:34-50 | status 200 is asserted exactly for userHasAccess, auth0Cookie, profile and settings |
| InterceptSettingsAndProfile.BootstrapPassesIff | cypress/support/utils/interceptSettingsAndProfile.ts:31-51 | with one exchange per wait, the bootstrap waits pass exactly when userHasAccess, auth0Cookie, profile and settings answer 200; getFlags and ticketType pass whatever they answer |
| InterceptSettingsAndProfile.BootstrapWaitsAreRegistered | cypress/support/utils/interceptSettingsAndProfile.ts:11-51 | every awaited alias is one the bootstrap registered |
| Onboarding.WaitAlias | cypress/support/utils/Onboarding.ts:35 | the wait names "@onboardingFileStatus-" followed by the id as a template literal renders it, "undefined" when unset |
| Onboarding.FileStatusAlias | cypress/support/utils/Onboarding.ts:23-24 | no alias exactly when the id is unset or empty; otherwise "onboardingFileStatus-" followed by the id |
| Onboarding.InterceptFileStatusId | cypress/support/utils/Onboarding.ts:15-27 | appends the file-status rule with the callback and no static alias; waits unchanged |
| Onboarding.StatusRuleTargetsOnboarding | cypress/support/utils/Onboarding.ts:16-21 | the rule matches GETs of the status path on the onboarding host, under its base path |
| Onboarding.HandleFileStatusRequest | cypress/support/utils/Onboarding.ts:22-26 | reads the context at request time: sets the file alias when one exists, otherwise leaves the alias; nothing else on the request changes |
| Onboarding.WaitMatchesHandler | cypress/support/utils/Onboarding.ts:24-35 | whenever the callback aliases a request, the wait for the same context names exactly that alias |
| Onboarding.HandlerAliasInjective | cypress/support/utils/Onboarding.ts:24 | different ids never share an alias |
| Onboarding.EmptyIdNeverAwaitable | cypress/support/utils/Onboarding.ts:23-35 | with an empty id, no alias the callback can give matches the wait |
| Onboarding.UnsetIdAwaitsLiteralUndefined | cypress/support/utils/Onboarding.ts:35 | with no id, the wait names the alias of the literal id "undefined" |
| Onboarding.FileMatches | cypress/support/utils/Onboarding.ts:39-41 | a match's fileId reads back as the id (undefined when unset); with an id set, a match is exactly an object whose fileId is that id; with no id set, an object lacking the fileId key does not match |
| Onboarding.FilesContain | cypress/support/utils/Onboarding.ts:39-42 | a files array contains a match exactly when some element matches; a files value that is neither an array nor an object contains none |
| Onboarding.VerifyFile | cypress/support/utils/Onboarding.ts:37-43 | fails with BodyNotObject exactly when the body is not an object, and passes exactly when the body's files contain a match |
| Onboarding.VerifyFileListIff | cypress/support/utils/Onboarding.ts:39-42 | for a files array, passes exactly when some element's fileId equals the context's |
| Onboarding.WaitAndVerifyFileId | cypress/support/utils/Onboarding.ts:32-45 | appends one wait on the context's alias and returns the check of the awaited body |
| JsString.Split | cypress/support/utils/Updates.ts:9 | at least one piece, exactly one when the separator does not occur |
| JsString.SplitHead | cypress/support/utils/Updates.ts:9 | the first piece is a separator-free prefix that is all of the string or is followed by the separator |
| Lodash.FindIndex | cypress/support/utils/Updates.ts:10-12 | the first index satisfying the predicate; none exactly when no element satisfies it |
| Lodash.Find | cypress/support/utils/Updates.ts:10-12 | the first element satisfying the predicate; none exactly when no element satisfies it |
| Updates.ExtractUpdateId | cypress/support/utils/Updates.ts:9 | none exactly without a marker; otherwise the marker-free text after the first marker, up to the next marker or the end |
| Updates.ExtractFromItemTestId | cypress/support/utils/Updates.ts:9 | "update-item-" + id gives id back when id has no marker |
| Updates.GetUpdateFromEl | cypress/support/utils/Updates.ts:5-15 | the first result whose id equals the extracted id; none exactly when no id is extracted or no result has it |
| Updates.ItemFindsItsUpdate | cypress/support/utils/Updates.ts:9-12 | with distinct ids, a result's list item finds exactly that result |
| ListUpdates.UpdatesAlias | cypress/e2e/Updates/list-updates.cy.ts:19-27 | every alias starts with "studioUpdatesRaw-" |
| ListUpdates.UpdatesAliasShape | cypress/e2e/Updates/list-updates.cy.ts:19-27 | "studioUpdatesRaw-assignedToMe" when assigned to me, whatever the type; otherwise "studioUpdatesRaw-" followed by the status type |
| ListUpdates.StatusAliasInjective | cypress/e2e/Updates/list-updates.cy.ts:26 | outside "assigned to me", the alias determines the status type |
| ListUpdates.AssignedAliasDistinct | cypress/e2e/Updates/list-updates.cy.ts:23-26 | a status alias equals the assigned-to-me alias exactly for the type "assignedToMe" |
| ListUpdates.RequestAlias | cypress/e2e/Updates/list-updates.cy.ts:71-75 | assigned to me exactly when assignedToMe is the string "true"; otherwise the type's alias, "undefined" when the type is missing |
| ListUpdates.HandleUpdatesRequest | cypress/e2e/Updates/list-updates.cy.ts:71-75 | every request is given the alias its query determines |
| ListUpdates.InterceptUpdates | cypress/e2e/Updates/list-updates.cy.ts:71 | appends the updates rule with the callback; waits unchanged |
| ListUpdates.UpdatesRuleTargetsPrimaryApi | cypress/e2e/Updates/list-updates.cy.ts:71 | the rule matches GETs on the primary API host and has no static alias |
| ListUpdates.HandlerServesEveryTab | cypress/e2e/Updates/list-updates.cy.ts:72-74 | a tab's query is aliased exactly as the wait for that tab names |
| ListUpdates.ViewAliasesDistinct | cypress/e2e/Updates/list-updates.cy.ts:19-27 | two plain views with different types wait on different aliases, as do a plain view and the assigned-to-me view unless the plain type is "assignedToMe" |
| ListUpdates.TabAliasesDistinct | cypress/e2e/Updates/list-updates.cy.ts:42-64 | with distinct status types other than "assignedToMe", the five tab aliases are distinct |
| ListUpdates.AssignedViewDistinctFromPrioritized | cypress/e2e/Updates/list-updates.cy.ts:47-63 | the assigned-to-me view has the prioritized type yet a different alias |

## Left out

- The runner itself is not modelled. That covers the command queue, route matching of live requests, timeouts, retries and the assertion library. Registrations and waits are recorded in order and responses are inputs.
- `cy.session` caching and its restore-then-validate cycle are not modelled. The model records which session a login runs in and which validator it uses.
- `new URL(...)` parsing is not modelled. Base URLs arrive already split into protocol, hostname and pathname.
- `pathToRegexp` compilation and matching are not modelled. A pattern is its source string plus the `start: false` option.
- `Date.now()` is the parameter `now`.
- JWT decoding is an input. That includes `jose.decodeJwt`, the base64 payload decode and `JSON.parse` of the user. A failure in any of them is the `DecodeFailed` error.
- The token request `cy.request(POST /auth0/token)` is not modelled. Its status and body are an input, and a status outside 2xx and 3xx fails the login.
- `cy.visit`, `Cypress.log` and the rest of `loginWithApi`'s UI tail are left out as browser I/O.
- `loginWithAuth0Ui` is left out: it is an interactive, cross-origin UI flow. Only its withSession dispatch is modelled.
- `LocalStorageCache` is modelled as an ordered store keyed by Auth0 keys. Its prefix filter over unrelated local-storage keys and the browser's own key order are not modelled.
- JSON serialisation of stored values is not modelled, except that NaN is stored as null.
- Auth.LoginCacheWrite: interpolating an array or object `scope` into the key is modelled as the error `ScopeNotScalar`, because JavaScript's `toString` of structured values is not modelled.
- Auth.LoginCacheWrite: a string or structured `expires_in` is modelled as the error `ExpiresInNotNumeric`. The code concatenates such values with `+` into a string expiry, and string-to-number coercion is not modelled.
- Auth.MergeLoginOpts: an option passed explicitly as `undefined` is modelled as omitted. In JavaScript the spread would override the default with `undefined`.
- JsValue.ToNumber: strings and arrays count as NaN. JavaScript would parse numeric strings.
- Numbers are integers. Floating point, fractional lifetimes, NaN arithmetic and overflow are not modelled.
- `bodyHelper` in misc.ts is the identity function and has nothing to state.
- `setUser` and `setStudio` are left out: they are fixture I/O plus a lodash find.
- `imageLoaded` in Updates.ts is left out: it reads DOM image state.
- jQuery's `data('testid')` conversion is not modelled. The test id is taken to be a string.
- Update ids are strings, so an undefined extracted id matches no result.
- The `UpdateStatusType` enumeration values are not part of this model, so they are parameters (`ListUpdates.StatusTypes`).
- The queries the application sends for each tab are `ListUpdates.ViewQuery`, an assumption about the application: the tab's type, plus `assignedToMe=true` for the assigned-to-me tab.
- Repeated query keys are not modelled, nor numeric query values.
- Request callbacks are named by `Runner.Handler.RequestCallback`. Their behaviour is given by the handler methods (`Onboarding.HandleFileStatusRequest`, `ListUpdates.HandleUpdatesRequest`), not by a stored closure.
- For a `files` value that is a plain object, `_.find` searches its values. This is modelled as the existence of a matching value, without lodash's iteration order. Only existence is checked.
- The list-updates scenario body is left out as UI steps: the metrics interception and waits, the tab loop, the DOM queries and the clicks. Only the aliasing (lines 19-27 and 71-75), the view table and each tab's awaited alias are modelled.
- The runner yields one exchange per alias from `cy.wait([...])`. `InterceptMatchTuple.WaitForMatchTuples` takes this as a precondition instead of modelling the runner's matching.
