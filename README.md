# terraform-provider-paragon, modelled in Dafny

This project models the core of the Paragon Terraform provider, which is written in Go. It covers two resources.

The `paragon_integration_credentials` resource stores OAuth credentials for an integration. The model covers:
- validation of the extra configuration;
- the scope rules of Create and Update;
- the merge of the OAuth block and the extra configuration into one value map, with configured strings re-typed as booleans, integers or floats;
- how Read and Update rebuild the OAuth block and the extra configuration from the decrypted credential.

The `paragon_workflow_deployment` resource deploys a workflow. The model covers:
- the deploy poll loop of Create and Update;
- the undeploy poll loop of Delete;
- the drift check of Read;
- the client calls behind them: the status codes each one accepts, the error texts each one builds, and the first-match scan over the latest migrations.

Also modelled is the request-body tokenizer of `internal/client/tools.go` and its inverse renderer, plus `escapeNewlines`, the string-slice conversion and the error-message composer.

Modules, one per source file, plus the Go library pieces they depend on:

| module | models |
|---|---|
| `Wrappers` | `Option` (nil pointers) and `Result` (`(value, error)` returns) |
| `Strings` | `strings.Join`, `strings.Split` on one character, `strings.Contains`; `HasSuffix` is a predicate the contracts use to say where an error text ends |
| `Strconv` | `strconv.Atoi` (64-bit `int`), `%d`, and `%v` of a whole `float64` (plain digits below a million, exponent form from there on) |
| `Framework` | diagnostics, `types.Map`/`types.List` of strings, and what an operation does to the stored state |
| `Tools` | `internal/client/tools.go` |
| `DeploymentClient` | `internal/client/workflow_deployment.go` |
| `DeploymentResource` | `internal/provider/workflow_deployment_resource.go` |
| `CredentialValues` | the helper functions of `internal/provider/integration_credentials_resource.go` |
| `CredentialsResource` | Create, Read and Update of `internal/provider/integration_credentials_resource.go` |

The model takes the source's own form:
- Loops are methods with loop invariants, each proved equal to a specification function.
- Go ranges over maps in no fixed order. The map loops pick the next key from the keys not yet visited, so each proof holds for every order.
- The HTTP exchanges and the API client calls are inputs. Each one is modelled as the value or the error text the call returned.
- The poll loops poll forever in Go. In the model they consume a finite sequence of answers, and running out leaves them `StillPolling`.
- `strconv.ParseFloat` followed by `%v` is a parameter, `FloatParser`.
- The values a decrypted credential returns have been through JSON, which turns a Go int into a float64. `Decoded` models this, and the round-trip lemmas read back the decoded values, not the values sent.

## Model

| member | source | states |
|---|---|---|
| `Strings.JoinSplit` | internal/provider/integration_credentials_resource.go:556-572 | joining what `strings.Split` returns, at the same separator, gives the text back |
| `Strings.SplitJoin` | internal/provider/integration_credentials_resource.go:436-441 | splitting the join of separator-free parts gives the parts back |
| `Strings.Split` | internal/provider/integration_credentials_resource.go:564 | `strings.Split` on one character returns at least one piece, and no piece holds the separator |
| `Strings.JoinContainsPart` | internal/client/tools.go:136 | every part handed to `strings.Join` occurs in the joined text |
| `Strings.ContainsOccurs` | internal/provider/integration_credentials_resource.go:521 | `strings.Contains` holds exactly when the text has the searched text at some position |
| `Strconv.FormatInt` | internal/client/workflow_deployment.go:72 | `%d` prints a minus sign exactly for negative numbers and decimal digits otherwise; `Strconv.AtoiFormatInt` reads it back |
| `Strconv.Atoi` | internal/provider/integration_credentials_resource.go:339-341 | a result is in the 64-bit range, and the text starts with a digit or a sign |
| `Strconv.AtoiFormatInt` | internal/provider/integration_credentials_resource.go:339-341 | Atoi reads back every 64-bit integer that `%d` prints |
| `Strconv.AtoiAcceptsNonCanonical` | internal/provider/integration_credentials_resource.go:339-341 | "007" and "+5" are accepted, so `%d` of the result can differ from the text |
| `Strconv.WholeFloatPlain` | internal/provider/integration_credentials_resource.go:250 | `%v` of a float64 holding a whole number below a million in size prints it as `%d` does |
| `Strconv.WholeFloatExponent` | internal/provider/integration_credentials_resource.go:250 | from a million on, `%v` of the float64 prints an exponent, which `%d` never does |
| `Strconv.MillionText` | internal/provider/integration_credentials_resource.go:250 | `%d` of a million is "1000000", `%v` of the float64 1e6 is "1e+06" |
| `Strconv.SevenDigitText` | internal/provider/integration_credentials_resource.go:250 | `%v` of the float64 1234567 is "1.234567e+06" |
| `Tools.ClosingFrom` | internal/client/tools.go:27 | a stop found for the lazy group `(.*?)` is a `}}` with no newline before it |
| `Tools.ClosingFromIsShortest` | internal/client/tools.go:27 | the lazy group `(.*?)` ends at the first `}}`: no closing point is earlier than the one chosen |
| `Tools.NextMatch` | internal/client/tools.go:27-31 | the match found is the leftmost one at or after the start, and its group ends at the first `}}` |
| `Tools.MatchesFrom` | internal/client/tools.go:31 | the successive leftmost matches do not overlap, are in increasing order and lie inside the input |
| `Tools.ConvertToWebhookAPIFormat` | internal/client/tools.go:26-66 | the loop builds a body of data type ANY and type TOKENIZED whose parts are the specification `Tokenized(input)` |
| `Tools.AssembleShape` | internal/client/tools.go:31-48 | match k gives part 2k, the text before it, and part 2k+1, a reference whose path is the token split at dots and whose name is the first segment |
| `Tools.AssembleLength` | internal/client/tools.go:31-57 | two parts per match, plus one when text follows the last match |
| `Tools.ConvertPartsToString` | internal/client/tools.go:72-88 | the loop's result is the specification `Render(parts)` |
| `Tools.RenderAppend` | internal/client/tools.go:72-88 | rendering distributes over concatenation of part lists |
| `Tools.RenderAssembled` | internal/client/tools.go:26-88 | rendering the parts built from any suffix of the input gives that suffix back |
| `Tools.TokenizeRoundTrip` | internal/client/tools.go:26-88 | `ConvertPartsToString(ConvertToWebhookAPIFormat(s))` is `s` for every input |
| `Tools.TokenizeWithoutTokens` | internal/client/tools.go:50-57 | an input with no token is one literal part, or no part when it is empty |
| `Tools.EscapeNewlines` | internal/client/tools.go:68-70 | the result holds no newline and is no shorter than the input |
| `Tools.EscapeNewlinesChar` | internal/client/tools.go:68-70 | a newline becomes a backslash and an `n`, and any other character stays; with `EscapeNewlinesAppend` this pins the whole function |
| `Tools.EscapeNewlinesIdentity` | internal/client/tools.go:68-70 | an input without newlines is unchanged |
| `Tools.EscapeNewlinesAppend` | internal/client/tools.go:68-70 | escaping distributes over concatenation |
| `Tools.ConvertStringSliceToTypesStringSlice` | internal/client/tools.go:90-96 | same length, and element i is the string value of input i |
| `Tools.NonEmpty` | internal/client/tools.go:127-133 | exactly the non-empty sub-errors, none of them empty |
| `Tools.NonEmptyAppend` | internal/client/tools.go:127-133 | the filter works piece by piece, so the sub-errors it keeps stay in their order |
| `Tools.FormatErrorMessage` | internal/client/tools.go:99-146 | the loop's result is the specification `ErrorMessage(status, body)`: a generic text for an unreadable body, the composed headline and sub-errors, or the connect-portal remediation for a 400 that names both credential markers |
| `Tools.ErrorMessageMentionsSubErrors` | internal/client/tools.go:120-145 | outside the remediation case, the message starts with the headline (or "Error occurred") and contains every non-empty sub-error |
| `DeploymentClient.CreateWorkflowDeployment` | internal/client/workflow_deployment.go:24-54 | succeeds exactly on a 201 with a decodable body, yielding its id; a non-201 fails with the formatted error message followed by ", status code: N"; transport and decode errors pass through unchanged |
| `DeploymentClient.GetWorkflowDeployment` | internal/client/workflow_deployment.go:56-82 | succeeds exactly on a 200 with a decodable body; any other status gives the fixed text with the code; transport and decode errors pass through unchanged |
| `DeploymentClient.DeleteWorkflowDeployment` | internal/client/workflow_deployment.go:84-108 | succeeds exactly on a 404 or a 200; other codes name the code, and transport errors pass through |
| `DeploymentClient.GetLatestWorkflowMigration` | internal/client/workflow_deployment.go:110-142 | non-200 and decode failures are errors; otherwise the first migration of the workflow in list order, or none (without error) when no migration matches |
| `DeploymentClient.FormatNotFound` | internal/client/workflow_deployment.go:72 | `%d` of 404 is "404" |
| `DeploymentClient.GetNotFoundIsDetectable` | internal/client/workflow_deployment.go:71-73 | a 404 from GetWorkflowDeployment leaves "status code: 404" in the error text |
| `DeploymentClient.CreateFailureNamesStatus` | internal/client/workflow_deployment.go:39-42 | a non-201 error text starts with the formatted error message and ends with ", status code: " and its own code |
| `DeploymentClient.GetFailureNamesStatus` | internal/client/workflow_deployment.go:71-73 | any non-200 error text ends with its own code after "status code: " |
| `DeploymentResource.DeployStop` | internal/provider/workflow_deployment_resource.go:114-139 | the stopping poll is the first that is not a readable DEPLOYING deployment |
| `DeploymentResource.RunDeployment` | internal/provider/workflow_deployment_resource.go:105-139 | a failed create reports its error and polls nothing; otherwise the loop reads exactly up to the stopping poll and that poll decides the outcome, or it is still polling when the answers run out |
| `DeploymentResource.Create` | internal/provider/workflow_deployment_resource.go:94-143 | a failed create reports exactly one error, with the creating summary and the client's message, and polls nothing; otherwise the stopping poll decides through `DeployVerdict`, or it is still polling |
| `DeploymentResource.Update` | internal/provider/workflow_deployment_resource.go:187-236 | the same as Create, with the updating summary and detail |
| `DeploymentResource.DeployVerdictOutcome` | internal/provider/workflow_deployment_resource.go:115-136 | the plan is stored, with the new id and `deployed` true, exactly when the stopping poll is DEPLOYED; otherwise one error, nothing stored, and a bad status is named |
| `DeploymentResource.UpdateAgreesWithCreate` | internal/provider/workflow_deployment_resource.go:94-236 | Update stores the same state as Create on the same answers |
| `DeploymentResource.DeployStopsAtThirdRead` | internal/provider/workflow_deployment_resource.go:114-139 | two DEPLOYING reads, then DEPLOYED: the loop stops at the third read |
| `DeploymentResource.DeployStopIgnoresLaterPolls` | internal/provider/workflow_deployment_resource.go:114-139 | answers after the stopping poll are never consulted |
| `DeploymentResource.UndeployStop` | internal/provider/workflow_deployment_resource.go:259-285 | the stopping poll is the first that is not a readable UNDEPLOYING deployment |
| `DeploymentResource.Delete` | internal/provider/workflow_deployment_resource.go:238-286 | a failed delete reports its error; otherwise the undeploy loop reads up to its stopping poll and that poll decides, or it is still polling |
| `DeploymentResource.UndeployVerdictOutcome` | internal/provider/workflow_deployment_resource.go:259-285 | Delete reports no error exactly when the stopping poll shows the deployment gone, meaning a not-found error or UNDEPLOYED |
| `DeploymentResource.NotFoundEndsUndeploy` | internal/provider/workflow_deployment_resource.go:260-265 | a 404 while polling stops the loop as success |
| `DeploymentResource.ReadOutcome` | internal/provider/workflow_deployment_resource.go:145-185 | the state is kept, with the migration's deployment id, exactly when a migration is found whose activity matches `deployed`; drift removes it with exactly the drift warning, absence removes it with no diagnostic, and only a failed lookup is an error |
| `DeploymentResource.ReadIdempotent` | internal/provider/workflow_deployment_resource.go:145-185 | reading again with the same lookup keeps the same state |
| `DeploymentResource.ReadAfterDeploy` | internal/provider/workflow_deployment_resource.go:124-128 | after a successful deploy, a Read finding the deployment active keeps the stored state |
| `CredentialValues.Retype` | internal/provider/integration_credentials_resource.go:330-350 | "true"/"false" become booleans, then whatever Atoi accepts becomes an int, then whatever ParseFloat accepts becomes a float carrying ParseFloat's own text, and anything else stays the same string |
| `CredentialValues.Show` | internal/provider/integration_credentials_resource.go:250 | `%v` of a string is the string, of a boolean "true" or "false" |
| `CredentialValues.ShowIntReadsBack` | internal/provider/integration_credentials_resource.go:250 | Atoi reads back what `%v` prints for a 64-bit int |
| `CredentialValues.RetypeShow` | internal/provider/integration_credentials_resource.go:330-350 | re-typing what `%v` printed for a boolean or a 64-bit int gives the value back |
| `CredentialValues.Decoded` | internal/provider/integration_credentials_resource.go:519-586 | what the decrypted credential hands back for a sent value: a Go int comes back as a float64 printed by the whole-number printer, every other kind as it was sent |
| `CredentialValues.DecodedValues` | internal/provider/integration_credentials_resource.go:519-586 | the same keys, each value decoded |
| `CredentialValues.SurvivingTexts` | internal/provider/integration_credentials_resource.go:240-350 | after re-typing, sending, decoding and `%v`, booleans, integers below a million written as `%d` prints them, `%v`-printed floats and non-numeric texts come back as written; integers of a million or more do not |
| `CredentialValues.LeadingZerosAreLost` | internal/provider/integration_credentials_resource.go:339-341 | "007" is sent as the integer 7 and comes back as "7" |
| `CredentialValues.MillionGainsExponent` | internal/provider/integration_credentials_resource.go:339-341 | "1000000" is sent as an int and comes back as "1e+06" |
| `CredentialValues.NonNumericTextsStayStrings` | internal/provider/integration_credentials_resource.go:330-350 | "True", "" and "30s" stay strings |
| `CredentialValues.ConvertAPIValue` | internal/provider/integration_credentials_resource.go:221-237 | strings and booleans keep their kind, numbers become numbers, anything else becomes its `%v` text |
| `CredentialValues.KeyConflictInjective` | internal/provider/integration_credentials_resource.go:167-171 | different keys give different key-conflict errors |
| `CredentialValues.ConflictsStep` | internal/provider/integration_credentials_resource.go:164-173 | one more key visited adds a key-conflict error exactly when the key is reserved |
| `CredentialValues.CheckKey` | internal/provider/integration_credentials_resource.go:166-172 | the loop body keeps the invariant: one error per reserved key visited |
| `CredentialValues.ReservedKeyConflicts` | internal/provider/integration_credentials_resource.go:155-173 | after the loop, in any map order, there is exactly one key-conflict error per reserved key the map declares |
| `CredentialValues.ValidateExtraConfiguration` | internal/provider/integration_credentials_resource.go:147-201 | `ReportsValidation`: nothing for a null or unknown map; otherwise one error per reserved key, plus one last error, the authentication-type error, for a custom non-OAuth integration, and nothing else; it reports an error exactly in those cases |
| `CredentialValues.GetExtraConfigurationKeys` | internal/provider/integration_credentials_resource.go:204-218 | every declared key exactly once, and none for a null or unknown map |
| `CredentialValues.ExtractedDeclared` | internal/provider/integration_credentials_resource.go:240-265 | the declared keys the API has, each with the `%v` text of its value; null exactly when the API has none of them |
| `CredentialValues.ExtractExtraConfigurationFromAPI` | internal/provider/integration_credentials_resource.go:240-265 | the loop over the declared keys computes `ExtractedDeclared` |
| `CredentialValues.Preserved` | internal/provider/integration_credentials_resource.go:268-295 | exactly the original keys, each with the API's `%v` text where the API has the key and the original value otherwise; null for a null or unknown original |
| `CredentialValues.PreserveExtraConfigurationStructure` | internal/provider/integration_credentials_resource.go:268-295 | the loop, in any map order, computes `Preserved` |
| `CredentialValues.AllExtra` | internal/provider/integration_credentials_resource.go:298-327 | every API key not reserved for OAuth, with its `%v` text; null exactly when only reserved keys remain |
| `CredentialValues.ExtractAllExtraConfigurationFromAPI` | internal/provider/integration_credentials_resource.go:298-327 | the loop, in any map order, computes `AllExtra` |
| `CredentialValues.Merged` | internal/provider/integration_credentials_resource.go:353-376 | the keys are the three OAuth keys plus the declared ones; each declared value is re-typed and overrides any OAuth entry of the same key |
| `CredentialValues.MergeCredentialValues` | internal/provider/integration_credentials_resource.go:353-376 | the loop, in any map order, computes `Merged` |
| `CredentialValues.PreserveMergedRoundTrip` | internal/provider/integration_credentials_resource.go:268-376 | preserving a configuration over the values it was merged into, as the API hands them back, gives it back when its texts survive the round trip |
| `CredentialValues.DecodedMergedShows` | internal/provider/integration_credentials_resource.go:250-376 | a declared key's merged value, as the API hands it back, prints as its configured text when that text survives |
| `CredentialValues.ExtractMergedRoundTrip` | internal/provider/integration_credentials_resource.go:240-376 | the declared-keys and all-keys extractions both give back a non-empty, non-reserved configuration from the merged values, as the API hands them back, when its texts survive the round trip |
| `CredentialValues.PreservedCoversExtracted` | internal/provider/integration_credentials_resource.go:240-295 | the declared-keys extraction keeps a subset of the preserved keys, and they have the same values |
| `CredentialsResource.CreateScopes` | internal/provider/integration_credentials_resource.go:407-442 | accepted exactly for a custom OAuth integration without scopes, or any other integration with scopes; the text is the scopes joined by spaces, or "" |
| `CredentialsResource.UpdateScopes` | internal/provider/integration_credentials_resource.go:624-652 | accepted exactly when a custom provider has no scopes or any other provider has them; the same text as Create |
| `CredentialsResource.ScopeRulesAgree` | internal/provider/integration_credentials_resource.go:407-442 | for an OAuth custom integration or any other, Create's and Update's rules accept the same scopes and send the same text |
| `CredentialsResource.ScopesRead` | internal/provider/integration_credentials_resource.go:556-572 | null when the text is missing, not a string, or empty; otherwise space-free scopes whose space-join is the text |
| `CredentialsResource.ScopesRoundTrip` | internal/provider/integration_credentials_resource.go:436-441 | a non-empty scopes list reads back from its joined text exactly when no scope holds a space and the list is not just "" |
| `CredentialsResource.ExtractOAuth` | internal/provider/integration_credentials_resource.go:537-581 | succeeds exactly when client id and secret are strings, with the first missing one named in the error |
| `CredentialsResource.RefreshedExtra` | internal/provider/integration_credentials_resource.go:583-598 | null exactly when the configuration was null, unknown or empty, and the preserved map otherwise |
| `CredentialsResource.RefreshedExtraIdempotent` | internal/provider/integration_credentials_resource.go:583-598 | refreshing twice from the same values is refreshing once |
| `CredentialsResource.EmptyExtraBecomesNull` | internal/provider/integration_credentials_resource.go:584-598 | a configured empty map `{}` comes back null after a refresh |
| `CredentialsResource.LeadingZerosDrift` | internal/provider/integration_credentials_resource.go:353-376 | a configured "007" is refreshed as "7" |
| `CredentialsResource.LargeIntegerDrift` | internal/provider/integration_credentials_resource.go:583-598 | a configured "1000000" is refreshed as "1e+06" |
| `CredentialsResource.RefreshedModel` | internal/provider/integration_credentials_resource.go:532-598 | a refresh fails exactly when the OAuth block cannot be extracted; otherwise it takes the scheme, provider, OAuth block and refreshed extra configuration and keeps the rest |
| `CredentialsResource.RefreshAfterMerge` | internal/provider/integration_credentials_resource.go:532-598 | refreshing from the values a model was merged into, as the API hands them back, gives the model back, up to scheme and provider, when scopes and extra configuration survive |
| `CredentialsResource.CreateOutcomeStoresPlan` | internal/provider/integration_credentials_resource.go:407-485 | after validation, Create stores the plan with the API's id, scheme and provider exactly when scope rules, email and the API call succeed; the request carries the merged values, the integration type and "oauth_app" |
| `CredentialsResource.ValidationPassedKeys` | internal/provider/integration_credentials_resource.go:164-173 | a configuration that passes validation declares no reserved key |
| `CredentialsResource.Create` | internal/provider/integration_credentials_resource.go:379-493 | a failed integration fetch is one error; a validation failure reports exactly what `ReportsValidation` describes, auth-type error included, and sends nothing; otherwise Create is `CreateOutcome` |
| `CredentialsResource.ReadCredential` | internal/provider/integration_credentials_resource.go:518-598 | an error naming status 404 removes the resource, other errors are reported, and a credential whose OAuth block can be extracted refreshes the state, integration id included, keeping id and project |
| `CredentialsResource.Read` | internal/provider/integration_credentials_resource.go:496-606 | Read computes `ReadCredential` |
| `CredentialsResource.ReadIdempotent` | internal/provider/integration_credentials_resource.go:496-606 | reading again with the same credential changes nothing |
| `CredentialsResource.CreateThenRead` | internal/provider/integration_credentials_resource.go:379-606 | reading back the values Create sent, as the API hands them back, keeps the stored state, when scopes and extra configuration survive the round trip |
| `CredentialsResource.ReadNotFoundRemoves` | internal/provider/integration_credentials_resource.go:519-524 | any error containing "status code: 404" removes the resource without an error |
| `CredentialsResource.UpdateOutcomeReports` | internal/provider/integration_credentials_resource.go:675-809 | after validation, the request is sent exactly when the existence check and the email succeed, with the merged values under the state's provider and scheme; the refreshed plan is stored exactly when the update, the second fetch and its OAuth block also succeed; any failure is one error |
| `CredentialsResource.Update` | internal/provider/integration_credentials_resource.go:609-817 | the scope rules on the state's provider and the integration fetch fail with one error; a validation failure reports exactly what `ReportsValidation` describes and sends nothing; otherwise Update is `UpdateOutcome` |
| `CredentialsResource.UpdateRefreshesLikeRead` | internal/provider/integration_credentials_resource.go:723-809 | Update's refresh stores what Read would store from the fetched credential, except that it keeps the plan's integration id |
| `CredentialsResource.UpdateStoresPlan` | internal/provider/integration_credentials_resource.go:704-809 | when the credential fetched again holds the values sent, as the API hands them back, Update stores the plan with the state's id, and the request names the state's provider and scheme |

## Left out

- HTTP, JSON decoding and reading response bodies: each exchange is an input, either a transport error or a status code with the decoded body or the decoder's error.
- The API client calls GetIntegration, GetUserEmailFromToken, CreateIntegrationCredentials and GetDecryptedCredential are inputs. internal/client's credential and integration types are not part of this model, so their fields are modelled as the resource uses them.
- `time.Sleep` and unbounded polling: the poll loops read a finite sequence of answers and report `StillPolling` when it runs out.
- `strconv.ParseFloat` and `%v` of the float it returns: a parameter, `FloatParser`, because floating point is not modelled.
- The JSON wire under GetDecryptedCredential: the values come back as JSON decodes them, so a Go int sent comes back as a float64 (`Decoded`). `%v` of that float64 is a parameter, `WholeFloatPrinter`; the lemmas that need it assume `PrintsWholeFloats`, which fixes its text exactly up to 2^53 and only says that it has an exponent beyond, because float64 rounding is not modelled. The client code that decodes the response is not part of this model.
- Go's random map order: the map loops above hold for every visiting order. The order of the key-conflict errors is left open.
- Null or unknown elements inside a `types.Map`, and non-string map elements: the model's map elements are plain strings.
- `ElementsAs` failures on the scopes list: a known list of strings always converts.
- The error branches for "Error merging credential values" and "Error preserving extra configuration structure", and the `types.MapValue` errors of the extraction helpers: none of these can be reached with string elements.
- Delete of the credentials resource, Schema, Metadata and Configure: framework plumbing or pass-through calls with no logic.
- Removal of the state after Delete: the framework does this, so Delete's success reports `Untouched`.
- The `oauth` block is never nil, because the schema requires it. The custom part of a custom integration must be present once the extra configuration has passed validation, since the source dereferences it in the scope rules that follow; a custom integration without it whose extra configuration fails validation is handled.
- The test file `internal/provider/integration_credentials_resource_test.go` and `internal/client/workflows.go` are context only.
- CredentialsResource.Create: on a validation failure the contract states which errors are reported and how many, with the authentication-type error last, but not the order of the key-conflict errors, because that follows Go's map order.
- CredentialsResource.Update: on a validation failure the same as Create, for the same reason.
- No lemma shows that a status other than 404 is never taken for a 404. An error text can contain "status code: 404" for other reasons, for example inside a server message.
