/**
 * The `paragon_integration_credentials` resource of
 * internal/provider/integration_credentials_resource.go: the scope rules of
 * Create and Update, how the OAuth block is read back from a decrypted
 * credential, and the Create, Read and Update operations built from the
 * value helpers of CredentialValues.
 *
 * The calls into the API client (GetIntegration, GetUserEmailFromToken,
 * CreateIntegrationCredentials, GetDecryptedCredential) are inputs: each is
 * the value or the error text the call returned.
 */
module CredentialsResource {
  import opened Wrappers
  import opened Strings
  import opened Framework
  import opened CredentialValues
  import DeploymentClient

  /** The `oauth` block. */
  datatype OAuth = OAuth(clientId: string, clientSecret: string, scopes: StringList)

  /** The resource's Terraform state; the schema requires the `oauth` block, so it is always present. */
  datatype CredentialModel = CredentialModel(
    id: string, projectId: string, integrationId: string, scheme: string, provider: string,
    oauth: OAuth, extra: StringMap)

  /** What GetDecryptedCredential returns. */
  datatype DecryptedCredential = DecryptedCredential(
    integrationId: string, scheme: string, provider: string, values: map<string, Value>)

  /** What CreateIntegrationCredentials returns. */
  datatype IntegrationCredential = IntegrationCredential(id: string, scheme: string, provider: string)

  /** The request body CreateIntegrationCredentials is called with. */
  datatype CredentialRequest = CredentialRequest(
    name: string, values: map<string, Value>, provider: string, scheme: string, integrationId: string)

  /** What an operation reports, and the request it sent to CreateIntegrationCredentials, if it got that far. */
  datatype Outcome = Outcome(response: Response<CredentialModel>, sent: Option<CredentialRequest>)

  /** Which fetch an OAuth block is read from: Read's, or the one after Update's request. */
  datatype Fetch = Refresh | AfterUpdate

  const OAuthAppScheme: string := "oauth_app"

  const RetrieveIntegrationSummary: string := "Error retrieving integration"
  const RetrieveIntegrationDetail: string := "Could not retrieve integration, unexpected error: "
  const InvalidAuthenticationSummary: string := "Invalid authentication type"
  const InvalidAuthenticationDetail: string :=
    "The 'oauth' block is specified, but the custom integration's authentication type is not 'oauth'"
  const UnexpectedScopesSummary: string := "Unexpected scopes section"
  const UnexpectedScopesDetail: string := "Scopes cannot be specified for custom integrations"
  const MissingScopesSummary: string := "Missing scopes"
  const MissingScopesDetail: string := "Scopes must be specified for this integration"
  const InvalidScopesSummary: string := "Invalid scopes"
  const InvalidScopesDetail: string := "Scopes must not be specified for custom integrations"
  const MissingScopesOnUpdateDetail: string := "Scopes must be specified for non-custom integrations"
  const EmailSummary: string := "Error extracting user email from access token"
  const EmailDetail: string := "Could not extract user email from access token, unexpected error: "
  const CreateSummary: string := "Error creating integration credentials"
  const CreateDetail: string := "Could not create integration credentials, unexpected error: "
  const DecryptSummary: string := "Error retrieving decrypted credential"
  const DecryptDetail: string := "Could not retrieve decrypted credential, unexpected error: "
  const UpdateSummary: string := "Error updating integration credentials"
  const UpdateDetail: string := "Could not update integration credentials, unexpected error: "
  const RefetchSummary: string := "Error retrieving updated decrypted credential"
  const RefetchDetail: string := "Could not retrieve updated decrypted credential, unexpected error: "

  // ---------------------------------------------------------------------
  // Scopes
  // ---------------------------------------------------------------------

  /** The scopes text sent to the API: the scopes joined with single spaces, or "" when there are none. */
  function ScopesText(scopes: StringList): string
  {
    if scopes.ListKnown? then Join(scopes.elements, " ") else ""
  }

  /**
   * The scope rules of Create, decided on the integration: a custom
   * integration must use OAuth and must not list scopes; any other must list
   * them.
   */
  function CreateScopes(integration: Integration, oauth: OAuth): (r: Result<string, Diagnostic>)
    requires integration.kind == CustomKind ==> integration.custom.Some?
    ensures r.Success? <==>
      if integration.kind == CustomKind
      then integration.custom.value.authenticationType == OAuthAuthentication && oauth.scopes.ListNull?
      else oauth.scopes.ListKnown?
    ensures r.Success? ==> r.value == ScopesText(oauth.scopes)
    ensures r.Failure? ==> r.error.severity == Error
  {
    if integration.kind == CustomKind then
      if integration.custom.value.authenticationType != OAuthAuthentication then
        Failure(ErrorDiag(InvalidAuthenticationSummary, InvalidAuthenticationDetail))
      else if !oauth.scopes.ListNull? then
        Failure(ErrorDiag(UnexpectedScopesSummary, UnexpectedScopesDetail))
      else Success("")
    else if oauth.scopes.ListNull? then
      Failure(ErrorDiag(MissingScopesSummary, MissingScopesDetail))
    else Success(Join(oauth.scopes.elements, " "))
  }

  /** The scope rules of Update, decided on the provider kept in the state. */
  function UpdateScopes(provider: string, oauth: OAuth): (r: Result<string, Diagnostic>)
    ensures r.Success? <==> if provider == CustomKind then oauth.scopes.ListNull? else oauth.scopes.ListKnown?
    ensures r.Success? ==> r.value == ScopesText(oauth.scopes)
    ensures r.Failure? ==> r.error.severity == Error
  {
    if provider == CustomKind then
      if !oauth.scopes.ListNull? then Failure(ErrorDiag(InvalidScopesSummary, InvalidScopesDetail))
      else Success("")
    else if oauth.scopes.ListNull? then
      Failure(ErrorDiag(MissingScopesSummary, MissingScopesOnUpdateDetail))
    else Success(Join(oauth.scopes.elements, " "))
  }

  /**
   * For an OAuth custom integration, or any other, Create and Update accept
   * the same scopes and send the same text when the state's provider is the
   * integration's type.
   */
  lemma ScopeRulesAgree(integration: Integration, oauth: OAuth)
    requires integration.kind == CustomKind ==>
      integration.custom.Some? && integration.custom.value.authenticationType == OAuthAuthentication
    ensures CreateScopes(integration, oauth).Success? <==> UpdateScopes(integration.kind, oauth).Success?
    ensures CreateScopes(integration, oauth).Success? ==>
      CreateScopes(integration, oauth).value == UpdateScopes(integration.kind, oauth).value
  {
  }

  /**
   * The scopes list read back from a credential's values: the text split at
   * spaces, or null when the text is missing, not a string, or empty.
   */
  function ScopesRead(values: map<string, Value>): (r: StringList)
    ensures r.ListKnown? <==> ScopesKey in values && values[ScopesKey].Str? && values[ScopesKey].s != ""
    ensures r.ListKnown? ==> |r.elements| >= 1 && Join(r.elements, " ") == values[ScopesKey].s
    ensures r.ListKnown? ==> forall i :: 0 <= i < |r.elements| ==> ' ' !in r.elements[i]
  {
    if ScopesKey in values && values[ScopesKey].Str? && values[ScopesKey].s != "" then
      var text := values[ScopesKey].s;
      JoinSplit(text, ' ');
      ListKnown(Split(text, ' '))
    else ListNull
  }

  /** A scopes list that the joined text gives back: none, or at least one scope, none with a space, not just "". */
  predicate ScopesSurvive(scopes: StringList)
  {
    scopes.ListKnown? ==>
      && |scopes.elements| >= 1
      && (forall i :: 0 <= i < |scopes.elements| ==> ' ' !in scopes.elements[i])
      && scopes.elements != [""]
  }

  /** Joining a non-empty list of scopes and reading it back gives the list exactly when ScopesSurvive holds. */
  lemma ScopesRoundTrip(scopes: StringList)
    requires scopes.ListKnown? ==> |scopes.elements| >= 1
    ensures ScopesRead(map[ScopesKey := Str(ScopesText(scopes))]) == scopes <==> ScopesSurvive(scopes)
  {
    if scopes.ListKnown? {
      var elements := scopes.elements;
      if ScopesSurvive(scopes) {
        assert ScopesText(scopes) != "" by {
          if |elements| == 1 {
            assert elements == [elements[0]];
          }
        }
        SplitJoin(elements, ' ');
      } else if elements == [""] {
        assert ScopesText(scopes) == "";
      }
    }
  }

  // ---------------------------------------------------------------------
  // The OAuth block read back from a credential
  // ---------------------------------------------------------------------

  /** The value under `key` is a string. */
  predicate IsText(values: map<string, Value>, key: string)
  {
    key in values && values[key].Str?
  }

  function ClientIdMissing(fetch: Fetch): Diagnostic
  {
    match fetch
    case Refresh =>
      ErrorDiag("Error extracting client ID", "Could not extract client ID from the decrypted credential values")
    case AfterUpdate =>
      ErrorDiag("Error extracting client ID from updated credential",
                "Could not extract client ID from the updated decrypted credential values")
  }

  function ClientSecretMissing(fetch: Fetch): Diagnostic
  {
    match fetch
    case Refresh =>
      ErrorDiag("Error extracting client secret", "Could not extract client secret from the decrypted credential values")
    case AfterUpdate =>
      ErrorDiag("Error extracting client secret from updated credential",
                "Could not extract client secret from the updated decrypted credential values")
  }

  /**
   * The OAuth block of a decrypted credential: the client id and secret must
   * be strings; the scopes are read back with ScopesRead.
   */
  function ExtractOAuth(values: map<string, Value>, fetch: Fetch): (r: Result<OAuth, Diagnostic>)
    ensures r.Success? <==> IsText(values, ClientIdKey) && IsText(values, ClientSecretKey)
    ensures r.Success? ==>
      r.value == OAuth(values[ClientIdKey].s, values[ClientSecretKey].s, ScopesRead(values))
    ensures !IsText(values, ClientIdKey) ==> r == Failure(ClientIdMissing(fetch))
    ensures IsText(values, ClientIdKey) && !IsText(values, ClientSecretKey) ==> r == Failure(ClientSecretMissing(fetch))
  {
    if !IsText(values, ClientIdKey) then Failure(ClientIdMissing(fetch))
    else if !IsText(values, ClientSecretKey) then Failure(ClientSecretMissing(fetch))
    else Success(OAuth(values[ClientIdKey].s, values[ClientSecretKey].s, ScopesRead(values)))
  }

  /** An extra configuration that the refresh gives back: null, or non-empty with texts that survive the round trip. */
  predicate ExtraSurvives(extra: StringMap, parseFloat: FloatParser, showWhole: WholeFloatPrinter)
  {
    || extra.MapNull?
    || (&& extra.MapKnown? && extra.elements != map[]
        && forall key :: key in extra.elements ==> Survives(extra.elements[key], parseFloat, showWhole))
  }

  /**
   * The extra configuration after a refresh: a known, non-empty configuration
   * keeps its keys with values taken from the API where it has them;
   * anything else, the empty configuration included, becomes null.
   */
  function RefreshedExtra(extra: StringMap, values: map<string, Value>): (r: StringMap)
    ensures r.MapNull? <==> !extra.MapKnown? || extra.elements == map[]
    ensures r.MapKnown? ==> r == Preserved(extra, values)
  {
    if extra.MapKnown? && |extra.elements| > 0 then Preserved(extra, values) else MapNull
  }

  /** Refreshing twice from the same values is refreshing once. */
  lemma RefreshedExtraIdempotent(extra: StringMap, values: map<string, Value>)
    ensures RefreshedExtra(RefreshedExtra(extra, values), values) == RefreshedExtra(extra, values)
  {
    var once := RefreshedExtra(extra, values);
    if once.MapKnown? {
      var twice := Preserved(once, values);
      assert twice.elements == once.elements by {
        forall key | key in once.elements ensures twice.elements[key] == once.elements[key] {
          assert key in extra.elements;
        }
      }
    }
  }

  /** An empty extra configuration does not survive a refresh: `{}` comes back as null. */
  lemma EmptyExtraBecomesNull(values: map<string, Value>)
    ensures RefreshedExtra(MapKnown(map[]), values) == MapNull
    ensures RefreshedExtra(MapKnown(map[]), values) != MapKnown(map[])
  {
  }

  /** A configured "007" is sent as the integer 7 and refreshed as "7". */
  lemma LeadingZerosDrift(clientId: string, clientSecret: string, scopes: string, parseFloat: FloatParser,
                          showWhole: WholeFloatPrinter)
    requires PrintsWholeFloats(showWhole)
    ensures var extra := MapKnown(map["timeout" := "007"]);
      var values := DecodedValues(Merged(clientId, clientSecret, extra, scopes, parseFloat), showWhole);
      RefreshedExtra(extra, values) == MapKnown(map["timeout" := "7"])
  {
    var extra := MapKnown(map["timeout" := "007"]);
    var merged := Merged(clientId, clientSecret, extra, scopes, parseFloat);
    var values := DecodedValues(merged, showWhole);
    LeadingZerosAreLost(parseFloat, showWhole);
    assert merged["timeout"] == Retype("007", parseFloat);
    var r := RefreshedExtra(extra, values);
    assert r.elements == map["timeout" := "7"] by {
      assert r.elements.Keys == {"timeout"};
    }
  }

  /** A configured "1000000" is sent as an int, comes back as a float64, and is refreshed as "1e+06". */
  lemma LargeIntegerDrift(clientId: string, clientSecret: string, scopes: string, parseFloat: FloatParser,
                          showWhole: WholeFloatPrinter)
    requires PrintsWholeFloats(showWhole)
    ensures var extra := MapKnown(map["timeout" := "1000000"]);
      var values := DecodedValues(Merged(clientId, clientSecret, extra, scopes, parseFloat), showWhole);
      RefreshedExtra(extra, values) == MapKnown(map["timeout" := "1e+06"])
  {
    var extra := MapKnown(map["timeout" := "1000000"]);
    var merged := Merged(clientId, clientSecret, extra, scopes, parseFloat);
    var values := DecodedValues(merged, showWhole);
    MillionGainsExponent(parseFloat, showWhole);
    assert merged["timeout"] == Retype("1000000", parseFloat);
    var r := RefreshedExtra(extra, values);
    assert r.elements == map["timeout" := "1e+06"] by {
      assert r.elements.Keys == {"timeout"};
    }
  }

  /** The model a successful fetch refreshes to: the scheme, provider, OAuth block and extra configuration from the credential. */
  function RefreshedModel(model: CredentialModel, credential: DecryptedCredential, fetch: Fetch)
    : (r: Result<CredentialModel, Diagnostic>)
    ensures r.Success? <==> ExtractOAuth(credential.values, fetch).Success?
    ensures r.Failure? ==> r.error == ExtractOAuth(credential.values, fetch).error
    ensures r.Success? ==>
      r.value == model.(scheme := credential.scheme, provider := credential.provider,
                        oauth := ExtractOAuth(credential.values, fetch).value,
                        extra := RefreshedExtra(model.extra, credential.values))
  {
    match ExtractOAuth(credential.values, fetch)
    case Failure(d) => Failure(d)
    case Success(oauth) =>
      Success(model.(scheme := credential.scheme, provider := credential.provider, oauth := oauth,
                     extra := RefreshedExtra(model.extra, credential.values)))
  }

  /**
   * Refreshing a model from the values its own OAuth block and extra
   * configuration were merged into, as the API hands them back, gives the
   * model back, up to the scheme and provider the credential reports, when
   * neither the scopes nor the extra configuration lose anything on the way.
   */
  lemma RefreshAfterMerge(model: CredentialModel, credential: DecryptedCredential, fetch: Fetch, parseFloat: FloatParser,
                          showWhole: WholeFloatPrinter)
    requires credential.values == DecodedValues(
      Merged(model.oauth.clientId, model.oauth.clientSecret, model.extra, ScopesText(model.oauth.scopes), parseFloat),
      showWhole)
    requires DeclaredKeys(model.extra) !! ReservedKeys
    requires ScopesSurvive(model.oauth.scopes)
    requires ExtraSurvives(model.extra, parseFloat, showWhole)
    ensures RefreshedModel(model, credential, fetch) == Success(model.(scheme := credential.scheme, provider := credential.provider))
  {
    var merged :=
      Merged(model.oauth.clientId, model.oauth.clientSecret, model.extra, ScopesText(model.oauth.scopes), parseFloat);
    var values := credential.values;
    assert ClientIdKey !in DeclaredKeys(model.extra) && ClientSecretKey !in DeclaredKeys(model.extra);
    assert ScopesKey !in DeclaredKeys(model.extra);
    assert values[ClientIdKey] == Decoded(merged[ClientIdKey], showWhole);
    assert values[ClientSecretKey] == Decoded(merged[ClientSecretKey], showWhole);
    assert values[ScopesKey] == Decoded(merged[ScopesKey], showWhole) == Str(ScopesText(model.oauth.scopes));
    ScopesRoundTrip(model.oauth.scopes);
    assert ScopesRead(values) == ScopesRead(map[ScopesKey := Str(ScopesText(model.oauth.scopes))]);
    if model.extra.MapKnown? {
      PreserveMergedRoundTrip(model.oauth.clientId, model.oauth.clientSecret, model.extra.elements,
                              ScopesText(model.oauth.scopes), parseFloat, showWhole);
    }
  }

  // ---------------------------------------------------------------------
  // Create
  // ---------------------------------------------------------------------

  /** validateExtraConfiguration reports an error for this configuration and integration. */
  predicate ValidationFails(extra: StringMap, integration: Integration)
  {
    extra.MapKnown? && (extra.elements.Keys * ReservedKeys != {} || RejectsExtraConfiguration(Some(integration)))
  }

  /** A configuration that passes validation declares no reserved key. */
  lemma ValidationPassedKeys(extra: StringMap, integration: Integration)
    requires !ValidationFails(extra, integration)
    ensures DeclaredKeys(extra) !! ReservedKeys
  {
    if extra.MapKnown? {
      assert extra.elements.Keys * ReservedKeys == {};
      forall key | key in extra.elements.Keys ensures key !in ReservedKeys {
        assert key !in extra.elements.Keys * ReservedKeys;
      }
    }
  }

  /** A single error and no state change. */
  function Failed(summary: string, detail: string): Response<CredentialModel>
  {
    Response([ErrorDiag(summary, detail)], Untouched)
  }

  /**
   * What Create does once the integration is known and the extra
   * configuration has passed validation: the scope rules, the user's email,
   * the request, and the state it stores.
   */
  function CreateOutcome(plan: CredentialModel, integration: Integration, email: Result<string, string>,
                         created: Result<IntegrationCredential, string>, parseFloat: FloatParser): Outcome
    requires integration.kind == CustomKind ==> integration.custom.Some?
  {
    match CreateScopes(integration, plan.oauth)
    case Failure(d) => Outcome(Response([d], Untouched), None)
    case Success(scopes) =>
      match email
      case Failure(e) => Outcome(Failed(EmailSummary, EmailDetail + e), None)
      case Success(name) =>
        var values := Merged(plan.oauth.clientId, plan.oauth.clientSecret, plan.extra, scopes, parseFloat);
        var request := CredentialRequest(name, values, integration.kind, OAuthAppScheme, plan.integrationId);
        match created
        case Failure(e) => Outcome(Failed(CreateSummary, CreateDetail + e), Some(request))
        case Success(credential) =>
          var stored := plan.(id := credential.id, scheme := credential.scheme, provider := credential.provider);
          Outcome(Response([], Stored(stored)), Some(request))
  }

  /**
   * Create stores the plan, with the id, scheme and provider the API assigned,
   * exactly when the scope rules, the email and the API call all succeed; the
   * request carries the merged values under the integration's type and the
   * `oauth_app` scheme.
   */
  lemma CreateOutcomeStoresPlan(plan: CredentialModel, integration: Integration, email: Result<string, string>,
                                created: Result<IntegrationCredential, string>, parseFloat: FloatParser)
    requires integration.kind == CustomKind ==> integration.custom.Some?
    ensures var out := CreateOutcome(plan, integration, email, created, parseFloat);
      && (out.response.change.Stored? <==> CreateScopes(integration, plan.oauth).Success? && email.Success? && created.Success?)
      && (out.sent.Some? <==> CreateScopes(integration, plan.oauth).Success? && email.Success?)
      && !out.response.change.Removed?
      && (out.response.change.Untouched? ==> |out.response.diags| == 1 && out.response.diags[0].severity == Error)
      && (out.response.change.Stored? ==>
            && out.response.diags == []
            && out.response.change.value ==
               plan.(id := created.value.id, scheme := created.value.scheme, provider := created.value.provider))
      && (out.sent.Some? ==>
            out.sent.value == CredentialRequest(
              email.value,
              Merged(plan.oauth.clientId, plan.oauth.clientSecret, plan.extra, ScopesText(plan.oauth.scopes), parseFloat),
              integration.kind, OAuthAppScheme, plan.integrationId))
  {
  }

  /**
   * Create: fetch the integration, validate the extra configuration against
   * it, then apply the scope rules, fetch the email, merge the values and
   * send the request.
   */
  method Create(plan: CredentialModel, integration: Result<Integration, string>, email: Result<string, string>,
                created: Result<IntegrationCredential, string>, parseFloat: FloatParser) returns (outcome: Outcome)
    requires integration.Success? && integration.value.kind == CustomKind && !ValidationFails(plan.extra, integration.value) ==>
      integration.value.custom.Some?
    ensures integration.Failure? ==>
      outcome == Outcome(Failed(RetrieveIntegrationSummary, RetrieveIntegrationDetail + integration.error), None)
    ensures integration.Success? && ValidationFails(plan.extra, integration.value) ==>
      && outcome.sent.None? && outcome.response.change.Untouched? && HasError(outcome.response.diags)
      && ReportsValidation(outcome.response.diags, plan.extra, Some(integration.value))
    ensures integration.Success? && !ValidationFails(plan.extra, integration.value) ==>
      outcome == CreateOutcome(plan, integration.value, email, created, parseFloat)
  {
    if integration.Failure? {
      return Outcome(Failed(RetrieveIntegrationSummary, RetrieveIntegrationDetail + integration.error), None);
    }
    var validation := ValidateExtraConfiguration(plan.extra, Some(integration.value));
    if HasError(validation) {
      return Outcome(Response(validation, Untouched), None);
    }
    var scopes := CreateScopes(integration.value, plan.oauth);
    if scopes.Failure? {
      return Outcome(Response([scopes.error], Untouched), None);
    }
    if email.Failure? {
      return Outcome(Failed(EmailSummary, EmailDetail + email.error), None);
    }
    var values := MergeCredentialValues(plan.oauth.clientId, plan.oauth.clientSecret, plan.extra, scopes.value, parseFloat);
    var request := CredentialRequest(email.value, values, integration.value.kind, OAuthAppScheme, plan.integrationId);
    if created.Failure? {
      return Outcome(Failed(CreateSummary, CreateDetail + created.error), Some(request));
    }
    var credential := created.value;
    var stored := plan.(id := credential.id, scheme := credential.scheme, provider := credential.provider);
    return Outcome(Response([], Stored(stored)), Some(request));
  }

  // ---------------------------------------------------------------------
  // Read
  // ---------------------------------------------------------------------

  /**
   * What Read does with the result of GetDecryptedCredential: a 404 removes
   * the resource, any other error is reported, and a credential refreshes the
   * state (integration id included).
   */
  function ReadCredential(state: CredentialModel, fetched: Result<DecryptedCredential, string>)
    : (r: Response<CredentialModel>)
    ensures r.change.Removed? <==> fetched.Failure? && Contains(fetched.error, DeploymentClient.NotFoundMarker)
    ensures r.change.Stored? <==> fetched.Success? && ExtractOAuth(fetched.value.values, Refresh).Success?
    ensures r.change.Stored? || r.change.Removed? <==> r.diags == []
    ensures r.change.Untouched? ==> |r.diags| == 1 && r.diags[0].severity == Error
    ensures r.change.Stored? ==>
      && r.change.value.id == state.id && r.change.value.projectId == state.projectId
      && r.change.value.integrationId == fetched.value.integrationId
  {
    match fetched
    case Failure(e) =>
      if Contains(e, DeploymentClient.NotFoundMarker) then Response([], Removed)
      else Failed(DecryptSummary, DecryptDetail + e)
    case Success(credential) =>
      match RefreshedModel(state.(integrationId := credential.integrationId), credential, Refresh)
      case Failure(d) => Response([d], Untouched)
      case Success(next) => Response([], Stored(next))
  }

  /** Read: the declared extra-configuration keys, the fetch, the OAuth block, then the extra configuration. */
  method Read(state: CredentialModel, fetched: Result<DecryptedCredential, string>) returns (response: Response<CredentialModel>)
    ensures response == ReadCredential(state, fetched)
  {
    var hasExtra := state.extra.MapKnown?;
    var keys: seq<string> := [];
    if hasExtra {
      keys := GetExtraConfigurationKeys(state.extra);
    }
    if fetched.Failure? {
      if Contains(fetched.error, DeploymentClient.NotFoundMarker) {
        return Response([], Removed);
      }
      return Failed(DecryptSummary, DecryptDetail + fetched.error);
    }
    var credential := fetched.value;
    var oauth := ExtractOAuth(credential.values, Refresh);
    if oauth.Failure? {
      return Response([oauth.error], Untouched);
    }
    var extra := MapNull;
    if hasExtra && |keys| > 0 {
      extra := PreserveExtraConfigurationStructure(state.extra, credential.values);
    }
    var next := state.(integrationId := credential.integrationId, scheme := credential.scheme,
                       provider := credential.provider, oauth := oauth.value, extra := extra);
    return Response([], Stored(next));
  }

  /** Reading again with the same credential changes nothing. */
  lemma ReadIdempotent(state: CredentialModel, fetched: Result<DecryptedCredential, string>)
    requires ReadCredential(state, fetched).change.Stored?
    ensures var next := ReadCredential(state, fetched).change.value;
      ReadCredential(next, fetched) == Response([], Stored(next))
  {
    RefreshedExtraIdempotent(state.extra, fetched.value.values);
  }

  /**
   * Reading back what Create sent, as the API hands it back, gives the stored
   * state unchanged, when the scopes and the extra configuration survive the
   * round trip.
   */
  lemma CreateThenRead(plan: CredentialModel, integration: Integration, name: string,
                       credential: IntegrationCredential, parseFloat: FloatParser, showWhole: WholeFloatPrinter)
    requires integration.kind == CustomKind ==> integration.custom.Some?
    requires CreateScopes(integration, plan.oauth).Success?
    requires !ValidationFails(plan.extra, integration)
    requires ScopesSurvive(plan.oauth.scopes) && ExtraSurvives(plan.extra, parseFloat, showWhole)
    ensures var out := CreateOutcome(plan, integration, Success(name), Success(credential), parseFloat);
      && out.response.change.Stored? && out.sent.Some?
      && var stored := out.response.change.value;
         var fetched := DecryptedCredential(out.sent.value.integrationId, credential.scheme, credential.provider,
                                            DecodedValues(out.sent.value.values, showWhole));
         ReadCredential(stored, Success(fetched)) == Response([], Stored(stored))
  {
    CreateOutcomeStoresPlan(plan, integration, Success(name), Success(credential), parseFloat);
    var out := CreateOutcome(plan, integration, Success(name), Success(credential), parseFloat);
    var stored := out.response.change.value;
    assert stored == plan.(id := credential.id, scheme := credential.scheme, provider := credential.provider);
    var merged :=
      Merged(plan.oauth.clientId, plan.oauth.clientSecret, plan.extra, ScopesText(plan.oauth.scopes), parseFloat);
    assert out.sent.value.values == merged;
    var fetched := DecryptedCredential(plan.integrationId, credential.scheme, credential.provider,
                                       DecodedValues(merged, showWhole));
    assert DeclaredKeys(stored.extra) !! ReservedKeys by {
      ValidationPassedKeys(plan.extra, integration);
    }
    RefreshAfterMerge(stored, fetched, Refresh, parseFloat, showWhole);
  }

  /** A credential the API no longer has (an error naming status 404) removes the resource without an error. */
  lemma ReadNotFoundRemoves(state: CredentialModel, prefix: string, suffix: string)
    ensures ReadCredential(state, Failure(prefix + DeploymentClient.NotFoundMarker + suffix)) == Response([], Removed)
  {
    ContainsInfix(prefix, DeploymentClient.NotFoundMarker, suffix);
  }

  // ---------------------------------------------------------------------
  // Update
  // ---------------------------------------------------------------------

  /**
   * What Update does once the scope rules, the integration and the
   * validation have passed: check the credential still exists, fetch the
   * email, send the merged values under the state's provider and scheme, then
   * refresh the plan from the credential fetched again.
   */
  function UpdateOutcome(plan: CredentialModel, state: CredentialModel, scopes: string,
                         precheck: Result<DecryptedCredential, string>, email: Result<string, string>,
                         updated: Result<IntegrationCredential, string>, refetch: Result<DecryptedCredential, string>,
                         parseFloat: FloatParser): Outcome
  {
    if precheck.Failure? then Outcome(Failed(DecryptSummary, DecryptDetail + precheck.error), None)
    else if email.Failure? then Outcome(Failed(EmailSummary, EmailDetail + email.error), None)
    else
      var values := Merged(plan.oauth.clientId, plan.oauth.clientSecret, plan.extra, scopes, parseFloat);
      var request := CredentialRequest(email.value, values, state.provider, state.scheme, plan.integrationId);
      if updated.Failure? then Outcome(Failed(UpdateSummary, UpdateDetail + updated.error), Some(request))
      else if refetch.Failure? then Outcome(Failed(RefetchSummary, RefetchDetail + refetch.error), Some(request))
      else
        match RefreshedModel(plan.(id := state.id), refetch.value, AfterUpdate)
        case Failure(d) => Outcome(Response([d], Untouched), Some(request))
        case Success(next) => Outcome(Response([], Stored(next)), Some(request))
  }

  /**
   * After the scope rules, the integration and the validation, Update sends
   * its request exactly when the existence check and the email succeed, and
   * stores the refreshed plan exactly when, in addition, the update, the
   * second fetch and the extraction of its OAuth block succeed; any failure
   * is one error with nothing stored. The request carries the merged values
   * under the state's provider and scheme; the state stored keeps the
   * state's id and the plan's integration and project ids.
   */
  lemma UpdateOutcomeReports(plan: CredentialModel, state: CredentialModel, scopes: string,
                             precheck: Result<DecryptedCredential, string>, email: Result<string, string>,
                             updated: Result<IntegrationCredential, string>, refetch: Result<DecryptedCredential, string>,
                             parseFloat: FloatParser)
    ensures var out := UpdateOutcome(plan, state, scopes, precheck, email, updated, refetch, parseFloat);
      && (out.sent.Some? <==> precheck.Success? && email.Success?)
      && (out.sent.Some? ==>
            out.sent.value == CredentialRequest(
              email.value, Merged(plan.oauth.clientId, plan.oauth.clientSecret, plan.extra, scopes, parseFloat),
              state.provider, state.scheme, plan.integrationId))
      && (out.response.change.Stored? <==>
            && precheck.Success? && email.Success? && updated.Success? && refetch.Success?
            && ExtractOAuth(refetch.value.values, AfterUpdate).Success?)
      && !out.response.change.Removed?
      && (out.response.change.Untouched? ==> |out.response.diags| == 1 && out.response.diags[0].severity == Error)
      && (out.response.change.Stored? ==>
            && out.response.diags == []
            && out.response.change.value.id == state.id
            && out.response.change.value.integrationId == plan.integrationId
            && out.response.change.value.projectId == plan.projectId)
  {
  }

  /**
   * Update: the scope rules on the state's provider, the integration, the
   * validation, the existence check, the email, the request, and the refresh.
   */
  method Update(plan: CredentialModel, state: CredentialModel, integration: Result<Integration, string>,
                precheck: Result<DecryptedCredential, string>, email: Result<string, string>,
                updated: Result<IntegrationCredential, string>, refetch: Result<DecryptedCredential, string>,
                parseFloat: FloatParser) returns (outcome: Outcome)
    ensures UpdateScopes(state.provider, plan.oauth).Failure? ==>
      outcome == Outcome(Response([UpdateScopes(state.provider, plan.oauth).error], Untouched), None)
    ensures UpdateScopes(state.provider, plan.oauth).Success? && integration.Failure? ==>
      outcome == Outcome(Failed(RetrieveIntegrationSummary, RetrieveIntegrationDetail + integration.error), None)
    ensures UpdateScopes(state.provider, plan.oauth).Success? && integration.Success?
            && ValidationFails(plan.extra, integration.value) ==>
      && outcome.sent.None? && outcome.response.change.Untouched? && HasError(outcome.response.diags)
      && ReportsValidation(outcome.response.diags, plan.extra, Some(integration.value))
    ensures UpdateScopes(state.provider, plan.oauth).Success? && integration.Success?
            && !ValidationFails(plan.extra, integration.value) ==>
      outcome == UpdateOutcome(plan, state, ScopesText(plan.oauth.scopes), precheck, email, updated, refetch, parseFloat)
  {
    var scopes := UpdateScopes(state.provider, plan.oauth);
    if scopes.Failure? {
      return Outcome(Response([scopes.error], Untouched), None);
    }
    if integration.Failure? {
      return Outcome(Failed(RetrieveIntegrationSummary, RetrieveIntegrationDetail + integration.error), None);
    }
    var validation := ValidateExtraConfiguration(plan.extra, Some(integration.value));
    if HasError(validation) {
      return Outcome(Response(validation, Untouched), None);
    }
    if precheck.Failure? {
      return Outcome(Failed(DecryptSummary, DecryptDetail + precheck.error), None);
    }
    if email.Failure? {
      return Outcome(Failed(EmailSummary, EmailDetail + email.error), None);
    }
    var values := MergeCredentialValues(plan.oauth.clientId, plan.oauth.clientSecret, plan.extra, scopes.value, parseFloat);
    var request := CredentialRequest(email.value, values, state.provider, state.scheme, plan.integrationId);
    if updated.Failure? {
      return Outcome(Failed(UpdateSummary, UpdateDetail + updated.error), Some(request));
    }
    if refetch.Failure? {
      return Outcome(Failed(RefetchSummary, RefetchDetail + refetch.error), Some(request));
    }
    var credential := refetch.value;
    var oauth := ExtractOAuth(credential.values, AfterUpdate);
    if oauth.Failure? {
      return Outcome(Response([oauth.error], Untouched), Some(request));
    }
    var hasExtra := plan.extra.MapKnown?;
    var keys: seq<string> := [];
    if hasExtra {
      keys := GetExtraConfigurationKeys(plan.extra);
    }
    var extra := MapNull;
    if hasExtra && |keys| > 0 {
      extra := PreserveExtraConfigurationStructure(plan.extra, credential.values);
    }
    var next := plan.(id := state.id, scheme := credential.scheme, provider := credential.provider,
                      oauth := oauth.value, extra := extra);
    return Outcome(Response([], Stored(next)), Some(request));
  }

  /**
   * Update's refresh is Read's applied to the plan, except that Update keeps
   * the plan's integration id and words its extraction errors differently.
   */
  lemma UpdateRefreshesLikeRead(plan: CredentialModel, state: CredentialModel, scopes: string,
                                precheck: Result<DecryptedCredential, string>, email: Result<string, string>,
                                updated: Result<IntegrationCredential, string>, credential: DecryptedCredential,
                                parseFloat: FloatParser)
    requires precheck.Success? && email.Success? && updated.Success?
    ensures var out := UpdateOutcome(plan, state, scopes, precheck, email, updated, Success(credential), parseFloat);
      var read := ReadCredential(plan.(id := state.id), Success(credential.(integrationId := plan.integrationId)));
      && (out.response.change.Stored? <==> read.change.Stored?)
      && (out.response.change.Stored? ==> out.response == read)
  {
  }

  /**
   * When the credential fetched after the update holds the values sent, as
   * the API hands them back, Update stores the plan, with the state's id and
   * the scheme and provider the credential reports, if the scopes and extra
   * configuration survive.
   */
  lemma UpdateStoresPlan(plan: CredentialModel, state: CredentialModel, integration: Integration,
                         precheckCredential: DecryptedCredential, name: string, updatedCredential: IntegrationCredential,
                         integrationId: string, scheme: string, provider: string, parseFloat: FloatParser,
                         showWhole: WholeFloatPrinter)
    requires UpdateScopes(state.provider, plan.oauth).Success?
    requires !ValidationFails(plan.extra, integration)
    requires ScopesSurvive(plan.oauth.scopes) && ExtraSurvives(plan.extra, parseFloat, showWhole)
    ensures var values := Merged(plan.oauth.clientId, plan.oauth.clientSecret, plan.extra,
                                 ScopesText(plan.oauth.scopes), parseFloat);
      var refetch := DecryptedCredential(integrationId, scheme, provider, DecodedValues(values, showWhole));
      var out := UpdateOutcome(plan, state, ScopesText(plan.oauth.scopes), Success(precheckCredential), Success(name),
                               Success(updatedCredential), Success(refetch), parseFloat);
      && out.sent == Some(CredentialRequest(name, values, state.provider, state.scheme, plan.integrationId))
      && out.response == Response([], Stored(plan.(id := state.id, scheme := scheme, provider := provider)))
  {
    var values := Merged(plan.oauth.clientId, plan.oauth.clientSecret, plan.extra,
                         ScopesText(plan.oauth.scopes), parseFloat);
    var refetch := DecryptedCredential(integrationId, scheme, provider, DecodedValues(values, showWhole));
    ValidationPassedKeys(plan.extra, integration);
    RefreshAfterMerge(plan.(id := state.id), refetch, AfterUpdate, parseFloat, showWhole);
  }
}
