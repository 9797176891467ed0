/**
 * The credential value reconciler of
 * internal/provider/integration_credentials_resource.go (its helper
 * functions): validation of the extra configuration, the re-typing of
 * configured strings, the merge of the OAuth fields with the extra
 * configuration into one flat value map, and the three policies that turn the
 * values the API returns back into an extra-configuration map.
 *
 * Go ranges over maps in no fixed order; the loops here pick the next key
 * from the keys not yet visited, and their contracts hold for any visiting order, as Go's
 * map range allows.
 */
module CredentialValues {
  import opened Wrappers
  import opened Strings
  import opened Strconv
  import opened Framework

  // ---------------------------------------------------------------------
  // Values
  // ---------------------------------------------------------------------

  /**
   * A value of a credential's value map (`map[string]any`). Values decoded
   * from JSON are strings, booleans, numbers (Go `float64`) or something else
   * (null, an object, an array); re-typed configuration strings can also be
   * Go `int`s. A float or a value of another kind carries its `%v` text.
   */
  datatype Value = Str(s: string) | Bool(b: bool) | Int(i: int) | Float(shown: string) | Other(shown: string)

  /** `fmt.Sprintf("%v", v)`: a string is itself, a boolean "true" or "false", an int its `%d` text. */
  function Show(v: Value): (r: string)
    ensures v.Str? ==> r == v.s
    ensures v.Bool? ==> (r == "true" || r == "false") && (r == "true" <==> v.b)
  {
    match v
    case Str(s) => s
    case Bool(b) => if b then "true" else "false"
    case Int(i) => FormatInt(i)
    case Float(shown) => shown
    case Other(shown) => shown
  }

  /** Atoi reads back what `%v` prints for a 64-bit int. */
  lemma ShowIntReadsBack(v: Value)
    requires v.Int? && MinInt <= v.i <= MaxInt
    ensures Atoi(Show(v)) == Some(v.i)
  {
    AtoiFormatInt(v.i);
  }

  /**
   * strconv.ParseFloat(s, 64) followed by `%v` of the float: None when
   * ParseFloat rejects `s`, otherwise the text `%v` prints for the number.
   */
  type FloatParser = string -> Option<string>

  /**
   * parseStringToAppropriateType: exactly "true" or "false" is a bool, then
   * whatever Atoi accepts is an int, then whatever ParseFloat accepts is a
   * float, and anything else stays the same string.
   */
  function Retype(value: string, parseFloat: FloatParser): (r: Value)
    ensures r.Bool? <==> value == "true" || value == "false"
    ensures r.Bool? ==> Show(r) == value
    ensures r.Int? <==> !r.Bool? && Atoi(value).Some?
    ensures r.Int? ==> r.i == Atoi(value).value
    ensures r.Float? <==> !r.Bool? && Atoi(value).None? && parseFloat(value).Some?
    ensures r.Float? ==> r.shown == parseFloat(value).value
    ensures r.Str? ==> r.s == value
    ensures !r.Other?
  {
    if value == "true" then Bool(true)
    else if value == "false" then Bool(false)
    else match Atoi(value)
      case Some(i) => Int(i)
      case None =>
        match parseFloat(value)
        case Some(shown) => Float(shown)
        case None => Str(value)
  }

  /** Re-typing what `%v` printed for a boolean or a 64-bit int gives the value back. */
  lemma RetypeShow(v: Value, parseFloat: FloatParser)
    requires v.Bool? || (v.Int? && MinInt <= v.i <= MaxInt)
    ensures Retype(Show(v), parseFloat) == v
  {
    if v.Int? {
      ShowIntReadsBack(v);
      var f := FormatInt(v.i);
      assert f != "true" && f != "false" by {
        assert Atoi("true").None? by { assert !IsDigit("true"[0]); }
        assert Atoi("false").None? by { assert !IsDigit("false"[0]); }
      }
    }
  }

  /**
   * `%v` of the float64 that a whole number becomes when the credential's
   * values travel as JSON: Go decodes every JSON number into a `float64`.
   * A parameter, because the rounding of float64 beyond 2^53 is not
   * modelled.
   */
  type WholeFloatPrinter = int -> string

  /**
   * The printer is Go's for every 64-bit int: WholeFloatText wherever
   * float64 holds the number exactly, and an exponent form beyond, where the
   * number has at least sixteen digits.
   */
  predicate PrintsWholeFloats(showWhole: WholeFloatPrinter)
  {
    forall i :: MinInt <= i <= MaxInt ==>
      && (-ExactFloatLimit <= i <= ExactFloatLimit ==> showWhole(i) == WholeFloatText(i))
      && (i < -ExactFloatLimit || ExactFloatLimit < i ==> 'e' in showWhole(i))
  }

  /**
   * A value sent to the API as it comes back in a decrypted credential: JSON
   * turns a Go int into a float64, and every other kind comes back as it was
   * sent (a float64 reads back as the same float64).
   */
  function Decoded(v: Value, showWhole: WholeFloatPrinter): (r: Value)
    ensures !r.Int?
    ensures !v.Int? ==> r == v
    ensures v.Int? ==> r.Float? && Show(r) == showWhole(v.i)
  {
    if v.Int? then Float(showWhole(v.i)) else v
  }

  /** A whole value map as it comes back in a decrypted credential. */
  function DecodedValues(values: map<string, Value>, showWhole: WholeFloatPrinter): (r: map<string, Value>)
    ensures r.Keys == values.Keys
    ensures forall key :: key in r ==> r[key] == Decoded(values[key], showWhole)
  {
    map key | key in values :: Decoded(values[key], showWhole)
  }

  /** A configured text that comes back, once re-typed, sent, decoded and printed with `%v`, as it was written. */
  predicate Survives(value: string, parseFloat: FloatParser, showWhole: WholeFloatPrinter)
  {
    Show(Decoded(Retype(value, parseFloat), showWhole)) == value
  }

  /**
   * The texts that survive the round trip: the two booleans, integers below
   * a million in size written the way `%d` prints them, floats written the
   * way `%v` prints them, and texts that are neither integers nor floats.
   * Integers of a million or more in size do not survive: the float64 they
   * come back as prints with an exponent.
   */
  lemma SurvivingTexts(value: string, parseFloat: FloatParser, showWhole: WholeFloatPrinter)
    requires PrintsWholeFloats(showWhole)
    ensures value == "true" || value == "false" ==> Survives(value, parseFloat, showWhole)
    ensures (exists i :: -Million < i < Million && value == FormatInt(i)) ==> Survives(value, parseFloat, showWhole)
    ensures (exists i :: MinInt <= i <= MaxInt && (i <= -Million || Million <= i) && value == FormatInt(i)) ==>
      !Survives(value, parseFloat, showWhole)
    ensures Atoi(value).None? && parseFloat(value) == Some(value) ==> Survives(value, parseFloat, showWhole)
    ensures Atoi(value).None? && parseFloat(value).None? ==> Survives(value, parseFloat, showWhole)
  {
    if exists i :: -Million < i < Million && value == FormatInt(i) {
      var i :| -Million < i < Million && value == FormatInt(i);
      RetypeShow(Int(i), parseFloat);
      WholeFloatPlain(i);
      assert showWhole(i) == WholeFloatText(i);
    }
    if exists i :: MinInt <= i <= MaxInt && (i <= -Million || Million <= i) && value == FormatInt(i) {
      var i :| MinInt <= i <= MaxInt && (i <= -Million || Million <= i) && value == FormatInt(i);
      RetypeShow(Int(i), parseFloat);
      WholeFloatExponent(i);
      assert 'e' in showWhole(i);
    }
  }

  /** Leading zeros are lost: "007" is sent as the integer 7 and comes back as "7". */
  lemma LeadingZerosAreLost(parseFloat: FloatParser, showWhole: WholeFloatPrinter)
    requires PrintsWholeFloats(showWhole)
    ensures Retype("007", parseFloat) == Int(7)
    ensures Show(Decoded(Retype("007", parseFloat), showWhole)) == "7"
    ensures !Survives("007", parseFloat, showWhole)
  {
    AtoiAcceptsNonCanonical();
    WholeFloatPlain(7);
    assert showWhole(7) == WholeFloatText(7);
  }

  /** A configured "1000000" is sent as an int and comes back as the float64 1e6, which `%v` prints "1e+06". */
  lemma MillionGainsExponent(parseFloat: FloatParser, showWhole: WholeFloatPrinter)
    requires PrintsWholeFloats(showWhole)
    ensures Retype("1000000", parseFloat) == Int(1_000_000)
    ensures Show(Decoded(Retype("1000000", parseFloat), showWhole)) == "1e+06"
    ensures !Survives("1000000", parseFloat, showWhole)
  {
    MillionText();
    RetypeShow(Int(1_000_000), parseFloat);
    assert showWhole(1_000_000) == WholeFloatText(1_000_000);
  }

  /** Texts that are neither booleans nor numbers, such as "True", "" and "30s", stay strings. */
  lemma NonNumericTextsStayStrings(parseFloat: FloatParser)
    requires parseFloat("True").None? && parseFloat("").None? && parseFloat("30s").None?
    ensures Retype("True", parseFloat) == Str("True")
    ensures Retype("", parseFloat) == Str("")
    ensures Retype("30s", parseFloat) == Str("30s")
  {
    assert !IsDigit("True"[0]) && !IsDigit("30s"[2]);
  }

  /** A Terraform attribute value as convertAPIValueToTerraformValue builds it; numbers keep their source value. */
  datatype AttrValue = AttrString(text: string) | AttrBool(flag: bool) | AttrNumber(number: Value)

  /**
   * convertAPIValueToTerraformValue: strings and booleans keep their kind,
   * numbers become numbers, and anything else becomes its `%v` text.
   */
  function ConvertAPIValue(v: Value): (r: AttrValue)
    ensures r.AttrString? <==> v.Str? || v.Other?
    ensures r.AttrString? ==> r.text == Show(v)
    ensures r.AttrBool? <==> v.Bool?
    ensures r.AttrBool? ==> r.flag == v.b
    ensures r.AttrNumber? <==> v.Int? || v.Float?
  {
    match v
    case Str(s) => AttrString(s)
    case Bool(b) => AttrBool(b)
    case Float(_) => AttrNumber(v)
    case Int(_) => AttrNumber(v)
    case Other(shown) => AttrString(shown)
  }

  // ---------------------------------------------------------------------
  // validateExtraConfiguration
  // ---------------------------------------------------------------------

  datatype CustomIntegration = CustomIntegration(authenticationType: string)

  /** A `client.Integration`: its type and, for custom integrations, its custom part (which may be nil). */
  datatype Integration = Integration(kind: string, custom: Option<CustomIntegration>)

  const ClientIdKey: string := "clientId"
  const ClientSecretKey: string := "clientSecret"
  const ScopesKey: string := "scopes"

  /** The keys the OAuth fields occupy in the value map. */
  const ReservedKeys: set<string> := {ClientIdKey, ClientSecretKey, ScopesKey}

  const CustomKind: string := "custom"
  const OAuthAuthentication: string := "oauth"

  const KeyConflictSummary: string := "Invalid extra configuration key"
  const KeyConflictPrefix: string := "Extra configuration key '"
  const KeyConflictSuffix: string :=
    "' conflicts with OAuth field names. The following keys are reserved for OAuth configuration: clientId, clientSecret, scopes"
  const AuthTypeConflictSummary: string := "Invalid extra configuration for custom integration"
  const AuthTypeConflictPrefix: string := "Extra configuration is not supported for custom integrations with authentication type '"
  const AuthTypeConflictSuffix: string := "'. Extra configuration is only supported for OAuth-based custom integrations."

  /** The error for an extra-configuration key that an OAuth field occupies. */
  function KeyConflict(key: string): Diagnostic
  {
    ErrorDiag(KeyConflictSummary, KeyConflictPrefix + key + KeyConflictSuffix)
  }

  /** The error for extra configuration on a custom integration that does not use OAuth. */
  function AuthTypeConflict(authenticationType: string): Diagnostic
  {
    ErrorDiag(AuthTypeConflictSummary, AuthTypeConflictPrefix + authenticationType + AuthTypeConflictSuffix)
  }

  /** A custom integration, with its custom part present, whose authentication is not OAuth. */
  predicate RejectsExtraConfiguration(integration: Option<Integration>)
  {
    && integration.Some? && integration.value.kind == CustomKind
    && integration.value.custom.Some? && integration.value.custom.value.authenticationType != OAuthAuthentication
  }

  /** The same text between the same prefix and suffix. */
  lemma InfixInjective(p: string, a: string, b: string, q: string)
    requires p + a + q == p + b + q
    ensures a == b
  {
    assert |a| == |b|;
    assert (p + a + q)[|p|..|p| + |a|] == a;
    assert (p + b + q)[|p|..|p| + |b|] == b;
  }

  /** Different keys give different key-conflict errors. */
  lemma KeyConflictInjective(a: string, b: string)
    requires KeyConflict(a) == KeyConflict(b)
    ensures a == b
  {
    InfixInjective(KeyConflictPrefix, a, b, KeyConflictSuffix);
  }

  /** What the key-conflict errors collected so far say: one per reserved key already visited. */
  ghost predicate ConflictsFor(diags: seq<Diagnostic>, visited: set<string>)
  {
    && |diags| == |visited * ReservedKeys|
    && (forall key {:trigger KeyConflict(key)} :: KeyConflict(key) in diags <==> key in visited && key in ReservedKeys)
    && (forall i :: 0 <= i < |diags| ==> diags[i].severity == Error && diags[i].summary == KeyConflictSummary)
  }

  /** Visiting one more key keeps ConflictsFor, adding an error exactly when the key is reserved. */
  lemma ConflictsStep(diags: seq<Diagnostic>, visited: set<string>, key: string)
    requires ConflictsFor(diags, visited) && key !in visited
    ensures ConflictsFor(if key in ReservedKeys then diags + [KeyConflict(key)] else diags, visited + {key})
  {
    if key in ReservedKeys {
      var next := diags + [KeyConflict(key)];
      forall other | KeyConflict(other) in next ensures other in visited + {key} && other in ReservedKeys {
        if KeyConflict(other) == KeyConflict(key) {
          KeyConflictInjective(other, key);
        }
      }
      assert (visited + {key}) * ReservedKeys == visited * ReservedKeys + {key};
    } else {
      assert (visited + {key}) * ReservedKeys == visited * ReservedKeys;
    }
  }

  /** The body of the loop of validateExtraConfiguration: an error when the key is reserved. */
  method CheckKey(diags: seq<Diagnostic>, ghost visited: set<string>, key: string) returns (next: seq<Diagnostic>)
    requires ConflictsFor(diags, visited) && key !in visited
    ensures ConflictsFor(next, visited + {key})
  {
    ConflictsStep(diags, visited, key);
    next := diags;
    if key in ReservedKeys {
      next := diags + [KeyConflict(key)];
    }
  }

  /** The loop of validateExtraConfiguration: one key-conflict error per reserved key, in map order. */
  method ReservedKeyConflicts(elements: map<string, string>) returns (diags: seq<Diagnostic>)
    ensures ConflictsFor(diags, elements.Keys)
  {
    diags := [];
    var remaining := elements.Keys;
    ghost var visited: set<string> := {};
    while remaining != {}
      invariant remaining <= elements.Keys && visited == elements.Keys - remaining
      invariant ConflictsFor(diags, visited)
      decreases |remaining|
    {
      var key :| key in remaining;
      diags := CheckKey(diags, visited, key);
      remaining := remaining - {key};
      visited := visited + {key};
    }
    assert visited == elements.Keys;
  }

  /**
   * What validateExtraConfiguration reports: nothing for a null or unknown
   * map; otherwise one error per reserved key the map declares, and one
   * more, last, when the integration is custom with a non-OAuth
   * authentication type.
   */
  ghost predicate ReportsValidation(diags: seq<Diagnostic>, extra: StringMap, integration: Option<Integration>)
  {
    && (!extra.MapKnown? ==> diags == [])
    && (extra.MapKnown? ==>
          |diags| == |extra.elements.Keys * ReservedKeys| + (if RejectsExtraConfiguration(integration) then 1 else 0))
    && (forall key :: KeyConflict(key) in diags <==> extra.MapKnown? && key in extra.elements && key in ReservedKeys)
    && (forall i :: 0 <= i < |diags| ==> diags[i].severity == Error)
    && (extra.MapKnown? && RejectsExtraConfiguration(integration) ==>
          |diags| > 0 && diags[|diags| - 1] == AuthTypeConflict(integration.value.custom.value.authenticationType))
  }

  /** validateExtraConfiguration, with the key-conflict errors in map order. */
  method ValidateExtraConfiguration(extra: StringMap, integration: Option<Integration>) returns (diags: seq<Diagnostic>)
    ensures ReportsValidation(diags, extra, integration)
    ensures HasError(diags) <==>
      extra.MapKnown? && (extra.elements.Keys * ReservedKeys != {} || RejectsExtraConfiguration(integration))
  {
    diags := [];
    if !extra.MapKnown? {
      return;
    }
    diags := ReservedKeyConflicts(extra.elements);
    if integration.Some? && integration.value.kind == CustomKind {
      if integration.value.custom.Some? && integration.value.custom.value.authenticationType != OAuthAuthentication {
        var conflict := AuthTypeConflict(integration.value.custom.value.authenticationType);
        assert conflict.summary != KeyConflictSummary;
        diags := diags + [conflict];
      }
    }
    assert |diags| > 0 ==> diags[0].severity == Error;
  }

  // ---------------------------------------------------------------------
  // getExtraConfigurationKeys
  // ---------------------------------------------------------------------

  /** The keys a map declares; none for a null or unknown map. */
  function DeclaredKeys(extra: StringMap): set<string>
  {
    if extra.MapKnown? then extra.elements.Keys else {}
  }

  /** getExtraConfigurationKeys: every declared key exactly once, in map order. */
  method GetExtraConfigurationKeys(extra: StringMap) returns (keys: seq<string>)
    ensures forall key :: key in keys <==> key in DeclaredKeys(extra)
    ensures |keys| == |DeclaredKeys(extra)|
    ensures forall i, j :: 0 <= i < j < |keys| ==> keys[i] != keys[j]
  {
    keys := [];
    if !extra.MapKnown? {
      return;
    }
    var remaining := extra.elements.Keys;
    while remaining != {}
      invariant remaining <= extra.elements.Keys
      invariant forall key :: key in keys <==> key in extra.elements.Keys - remaining
      invariant |keys| + |remaining| == |extra.elements.Keys|
      invariant forall i, j :: 0 <= i < j < |keys| ==> keys[i] != keys[j]
      decreases |remaining|
    {
      var key :| key in remaining;
      keys := keys + [key];
      remaining := remaining - {key};
    }
  }

  // ---------------------------------------------------------------------
  // extractExtraConfigurationFromAPI
  // ---------------------------------------------------------------------

  /** The declared keys the API returned, each with the `%v` text of its API value; null when there are none. */
  function ExtractedDeclared(api: map<string, Value>, keys: seq<string>): (r: StringMap)
    ensures !r.MapUnknown?
    ensures r.MapNull? <==> forall i :: 0 <= i < |keys| ==> keys[i] !in api
    ensures r.MapKnown? ==> forall key :: key in r.elements <==> key in keys && key in api
    ensures r.MapKnown? ==> forall key :: key in r.elements ==> r.elements[key] == Show(api[key])
  {
    var filtered := map key | key in keys && key in api :: Show(api[key]);
    if filtered == map[] then
      assert forall i :: 0 <= i < |keys| ==> (keys[i] in api ==> keys[i] in filtered);
      MapNull
    else
      assert forall key :: key in filtered <==> key in keys && key in api;
      MapKnown(filtered)
  }

  /** extractExtraConfigurationFromAPI: the declared keys, in order, that the API value map holds. */
  method ExtractExtraConfigurationFromAPI(api: map<string, Value>, originalKeys: seq<string>) returns (r: StringMap)
    ensures r == ExtractedDeclared(api, originalKeys)
  {
    if |originalKeys| == 0 {
      return MapNull;
    }
    var filtered: map<string, string> := map[];
    var i := 0;
    while i < |originalKeys|
      invariant 0 <= i <= |originalKeys|
      invariant filtered == map key | key in originalKeys[..i] && key in api :: Show(api[key])
    {
      var key := originalKeys[i];
      assert originalKeys[..i + 1] == originalKeys[..i] + [key];
      if key in api {
        filtered := filtered[key := Show(api[key])];
      }
      i := i + 1;
    }
    assert originalKeys[..i] == originalKeys;
    if filtered == map[] {
      return MapNull;
    }
    return MapKnown(filtered);
  }

  // ---------------------------------------------------------------------
  // preserveExtraConfigurationStructure
  // ---------------------------------------------------------------------

  /** The value a preserved key gets: the API's `%v` text when the API has the key, the original value otherwise. */
  function PreservedValue(original: map<string, string>, api: map<string, Value>, key: string): string
    requires key in original
  {
    if key in api then Show(api[key]) else original[key]
  }

  /**
   * Exactly the original keys, with their values refreshed from the API where
   * it has them; null for a null or unknown original.
   */
  function Preserved(original: StringMap, api: map<string, Value>): (r: StringMap)
    ensures !original.MapKnown? ==> r == MapNull
    ensures original.MapKnown? ==> r.MapKnown? && r.elements.Keys == original.elements.Keys
    ensures original.MapKnown? ==>
      forall key :: key in r.elements ==> r.elements[key] == PreservedValue(original.elements, api, key)
  {
    if !original.MapKnown? then MapNull
    else MapKnown(map key | key in original.elements :: PreservedValue(original.elements, api, key))
  }

  /** preserveExtraConfigurationStructure, visiting the original keys in map order. */
  method PreserveExtraConfigurationStructure(original: StringMap, api: map<string, Value>) returns (r: StringMap)
    ensures r == Preserved(original, api)
  {
    if !original.MapKnown? {
      return MapNull;
    }
    var elements := original.elements;
    var updated: map<string, string> := map[];
    var remaining := elements.Keys;
    while remaining != {}
      invariant remaining <= elements.Keys
      invariant updated == map key | key in elements.Keys - remaining :: PreservedValue(elements, api, key)
      decreases |remaining|
    {
      var key :| key in remaining;
      if key in api {
        updated := updated[key := Show(api[key])];
      } else {
        updated := updated[key := elements[key]];
      }
      remaining := remaining - {key};
    }
    assert elements.Keys - remaining == elements.Keys;
    return MapKnown(updated);
  }

  // ---------------------------------------------------------------------
  // extractAllExtraConfigurationFromAPI
  // ---------------------------------------------------------------------

  /** Every API key that no OAuth field occupies, with its `%v` text; null when none remains. */
  function AllExtra(api: map<string, Value>): (r: StringMap)
    ensures !r.MapUnknown?
    ensures r.MapNull? <==> api.Keys <= ReservedKeys
    ensures r.MapKnown? ==> r.elements.Keys == api.Keys - ReservedKeys
    ensures r.MapKnown? ==> forall key :: key in r.elements ==> r.elements[key] == Show(api[key])
  {
    var filtered := map key | key in api && key !in ReservedKeys :: Show(api[key]);
    if filtered == map[] then
      assert forall key :: key in api ==> (key !in ReservedKeys ==> key in filtered);
      MapNull
    else
      assert filtered.Keys == api.Keys - ReservedKeys;
      MapKnown(filtered)
  }

  /** extractAllExtraConfigurationFromAPI, visiting the API keys in map order. */
  method ExtractAllExtraConfigurationFromAPI(api: map<string, Value>) returns (r: StringMap)
    ensures r == AllExtra(api)
  {
    var filtered: map<string, string> := map[];
    var remaining := api.Keys;
    while remaining != {}
      invariant remaining <= api.Keys
      invariant filtered == map key | key in api.Keys - remaining && key !in ReservedKeys :: Show(api[key])
      decreases |remaining|
    {
      var key :| key in remaining;
      if key !in ReservedKeys {
        filtered := filtered[key := Show(api[key])];
      }
      remaining := remaining - {key};
    }
    assert api.Keys - remaining == api.Keys;
    if filtered == map[] {
      return MapNull;
    }
    return MapKnown(filtered);
  }

  // ---------------------------------------------------------------------
  // mergeCredentialValues
  // ---------------------------------------------------------------------

  /**
   * The value map sent to the API: the three OAuth entries, then every
   * extra-configuration entry, re-typed, in their place or beside them.
   */
  function Merged(clientId: string, clientSecret: string, extra: StringMap, scopes: string, parseFloat: FloatParser)
    : (values: map<string, Value>)
    ensures values.Keys == ReservedKeys + DeclaredKeys(extra)
    ensures forall key :: key in DeclaredKeys(extra) ==> values[key] == Retype(extra.elements[key], parseFloat)
    ensures ClientIdKey !in DeclaredKeys(extra) ==> values[ClientIdKey] == Str(clientId)
    ensures ClientSecretKey !in DeclaredKeys(extra) ==> values[ClientSecretKey] == Str(clientSecret)
    ensures ScopesKey !in DeclaredKeys(extra) ==> values[ScopesKey] == Str(scopes)
  {
    var base := map[ClientIdKey := Str(clientId), ClientSecretKey := Str(clientSecret), ScopesKey := Str(scopes)];
    if extra.MapKnown? then base + map key | key in extra.elements :: Retype(extra.elements[key], parseFloat)
    else base
  }

  /** mergeCredentialValues, overlaying the extra entries in map order. */
  method MergeCredentialValues(clientId: string, clientSecret: string, extra: StringMap, scopes: string, parseFloat: FloatParser)
    returns (values: map<string, Value>)
    ensures values == Merged(clientId, clientSecret, extra, scopes, parseFloat)
  {
    var base := map[ClientIdKey := Str(clientId), ClientSecretKey := Str(clientSecret), ScopesKey := Str(scopes)];
    values := base;
    if extra.MapKnown? {
      var elements := extra.elements;
      var remaining := elements.Keys;
      while remaining != {}
        invariant remaining <= elements.Keys
        invariant values == base + map key | key in elements.Keys - remaining :: Retype(elements[key], parseFloat)
        decreases |remaining|
      {
        var key :| key in remaining;
        values := values[key := Retype(elements[key], parseFloat)];
        remaining := remaining - {key};
      }
      assert elements.Keys - remaining == elements.Keys;
    }
  }

  // ---------------------------------------------------------------------
  // How the policies relate
  // ---------------------------------------------------------------------

  /**
   * Preserving a configuration whose keys avoid the OAuth fields over the
   * values it was merged into, as the API hands them back, gives it back
   * when each of its texts survives the round trip.
   */
  lemma PreserveMergedRoundTrip(clientId: string, clientSecret: string, extra: map<string, string>, scopes: string,
                                parseFloat: FloatParser, showWhole: WholeFloatPrinter)
    requires forall key :: key in extra ==> Survives(extra[key], parseFloat, showWhole)
    ensures var values := DecodedValues(Merged(clientId, clientSecret, MapKnown(extra), scopes, parseFloat), showWhole);
      Preserved(MapKnown(extra), values) == MapKnown(extra)
  {
    var merged := Merged(clientId, clientSecret, MapKnown(extra), scopes, parseFloat);
    var values := DecodedValues(merged, showWhole);
    var r := Preserved(MapKnown(extra), values);
    assert r.elements == extra by {
      forall key | key in extra ensures r.elements[key] == extra[key] {
        assert values[key] == Decoded(Retype(extra[key], parseFloat), showWhole);
      }
    }
  }

  /** A declared key of the merge comes back with a value that prints as its configured text, when that text survives. */
  lemma DecodedMergedShows(clientId: string, clientSecret: string, extra: map<string, string>, scopes: string,
                           parseFloat: FloatParser, showWhole: WholeFloatPrinter, key: string)
    requires key in extra && Survives(extra[key], parseFloat, showWhole)
    ensures var values := DecodedValues(Merged(clientId, clientSecret, MapKnown(extra), scopes, parseFloat), showWhole);
      key in values && Show(values[key]) == extra[key]
  {
    var merged := Merged(clientId, clientSecret, MapKnown(extra), scopes, parseFloat);
    assert merged[key] == Retype(extra[key], parseFloat);
  }

  /** The declared-keys policy gives a configuration back from values that print as its texts. */
  lemma ExtractedDeclaredShows(values: map<string, Value>, extra: map<string, string>, keys: seq<string>)
    requires extra != map[]
    requires forall key :: key in keys <==> key in extra
    requires forall key :: key in extra ==> key in values && Show(values[key]) == extra[key]
    ensures ExtractedDeclared(values, keys) == MapKnown(extra)
  {
    var key :| key in extra;
    var i :| 0 <= i < |keys| && keys[i] == key;
    assert keys[i] in values;
    assert ExtractedDeclared(values, keys).elements == extra;
  }

  /** The all-keys policy gives a configuration back from values that print as its texts beside the reserved keys. */
  lemma AllExtraShows(values: map<string, Value>, extra: map<string, string>)
    requires extra != map[]
    requires extra.Keys !! ReservedKeys
    requires values.Keys == ReservedKeys + extra.Keys
    requires forall key :: key in extra ==> Show(values[key]) == extra[key]
    ensures AllExtra(values) == MapKnown(extra)
  {
    var key :| key in extra;
    assert key in values && key !in ReservedKeys;
    var all := AllExtra(values);
    assert all.elements.Keys == extra.Keys;
    assert all.elements == extra;
  }

  /**
   * Over the values a merge produced, as the API hands them back, the
   * declared-keys policy and the all-keys policy both give back a
   * configuration whose keys avoid the OAuth fields, when its texts survive
   * the round trip and it is not empty.
   */
  lemma ExtractMergedRoundTrip(clientId: string, clientSecret: string, extra: map<string, string>, scopes: string,
                               parseFloat: FloatParser, showWhole: WholeFloatPrinter, keys: seq<string>)
    requires extra != map[]
    requires extra.Keys !! ReservedKeys
    requires forall key :: key in extra ==> Survives(extra[key], parseFloat, showWhole)
    requires forall key :: key in keys <==> key in extra
    ensures var values := DecodedValues(Merged(clientId, clientSecret, MapKnown(extra), scopes, parseFloat), showWhole);
      ExtractedDeclared(values, keys) == MapKnown(extra) && AllExtra(values) == MapKnown(extra)
  {
    var values := DecodedValues(Merged(clientId, clientSecret, MapKnown(extra), scopes, parseFloat), showWhole);
    forall k | k in extra ensures k in values && Show(values[k]) == extra[k] {
      DecodedMergedShows(clientId, clientSecret, extra, scopes, parseFloat, showWhole, k);
    }
    ExtractedDeclaredShows(values, extra, keys);
    AllExtraShows(values, extra);
  }

  /** The preserving policy keeps exactly the declared keys; the declared-keys policy keeps only those the API has. */
  lemma PreservedCoversExtracted(original: map<string, string>, api: map<string, Value>, keys: seq<string>)
    requires forall key :: key in keys <==> key in original
    ensures var extracted := ExtractedDeclared(api, keys);
      extracted.MapKnown? ==>
        && extracted.elements.Keys <= original.Keys
        && forall key :: key in extracted.elements ==> Preserved(MapKnown(original), api).elements[key] == extracted.elements[key]
  {
  }
}
