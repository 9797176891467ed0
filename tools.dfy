/**
 * internal/client/tools.go: the webhook body tokenizer and renderer,
 * newline escaping, the string-slice conversion and the composition of
 * error messages from a decoded error envelope.
 */
module Tools {
  import opened Wrappers
  import opened Strings
  import opened Framework

  /** A part of a tokenized body. `kind` is the Go field `Type`. */
  datatype BodyPart = BodyPart(dataType: string, kind: string, value: string, path: seq<string>, name: string)

  datatype WebhookBody = WebhookBody(dataType: string, kind: string, parts: seq<BodyPart>)

  const TokenOpen: string := "{{$."
  const TokenClose: string := "}}"

  /** A literal part. */
  function ValuePart(text: string): BodyPart
  {
    BodyPart("STRING", "VALUE", text, [], "")
  }

  /** A reference part; its name is the first path segment. */
  function ObjectPart(path: seq<string>): BodyPart
    requires |path| > 0
  {
    BodyPart("", "OBJECT_VALUE", "", path, path[0])
  }

  // ---------------------------------------------------------------------
  // The regular expression {{\$\.(.*?)}} as Go's regexp package applies it
  // ---------------------------------------------------------------------

  /** `}}` stands at `e`, and no newline lies between `j` and `e`: `(.*?)` may stop at `e`. */
  predicate ClosesAt(s: string, j: nat, e: nat)
  {
    j <= e && e + 2 <= |s| && s[e..e + 2] == TokenClose
    && forall k :: j <= k < e ==> s[k] != '\n'
  }

  /** Where the lazy group that starts at `j` stops: the first `}}` reached before any newline. */
  function ClosingFrom(s: string, j: nat): (r: Option<nat>)
    requires j <= |s|
    ensures r.Some? ==> ClosesAt(s, j, r.value)
    decreases |s| - j
  {
    if j + 2 <= |s| && s[j] == '}' && s[j + 1] == '}' then Some(j)
    else if j < |s| && s[j] != '\n' then ClosingFrom(s, j + 1)
    else None
  }

  /** ClosingFrom finds the shortest group: no earlier stop exists, and None means no stop exists at all. */
  lemma {:induction false} ClosingFromIsShortest(s: string, j: nat, e: nat)
    requires j <= |s|
    requires ClosesAt(s, j, e)
    ensures ClosingFrom(s, j).Some? && ClosingFrom(s, j).value <= e
    decreases |s| - j
  {
    if !(j + 2 <= |s| && s[j] == '}' && s[j + 1] == '}') {
      assert j < e;
      assert s[j] != '\n';
      ClosingFromIsShortest(s, j + 1, e);
    }
  }

  /** A match of the token expression: it starts at `start`, its group ends at `groupEnd`. */
  datatype Match = Match(start: nat, groupEnd: nat)
  {
    function GroupStart(): nat { start + 4 }
    function End(): nat { groupEnd + 2 }
  }

  predicate MatchesAt(s: string, i: nat)
  {
    i + 4 <= |s| && s[i..i + 4] == TokenOpen && ClosingFrom(s, i + 4).Some?
  }

  /** The leftmost match that starts at or after `from`. */
  function NextMatch(s: string, from: nat): (r: Option<Match>)
    requires from <= |s|
    ensures r.Some? ==> from <= r.value.start && MatchesAt(s, r.value.start)
    ensures r.Some? ==> r.value.groupEnd == ClosingFrom(s, r.value.start + 4).value
    ensures r.Some? ==> forall i :: from <= i < r.value.start ==> !MatchesAt(s, i)
    ensures r.None? ==> forall i :: from <= i <= |s| ==> !MatchesAt(s, i)
    decreases |s| - from
  {
    if from + 4 > |s| then None
    else if s[from..from + 4] == TokenOpen && ClosingFrom(s, from + 4).Some? then
      Some(Match(from, ClosingFrom(s, from + 4).value))
    else NextMatch(s, from + 1)
  }

  /**
   * The matches `ms` lie, in order and without overlapping, between `last`
   * and `n`, and each one's group starts after its opening `{{$.`.
   */
  predicate Ordered(ms: seq<Match>, last: nat, n: nat)
    decreases |ms|
  {
    if ms == [] then last <= n
    else
      && last <= ms[0].start && ms[0].start + 4 <= ms[0].groupEnd && ms[0].End() <= n
      && Ordered(ms[1..], ms[0].End(), n)
  }

  /** FindAllStringSubmatchIndex from position `from`: leftmost, non-overlapping matches in order. */
  function MatchesFrom(s: string, from: nat): (ms: seq<Match>)
    requires from <= |s|
    ensures Ordered(ms, from, |s|)
    decreases |s| - from
  {
    match NextMatch(s, from)
    case None => []
    case Some(m) =>
      var rest := MatchesFrom(s, m.End());
      assert ([m] + rest)[1..] == rest;
      [m] + rest
  }

  function AllMatches(s: string): seq<Match>
  {
    MatchesFrom(s, 0)
  }

  // ---------------------------------------------------------------------
  // ConvertToWebhookAPIFormat
  // ---------------------------------------------------------------------

  /**
   * The parts produced from the matches `ms`, the previous match having
   * ended at `last`: for each match the text before it and the reference,
   * then the text after the last match if any remains.
   */
  function Assemble(s: string, ms: seq<Match>, last: nat): seq<BodyPart>
    requires Ordered(ms, last, |s|)
    decreases |ms|
  {
    if ms == [] then
      (if last < |s| then [ValuePart(s[last..])] else [])
    else
      var m := ms[0];
      [ValuePart(s[last..m.start]), ObjectPart(Split(s[m.GroupStart()..m.groupEnd], '.'))]
        + Assemble(s, ms[1..], m.End())
  }

  /** The parts ConvertToWebhookAPIFormat produces for `s`. */
  function Tokenized(s: string): seq<BodyPart>
  {
    Assemble(s, AllMatches(s), 0)
  }

  /** ConvertToWebhookAPIFormat: tokenize `s` into literal and reference parts. It never fails. */
  method ConvertToWebhookAPIFormat(input: string) returns (body: WebhookBody)
    ensures body == WebhookBody("ANY", "TOKENIZED", Tokenized(input))
  {
    var matches := AllMatches(input);
    var parts: seq<BodyPart> := [];
    var lastIndex: nat := 0;
    var k := 0;
    while k < |matches|
      invariant 0 <= k <= |matches|
      invariant Ordered(matches[k..], lastIndex, |input|)
      invariant parts + Assemble(input, matches[k..], lastIndex) == Assemble(input, matches, 0)
    {
      var m := matches[k];
      var beforeToken := input[lastIndex..m.start];
      parts := parts + [ValuePart(beforeToken)];
      var tokenContent := input[m.GroupStart()..m.groupEnd];
      var path := Split(tokenContent, '.');
      parts := parts + [ObjectPart(path)];
      assert matches[k..][1..] == matches[k + 1..];
      lastIndex := m.End();
      k := k + 1;
    }
    if lastIndex < |input| {
      parts := parts + [ValuePart(input[lastIndex..])];
    }
    body := WebhookBody("ANY", "TOKENIZED", parts);
  }

  // ---------------------------------------------------------------------
  // ConvertPartsToString
  // ---------------------------------------------------------------------

  /** What one part contributes: literals verbatim, references re-wrapped, anything else nothing. */
  function RenderPart(p: BodyPart): string
  {
    if p.kind == "VALUE" then p.value
    else if p.kind == "OBJECT_VALUE" && |p.path| > 0 then TokenOpen + Join(p.path, ".") + TokenClose
    else ""
  }

  function Render(parts: seq<BodyPart>): string
  {
    if parts == [] then "" else RenderPart(parts[0]) + Render(parts[1..])
  }

  lemma {:induction false} RenderAppend(a: seq<BodyPart>, b: seq<BodyPart>)
    ensures Render(a + b) == Render(a) + Render(b)
    decreases |a|
  {
    if a != [] {
      assert (a + b)[1..] == a[1..] + b;
      RenderAppend(a[1..], b);
    } else {
      assert a + b == b;
    }
  }

  /** Rendering one more part appends what that part contributes. */
  lemma RenderNext(parts: seq<BodyPart>, i: nat)
    requires i < |parts|
    ensures Render(parts[..i + 1]) == Render(parts[..i]) + RenderPart(parts[i])
  {
    RenderAppend(parts[..i], [parts[i]]);
    assert parts[..i + 1] == parts[..i] + [parts[i]];
    assert Render([parts[i]]) == RenderPart(parts[i]) + Render([]);
  }

  /** ConvertPartsToString: concatenate what every part contributes, in order. */
  method ConvertPartsToString(body: WebhookBody) returns (result: string)
    ensures result == Render(body.parts)
  {
    result := "";
    var i := 0;
    while i < |body.parts|
      invariant 0 <= i <= |body.parts|
      invariant result == Render(body.parts[..i])
    {
      var part := body.parts[i];
      RenderNext(body.parts, i);
      ghost var before := result;
      if part.kind == "VALUE" {
        result := result + part.value;
      } else if part.kind == "OBJECT_VALUE" {
        if |part.path| > 0 {
          result := result + TokenOpen;
          result := result + Join(part.path, ".");
          result := result + TokenClose;
        }
      }
      assert result == before + RenderPart(part);
      i := i + 1;
    }
    assert body.parts[..i] == body.parts;
  }

  // ---------------------------------------------------------------------
  // Properties of the tokenizer
  // ---------------------------------------------------------------------

  /** The two parts of one match render back to the text from `from` to the end of the match. */
  lemma RenderMatchParts(s: string, from: nat, m: Match)
    requires from <= m.start && m.start + 4 <= m.groupEnd && m.End() <= |s|
    requires s[m.start..m.start + 4] == TokenOpen && s[m.groupEnd..m.End()] == TokenClose
    ensures Render([ValuePart(s[from..m.start]), ObjectPart(Split(s[m.GroupStart()..m.groupEnd], '.'))])
      == s[from..m.End()]
  {
    var content := s[m.GroupStart()..m.groupEnd];
    var path := Split(content, '.');
    var lit := ValuePart(s[from..m.start]);
    var obj := ObjectPart(path);
    JoinSplit(content, '.');
    assert RenderPart(obj) == TokenOpen + content + TokenClose;
    assert Render([obj]) == RenderPart(obj) + Render([]);
    assert [lit, obj][1..] == [obj];
    assert Render([lit, obj]) == s[from..m.start] + Render([obj]);
    SliceSplit(s, from, m.start, m.End());
    SliceSplit(s, m.start, m.start + 4, m.End());
    SliceSplit(s, m.start + 4, m.groupEnd, m.End());
  }

  /** One step of RenderAssembled: a match in front of matches whose parts already render back. */
  lemma RenderAssembleCons(s: string, from: nat, m: Match, rest: seq<Match>)
    requires Ordered([m] + rest, from, |s|)
    requires s[m.start..m.start + 4] == TokenOpen && s[m.groupEnd..m.End()] == TokenClose
    requires Render(Assemble(s, rest, m.End())) == s[m.End()..]
    ensures Render(Assemble(s, [m] + rest, from)) == s[from..]
  {
    assert ([m] + rest)[1..] == rest;
    var head := [ValuePart(s[from..m.start]), ObjectPart(Split(s[m.GroupStart()..m.groupEnd], '.'))];
    var tail := Assemble(s, rest, m.End());
    assert Assemble(s, [m] + rest, from) == head + tail;
    RenderAppend(head, tail);
    RenderMatchParts(s, from, m);
    SliceSplit(s, from, m.End(), |s|);
  }

  lemma {:induction false} RenderAssembled(s: string, from: nat)
    requires from <= |s|
    ensures Render(Assemble(s, MatchesFrom(s, from), from)) == s[from..]
    decreases |s| - from
  {
    match NextMatch(s, from)
    case None =>
      if from < |s| {
        assert Render([ValuePart(s[from..])]) == s[from..] + Render([]);
      }
    case Some(m) =>
      var rest := MatchesFrom(s, m.End());
      RenderAssembled(s, m.End());
      assert MatchesFrom(s, from) == [m] + rest;
      assert ClosesAt(s, m.start + 4, m.groupEnd);
      RenderAssembleCons(s, from, m, rest);
  }

  /** Rendering the tokenization of any string gives the string back. */
  lemma TokenizeRoundTrip(s: string)
    ensures Render(Tokenized(s)) == s
  {
    RenderAssembled(s, 0);
    assert s[0..] == s;
  }

  /** The empty string has no parts; a string with no token is a single literal part. */
  lemma TokenizeWithoutTokens(s: string)
    requires forall i :: 0 <= i <= |s| ==> !MatchesAt(s, i)
    ensures s == "" ==> Tokenized(s) == []
    ensures s != "" ==> Tokenized(s) == [ValuePart(s)]
  {
    assert NextMatch(s, 0).None?;
    assert AllMatches(s) == [];
    assert s[0..] == s;
  }

  /**
   * The parts come in pairs: match `k` contributes the literal text before it
   * and then a reference part whose path is its content split at dots and
   * whose name is the first segment.
   */
  lemma {:induction false} AssembleShape(s: string, ms: seq<Match>, last: nat, k: nat)
    requires Ordered(ms, last, |s|)
    requires k < |ms|
    ensures var before := if k == 0 then last else ms[k - 1].End();
      && before <= ms[k].start && ms[k].start + 4 <= ms[k].groupEnd && ms[k].End() <= |s|
      && |Assemble(s, ms, last)| > 2 * k + 1
      && Assemble(s, ms, last)[2 * k] == ValuePart(s[before..ms[k].start])
      && Assemble(s, ms, last)[2 * k + 1] == ObjectPart(Split(s[ms[k].GroupStart()..ms[k].groupEnd], '.'))
      && Assemble(s, ms, last)[2 * k + 1].name == Split(s[ms[k].GroupStart()..ms[k].groupEnd], '.')[0]
    decreases k
  {
    if k > 0 {
      var m := ms[0];
      AssembleShape(s, ms[1..], m.End(), k - 1);
      assert ms[1..][k - 1] == ms[k];
      if k > 1 {
        assert ms[1..][k - 2] == ms[k - 1];
      }
    }
  }

  /** The number of parts: two per match, plus one when text follows the last match. */
  lemma {:induction false} AssembleLength(s: string, ms: seq<Match>, last: nat)
    requires Ordered(ms, last, |s|)
    ensures var tailStart := if ms == [] then last else ms[|ms| - 1].End();
      |Assemble(s, ms, last)| == 2 * |ms| + (if tailStart < |s| then 1 else 0)
    decreases |ms|
  {
    if ms != [] {
      AssembleLength(s, ms[1..], ms[0].End());
      if |ms| > 1 {
        assert ms[1..][|ms| - 2] == ms[|ms| - 1];
      }
    }
  }

  // ---------------------------------------------------------------------
  // escapeNewlines
  // ---------------------------------------------------------------------

  /** strings.ReplaceAll(input, "\n", "\\n"): each newline becomes a backslash and an `n`. */
  function EscapeNewlines(input: string): (r: string)
    ensures '\n' !in r
    ensures |r| >= |input|
  {
    if input == [] then []
    else (if input[0] == '\n' then "\\n" else [input[0]]) + EscapeNewlines(input[1..])
  }

  /** A newline on its own becomes a backslash and an `n`; any other character stays as it is. */
  lemma EscapeNewlinesChar(c: char)
    ensures EscapeNewlines([c]) == if c == '\n' then "\\n" else [c]
  {
  }

  /** Escaping leaves a string without newlines unchanged. */
  lemma {:induction false} EscapeNewlinesIdentity(input: string)
    requires '\n' !in input
    ensures EscapeNewlines(input) == input
  {
    if input != [] {
      assert '\n' !in input[1..] by {
        forall i | 0 <= i < |input[1..]| ensures input[1..][i] != '\n' {
          assert input[1..][i] == input[i + 1];
        }
      }
      EscapeNewlinesIdentity(input[1..]);
      assert input == [input[0]] + input[1..];
    }
  }

  /** Escaping works character by character, so it distributes over concatenation. */
  lemma {:induction false} EscapeNewlinesAppend(a: string, b: string)
    ensures EscapeNewlines(a + b) == EscapeNewlines(a) + EscapeNewlines(b)
  {
    if a == [] {
      assert a + b == b;
    } else {
      assert (a + b)[1..] == a[1..] + b;
      EscapeNewlinesAppend(a[1..], b);
    }
  }

  // ---------------------------------------------------------------------
  // ConvertStringSliceToTypesStringSlice
  // ---------------------------------------------------------------------

  method ConvertStringSliceToTypesStringSlice(slice: seq<string>) returns (result: seq<TfString>)
    ensures |result| == |slice|
    ensures forall i :: 0 <= i < |slice| ==> result[i] == StringValue(slice[i])
  {
    var a := new TfString[|slice|](_ => StringValue(""));
    var i := 0;
    while i < |slice|
      invariant 0 <= i <= |slice|
      invariant forall j :: 0 <= j < i ==> a[j] == StringValue(slice[j])
    {
      a[i] := StringValue(slice[i]);
      i := i + 1;
    }
    result := a[..];
  }

  // ---------------------------------------------------------------------
  // formatErrorMessage, applied to an already-read, already-decoded body
  // ---------------------------------------------------------------------

  /** The `{message, meta: {errors: [{error}]}}` envelope; an absent field decodes as "". */
  datatype ErrorEnvelope = ErrorEnvelope(message: string, errors: seq<string>)

  const GenericError: string := "Error occurred"
  const CredentialFieldMarker: string := "CONNECT_CREDENTIAL_FIELD"
  const MissingCredentialMarker: string := "no ConnectCredential was supplied"
  const ConnectPortalRemediation: string :=
    "Deploy failed - userSettings field was used in the workflow meaning - you MUST go to the integration -> Test Connect Portal and perform a one time connection through the connect portal wizard, then rerun this - This is a one time manual task needed to be done."

  /** The non-empty sub-errors, in order. */
  function NonEmpty(errors: seq<string>): (r: seq<string>)
    ensures forall i :: 0 <= i < |r| ==> r[i] != ""
    ensures forall x :: x in r <==> x in errors && x != ""
  {
    if errors == [] then []
    else NonEmpty(errors[..|errors| - 1]) + (if errors[|errors| - 1] != "" then [errors[|errors| - 1]] else [])
  }

  /** Dropping the empty sub-errors keeps the order of the rest: it works piece by piece. */
  lemma {:induction false} NonEmptyAppend(a: seq<string>, b: seq<string>)
    ensures NonEmpty(a + b) == NonEmpty(a) + NonEmpty(b)
    decreases |b|
  {
    if b == [] {
      assert a + b == a;
    } else {
      var c := a + b;
      assert c[..|c| - 1] == a + b[..|b| - 1];
      assert c[|c| - 1] == b[|b| - 1];
      NonEmptyAppend(a, b[..|b| - 1]);
    }
  }

  function Headline(e: ErrorEnvelope): string
  {
    if e.message != "" then e.message else GenericError
  }

  /** The headline, then ", " and the non-empty sub-errors joined by ", " when there are any. */
  function Composed(e: ErrorEnvelope): string
  {
    var subs := NonEmpty(e.errors);
    Headline(e) + (if subs == [] then "" else ", " + Join(subs, ", "))
  }

  /**
   * formatErrorMessage: `None` stands for a body that could not be read or
   * decoded. A 400 whose composed text names both credential markers gets the
   * connect-portal remediation instead.
   */
  function ErrorMessage(statusCode: int, body: Option<ErrorEnvelope>): string
  {
    match body
    case None => GenericError
    case Some(e) =>
      var composed := Composed(e);
      if statusCode == 400 && Contains(composed, CredentialFieldMarker) && Contains(composed, MissingCredentialMarker)
      then ConnectPortalRemediation
      else composed
  }

  /** formatErrorMessage, with the loop that collects the non-empty sub-errors. */
  method FormatErrorMessage(statusCode: int, body: Option<ErrorEnvelope>) returns (errorMessage: string)
    ensures errorMessage == ErrorMessage(statusCode, body)
  {
    if body.None? {
      return GenericError;
    }
    var e := body.value;
    if e.message != "" {
      errorMessage := e.message;
    } else {
      errorMessage := GenericError;
    }
    if |e.errors| > 0 {
      var errorMessages: seq<string> := [];
      var i := 0;
      while i < |e.errors|
        invariant 0 <= i <= |e.errors|
        invariant errorMessages == NonEmpty(e.errors[..i])
      {
        assert e.errors[..i + 1][..i] == e.errors[..i];
        if e.errors[i] != "" {
          errorMessages := errorMessages + [e.errors[i]];
        }
        i := i + 1;
      }
      assert e.errors[..i] == e.errors;
      if |errorMessages| > 0 {
        errorMessage := errorMessage + ", " + Join(errorMessages, ", ");
      }
    }
    assert errorMessage == Composed(e);
    if statusCode == 400 && Contains(errorMessage, CredentialFieldMarker) && Contains(errorMessage, MissingCredentialMarker) {
      errorMessage := ConnectPortalRemediation;
    }
  }

  /**
   * Outside the remediation case, the message starts with the headline and
   * mentions every non-empty sub-error; with none it is the headline alone.
   */
  lemma ErrorMessageMentionsSubErrors(statusCode: int, e: ErrorEnvelope)
    requires ErrorMessage(statusCode, Some(e)) != ConnectPortalRemediation
    ensures var r := ErrorMessage(statusCode, Some(e));
      && |Headline(e)| <= |r| && r[..|Headline(e)|] == Headline(e)
      && (NonEmpty(e.errors) == [] ==> r == Headline(e))
      && forall x :: x in e.errors && x != "" ==> Contains(r, x)
  {
    var subs := NonEmpty(e.errors);
    var r := ErrorMessage(statusCode, Some(e));
    assert r == Composed(e);
    forall x | x in e.errors && x != "" ensures Contains(r, x) {
      assert x in subs;
      var i :| 0 <= i < |subs| && subs[i] == x;
      JoinContainsPart(subs, ", ", i);
      ContainsSuffixPart(Headline(e) + ", ", Join(subs, ", "), x);
      assert r == Headline(e) + ", " + Join(subs, ", ");
    }
  }
}
