/**
 * The Terraform plugin framework as the provider sees it: diagnostics, the
 * string map and string list attribute values, and what an operation does to
 * the stored state.
 */
module Framework {

  datatype Severity = Error | Warning

  datatype Diagnostic = Diagnostic(severity: Severity, summary: string, detail: string)

  function ErrorDiag(summary: string, detail: string): Diagnostic
  {
    Diagnostic(Error, summary, detail)
  }

  predicate HasError(diags: seq<Diagnostic>)
  {
    exists i :: 0 <= i < |diags| && diags[i].severity == Error
  }

  /** A `types.String` value. */
  datatype TfString = StringValue(value: string)

  /** A `types.Map` with string elements: null, unknown, or known. */
  datatype StringMap = MapNull | MapUnknown | MapKnown(elements: map<string, string>)

  /** A `types.List` with string elements: null, or a known list. */
  datatype StringList = ListNull | ListKnown(elements: seq<string>)

  /** What an operation leaves in the resource's stored state. */
  datatype StateChange<S> = Untouched | Stored(value: S) | Removed

  /** The diagnostics and the state change an operation reports back to the framework. */
  datatype Response<S> = Response(diags: seq<Diagnostic>, change: StateChange<S>)
}
