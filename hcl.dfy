/** The interface of the HCL expression engine that the registrar and the
    file store consume. Its values, grammars, bodies and parsed files are
    opaque; its operations are functions supplied by the caller as an Engine. */
module Hcl {
  import opened Base

  /** A cty.Value. */
  type Value
  /** A cty function.Function. */
  type Func
  /** An hcldec.Spec: the grammar one block definition decodes with. */
  type Grammar
  /** An hcl.Body, possibly nil. */
  type Body
  /** A parsed *hcl.File. */
  type File

  newtype byte = x: int | 0 <= x < 256

  datatype Severity = DiagError | DiagWarning

  /** One hcl.Diagnostic; source ranges are not modelled. */
  datatype Diagnostic = Diagnostic(severity: Severity, summary: string, detail: string)

  /** hcl.Diagnostics.HasErrors: some entry has error severity. */
  predicate HasErrors(diags: seq<Diagnostic>)
    ensures HasErrors(diags) ==> diags != []
  {
    exists i :: 0 <= i < |diags| && diags[i].severity == DiagError
  }

  /** Appending diagnostics keeps every error: a concatenation has errors
      exactly when one of its parts does. */
  lemma HasErrorsConcat(a: seq<Diagnostic>, b: seq<Diagnostic>)
    ensures HasErrors(a + b) <==> HasErrors(a) || HasErrors(b)
  {
    if HasErrors(a + b) {
      var i :| 0 <= i < |a + b| && (a + b)[i].severity == DiagError;
      if i >= |a| {
        assert b[i - |a|] == (a + b)[i];
      }
    }
    if HasErrors(a) {
      var i :| 0 <= i < |a| && a[i].severity == DiagError;
      assert (a + b)[i] == a[i];
    }
    if HasErrors(b) {
      var i :| 0 <= i < |b| && b[i].severity == DiagError;
      assert (a + b)[|a| + i] == b[i];
    }
  }

  /** The variables and functions an hcl.EvalContext holds at one moment. */
  datatype Scope = Scope(variables: map<string, Value>, functions: map<string, Func>)

  /** What hcldec.PartialDecode returns: the decoded value, the residual body
      the grammar did not consume, and the diagnostics of the decode. */
  datatype Decoded = Decoded(value: Value, rest: Body, diags: seq<Diagnostic>)

  /** What hclsyntax.ParseConfig and json.Parse return. */
  datatype Parsed = Parsed(file: File, diags: seq<Diagnostic>)

  /** The foreign operations, as total functions of their inputs. */
  datatype Engine = Engine(
    partialDecode: (Body, Grammar, Scope) -> Decoded,
    mergeFiles: seq<File> -> Body,
    parseHCL: (seq<byte>, string) -> Parsed,
    parseJSON: (seq<byte>, string) -> Parsed)

  /** An *hcl.EvalContext. Go maps can be nil, so each map is optional. */
  class EvalContext {
    var variables: Option<map<string, Value>>
    var functions: Option<map<string, Func>>

    constructor (variables: Option<map<string, Value>>, functions: Option<map<string, Func>>)
      ensures this.variables == variables && this.functions == functions
    {
      this.variables := variables;
      this.functions := functions;
    }

    /** The scope an expression evaluated against this context sees; a nil map
        reads as an empty one. */
    function Current(): Scope
      reads this
    {
      Scope(variables.GetOr(map[]), functions.GetOr(map[]))
    }
  }
}
