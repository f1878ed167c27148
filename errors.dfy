/** The errors the plugin throws, carrying the names and lines its messages embed. */
module Errors {
  import opened Wrappers

  /** `node.position?.start.line`; `None` is JavaScript's "line undefined". */
  type Line = Option<nat>

  datatype Error =
    /** "Incorrect format for the start block marker at line …" */
    | StartFormat(line: Line)
    /** "Incorrect format for the end block marker at line …" */
    | EndFormat(line: Line)
    /** "Unknown environment name "…" at line …" */
    | UnknownEnvironment(envName: string, line: Line)
    /** "Counter label not found for environment "…" at line …" */
    | CounterLabelNotFound(envName: string, line: Line)
    /** "Incorrect nesting of environments …": the open block (if any) and the end marker. */
    | Nesting(open: Option<(string, Line)>, envName: string, line: Line)
    /** "Empty environment block at line start-end" */
    | EmptyBlock(startLine: Line, endLine: Line)
    /** "Numbering is undefined for proof block at line …" */
    | NumberingUndefined(startLine: Line)
    /** "Proof block is empty at line …" */
    | EmptyEnvironment(startLine: Line)
    /** "parseProof called with envName … at line …" */
    | WrongEnvironment(envName: string, line: Line)
    /** "Unknown parameter "…" at line …" */
    | UnknownParameter(key: string, paramLine: int)
    /** A TypeError: iterating `options.theorem_envs!` when it is undefined. */
    | EnvironmentsUndefined
    /** A TypeError: reading a property of `undefined`, e.g. of `x[-1]`. */
    | UndefinedElement
}
