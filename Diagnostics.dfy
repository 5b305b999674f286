/**
 * The diagnostics of tools.mscript.ScriptingException, as values. In the program a
 * diagnostic is printed and the process exits; here it is a terminal result carrying
 * what was wrong and the severity (1 to 5) given at the point where it was raised.
 */
module Diagnostics {

  datatype ErrorKind =
    | EmptyFile                          // "Empty file"
    | MissingStart                       // "Could not find parameter `@start` ..."
    | DanglingCode(found: string)        // "Dangling code on line .. (Found: '..')"
    | DuplicateStart                     // "Found duplicate `@start` parameter ..."
    | NonExistentRootCommand(name: string)
    | UnknownAnnotation(found: string)
    | DanglingDataGroup
    | NativeError                        // a Java runtime exception caught by the catch-all

  datatype Diagnostic = Diagnostic(kind: ErrorKind, severity: int)

  /** The severity each kind of diagnostic is raised with. */
  function SeverityOf(kind: ErrorKind): (s: int)
    ensures 1 <= s <= 5
    ensures kind.DuplicateStart? || kind.DanglingDataGroup? ==> s == 1
    ensures kind.EmptyFile? || kind.DanglingCode? ==> s == 2
    ensures kind.MissingStart? || kind.NonExistentRootCommand? || kind.UnknownAnnotation? ==> s == 4
    ensures kind.NativeError? ==> s == 5
  {
    match kind
    case EmptyFile => 2
    case MissingStart => 4
    case DanglingCode(_) => 2
    case DuplicateStart => 1
    case NonExistentRootCommand(_) => 4
    case UnknownAnnotation(_) => 4
    case DanglingDataGroup => 1
    case NativeError => 5
  }

  /** A diagnostic whose severity is the one its kind is raised with. */
  predicate WellRated(d: Diagnostic) {
    d.severity == SeverityOf(d.kind)
  }
}
