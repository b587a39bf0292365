/**
 * Shared vocabulary of the spreadsheet engine: grid locations, the value a cell
 * displays, the Python exceptions that a calculation can raise and the text
 * marker that each of them leaves in a cell.
 */
module Values {

  /** A `(row, col)` pair, 0-based. Rows parsed from a reference may be -1. */
  type Location = (int, int)

  datatype Option<+T> = None | Some(value: T)

  datatype Result<+T, +E> = Success(value: T) | Failure(error: E)

  /**
   * What a cell shows. Almost always text; the resolver's short-circuit for a
   * single empty reference stores the Python integer `0`, which is kept apart
   * because the prohibited-character guards skip it.
   */
  datatype SeenValue = Str(text: string) | IntZero

  /** The text `f'{value}'` gives when the value is spliced into a formula. */
  function Show(v: SeenValue): string
  {
    match v
    case Str(s) => s
    case IntZero => "0"
  }

  /** The seen value of a cell that has never been calculated. */
  const Blank: SeenValue := Str("")

  /** The three things a cell holds besides its location: `[formula, seen value, color]`. */
  datatype CellRecord = CellRecord(formula: string, seen: SeenValue, color: string)

  /** Python exception classes that can reach the handler of `calculate_cell`. */
  datatype PyError =
    | ZeroDivisionError
    | IndexError
    | SyntaxError
    | NameError
    | ValueError      // math_functions.sqrt on a negative argument
    | KeyError        // a grid lookup outside the current rows or columns
    | RecursionError  // the resolver ran out of stack
    | TypeError       // any other failure inside the expression evaluator
    | BareException   // `raise Exception`: a handler that re-raises as a plain `Exception`

  /** What Python's `eval` produced: the `str()` of its value, or an exception. */
  datatype EvalResult = Value(text: string) | Raised(error: PyError)

  const ZeroDivisionMarker := "ZeroDivision Error"
  const IndexMarker := "Index Error"
  const SyntaxMarker := "Prohibit Operator / Syntax Error"
  const NameMarker := "Name Error"
  const ErrorMarker := "Error"

  /** The marker the `except` clauses of `calculate_cell` store, in handler order. */
  function Marker(e: PyError): (m: string)
    ensures e.ZeroDivisionError? <==> m == ZeroDivisionMarker
    ensures e.IndexError? <==> m == IndexMarker
    ensures e.SyntaxError? <==> m == SyntaxMarker
    ensures e.NameError? <==> m == NameMarker
    ensures (e.ValueError? || e.KeyError? || e.RecursionError? || e.TypeError? || e.BareException?) <==> m == ErrorMarker
  {
    match e
    case ZeroDivisionError => ZeroDivisionMarker
    case IndexError => IndexMarker
    case SyntaxError => SyntaxMarker
    case NameError => NameMarker
    case _ => ErrorMarker
  }
}
