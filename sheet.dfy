// Worksheet cell values as the Python workbook reader hands them to the
// importers, and the conversions the importers apply to them.

module Sheet {
  import opened Common

  /**
   * A cell value: empty (None), text, an integer or a float. A float cell
   * carries the text Python's `str()` gives for it, which the model takes as
   * part of the input rather than reproducing float formatting.
   */
  datatype Cell = Blank | Text(text: string) | Int(i: int) | Float(x: real, repr: string)

  /** Python truthiness of the cell value. */
  predicate Truthy(c: Cell)
  {
    match c
    case Blank => false
    case Text(t) => t != ""
    case Int(i) => i != 0
    case Float(x, _) => x != 0.0
  }

  /** `str(value)`. */
  function Str(c: Cell): string
  {
    match c
    case Blank => "None"
    case Text(t) => t
    case Int(i) => IntToString(i)
    case Float(_, r) => r
  }

  /** `str(value).strip() if value else ''`. */
  function StrippedOrEmpty(c: Cell): (s: string)
    ensures !Truthy(c) ==> s == ""
  {
    if Truthy(c) then StripPy(Str(c)) else ""
  }

  /**
   * `float(str(value).strip())` for a cell whose stripped text is `v`: a
   * numeric cell gives back its own value, text goes through the parser.
   */
  function FloatOf(c: Cell, v: string): Option<real>
  {
    match c
    case Int(i) => Some(i as real)
    case Float(x, _) => Some(x)
    case _ => PyFloat(v)
  }

  /** Python's `int(x)` on a float: truncation toward zero. */
  function TruncToInt(x: real): (n: int)
    ensures x >= 0.0 ==> 0 <= n && n as real <= x < n as real + 1.0
    ensures x < 0.0 ==> n <= 0 && n as real - 1.0 < x <= n as real
  {
    if x >= 0.0 then x.Floor else -((-x).Floor)
  }
}
