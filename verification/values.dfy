/** Values shared by every part of the model: optional values, results of
    operations that can throw, the scalar JSON values that travel through option
    objects and workflow graphs, and thrown JavaScript values. */
module Values {

  datatype Option<+T> = None | Some(value: T)

  /** The outcome of an operation that either returns or throws. */
  datatype Result<+T, +E> = Success(value: T) | Failure(error: E)

  /** A scalar JSON/JavaScript value. `NaN` is kept apart from the other numbers
      because `--ar 0:0` produces it. Numbers are exact (no binary rounding). */
  datatype Json = Null | Bool(b: bool) | Num(n: real) | NaN | Str(s: string)

  /** A thrown value: an `Error` object with its `name` and `message`, or any
      other value, kept as its `String(...)` text. */
  datatype Exception = Error(name: string, message: string) | Thrown(text: string)

  /** `new Error(message)`. */
  function NewError(message: string): Exception
  {
    Error("Error", message)
  }

  /** `error.message || String(error)`: the text a failed job records.
      `String(e)` of an Error whose message is empty is its name. */
  function Message(e: Exception): string
  {
    match e
    case Error(name, message) => if message != "" then message else name
    case Thrown(text) => text
  }

  /** `Math.min(Math.max(v, lo), hi)`. */
  function Clamp(v: int, lo: int, hi: int): (r: int)
    requires lo <= hi
    ensures lo <= r <= hi
    ensures lo <= v <= hi ==> r == v
    ensures v < lo ==> r == lo
    ensures hi < v ==> r == hi
  {
    if v < lo then lo else if hi < v then hi else v
  }

  /** `Math.round(a / b)` for a positive divisor: the integer nearest to a/b,
      with halves rounded up (`Math.round(x)` is `floor(x + 1/2)`). */
  function RoundDiv(a: int, b: int): (r: int)
    requires b > 0
    ensures -b < 2 * (r * b - a) <= b
  {
    var q := (2 * a + b) / (2 * b);
    assert 2 * a + b == (2 * b) * q + (2 * a + b) % (2 * b);
    q
  }
}
