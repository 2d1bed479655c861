/** Values shared by every component: optional and fallible results, the
    errors the services raise, scalar metadata values and documents. */
module Common {

  datatype Option<+T> = None | Some(value: T)

  datatype Result<+T> = Ok(value: T) | Err(error: Error)

  /** The outcome of an operation that returns nothing on success. */
  datatype Outcome = Pass | Fail(error: Error)

  /** The exceptions the core raises or lets through. */
  datatype Error =
    | HttpError(status: int, detail: string)   // fastapi's HTTPException
    | ZeroDivision                             // ZeroDivisionError of a true division
    | KeyError(key: string)                    // a missing key in a dict
    | AttributeError(message: string)          // a missing attribute or method
    | Failure(message: string)                 // a plain Exception or a library error

  /** `str(e)` for each kind of error; starlette renders an HTTPException
      as "<status>: <detail>". */
  function Describe(e: Error): string
  {
    match e
    case HttpError(status, detail) => DecimalString(status) + ": " + detail
    case ZeroDivision => "division by zero"
    case KeyError(key) => "'" + key + "'"
    case AttributeError(message) => message
    case Failure(message) => message
  }

  /** A scalar metadata value as it arrives from JSON or a loader. */
  datatype Value = Null | Int(i: int) | Str(s: string)

  type Metadata = map<string, Value>

  /** A retrieved or indexed passage: its text and its metadata. */
  datatype Document = Document(content: string, metadata: Metadata)

  /** `metadata.get(key)`: the stored value, or None when the key is missing. */
  function Get(m: Metadata, key: string): (v: Value)
    ensures key in m ==> v == m[key]
    ensures key !in m ==> v == Null
  {
    if key in m then m[key] else Null
  }

  /** Python's `str(v)`, as used inside an f-string. */
  function Render(v: Value): string
  {
    match v
    case Null => "None"
    case Int(i) => DecimalString(i)
    case Str(s) => s
  }

  function Digit(d: int): (c: char)
    requires 0 <= d < 10
    ensures '0' <= c <= '9' && DigitValue(c) == d
  {
    ('0' as int + d) as char
  }

  function DigitValue(c: char): int
  {
    c as int - '0' as int
  }

  /** `int(s)` of a string of decimal digits (zero for the empty string). */
  function DigitsValue(s: string): nat
    requires forall i :: 0 <= i < |s| ==> '0' <= s[i] <= '9'
  {
    if s == [] then 0 else DigitsValue(s[..|s| - 1]) * 10 + DigitValue(s[|s| - 1])
  }

  /** `str(n)` of a natural number: its decimal digits, which read back as n. */
  function NatString(n: nat): (s: string)
    ensures |s| > 0
    ensures forall i :: 0 <= i < |s| ==> '0' <= s[i] <= '9'
    ensures DigitsValue(s) == n
  {
    if n < 10 then [Digit(n)]
    else
      var init := NatString(n / 10);
      assert (init + [Digit(n % 10)])[..|init|] == init;
      init + [Digit(n % 10)]
  }

  /** The decimal text of an integer, with a leading '-' when it is negative. */
  function DecimalString(n: int): (s: string)
    ensures |s| > 0
    ensures (s[0] == '-') <==> n < 0
    ensures forall i :: (if n < 0 then 1 else 0) <= i < |s| ==> '0' <= s[i] <= '9'
    ensures n >= 0 ==> DigitsValue(s) == n
    ensures n < 0 ==> DigitsValue(s[1..]) == -n
  {
    if n < 0 then assert ("-" + NatString(-n))[1..] == NatString(-n); "-" + NatString(-n) else NatString(n)
  }

  /** Regrouping a concatenation, for the steps the verifier does not take alone. */
  lemma AppendAssoc<T>(a: seq<T>, b: seq<T>, c: seq<T>)
    ensures (a + b) + c == a + (b + c)
  {
  }
}
