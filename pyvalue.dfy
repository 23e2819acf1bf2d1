/**
 * The scalar JSON values the command file can hold, as Python sees them after json.load:
 * None (JSON null), bool, int, float (finite) and str, with Python's `==` and truthiness.
 */
module PyValue {

  datatype PyVal = PyNone | PyBool(b: bool) | PyInt(i: int) | PyFloat(x: real) | PyStr(s: string)

  /**
   * bool is a subclass of int in Python, and int and float compare by value: True == 1 == 1.0
   * and False == 0 == 0.0.
   */
  predicate IsNumeric(v: PyVal) {
    v.PyBool? || v.PyInt? || v.PyFloat?
  }

  function NumericValue(v: PyVal): real
    requires IsNumeric(v)
  {
    if v.PyBool? then (if v.b then 1.0 else 0.0) else if v.PyInt? then v.i as real else v.x
  }

  /** Python's `==` on these values. */
  predicate PyEq(a: PyVal, b: PyVal) {
    if IsNumeric(a) && IsNumeric(b) then NumericValue(a) == NumericValue(b) else a == b
  }

  /** Python's truth value. */
  predicate PyTruthy(v: PyVal) {
    match v
    case PyNone => false
    case PyBool(b) => b
    case PyInt(i) => i != 0
    case PyFloat(x) => x != 0.0
    case PyStr(s) => s != ""
  }

  function DigitChar(d: nat): (c: char)
    requires d < 10
    ensures '0' <= c <= '9'
  {
    "0123456789"[d]
  }

  /** The decimal digits of a natural number, most significant first. */
  function Digits(n: nat): (r: string)
    ensures |r| >= 1
    ensures forall k :: 0 <= k < |r| ==> '0' <= r[k] <= '9'
    decreases n
  {
    if n < 10 then [DigitChar(n)] else Digits(n / 10) + [DigitChar(n % 10)]
  }

  /**
   * Python's str() of these values; `floatRepr` stands for the shortest round-tripping text
   * Python gives a float (such as "1.0" or "1e+16").
   */
  function Str(v: PyVal, floatRepr: real -> string): (r: string)
    ensures v.PyStr? ==> r == v.s
    ensures v.PyFloat? ==> r == floatRepr(v.x)
    ensures v.PyBool? ==> r == (if v.b then "True" else "False")
    ensures v.PyNone? ==> r == "None"
    ensures v.PyInt? ==> r != [] && (r[0] == '-' <==> v.i < 0)
  {
    match v
    case PyNone => "None"
    case PyBool(b) => if b then "True" else "False"
    case PyInt(i) => if i < 0 then "-" + Digits(-i) else Digits(i)
    case PyFloat(x) => floatRepr(x)
    case PyStr(s) => s
  }

  lemma PyEqReflexive(a: PyVal)
    ensures PyEq(a, a)
  {
  }

  /**
   * `==` identifies True with 1 and with 1.0, so an edge from true to 1 or 1.0 is not a change;
   * None equals no number, and a string equals no number either.
   */
  lemma TrueEqualsOne()
    ensures PyEq(PyBool(true), PyInt(1)) && !PyEq(PyBool(true), PyInt(2))
    ensures PyEq(PyBool(true), PyFloat(1.0)) && PyEq(PyInt(0), PyFloat(0.0))
    ensures !PyEq(PyInt(1), PyFloat(1.5))
    ensures !PyEq(PyNone, PyBool(false)) && !PyEq(PyStr("1"), PyInt(1))
  {
  }
}
