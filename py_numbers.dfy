/**
 * The two kinds of number a cost can be while the Python code runs: a `float`
 * the code computed itself, or the `decimal.Decimal` the database driver
 * returns for a DECIMAL column. Python refuses to mix the two in arithmetic
 * (TypeError), which the operations below return as None.
 */
module PyNumbers {
  import opened Wrappers

  datatype PyNumber = PyFloat(value: real) | PyDecimal(value: real)

  predicate SameKind(a: PyNumber, b: PyNumber)
  {
    a.PyFloat? == b.PyFloat?
  }

  /** `a + b`. */
  function Add(a: PyNumber, b: PyNumber): (r: Option<PyNumber>)
    ensures r.Some? <==> SameKind(a, b)
  {
    if !SameKind(a, b) then None
    else if a.PyFloat? then Some(PyFloat(a.value + b.value))
    else Some(PyDecimal(a.value + b.value))
  }

  /** `a * b`. */
  function Mul(a: PyNumber, b: PyNumber): (r: Option<PyNumber>)
    ensures r.Some? <==> SameKind(a, b)
  {
    if !SameKind(a, b) then None
    else if a.PyFloat? then Some(PyFloat(a.value * b.value))
    else Some(PyDecimal(a.value * b.value))
  }
}
