/** The values of a JSON request body as the two Python services read them:
    Python's truthiness and `int()` applied to a JSON scalar. */
module RequestValues {
  import opened Text

  /** A JSON scalar of a request body: absent or null, a number, or a string. */
  datatype Json = JNull | JInt(n: int) | JStr(s: string)

  /** Python truthiness of a JSON scalar. */
  predicate Truthy(j: Json) {
    match j
    case JNull => false
    case JInt(n) => n != 0
    case JStr(s) => s != ""
  }

  /** What Python's `int(x)` does with a JSON scalar. */
  datatype IntConv = IsInt(n: int) | ValueError | TypeError

  function PyIntOf(j: Json): (r: IntConv)
    ensures j.JInt? ==> r == IsInt(j.n)
    ensures j.JNull? ==> r == TypeError
    ensures j.JStr? ==> (r.IsInt? <==> PyInt(j.s).Some?)
  {
    match j
    case JNull => TypeError
    case JInt(n) => IsInt(n)
    case JStr(s) => if PyInt(s).Some? then IsInt(PyInt(s).value) else ValueError
  }
}
