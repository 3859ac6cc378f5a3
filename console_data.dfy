/** What the screens of the admin console (frontend/src/components) share:
    the rows the list endpoints return, and the values a form field holds
    and a click produces. */
module ConsoleData {
  import opened Text

  /** An order as the list endpoint returns it. */
  datatype OrderRow = OrderRow(id: int, userId: int, productIds: Option<string>, total: int, status: string)

  /** A product as the products endpoint returns it (prices are integers here). */
  datatype Product = Product(id: int, name: string, price: int)

  /** A user as the users endpoint returns it. */
  datatype User = User(id: int, name: string, email: string)

  /** What a create or save click does: an alert and no call, or the call with its body. */
  datatype ClickResult<P> = Alert(message: string) | Call(payload: P)

  /** A field of an edit form: a number copied from the row, or a string typed in. */
  datatype FormValue = Num(n: int) | Typed(s: string)

  /** A field passes a `!value` check: it is not 0 and not "". */
  predicate FilledIn(v: FormValue) {
    match v
    case Num(n) => n != 0
    case Typed(s) => s != ""
  }

  /** `parseInt(value)`: a number as it is, a string as JavaScript reads it, NaN as None. */
  function ParseValue(v: FormValue): Option<int> {
    match v
    case Num(n) => Some(n)
    case Typed(s) => JsParseInt(s)
  }
}
