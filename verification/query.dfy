/** JavaScript values as they arrive in query strings and JSON bodies. */
module Query {

  /** A string parameter: absent (`undefined` or `null`) or present. */
  datatype Param = Absent | Given(text: string)

  /** JavaScript truthiness of a string parameter: present and non-empty. */
  predicate Truthy(p: Param)
  {
    p.Given? && p.text != ""
  }

  /** The number `parseInt` returns: `NaN` or an integer. */
  datatype JsInt = NaN | Int(value: int)

  /** JavaScript truthiness of an integer: neither `NaN` nor zero. */
  predicate IntTruthy(n: JsInt)
  {
    n.Int? && n.value != 0
  }

  /** A numeric query parameter after `parseInt`. `Omitted` means the key was
      absent, so the handler's destructuring default applies. */
  datatype NumParam = Omitted | Parsed(n: JsInt)

  /** `parseInt(p)` where `p` falls back to `default` when absent. */
  function ParamValue(p: NumParam, default: int): JsInt
  {
    match p
    case Omitted => Int(default)
    case Parsed(n) => n
  }

  /** `isNaN(n) || n < 1`: the page check shared by the NEO and rover routes. */
  predicate BadPage(n: JsInt)
  {
    n.NaN? || n.value < 1
  }

  /** The number `parseFloat` returns: `NaN` or a finite value. */
  datatype Num = NotANumber | Finite(value: real)

  /** `x < c`, false when `x` is `NaN`. */
  predicate LessThan(x: Num, c: real)
  {
    x.Finite? && x.value < c
  }
}
