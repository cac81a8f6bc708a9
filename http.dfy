/**
 * The parts of an HTTP request the controller and guards read: a query
 * parameter or cookie as Express parses it.
 */
module Http {
  /**
   * A parsed query-string or cookie value: missing, a plain string, or an
   * array or object (`?redirect[a]=b`, `?redirect=a&redirect=b`, a `j:` JSON
   * cookie). A structured value is truthy whatever it holds; `rendered` is
   * what a template literal makes of it.
   */
  datatype QueryValue = Absent | Text(value: string) | Structured(rendered: string)

  /** JavaScript truthiness of the value: a non-empty string, or any array or object. */
  predicate IsTruthy(v: QueryValue) {
    (v.Text? && v.value != []) || v.Structured?
  }

  /** The value as a template literal writes it (`${v}`), for a truthy value. */
  function Render(v: QueryValue): (r: string)
    requires IsTruthy(v)
  {
    if v.Text? then v.value else v.rendered
  }
}
