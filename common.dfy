/** Values shared by every module: an optional value, and JavaScript's notion
    of a "truthy" string for the `!x` and `x || y` guards the code relies on. */
module Common {

  /** `null` / `undefined` versus a present value. */
  datatype Option<+T> = None | Some(value: T)

  /** A possibly-missing string is truthy exactly when it is present and not
      empty (JavaScript treats `null`, `undefined` and `""` as false). */
  predicate Truthy(s: Option<string>)
  {
    s.Some? && s.value != ""
  }

  /** `a || b` on two strings: the first one if it is non-empty. */
  function OrElse(a: string, b: string): (r: string)
    ensures a != "" ==> r == a
    ensures a == "" ==> r == b
  {
    if a != "" then a else b
  }

  /** `s || null` on a possibly-missing string: empty becomes null. */
  function OrNull(s: Option<string>): (r: Option<string>)
    ensures r.Some? <==> Truthy(s)
    ensures r.Some? ==> r == s
  {
    if Truthy(s) then s else None
  }

  /** The result of a validating action: `{ success: false, error }` or the
      record it goes on to store. */
  datatype Outcome<T> = Rejected(error: string) | Accepted(value: T)
}
