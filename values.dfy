/** JavaScript value conventions the admin panel relies on: optional
    fields, strings-or-numbers coming back from the server, and the
    "falsy" test behind every `x || default` in the components. */
module Values {

  datatype Option<+T> = None | Some(value: T)

  /** A scalar field of a server document or of a form row: the server
      may send a string or a number, the form always stores strings. */
  datatype Scalar = Str(s: string) | Num(n: real)

  /** `!!v` for a scalar: the empty string and the number 0 are falsy. */
  predicate ScalarTruthy(v: Scalar)
  {
    match v
    case Str(s) => s != ""
    case Num(n) => n != 0.0
  }

  /** `!!v` for an optional scalar: a missing field is falsy too. */
  predicate Truthy(v: Option<Scalar>)
  {
    v.Some? && ScalarTruthy(v.value)
  }

  /** `!!s` for an optional string field. */
  predicate StrTruthy(s: Option<string>)
  {
    s.Some? && s.value != ""
  }

  /** `s || ""` for an optional string field. */
  function OrEmpty(s: Option<string>): (r: string)
    ensures StrTruthy(s) ==> r == s.value
    ensures !StrTruthy(s) ==> r == ""
  {
    match s
    case Some(v) => v
    case None => ""
  }

  /** `v || ""` for an optional scalar: a falsy value becomes the empty string. */
  function ScalarOrEmpty(v: Option<Scalar>): (r: Scalar)
    ensures Truthy(v) ==> r == v.value
    ensures !Truthy(v) ==> r == Str("")
  {
    if Truthy(v) then v.value else Str("")
  }
}
