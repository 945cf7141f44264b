/** Optional values, results of steps that may throw, and the JavaScript
    `||` on strings, which the relay uses for every default it applies. */
module Results {

  /** A JSON field that may be missing (`undefined`) or present. */
  datatype Option<+T> = None | Some(value: T)

  /** The outcome of a step that may throw: a value, or the kind of error raised. */
  datatype Result<+T> = Ok(value: T) | Err(error: string)

  /** The error JavaScript raises when a property of `null` is read. */
  const TypeError: string := "TypeError"

  /** JavaScript truthiness of an optional string: present and non-empty. */
  predicate Truthy(s: Option<string>)
  {
    s.Some? && s.value != ""
  }

  /** `a || b` where `a` is an optional string and `b` a string: the first
      operand when it is truthy, the second otherwise. */
  function OrElse(a: Option<string>, b: string): (r: string)
    ensures Truthy(a) ==> r == a.value
    ensures !Truthy(a) ==> r == b
    ensures r == "" ==> !Truthy(a) && b == ""
  {
    if Truthy(a) then a.value else b
  }
}
