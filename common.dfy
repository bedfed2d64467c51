/** Shared value types: optional values, results of backend calls, and the
    JavaScript truthiness tests the components apply to ids and strings. */
module Common {

  datatype Option<+T> = None | Some(value: T)

  datatype Result<+T, +E> = Ok(value: T) | Err(error: E)

  /** A string is truthy in JavaScript exactly when it is non-empty. */
  predicate Truthy(s: string) {
    s != ""
  }

  /** `!x` is false for an optional string (`string | null | undefined`)
      only when it is present and non-empty. */
  predicate PresentAndTruthy(o: Option<string>) {
    o.Some? && Truthy(o.value)
  }

  /** A number read from a form: `None` stands for `undefined` or `NaN`
      (an unparsable input), both of which are falsy and fail every
      comparison. A present number is truthy unless it is zero. */
  predicate NumberTruthy(n: Option<real>) {
    n.Some? && n.value != 0.0
  }

  predicate NoDuplicates<T(==)>(s: seq<T>) {
    forall i, j :: 0 <= i < j < |s| ==> s[i] != s[j]
  }
}
