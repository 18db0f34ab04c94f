/** What the services share: JavaScript's optional values, the
    `{ erro }`-or-value results the services return, the truthiness test
    applied to request fields, and `Array.prototype.findIndex`. */
module Base {

  datatype Option<+T> = None | Some(value: T)

  /** A service result: the value it returns, or the `erro` message. */
  datatype Outcome<+T> = Ok(value: T) | Err(error: string)

  /** A field of a request body: absent (`undefined`) or a string. */
  type Field = Option<string>

  /** JavaScript truthiness of a field: `!f` is false exactly when this holds. */
  predicate Filled(f: Field) {
    f.Some? && f.value != ""
  }

  /** `Array.prototype.findIndex`: the position of the first element
      satisfying `p`, or None where the source gets -1 (and `find` gets
      `undefined`). */
  function FindIndex<T>(s: seq<T>, p: T -> bool): (r: Option<nat>)
    ensures r.Some? ==> r.value < |s| && p(s[r.value])
    ensures r.Some? ==> forall j :: 0 <= j < r.value ==> !p(s[j])
    ensures r.None? ==> forall j :: 0 <= j < |s| ==> !p(s[j])
  {
    if |s| == 0 then None
    else if p(s[0]) then Some(0)
    else match FindIndex(s[1..], p)
      case None => None
      case Some(i) => Some(i + 1)
  }
}
