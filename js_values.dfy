/** The few JavaScript value rules the components rely on: optional
    fields, truthiness of strings, the `||` fallback and array indexing
    that yields `undefined` past the end. */
module JsValues {

  /** An optional value: a field marked `?` in a TypeScript type, or `null`. */
  datatype Option<+T> = None | Some(value: T)

  /** A string-valued field is truthy when it is present and not empty. */
  predicate Truthy(o: Option<string>) {
    o.Some? && o.value != ""
  }

  /** `o || fallback` for an optional string. */
  function OrElse(o: Option<string>, fallback: string): (r: string)
    ensures Truthy(o) ==> r == o.value
    ensures !Truthy(o) ==> r == fallback
    ensures fallback != "" ==> r != ""
  {
    if Truthy(o) then o.value else fallback
  }

  /** `s[i]` on a JavaScript array: `undefined` (None) outside the bounds. */
  function At<T>(s: seq<T>, i: int): (r: Option<T>)
    ensures r.Some? <==> 0 <= i < |s|
    ensures r.Some? ==> r.value == s[i]
  {
    if 0 <= i < |s| then Some(s[i]) else None
  }
}
