/**
 * Go's `url.Values`, the parsed query string of a request: each key maps
 * to the list of its values in the order they appear. A key that is
 * absent and a key whose list is empty read the same to the handlers.
 */
module Url {
  import opened Base

  type Values = map<string, seq<string>>

  /** `values[key]`: the key's values, nil (empty) when the key is absent. */
  function Get(values: Values, key: string): (vs: seq<string>)
    ensures key !in values ==> vs == []
  {
    if key in values then values[key] else []
  }

  /** `values[key] != nil && len(values[key]) > 0 ? values[key][0] : nil`. */
  function First(values: Values, key: string): (r: Option<string>)
    ensures r.None? <==> Get(values, key) == []
    ensures r.Some? ==> r.value == Get(values, key)[0]
  {
    var vs := Get(values, key);
    if vs == [] then None else Some(vs[0])
  }
}
