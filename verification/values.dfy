/** Unstructured values: what the fields of a custom resource (a caching policy,
    an SNI policy) decode to, and what an SNI file entry holds. */
module Values {
  import opened Wrappers

  datatype Value =
    | VString(s: string)
    | VNumber(n: int)
    | VBool(b: bool)
    | VList(items: seq<Value>)
    | VMap(fields: map<string, Value>)

  /** `m[k].(string)`: the field when it is present and a string. */
  function StringField(m: map<string, Value>, k: string): Option<string> {
    if k in m && m[k].VString? then Some(m[k].s) else None
  }

  /** `NestedMap(m, k)`: the field when it is present and a map. */
  function MapField(m: map<string, Value>, k: string): Option<map<string, Value>> {
    if k in m && m[k].VMap? then Some(m[k].fields) else None
  }
}
