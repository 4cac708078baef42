/**
 Python values as they appear in the plugin's dictionaries: the download
 state, the replies of the plugin entry points and the HTTP result records.
 */
module Values {

  datatype Value =
    | VStr(s: string)
    | VInt(i: int)
    | VBool(b: bool)
    | VNull
    | VStrs(items: seq<string>)
    | VBytes(bytes: seq<bv8>)
    | VObj(fields: map<string, Value>)

  /** A Python `dict` with string keys. */
  type Fields = map<string, Value>

  /** `d.get(k) == v` for a key that is present. */
  predicate Has(d: Fields, k: string, v: Value)
  {
    k in d && d[k] == v
  }
}
