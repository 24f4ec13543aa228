/** JSON values as they travel in socket payloads and response bodies. */
module Json {

  datatype Value =
    | Null
    | Bool(b: bool)
    | Num(n: int)
    | Str(s: string)
    | Arr(items: seq<Value>)
    | Obj(fields: map<string, Value>)

  /** A plain JavaScript object, such as the body of a `webrtc-signal` message. */
  type Object = map<string, Value>

  /** The object spread `{ ...o, [key]: v }`: every field of `o`, with `key` set to `v`. */
  function SpreadWith(o: Object, key: string, v: Value): (r: Object)
    ensures r.Keys == o.Keys + {key}
    ensures r[key] == v
    ensures forall k :: k in o && k != key ==> r[k] == o[k]
  {
    o[key := v]
  }
}
