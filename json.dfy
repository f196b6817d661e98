/**
 * The decoded JSON values the program handles as `interface{}`: Go's
 * `nil` (an absent value or a JSON `null`) is `Null`, and a JSON object is
 * a map from field names to values.  Numbers are integers here: the
 * float64 representation Go decodes them to is not modelled.
 */
module Json {

  datatype Json =
    | Null
    | Bool(b: bool)
    | Num(n: int)
    | Str(s: string)
    | Arr(items: seq<Json>)
    | Obj(fields: map<string, Json>)

  /** The fields of a value seen through `v.(map[string]interface{})`:
      anything that is not an object gives the nil (empty) map. */
  function Fields(v: Json): map<string, Json> {
    if v.Obj? then v.fields else map[]
  }

  /** `either`: the value under the first of `keys` that `m` holds, or
      `Null` when it holds none of them. */
  function Either(m: map<string, Json>, keys: seq<string>): (v: Json)
    ensures (forall i | 0 <= i < |keys| :: keys[i] !in m) ==> v == Null
    ensures forall i | 0 <= i < |keys| && keys[i] in m ::
              (forall j | 0 <= j < i :: keys[j] !in m) ==> v == m[keys[i]]
  {
    if |keys| == 0 then Null
    else if keys[0] in m then m[keys[0]]
    else Either(m, keys[1..])
  }
}
