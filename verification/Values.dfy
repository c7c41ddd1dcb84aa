/** The JavaScript values that flow through a graph run: node results, shared
    state entries and JSON Schema documents. Objects are unordered maps; numbers
    are integers, because no modelled code computes with them. */
module Values {
  datatype Value =
    | Undefined
    | Null
    | Bool(b: bool)
    | Num(n: int)
    | Str(s: string)
    | Arr(items: seq<Value>)
    | Obj(fields: map<string, Value>)

  datatype Option<+T> = None | Some(value: T)
}
