/** JSON values; the order of an object's members means nothing. */
module Json {
  datatype Value =
    | Null
    | Bool(b: bool)
    | Number(digits: string)
    | Str(s: string)
    | Array(items: seq<Value>)
    | Object(fields: seq<Field>)

  datatype Field = Field(key: string, value: Value)
}
