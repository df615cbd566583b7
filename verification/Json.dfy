/** JSON documents as the operation receipts carry them. */
module Json {
  import opened Options

  datatype Json =
    | Null
    | Bool(flag: bool)
    | Number(value: int)
    | Text(text: string)
    | List(items: seq<Json>)
    | Object(fields: Fields)

  type Fields = map<string, Json>

  /** The entry when it is a JSON object: `isinstance(fields.get(name), Mapping)`. */
  function ObjectAt(fields: Fields, name: string): Option<Fields> {
    if name in fields && fields[name].Object? then Some(fields[name].fields) else None
  }
}
