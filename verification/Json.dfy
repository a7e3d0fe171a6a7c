/** JSON values. A number is kept as the text `serde_json` prints for it. */
module Json {

  datatype Json =
    | Null
    | Bool(b: bool)
    | Number(text: string)
    | Text(s: string)
    | Array(items: seq<Json>)
    | Object(fields: map<string, Json>)
}
