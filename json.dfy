/** The JSON values the HTTP mock server stores and answers with
    (`serde_json::Value`); numbers are kept to integers. */
module Json {
  datatype Json =
    | Null
    | Bool(b: bool)
    | Number(n: int)
    | String(s: string)
    | Array(items: seq<Json>)
    | Object(fields: map<string, Json>)
}
