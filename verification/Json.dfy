/** Decoded JSON, as Go's encoding/json represents it with numbers kept as text. */
module Json {
  datatype Json =
    | Null
    | Bool(b: bool)
    | Number(text: string)
    | Str(s: string)
    | Arr(items: seq<Json>)
    | Obj(fields: map<string, Json>)

  /** The keys of a reference and of raw contents. */
  const REF: string := "$ref"
  const RAW: string := "$raw"
}
