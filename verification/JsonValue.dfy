/** JSON values as the validators see them after parsing. */
module JsonValue {
  import opened Prelude

  datatype Json =
    | Null | Boolean(b: bool) | Number(n: int) | Text(s: string) | Arr(items: seq<Json>) | Obj(fields: map<string, Json>)

  /** A member of an object; absent and null are the same to the reader. */
  function Field(doc: Json, name: string): Json {
    if doc.Obj? && name in doc.fields then doc.fields[name] else Null
  }

  predicate IsObject(o: Option<Json>) { o.Some? && o.value.Obj? }
}
