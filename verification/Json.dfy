/** Decoded JSON documents. Equality stands for equality of the canonical encodings. */
module Json {

  datatype Json =
    | Null
    | Bool(b: bool)
    | Number(n: real)
    | Text(s: string)
    | Arr(items: seq<Json>)
    | Obj(fields: map<string, Json>)

  // A missing key reads as nil.
  function Get(m: map<string, Json>, key: string): Json {
    if key in m then m[key] else Null
  }

  // A failed type assertion to a map or a list yields an empty one.
  function Fields(j: Json): map<string, Json> {
    if j.Obj? then j.fields else map[]
  }

  function Items(j: Json): seq<Json> {
    if j.Arr? then j.items else []
  }

  // isVolatileManifestMetadata and isServerMetadataField list the same five keys.
  predicate ServerField(key: string) {
    key in ["resourceVersion", "uid", "managedFields", "creationTimestamp", "generation"]
  }

  // Reference definition: the keys both comparisons skip below the object at `path`.
  predicate Skipped(path: seq<string>, key: string) {
    || key == "status"
    || (path == ["metadata"] &&
        key in {"managedFields", "resourceVersion", "generation", "creationTimestamp", "uid"})
  }
}
