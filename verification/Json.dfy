/** Finite JSON/YAML trees: the values the configuration files, the Kubernetes
    node record and the catalog document are made of. Mapping keys are strings;
    key order is not part of a value. */
module Json {

  datatype Json =
    | Null
    | Bool(b: bool)
    | Num(n: int)
    | Str(s: string)
    | Arr(items: seq<Json>)
    | Obj(members: Dict)

  type Dict = map<string, Json>

  datatype Option<+T> = None | Some(value: T)

  datatype Result<+T, +E> = Ok(value: T) | Err(error: E)

  /** The value at `path`, walking down mappings only. */
  function Lookup(doc: Json, path: seq<string>): Option<Json> {
    if path == [] then Some(doc)
    else if doc.Obj? && path[0] in doc.members then Lookup(doc.members[path[0]], path[1..])
    else None
  }

  /** Neither path leads through the other. */
  predicate Diverge(p: seq<string>, q: seq<string>) {
    !(p <= q) && !(q <= p)
  }

  lemma DivergeBelow(p: seq<string>, q: seq<string>, other: seq<string>)
    requires Diverge(p, other) && p <= q
    ensures Diverge(q, other)
  {
  }
}
