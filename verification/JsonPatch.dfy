/** JSON Patch (RFC 6902) over mappings: the operations `test` (section 4.6),
    `add`, `remove` and `replace` (sections 4.1 to 4.3), applied all or nothing
    (section 5). Pointers are unescaped reference tokens; none of the modelled
    patches points into an array. */
module JsonPatch {
  import opened Json

  type Pointer = seq<string>

  datatype Op =
    | Test(path: Pointer, value: Json)
    | Add(path: Pointer, value: Json)
    | Replace(path: Pointer, value: Json)
    | Remove(path: Pointer)

  /** Put `v` at `path`; the mapping that is to hold it must exist. */
  function Put(doc: Json, path: Pointer, v: Json): Option<Json>
    decreases |path|
  {
    if path == [] then Some(v)
    else if !doc.Obj? then None
    else if |path| == 1 then Some(Obj(doc.members[path[0] := v]))
    else if path[0] !in doc.members then None
    else
      match Put(doc.members[path[0]], path[1..], v)
      case None => None
      case Some(d) => Some(Obj(doc.members[path[0] := d]))
  }

  function Delete(doc: Json, path: Pointer): Option<Json>
    decreases |path|
  {
    if path == [] || !doc.Obj? || path[0] !in doc.members then None
    else if |path| == 1 then Some(Obj(doc.members - {path[0]}))
    else
      match Delete(doc.members[path[0]], path[1..])
      case None => None
      case Some(d) => Some(Obj(doc.members[path[0] := d]))
  }

  function ApplyOp(doc: Json, op: Op): Option<Json> {
    match op
    case Test(path, value) => if Lookup(doc, path) == Some(value) then Some(doc) else None
    case Add(path, value) => Put(doc, path, value)
    case Replace(path, value) => if Lookup(doc, path).Some? then Put(doc, path, value) else None
    case Remove(path) => Delete(doc, path)
  }

  function ApplyPatch(doc: Json, ops: seq<Op>): Option<Json>
    decreases |ops|
  {
    if ops == [] then Some(doc)
    else
      match ApplyOp(doc, ops[0])
      case None => None
      case Some(d) => ApplyPatch(d, ops[1..])
  }

  lemma {:induction false} PutThenLookup(doc: Json, path: Pointer, v: Json)
    requires Put(doc, path, v).Some?
    ensures Lookup(Put(doc, path, v).value, path) == Some(v)
    decreases |path|
  {
    if |path| == 1 {
      assert path[1..] == [];
    } else if |path| > 1 {
      PutThenLookup(doc.members[path[0]], path[1..], v);
    }
  }

  lemma {:induction false} PutKeepsDiverging(doc: Json, path: Pointer, v: Json, other: Pointer)
    requires Put(doc, path, v).Some? && Diverge(path, other)
    ensures Lookup(Put(doc, path, v).value, other) == Lookup(doc, other)
    decreases |path|
  {
    assert [] <= path && [] <= other;
    assert |path| == 1 && other[0] == path[0] ==> path <= other;
    if other[0] == path[0] {
      assert path == [path[0]] + path[1..] && other == [other[0]] + other[1..];
      PutKeepsDiverging(doc.members[path[0]], path[1..], v, other[1..]);
    }
  }

  lemma {:induction false} DeleteThenLookup(doc: Json, path: Pointer)
    requires Delete(doc, path).Some?
    ensures Lookup(Delete(doc, path).value, path) == None && Lookup(doc, path).Some?
    decreases |path|
  {
    if |path| == 1 {
      assert path[1..] == [];
    } else {
      DeleteThenLookup(doc.members[path[0]], path[1..]);
    }
  }

  lemma {:induction false} DeleteKeepsDiverging(doc: Json, path: Pointer, other: Pointer)
    requires Delete(doc, path).Some? && Diverge(path, other)
    ensures Lookup(Delete(doc, path).value, other) == Lookup(doc, other)
    decreases |path|
  {
    assert [] <= path && [] <= other;
    assert |path| == 1 && other[0] == path[0] ==> path <= other;
    if other[0] == path[0] {
      assert path == [path[0]] + path[1..] && other == [other[0]] + other[1..];
      DeleteKeepsDiverging(doc.members[path[0]], path[1..], other[1..]);
    }
  }

  /** `add` succeeds exactly where the mapping that is to hold the member exists. */
  lemma {:induction false} PutSucceedsIff(doc: Json, path: Pointer, v: Json)
    requires path != []
    ensures Put(doc, path, v).Some? <==>
            var holder := Lookup(doc, path[..|path| - 1]); holder.Some? && holder.value.Obj?
    decreases |path|
  {
    if |path| == 1 {
      assert path[..0] == [];
    } else {
      assert path[1..][..|path[1..]| - 1] == path[..|path| - 1][1..];
      if doc.Obj? && path[0] in doc.members {
        PutSucceedsIff(doc.members[path[0]], path[1..], v);
      }
    }
  }

  lemma {:induction false} DeleteSucceedsIff(doc: Json, path: Pointer)
    requires path != []
    ensures Delete(doc, path).Some? <==> Lookup(doc, path).Some?
    decreases |path|
  {
    if |path| == 1 {
      assert path[1..] == [];
    } else if doc.Obj? && path[0] in doc.members {
      DeleteSucceedsIff(doc.members[path[0]], path[1..]);
    }
  }

  lemma {:induction false} LookupThrough(doc: Json, p: Pointer, q: Pointer)
    ensures Lookup(doc, p + q) == match Lookup(doc, p) case None => None case Some(d) => Lookup(d, q)
    decreases |p|
  {
    if p == [] {
      assert p + q == q;
    } else {
      assert (p + q)[1..] == p[1..] + q;
      if doc.Obj? && p[0] in doc.members {
        LookupThrough(doc.members[p[0]], p[1..], q);
      }
    }
  }

  /** `replace` applies exactly when the target exists, and then holds the value. */
  lemma ReplaceIff(doc: Json, path: Pointer, v: Json)
    ensures ApplyOp(doc, Replace(path, v)).Some? <==> Lookup(doc, path).Some?
    ensures ApplyOp(doc, Replace(path, v)).Some? ==> Lookup(ApplyOp(doc, Replace(path, v)).value, path) == Some(v)
  {
    if path != [] && Lookup(doc, path).Some? {
      var front, last := path[..|path| - 1], path[|path| - 1];
      assert path == front + [last];
      LookupThrough(doc, front, [last]);
      PutSucceedsIff(doc, path, v);
    }
    if ApplyOp(doc, Replace(path, v)).Some? {
      PutThenLookup(doc, path, v);
    }
  }

  lemma {:induction false} ApplyConcat(doc: Json, xs: seq<Op>, ys: seq<Op>)
    ensures ApplyPatch(doc, xs + ys)
            == match ApplyPatch(doc, xs) case None => None case Some(d) => ApplyPatch(d, ys)
    decreases |xs|
  {
    if xs == [] {
      assert xs + ys == ys;
    } else {
      assert (xs + ys)[1..] == xs[1..] + ys;
      match ApplyOp(doc, xs[0])
      case None =>
      case Some(d) => ApplyConcat(d, xs[1..], ys);
    }
  }

  lemma ApplyOne(doc: Json, op: Op)
    ensures ApplyPatch(doc, [op]) == ApplyOp(doc, op)
  {
  }
}
