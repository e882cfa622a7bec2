/** `apply_set_value`: setting one dotted path in a nested dict, in place.

    Dicts are objects: an entry either holds a plain value or refers to another
    dict. `ConfigStore` keeps every dict object, addressed by its index; the
    shape of a tree of dicts says which object sits at which path. */
module ConfigSet {
  import opened Json
  import opened ConfigMerge

  // ---- The value-level meaning ----

  /** The mapping found under `k`, or an empty one when there is none to walk into. */
  function SubDict(doc: Dict, k: string): Dict {
    if k in doc && doc[k].Obj? then doc[k].members else map[]
  }

  function SetPath(doc: Dict, path: seq<string>, v: Json): Dict
    requires path != []
    decreases |path|
  {
    if |path| == 1 then doc[path[0] := v]
    else doc[path[0] := Obj(SetPath(SubDict(doc, path[0]), path[1..], v))]
  }

  lemma {:induction false} SetThenLookup(doc: Dict, path: seq<string>, v: Json)
    requires path != []
    ensures Lookup(Obj(SetPath(doc, path, v)), path) == Some(v)
    decreases |path|
  {
    if |path| > 1 {
      SetThenLookup(SubDict(doc, path[0]), path[1..], v);
    } else {
      assert path[1..] == [];
    }
  }

  lemma {:induction false} SetKeepsDivergingPaths(doc: Dict, path: seq<string>, v: Json, other: seq<string>)
    requires path != [] && Diverge(path, other)
    ensures Lookup(Obj(SetPath(doc, path, v)), other) == Lookup(Obj(doc), other)
    decreases |path|
  {
    assert [] <= path && [] <= other;
    assert |path| == 1 && other[0] == path[0] ==> path <= other;
    if other[0] == path[0] {
      assert path == [path[0]] + path[1..] && other == [other[0]] + other[1..];
      SetKeepsDivergingPaths(SubDict(doc, path[0]), path[1..], v, other[1..]);
      assert [] <= path[1..];
    }
  }

  /** The mapping that sets this one path and nothing else. */
  function OnePath(path: seq<string>, v: Json): Dict
    requires path != []
    decreases |path|
  {
    if |path| == 1 then map[path[0] := v] else map[path[0] := Obj(OnePath(path[1..], v))]
  }

  /** Setting a path is merging the one-path mapping, unless a mapping replaces a
      mapping that has something the new one lacks. */
  lemma {:induction false} SetIsMergeIff(doc: Dict, path: seq<string>, v: Json)
    requires path != []
    ensures var there := Lookup(Obj(doc), path);
            SetPath(doc, path, v) == Merge(doc, OnePath(path, v))
            <==> (v.Obj? && there.Some? && there.value.Obj? ==> Covered(there.value.members, v.members))
    decreases |path|
  {
    var k, rest := path[0], path[1..];
    var set1, merged := SetPath(doc, path, v), Merge(doc, OnePath(path, v));
    assert merged[k] == MergeAt(doc, OnePath(path, v), k);
    forall q | q in doc && q != k ensures merged[q] == doc[q] {
      assert merged[q] == MergeAt(doc, OnePath(path, v), q);
    }
    assert set1.Keys == merged.Keys;
    assert set1 == merged <==> set1[k] == merged[k] by {
      if set1[k] == merged[k] {
        forall q | q in set1 ensures set1[q] == merged[q] {
        }
      }
    }
    if |path| == 1 {
      assert rest == [];
      if k in doc && doc[k].Obj? && v.Obj? {
        MergeAbsorbsIff(doc[k].members, v.members);
      }
    } else if k in doc && doc[k].Obj? {
      SetIsMergeIff(doc[k].members, rest, v);
    } else {
      SetIsMergeIff(map[], rest, v);
      MergeWithEmpty(OnePath(rest, v));
    }
  }

  /** An empty mapping set over a non-empty one empties it; merged over it, it changes nothing. */
  lemma SetIsNotMerge()
    ensures exists doc: Dict, path: seq<string>, v: Json ::
              path != [] && SetPath(doc, path, v) != Merge(doc, OnePath(path, v))
  {
    var doc: Dict, path := map["k" := Obj(map["x" := Null])], ["k"];
    assert path[1..] == [];
    assert Lookup(Obj(doc), path) == Some(doc["k"]);
    assert "x" in doc["k"].members;
    SetIsMergeIff(doc, path, Obj(map[]));
    assert SetPath(doc, path, Obj(map[])) != Merge(doc, OnePath(path, Obj(map[])));
  }

  /** A value that is not a mapping always merges the way it is set. */
  lemma SetPlainValueIsMerge(doc: Dict, path: seq<string>, v: Json)
    requires path != [] && !v.Obj?
    ensures SetPath(doc, path, v) == Merge(doc, OnePath(path, v))
  {
    SetIsMergeIff(doc, path, v);
  }

  /** The mapping at a path that leads through mappings only. */
  predicate HasDictAt(doc: Dict, path: seq<string>)
    decreases |path|
  {
    path == [] || (path[0] in doc && doc[path[0]].Obj? && HasDictAt(doc[path[0]].members, path[1..]))
  }

  function DictAt(doc: Dict, path: seq<string>): Dict
    requires HasDictAt(doc, path)
    decreases |path|
  {
    if path == [] then doc else DictAt(doc[path[0]].members, path[1..])
  }

  function PutDict(doc: Dict, path: seq<string>, d: Dict): Dict
    requires HasDictAt(doc, path)
    decreases |path|
  {
    if path == [] then d else doc[path[0] := Obj(PutDict(doc[path[0]].members, path[1..], d))]
  }

  lemma {:induction false} SetBelow(doc: Dict, p: seq<string>, q: seq<string>, v: Json)
    requires HasDictAt(doc, p) && q != []
    ensures SetPath(doc, p + q, v) == PutDict(doc, p, SetPath(DictAt(doc, p), q, v))
    decreases |p|
  {
    if p == [] {
      assert p + q == q;
    } else {
      assert (p + q)[1..] == p[1..] + q;
      SetBelow(doc[p[0]].members, p[1..], q, v);
    }
  }

  lemma {:induction false} PutThenAt(doc: Dict, p: seq<string>, d: Dict, e: Dict)
    requires HasDictAt(doc, p)
    ensures HasDictAt(PutDict(doc, p, d), p) && DictAt(PutDict(doc, p, d), p) == d
    ensures PutDict(PutDict(doc, p, d), p, e) == PutDict(doc, p, e)
    decreases |p|
  {
    if p != [] {
      PutThenAt(doc[p[0]].members, p[1..], d, e);
    }
  }

  lemma MissingDictIsEmpty(doc: Dict, path: seq<string>, i: nat, v: Json)
    requires i < |path| - 1 && HasDictAt(doc, path[..i])
    requires var d := DictAt(doc, path[..i]); path[i] in d ==> !d[path[i]].Obj?
    ensures var d := DictAt(doc, path[..i]);
            SetPath(PutDict(doc, path[..i], d[path[i] := Obj(map[])]), path, v) == SetPath(doc, path, v)
  {
    var p, q := path[..i], path[i..];
    var d := DictAt(doc, p);
    var d' := d[path[i] := Obj(map[])];
    assert p + q == path;
    SetBelow(doc, p, q, v);
    PutThenAt(doc, p, d', SetPath(d', q, v));
    SetBelow(PutDict(doc, p, d'), p, q, v);
    assert SetPath(d', q, v) == SetPath(d, q, v);
  }

  // ---- Dict objects ----

  datatype Entry = Plain(v: Json) | Link(id: nat)

  type Node = map<string, Entry>

  type Path = seq<string>

  /** Which dict object sits at each path that leads to one. */
  type Layout = map<Path, nat>

  /** The entry under `k` of the object at `p`: a link leads to the object laid
      out at `p + [k]`, a plain value is not a mapping and nothing lies below it. */
  ghost predicate Fits(nodes: seq<Node>, at: Layout, p: Path, k: string)
    requires p in at && at[p] < |nodes| && k in nodes[at[p]]
  {
    match nodes[at[p]][k]
    case Plain(v) => !v.Obj? && p + [k] !in at
    case Link(id) => p + [k] in at && at[p + [k]] == id
  }

  /** The object at `p` is in place: a real object, linked from its parent, and at no other path. */
  ghost predicate InPlace(nodes: seq<Node>, at: Layout, p: Path)
    requires p in at
  {
    && at[p] < |nodes|
    && (p != [] ==> Parent(p) in at && at[Parent(p)] < |nodes| && p[|p| - 1] in nodes[at[Parent(p)]])
  }

  ghost predicate Distinct(at: Layout, p: Path, q: Path)
    requires p in at && q in at
  {
    p != q ==> at[p] != at[q]
  }

  /** The objects form a tree laid out as `at`. */
  ghost predicate Wired(nodes: seq<Node>, at: Layout) {
    && [] in at
    && (forall p {:trigger InPlace(nodes, at, p)} | p in at :: InPlace(nodes, at, p))
    && (forall p, q {:trigger Distinct(at, p, q)} | p in at && q in at :: Distinct(at, p, q))
    && (forall p, k {:trigger Fits(nodes, at, p, k)} | p in at && at[p] < |nodes| && k in nodes[at[p]] ::
          Fits(nodes, at, p, k))
  }

  function Parent(p: Path): Path
    requires p != []
  {
    p[..|p| - 1]
  }

  ghost function Below(at: Layout, p: Path): set<Path> {
    set q | q in at && p <= q
  }

  lemma BelowShrinks(at: Layout, p: Path, k: string)
    requires p in at && p + [k] in at
    ensures Below(at, p + [k]) < Below(at, p)
  {
    assert p in Below(at, p) && p !in Below(at, p + [k]);
    assert forall q | q in Below(at, p + [k]) :: p <= p + [k] <= q;
  }

  /** The mapping that the dict object at `p` stands for. */
  ghost function Value(nodes: seq<Node>, at: Layout, p: Path): Dict
    requires Wired(nodes, at) && p in at
    decreases Below(at, p)
  {
    assert InPlace(nodes, at, p);
    map k | k in nodes[at[p]] ::
      assert Fits(nodes, at, p, k);
      if nodes[at[p]][k].Link? then (BelowShrinks(at, p, k); Obj(Value(nodes, at, p + [k]))) else nodes[at[p]][k].v
  }

  /** The same entries at `p` here and at `p'` there, as far as plain values go. */
  ghost predicate SameEntries(nodes: seq<Node>, at: Layout, p: Path, nodes': seq<Node>, at': Layout, p': Path) {
    p in at && at[p] < |nodes| ==>
      && p' in at' && at'[p'] < |nodes'|
      && nodes'[at'[p']].Keys == nodes[at[p]].Keys
      && (forall k | k in nodes[at[p]] ::
            nodes'[at'[p']][k].Link? == nodes[at[p]][k].Link? &&
            (nodes[at[p]][k].Plain? ==> nodes'[at'[p']][k] == nodes[at[p]][k]))
  }

  /** Two heaps with the same tree below `p` here and `p'` there. */
  ghost predicate SameBelow(nodes: seq<Node>, at: Layout, p: Path, nodes': seq<Node>, at': Layout, p': Path) {
    forall r {:trigger SameEntries(nodes, at, p + r, nodes', at', p' + r)} ::
      SameEntries(nodes, at, p + r, nodes', at', p' + r)
  }

  lemma SameBelowStep(nodes: seq<Node>, at: Layout, p: Path, nodes': seq<Node>, at': Layout, p': Path, k: string)
    requires SameBelow(nodes, at, p, nodes', at', p')
    ensures SameBelow(nodes, at, p + [k], nodes', at', p' + [k])
    ensures SameEntries(nodes, at, p, nodes', at', p')
  {
    assert p + [] == p && p' + [] == p';
    assert SameEntries(nodes, at, p + [], nodes', at', p' + []);
    forall r ensures SameEntries(nodes, at, (p + [k]) + r, nodes', at', (p' + [k]) + r) {
      assert (p + [k]) + r == p + ([k] + r) && (p' + [k]) + r == p' + ([k] + r);
      assert SameEntries(nodes, at, p + ([k] + r), nodes', at', p' + ([k] + r));
    }
  }

  lemma {:induction false} SameBelowSameValue(
      nodes: seq<Node>, at: Layout, p: Path, nodes': seq<Node>, at': Layout, p': Path)
    requires Wired(nodes, at) && Wired(nodes', at') && p in at && p' in at'
    requires SameBelow(nodes, at, p, nodes', at', p')
    ensures Value(nodes', at', p') == Value(nodes, at, p)
    decreases Below(at, p)
  {
    assert InPlace(nodes, at, p) && InPlace(nodes', at', p');
    SameBelowStep(nodes, at, p, nodes', at', p', "");
    var l, r := Value(nodes', at', p'), Value(nodes, at, p);
    forall k | k in nodes[at[p]] ensures l[k] == r[k] {
      assert Fits(nodes, at, p, k) && Fits(nodes', at', p', k);
      if nodes[at[p]][k].Link? {
        BelowShrinks(at, p, k);
        SameBelowStep(nodes, at, p, nodes', at', p', k);
        SameBelowSameValue(nodes, at, p + [k], nodes', at', p' + [k]);
      }
    }
  }

  /** The object at `q` is the same in both heaps. */
  ghost predicate SameObject(nodes: seq<Node>, at: Layout, nodes': seq<Node>, at': Layout, q: Path) {
    (q in at <==> q in at') &&
    (q in at && at[q] < |nodes| ==> at'[q] == at[q] && at[q] < |nodes'| && nodes'[at[q]] == nodes[at[q]])
  }

  /** Except at and below `p`, the two heaps agree. */
  ghost predicate SameOutside(nodes: seq<Node>, at: Layout, nodes': seq<Node>, at': Layout, p: Path) {
    forall q {:trigger SameObject(nodes, at, nodes', at', q)} | !(p <= q) :: SameObject(nodes, at, nodes', at', q)
  }

  /** Changing what sits at and below `p` puts the new mapping there and nothing else. */
  lemma {:induction false} ChangeAt(nodes: seq<Node>, at: Layout, nodes': seq<Node>, at': Layout, p: Path, i: nat)
    requires Wired(nodes, at) && Wired(nodes', at') && SameOutside(nodes, at, nodes', at', p)
    requires p in at && p in at' && i <= |p|
    ensures p[..i] in at && p[..i] in at'
    ensures HasDictAt(Value(nodes, at, p[..i]), p[i..])
    ensures DictAt(Value(nodes, at, p[..i]), p[i..]) == Value(nodes, at, p)
    ensures Value(nodes', at', p[..i]) == PutDict(Value(nodes, at, p[..i]), p[i..], Value(nodes', at', p))
    decreases |p| - i
  {
    if i == |p| {
      assert p[..i] == p && p[i..] == [];
    } else {
      var q, k := p[..i], p[i];
      ChangeAt(nodes, at, nodes', at', p, i + 1);
      assert q + [k] == p[..i + 1] && Parent(p[..i + 1]) == q;
      assert InPlace(nodes, at, q + [k]) && InPlace(nodes', at', q + [k]);
      assert p[i..][1..] == p[i + 1..];
      assert SameObject(nodes, at, nodes', at', q);
      assert Fits(nodes, at, q, k) && Fits(nodes', at', q, k);
      var l, r := Value(nodes', at', q), Value(nodes, at, q);
      assert l.Keys == r.Keys;
      forall j | j in r && j != k ensures l[j] == r[j] {
        OtherEntryUnchanged(nodes, at, nodes', at', p, i, j);
      }
    }
  }

  lemma OtherEntryUnchanged(nodes: seq<Node>, at: Layout, nodes': seq<Node>, at': Layout, p: Path, i: nat, j: string)
    requires Wired(nodes, at) && Wired(nodes', at') && SameOutside(nodes, at, nodes', at', p)
    requires i < |p| && p[..i] in at && p[..i] in at' && j != p[i]
    requires at[p[..i]] < |nodes| && j in nodes[at[p[..i]]]
    ensures j in Value(nodes', at', p[..i]) && Value(nodes', at', p[..i])[j] == Value(nodes, at, p[..i])[j]
  {
    var q := p[..i];
    assert InPlace(nodes, at, q);
    assert SameObject(nodes, at, nodes', at', q);
    assert Fits(nodes, at, q, j) && Fits(nodes', at', q, j);
    if nodes[at[q]][j].Link? {
      forall r ensures SameEntries(nodes, at, (q + [j]) + r, nodes', at', (q + [j]) + r) {
        var s := (q + [j]) + r;
        assert s[i] == j;
        assert SameObject(nodes, at, nodes', at', s);
      }
      SameBelowSameValue(nodes, at, q + [j], nodes', at', q + [j]);
    }
  }

  /** Two heaps that differ at the entry `k` of the object at `p`, and below that entry, only. */
  ghost predicate ChangedEntry(
    nodes: seq<Node>, at: Layout, nodes': seq<Node>, at': Layout, p: Path, k: string, e: Entry)
  {
    && p in at && p in at' && at'[p] == at[p] && at[p] < |nodes| && at[p] < |nodes'|
    && nodes'[at[p]] == nodes[at[p]][k := e]
    && (forall q {:trigger SameObject(nodes, at, nodes', at', q)} | q != p && !(p + [k] <= q) ::
          SameObject(nodes, at, nodes', at', q))
  }

  /** The mapping value an entry stands for. */
  ghost function EntryValue(nodes: seq<Node>, at: Layout, p: Path, k: string, e: Entry): Json
    requires Wired(nodes, at) && (e.Link? ==> p + [k] in at)
  {
    if e.Plain? then e.v else Obj(Value(nodes, at, p + [k]))
  }

  lemma OtherEntriesKept(
      nodes: seq<Node>, at: Layout, nodes': seq<Node>, at': Layout, p: Path, k: string, e: Entry, j: string)
    requires Wired(nodes, at) && Wired(nodes', at') && ChangedEntry(nodes, at, nodes', at', p, k, e)
    requires j != k && j in nodes[at[p]]
    ensures j in Value(nodes', at', p) && Value(nodes', at', p)[j] == Value(nodes, at, p)[j]
  {
    assert Fits(nodes, at, p, j) && Fits(nodes', at', p, j);
    if nodes[at[p]][j].Link? {
      forall r ensures SameEntries(nodes, at, (p + [j]) + r, nodes', at', (p + [j]) + r) {
        var s := (p + [j]) + r;
        assert s[|p|] == j && (p + [k])[|p|] == k;
        assert SameObject(nodes, at, nodes', at', s);
      }
      SameBelowSameValue(nodes, at, p + [j], nodes', at', p + [j]);
    }
  }

  /** Reassigning one entry of one dict object changes the whole mapping at that path only. */
  lemma ReassignEntry(nodes: seq<Node>, at: Layout, nodes': seq<Node>, at': Layout, p: Path, k: string, e: Entry)
    requires Wired(nodes, at) && Wired(nodes', at') && ChangedEntry(nodes, at, nodes', at', p, k, e)
    requires e.Link? ==> p + [k] in at'
    ensures HasDictAt(Value(nodes, at, []), p) && DictAt(Value(nodes, at, []), p) == Value(nodes, at, p)
    ensures Value(nodes', at', [])
            == PutDict(Value(nodes, at, []), p, Value(nodes, at, p)[k := EntryValue(nodes', at', p, k, e)])
  {
    var l, r := Value(nodes', at', p), Value(nodes, at, p)[k := EntryValue(nodes', at', p, k, e)];
    assert l.Keys == r.Keys;
    forall j | j in r ensures l[j] == r[j] {
      if j != k {
        OtherEntriesKept(nodes, at, nodes', at', p, k, e, j);
      }
    }
    assert l == r;
    forall q | !(p <= q) ensures SameObject(nodes, at, nodes', at', q) {
      assert p <= p + [k];
    }
    ChangeAt(nodes, at, nodes', at', p, 0);
    assert p[..0] == [] && p[0..] == p;
  }

  // ---- The walk ----

  /** The value to store is plain, or a dict object of its own tree. */
  ghost predicate Storable(nodes: seq<Node>, at: Layout, value: Entry, vat: Layout) {
    match value
    case Plain(v) => !v.Obj?
    case Link(id) =>
      && Wired(nodes, vat) && vat[[]] == id
      && (forall p, q {:trigger Elsewhere(at, p, vat, q)} | p in at && q in vat :: Elsewhere(at, p, vat, q))
  }

  ghost predicate Elsewhere(at: Layout, p: Path, vat: Layout, q: Path)
    requires p in at && q in vat
  {
    at[p] != vat[q]
  }

  ghost function Stored(nodes: seq<Node>, at: Layout, value: Entry, vat: Layout): Json
    requires Storable(nodes, at, value, vat)
  {
    if value.Plain? then value.v else Obj(Value(nodes, vat, []))
  }

  /** A dict object with an empty dict object linked under `k`, where there was no dict before. */
  lemma LinkEmptyIsWired(nodes: seq<Node>, nodes': seq<Node>, at: Layout, p: Path, k: string)
    requires Wired(nodes, at) && p in at && p + [k] !in at && at[p] < |nodes|
    requires nodes' == nodes[at[p] := nodes[at[p]][k := Link(|nodes|)]] + [map[]]
    ensures Wired(nodes', at[p + [k] := |nodes|])
  {
    var at' := at[p + [k] := |nodes|];
    assert Parent(p + [k]) == p;
    forall q | q in at' ensures InPlace(nodes', at', q) {
      if q in at {
        assert InPlace(nodes, at, q);
      }
    }
    forall q, r | q in at' && r in at' ensures Distinct(at', q, r) {
      assert q in at ==> InPlace(nodes, at, q);
      assert r in at ==> InPlace(nodes, at, r);
      assert q in at && r in at ==> Distinct(at, q, r);
    }
    forall q, j | q in at' && at'[q] < |nodes'| && j in nodes'[at'[q]] ensures Fits(nodes', at', q, j) {
      assert q in at;
      assert InPlace(nodes, at, q) && Distinct(at, p, q);
      assert q + [j] == p + [k] ==> Parent(q + [j]) == q && (q + [j])[|q|] == j && (p + [k])[|p|] == k;
      if j in nodes[at[q]] {
        assert Fits(nodes, at, q, j);
      }
    }
  }

  lemma LinkEmpty(nodes: seq<Node>, nodes': seq<Node>, at: Layout, p: Path, k: string)
    requires Wired(nodes, at) && p in at && p + [k] !in at && at[p] < |nodes|
    requires nodes' == nodes[at[p] := nodes[at[p]][k := Link(|nodes|)]] + [map[]]
    ensures var at' := at[p + [k] := |nodes|];
            && Wired(nodes', at')
            && HasDictAt(Value(nodes, at, []), p) && DictAt(Value(nodes, at, []), p) == Value(nodes, at, p)
            && Value(nodes', at', []) == PutDict(Value(nodes, at, []), p, Value(nodes, at, p)[k := Obj(map[])])
  {
    var at' := at[p + [k] := |nodes|];
    LinkEmptyIsWired(nodes, nodes', at, p, k);
    forall q | q != p && !(p + [k] <= q) ensures SameObject(nodes, at, nodes', at', q) {
      if q in at {
        assert InPlace(nodes, at, q) && Distinct(at, p, q);
      }
    }
    ReassignEntry(nodes, at, nodes', at', p, k, Link(|nodes|));
    assert Value(nodes', at', p + [k]) == map[];
  }

  /** The layout without anything at or below `p`. */
  function Prune(at: Layout, p: Path): Layout {
    map q | q in at && !(p <= q) :: at[q]
  }

  lemma StorePlain(nodes: seq<Node>, nodes': seq<Node>, at: Layout, p: Path, k: string, v: Json)
    requires Wired(nodes, at) && p in at && at[p] < |nodes| && !v.Obj?
    requires nodes' == nodes[at[p] := nodes[at[p]][k := Plain(v)]]
    ensures var at' := Prune(at, p + [k]);
            && Wired(nodes', at')
            && HasDictAt(Value(nodes, at, []), p) && DictAt(Value(nodes, at, []), p) == Value(nodes, at, p)
            && Value(nodes', at', []) == PutDict(Value(nodes, at, []), p, Value(nodes, at, p)[k := v])
  {
    var at' := Prune(at, p + [k]);
    forall q | q in at' ensures InPlace(nodes', at', q) {
      assert InPlace(nodes, at, q);
      if q != [] {
        assert p + [k] <= Parent(q) ==> p + [k] <= q;
      }
    }
    forall q, r | q in at' && r in at' ensures Distinct(at', q, r) {
      assert Distinct(at, q, r);
    }
    forall q, j | q in at' && at'[q] < |nodes'| && j in nodes'[at'[q]] ensures Fits(nodes', at', q, j) {
      assert InPlace(nodes, at, q) && Distinct(at, p, q);
      if j in nodes[at[q]] {
        assert Fits(nodes, at, q, j);
        ExtendsBelow(p, k, q, j);
      }
    }
    forall q | q != p && !(p + [k] <= q) ensures SameObject(nodes, at, nodes', at', q) {
      if q in at {
        assert InPlace(nodes, at, q) && Distinct(at, p, q);
      }
    }
    ReassignEntry(nodes, at, nodes', at', p, k, Plain(v));
  }

  /** A path one longer than `q` reaches below `p + [k]` only if `q` already does, or is `p` itself. */
  lemma ExtendsBelow(p: Path, k: string, q: Path, j: string)
    ensures p + [k] <= q + [j] ==> p + [k] <= q || (q == p && j == k)
  {
    if p + [k] <= q + [j] && !(p + [k] <= q) {
      assert |q| == |p|;
      assert p == (p + [k])[..|p|] == (q + [j])[..|p|] == q;
      assert (p + [k])[|p|] == k && (q + [j])[|q|] == j;
    }
  }

  /** The layout with another tree's layout hung under `p`. */
  function Hang(at: Layout, p: Path, vat: Layout): Layout {
    Prune(at, p) + (map q | q in (set r | r in vat :: p + r) :: assert p <= q && q[|p|..] in vat by {
        var r :| r in vat && q == p + r;
        assert q[|p|..] == r;
      } vat[q[|p|..]])
  }

  lemma HangAt(at: Layout, p: Path, vat: Layout, q: Path)
    ensures p <= q ==> (q in Hang(at, p, vat) <==> q[|p|..] in vat)
                       && (q in Hang(at, p, vat) ==> Hang(at, p, vat)[q] == vat[q[|p|..]])
    ensures !(p <= q) ==> (q in Hang(at, p, vat) <==> q in at)
                          && (q in at ==> Hang(at, p, vat)[q] == at[q])
  {
    if p <= q && q[|p|..] in vat {
      assert q == p + q[|p|..];
    }
  }

  lemma HangInPlace(nodes: seq<Node>, nodes': seq<Node>, at: Layout, p: Path, k: string, id: nat, vat: Layout, q: Path)
    requires Wired(nodes, at) && p in at && at[p] < |nodes| && Storable(nodes, at, Link(id), vat)
    requires nodes' == nodes[at[p] := nodes[at[p]][k := Link(id)]]
    requires q in Hang(at, p + [k], vat)
    ensures InPlace(nodes', Hang(at, p + [k], vat), q)
  {
    var key := p + [k];
    HangAt(at, key, vat, q);
    if !(key <= q) {
      assert InPlace(nodes, at, q);
      if q != [] {
        assert key <= Parent(q) ==> key <= q;
        HangAt(at, key, vat, Parent(q));
      }
    } else {
      var r := q[|key|..];
      assert InPlace(nodes, vat, r);
      if r != [] {
        assert key <= Parent(q) && Parent(q)[|key|..] == Parent(r);
        HangAt(at, key, vat, Parent(q));
        assert Elsewhere(at, p, vat, Parent(r));
      } else {
        assert q == key && Parent(key) == p && key[|p|] == k;
        HangAt(at, key, vat, p);
      }
    }
  }

  lemma HangFits(nodes: seq<Node>, nodes': seq<Node>, at: Layout, p: Path, k: string, id: nat, vat: Layout,
                 q: Path, j: string)
    requires Wired(nodes, at) && p in at && at[p] < |nodes| && Storable(nodes, at, Link(id), vat)
    requires nodes' == nodes[at[p] := nodes[at[p]][k := Link(id)]]
    requires var at' := Hang(at, p + [k], vat); q in at' && at'[q] < |nodes'| && j in nodes'[at'[q]]
    ensures Fits(nodes', Hang(at, p + [k], vat), q, j)
  {
    var key := p + [k];
    HangAt(at, key, vat, q);
    HangAt(at, key, vat, q + [j]);
    if !(key <= q) {
      ExtendsBelow(p, k, q, j);
      assert InPlace(nodes, at, q) && Distinct(at, p, q);
      if q == p && j == k {
        assert key[|key|..] == [];
      } else {
        assert Fits(nodes, at, q, j);
      }
    } else {
      var r := q[|key|..];
      assert Elsewhere(at, p, vat, r);
      assert InPlace(nodes, vat, r) && Fits(nodes, vat, r, j);
      assert key <= q + [j] && (q + [j])[|key|..] == r + [j];
    }
  }

  lemma HangIsWired(nodes: seq<Node>, nodes': seq<Node>, at: Layout, p: Path, k: string, id: nat, vat: Layout)
    requires Wired(nodes, at) && p in at && at[p] < |nodes| && Storable(nodes, at, Link(id), vat)
    requires nodes' == nodes[at[p] := nodes[at[p]][k := Link(id)]]
    ensures Wired(nodes', Hang(at, p + [k], vat))
  {
    var key := p + [k];
    var at' := Hang(at, key, vat);
    HangAt(at, key, vat, []);
    forall q | q in at' ensures InPlace(nodes', at', q) {
      HangInPlace(nodes, nodes', at, p, k, id, vat, q);
    }
    forall q, r | q in at' && r in at' ensures Distinct(at', q, r) {
      if q != r {
        HangDistinct(nodes, at, key, vat, q, r);
      }
    }
    forall q, j | q in at' && at'[q] < |nodes'| && j in nodes'[at'[q]] ensures Fits(nodes', at', q, j) {
      HangFits(nodes, nodes', at, p, k, id, vat, q, j);
    }
  }

  lemma HangDistinct(nodes: seq<Node>, at: Layout, key: Path, vat: Layout, q: Path, r: Path)
    requires Wired(nodes, at) && Wired(nodes, vat)
    requires forall p, q {:trigger Elsewhere(at, p, vat, q)} | p in at && q in vat :: Elsewhere(at, p, vat, q)
    requires q in Hang(at, key, vat) && r in Hang(at, key, vat) && q != r
    ensures Hang(at, key, vat)[q] != Hang(at, key, vat)[r]
  {
    HangAt(at, key, vat, q);
    HangAt(at, key, vat, r);
    if key <= q && key <= r {
      assert q == key + q[|key|..] && r == key + r[|key|..];
      assert Distinct(vat, q[|key|..], r[|key|..]);
    } else if key <= q {
      assert Elsewhere(at, r, vat, q[|key|..]);
    } else if key <= r {
      assert Elsewhere(at, q, vat, r[|key|..]);
    } else {
      assert Distinct(at, q, r);
    }
  }

  lemma StoreDict(nodes: seq<Node>, nodes': seq<Node>, at: Layout, p: Path, k: string, id: nat, vat: Layout)
    requires Wired(nodes, at) && p in at && at[p] < |nodes| && Storable(nodes, at, Link(id), vat)
    requires nodes' == nodes[at[p] := nodes[at[p]][k := Link(id)]]
    ensures var at' := Hang(at, p + [k], vat);
            && Wired(nodes', at')
            && HasDictAt(Value(nodes, at, []), p) && DictAt(Value(nodes, at, []), p) == Value(nodes, at, p)
            && Value(nodes', at', [])
                  == PutDict(Value(nodes, at, []), p, Value(nodes, at, p)[k := Obj(Value(nodes, vat, []))])
  {
    var key := p + [k];
    var at' := Hang(at, key, vat);
    HangIsWired(nodes, nodes', at, p, k, id, vat);
    HangAt(at, key, vat, p);
    HangAt(at, key, vat, key);
    assert key[|key|..] == [];
    forall q | q != p && !(key <= q) ensures SameObject(nodes, at, nodes', at', q) {
      HangAt(at, key, vat, q);
      if q in at {
        assert InPlace(nodes, at, q) && Distinct(at, p, q);
      }
    }
    ReassignEntry(nodes, at, nodes', at', p, k, Link(id));
    forall r ensures SameEntries(nodes, vat, [] + r, nodes', at', key + r) {
      assert [] + r == r && (key + r)[|key|..] == r;
      HangAt(at, key, vat, key + r);
      if r in vat {
        assert InPlace(nodes, vat, r);
        assert Elsewhere(at, p, vat, r);
      }
    }
    SameBelowSameValue(nodes, vat, [], nodes', at', key);
  }

  /** The walk stands at the object `current` after `i` parts, and finishing it gives `goal`. */
  ghost predicate Walking(nodes: seq<Node>, at: Layout, path: Path, i: nat, current: nat, value: Entry, vat: Layout,
                          goal: Dict)
  {
    && i < |path|
    && Wired(nodes, at) && path[..i] in at && at[path[..i]] == current && current < |nodes|
    && Storable(nodes, at, value, vat)
    && SetPath(Value(nodes, at, []), path, Stored(nodes, at, value, vat)) == goal
  }

  lemma StartWalk(nodes: seq<Node>, at: Layout, path: Path, value: Entry, vat: Layout)
    requires path != [] && Wired(nodes, at) && Storable(nodes, at, value, vat)
    ensures Walking(nodes, at, path, 0, at[[]], value, vat,
                    SetPath(Value(nodes, at, []), path, Stored(nodes, at, value, vat)))
  {
    assert path[..0] == [];
    assert InPlace(nodes, at, []);
  }

  lemma WalkOn(nodes: seq<Node>, at: Layout, path: Path, i: nat, current: nat, value: Entry, vat: Layout, goal: Dict)
    requires Walking(nodes, at, path, i, current, value, vat, goal) && i + 1 < |path|
    requires path[i] in nodes[current] && nodes[current][path[i]].Link?
    ensures Walking(nodes, at, path, i + 1, nodes[current][path[i]].id, value, vat, goal)
  {
    assert Fits(nodes, at, path[..i], path[i]);
    assert path[..i] + [path[i]] == path[..i + 1];
    assert InPlace(nodes, at, path[..i + 1]);
  }

  /** Creating the next dict object on the way does not change what the walk will yield. */
  lemma WalkThroughNew(nodes: seq<Node>, nodes': seq<Node>, at: Layout, path: Path, i: nat, current: nat,
                       value: Entry, vat: Layout, goal: Dict)
    requires Walking(nodes, at, path, i, current, value, vat, goal) && i + 1 < |path|
    requires path[i] in nodes[current] ==> nodes[current][path[i]].Plain?
    requires nodes' == nodes[current := nodes[current][path[i] := Link(|nodes|)]] + [map[]]
    ensures Walking(nodes', at[path[..i + 1] := |nodes|], path, i, current, value, vat, goal)
  {
    var p, k := path[..i], path[i];
    assert p + [k] == path[..i + 1];
    NothingBelow(nodes, at, p, k);
    LinkEmpty(nodes, nodes', at, p, k);
    MissingDictIsEmpty(Value(nodes, at, []), path, i, Stored(nodes, at, value, vat));
    var at' := at[p + [k] := |nodes|];
    if value.Link? {
      forall r ensures SameEntries(nodes, vat, [] + r, nodes', vat, [] + r) {
        if [] + r in vat {
          assert InPlace(nodes, vat, [] + r) && Elsewhere(at, p, vat, [] + r);
        }
      }
      KeepWired(nodes, nodes', at, p, vat);
      SameBelowSameValue(nodes, vat, [], nodes', vat, []);
      forall q, r | q in at' && r in vat ensures Elsewhere(at', q, vat, r) {
        assert InPlace(nodes, vat, r);
        assert q in at ==> Elsewhere(at, q, vat, r);
      }
    }
  }

  lemma NothingBelow(nodes: seq<Node>, at: Layout, p: Path, k: string)
    requires Wired(nodes, at) && p in at && at[p] < |nodes|
    requires k in nodes[at[p]] ==> nodes[at[p]][k].Plain?
    ensures p + [k] !in at && (k in Value(nodes, at, p) ==> !Value(nodes, at, p)[k].Obj?)
  {
    if p + [k] in at {
      assert InPlace(nodes, at, p + [k]) && Parent(p + [k]) == p;
    }
    if k in nodes[at[p]] {
      assert Fits(nodes, at, p, k);
    }
  }

  lemma KeepWired(nodes: seq<Node>, nodes': seq<Node>, at: Layout, p: Path, vat: Layout)
    requires Wired(nodes, vat) && p in at && |nodes| <= |nodes'|
    requires forall p, q {:trigger Elsewhere(at, p, vat, q)} | p in at && q in vat :: Elsewhere(at, p, vat, q)
    requires forall i | 0 <= i < |nodes| && i != at[p] :: nodes'[i] == nodes[i]
    ensures Wired(nodes', vat)
  {
    forall q | q in vat ensures InPlace(nodes', vat, q) {
      assert InPlace(nodes, vat, q);
      if q != [] {
        assert Elsewhere(at, p, vat, Parent(q));
      }
    }
    forall q, k | q in vat && vat[q] < |nodes'| && k in nodes'[vat[q]] ensures Fits(nodes', vat, q, k) {
      assert InPlace(nodes, vat, q) && Elsewhere(at, p, vat, q);
      assert Fits(nodes, vat, q, k);
    }
    forall q, r | q in vat && r in vat ensures Distinct(vat, q, r) {
    }
  }

  /** The final assignment. */
  lemma StoreLast(nodes: seq<Node>, nodes': seq<Node>, at: Layout, path: Path, current: nat, value: Entry, vat: Layout,
                  goal: Dict)
    requires path != [] && Walking(nodes, at, path, |path| - 1, current, value, vat, goal)
    requires nodes' == nodes[current := nodes[current][path[|path| - 1] := value]]
    ensures var at' := if value.Plain? then Prune(at, path) else Hang(at, path, vat);
            Wired(nodes', at') && at'[[]] == at[[]] && Value(nodes', at', []) == goal
  {
    var p, k := path[..|path| - 1], path[|path| - 1];
    assert p + [k] == path;
    if value.Plain? {
      StorePlain(nodes, nodes', at, p, k, value.v);
    } else {
      HangAt(at, path, vat, []);
      StoreDict(nodes, nodes', at, p, k, value.id, vat);
    }
    SetBelow(Value(nodes, at, []), p, [k], Stored(nodes, at, value, vat));
  }

  /** The dict objects of the configuration being edited. */
  class ConfigStore {
    var nodes: seq<Node>

    constructor (objects: seq<Node>)
      ensures nodes == objects
    {
      nodes := objects;
    }

    /** Set `path` below the dict object `config`. A mapping value is itself a
        dict object, whose tree the configuration does not share. */
    method ApplySetValue(config: nat, path: Path, value: Entry, ghost at: Layout, ghost vat: Layout)
      returns (ghost at': Layout)
      requires Wired(nodes, at) && at[[]] == config && Storable(nodes, at, value, vat)
      requires path != []
      modifies this
      ensures Wired(nodes, at') && at'[[]] == config
      ensures Value(nodes, at', []) == SetPath(old(Value(nodes, at, [])), path, old(Stored(nodes, at, value, vat)))
    {
      at' := at;
      var current := config;
      var i := 0;
      ghost var goal := SetPath(Value(nodes, at, []), path, Stored(nodes, at, value, vat));
      StartWalk(nodes, at, path, value, vat);
      while i < |path| - 1
        invariant 0 <= i <= |path| - 1 && Walking(nodes, at', path, i, current, value, vat, goal) && at'[[]] == config
      {
        var part := path[i];
        if part !in nodes[current] || nodes[current][part].Plain? {
          ghost var before := nodes;
          nodes := nodes[current := nodes[current][part := Link(|nodes|)]] + [map[]];
          WalkThroughNew(before, nodes, at', path, i, current, value, vat, goal);
          at' := at'[path[..i + 1] := |before|];
        }
        WalkOn(nodes, at', path, i, current, value, vat, goal);
        current := nodes[current][part].id;
        i := i + 1;
      }
      ghost var before := nodes;
      nodes := nodes[current := nodes[current][path[i] := value]];
      StoreLast(before, nodes, at', path, current, value, vat, goal);
      at' := if value.Plain? then Prune(at', path) else Hang(at', path, vat);
    }
  }
}
