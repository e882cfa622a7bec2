/** `_load_yaml_with_imports` and `merge_yaml_files`: layering a file over the
    files it imports, with circular imports refused.

    A file system maps resolved paths to parsed files; every import is already
    resolved to the path it names. */
module ConfigImports {
  import opened Json
  import opened ConfigMerge

  type Path = string

  datatype Import = Ref(path: Path) | Malformed

  datatype File =
    | Empty
    | NotAMapping
    | Mapping(imports: seq<Import>, own: Dict)

  type Files = map<Path, File>

  datatype LoadError = CircularImport | FileNotFound | NotMappingFile | BadImportEntry

  /** What loading `path` yields when the files in `visited` are being loaded further up. */
  function Load(files: Files, path: Path, visited: set<Path>): Result<Dict, LoadError>
    decreases |files.Keys - visited|, 0
  {
    if path in visited then Err(CircularImport)
    else if path !in files then Err(FileNotFound)
    else
      match files[path]
      case Empty => Ok(map[])
      case NotAMapping => Err(NotMappingFile)
      case Mapping(imports, own) =>
        Unvisited(files, path, visited);
        match LoadImports(files, imports, visited + {path}, map[])
        case Err(e) => Err(e)
        case Ok(base) => Ok(Merge(base, own))
  }

  function LoadImports(files: Files, imports: seq<Import>, visited: set<Path>, base: Dict): Result<Dict, LoadError>
    decreases |files.Keys - visited|, 1 + |imports|
  {
    if imports == [] then Ok(base)
    else if imports[0].Malformed? then Err(BadImportEntry)
    else
      match Load(files, imports[0].path, visited)
      case Err(e) => Err(e)
      case Ok(imported) => LoadImports(files, imports[1..], visited, Merge(base, imported))
  }

  lemma Unvisited(files: Files, path: Path, visited: set<Path>)
    requires path in files && path !in visited
    ensures |files.Keys - (visited + {path})| < |files.Keys - visited|
  {
    assert files.Keys - (visited + {path}) == (files.Keys - visited) - {path};
  }

  /** The loader itself: one recursive call per import, accumulating the base. */
  method LoadYamlWithImports(files: Files, path: Path, visited: set<Path>) returns (r: Result<Dict, LoadError>)
    ensures r == Load(files, path, visited)
    decreases |files.Keys - visited|
  {
    if path in visited {
      return Err(CircularImport);
    }
    var seen := visited + {path};
    if path !in files {
      return Err(FileNotFound);
    }
    Unvisited(files, path, visited);
    var content := files[path];
    if content.Empty? {
      return Ok(map[]);
    }
    if content.NotAMapping? {
      return Err(NotMappingFile);
    }
    if content.imports == [] {
      MergeWithEmpty(content.own);
      return Ok(content.own);
    }
    var base: Dict := map[];
    var i := 0;
    while i < |content.imports|
      invariant 0 <= i <= |content.imports|
      invariant LoadImports(files, content.imports, seen, map[]) == LoadImports(files, content.imports[i..], seen, base)
    {
      var imp := content.imports[i];
      if imp.Malformed? {
        return Err(BadImportEntry);
      }
      var imported := LoadYamlWithImports(files, imp.path, seen);
      if imported.Err? {
        return imported;
      }
      base := DeepMerge(base, imported.value);
      i := i + 1;
    }
    r := Ok(Merge(base, content.own));
  }

  // ---- The value does not depend on how the file was reached ----

  lemma {:induction false} LoadIgnoresVisited(files: Files, path: Path, visited: set<Path>, fewer: set<Path>)
    requires fewer <= visited
    requires Load(files, path, visited).Ok?
    ensures Load(files, path, fewer) == Load(files, path, visited)
    decreases |files.Keys - visited|, 0
  {
    if files[path].Mapping? {
      Unvisited(files, path, visited);
      LoadImportsIgnoresVisited(files, files[path].imports, visited + {path}, fewer + {path}, map[]);
    }
  }

  lemma {:induction false} LoadImportsIgnoresVisited(
      files: Files, imports: seq<Import>, visited: set<Path>, fewer: set<Path>, base: Dict)
    requires fewer <= visited
    requires LoadImports(files, imports, visited, base).Ok?
    ensures LoadImports(files, imports, fewer, base) == LoadImports(files, imports, visited, base)
    decreases |files.Keys - visited|, 1 + |imports|
  {
    if imports != [] {
      LoadIgnoresVisited(files, imports[0].path, visited, fewer);
      var imported := Load(files, imports[0].path, visited).value;
      LoadImportsIgnoresVisited(files, imports[1..], visited, fewer, Merge(base, imported));
    }
  }

  /** A diamond's shared base loads to one value on both sides. */
  lemma LoadIsPathIndependent(files: Files, path: Path, v: set<Path>, w: set<Path>)
    requires Load(files, path, v).Ok? && Load(files, path, w).Ok?
    ensures Load(files, path, v) == Load(files, path, w)
  {
    LoadIgnoresVisited(files, path, v, {});
    LoadIgnoresVisited(files, path, w, {});
  }

  // ---- When loading succeeds ----

  predicate Imports(files: Files, p: Path, q: Path) {
    p in files && files[p].Mapping? && Ref(q) in files[p].imports
  }

  /** A non-empty chain of files, each importing the next. */
  predicate IsWalk(files: Files, walk: seq<Path>) {
    walk != [] && forall i | 0 <= i < |walk| - 1 :: Imports(files, walk[i], walk[i + 1])
  }

  predicate Simple(walk: seq<Path>) {
    forall i, j | 0 <= i < j < |walk| :: walk[i] != walk[j]
  }

  ghost predicate CycleReachable(files: Files, path: Path) {
    exists walk: seq<Path> :: IsWalk(files, walk) && walk[0] == path && !Simple(walk)
  }

  /** The file exists, is a mapping (or empty), and lists only paths as imports. */
  predicate Readable(files: Files, path: Path) {
    path in files && !files[path].NotAMapping? &&
    (files[path].Mapping? ==> Malformed !in files[path].imports)
  }

  ghost predicate AllReachableReadable(files: Files, path: Path) {
    forall walk: seq<Path> | IsWalk(files, walk) && walk[0] == path :: Readable(files, walk[|walk| - 1])
  }

  lemma WalkTail(files: Files, walk: seq<Path>)
    requires IsWalk(files, walk) && |walk| > 1
    ensures IsWalk(files, walk[1..]) && Imports(files, walk[0], walk[1])
  {
  }

  lemma WalkCons(files: Files, path: Path, walk: seq<Path>)
    requires IsWalk(files, walk) && Imports(files, path, walk[0])
    ensures IsWalk(files, [path] + walk)
  {
  }

  /** After a successful load, no walk from the file repeats a path, meets a
      visited one, or ends in an unreadable file. */
  lemma {:induction false} LoadedWalksAreClean(files: Files, path: Path, visited: set<Path>, walk: seq<Path>)
    requires Load(files, path, visited).Ok?
    requires IsWalk(files, walk) && walk[0] == path
    ensures Simple(walk) && (forall p | p in walk :: p !in visited) && Readable(files, walk[|walk| - 1])
    decreases |walk|
  {
    if files[path].Mapping? {
      LoadedImportsAreLoadable(files, files[path].imports, visited + {path}, map[]);
    }
    if |walk| > 1 {
      WalkTail(files, walk);
      LoadedWalksAreClean(files, walk[1], visited + {path}, walk[1..]);
      forall i, j | 0 <= i < j < |walk| ensures walk[i] != walk[j] {
        assert walk[j] == walk[1..][j - 1];
        if i > 0 {
          assert walk[i] == walk[1..][i - 1];
        }
      }
    }
  }

  lemma {:induction false} LoadedImportsAreLoadable(
      files: Files, imports: seq<Import>, visited: set<Path>, base: Dict)
    requires LoadImports(files, imports, visited, base).Ok?
    ensures forall imp | imp in imports :: imp.Ref? && Load(files, imp.path, visited).Ok?
    decreases |imports|
  {
    if imports != [] {
      LoadedImportsAreLoadable(files, imports[1..], visited, Merge(base, Load(files, imports[0].path, visited).value));
    }
  }

  /** A failed load points at a walk to an unreadable file, or at one that comes
      back to itself or to a visited file; which error it raises says which. */
  lemma {:induction false} FailedLoadHasCulprit(files: Files, path: Path, visited: set<Path>) returns (walk: seq<Path>)
    requires Load(files, path, visited).Err?
    ensures IsWalk(files, walk) && walk[0] == path
    ensures !Simple(walk) || walk[|walk| - 1] in visited || !Readable(files, walk[|walk| - 1])
    ensures var last := walk[|walk| - 1];
            match Load(files, path, visited).error
            case CircularImport => !Simple(walk) || last in visited
            case FileNotFound => last !in files
            case NotMappingFile => last in files && files[last].NotAMapping?
            case BadImportEntry => last in files && files[last].Mapping? && Malformed in files[last].imports
    decreases |files.Keys - visited|, 0
  {
    walk := [path];
    if path !in visited && path in files && files[path].Mapping? {
      Unvisited(files, path, visited);
      var imports := files[path].imports;
      var next := FailedImport(files, imports, visited + {path}, map[]);
      if next.Ref? {
        var rest := FailedLoadHasCulprit(files, next.path, visited + {path});
        WalkCons(files, path, rest);
        walk := [path] + rest;
        var last := |walk| - 1;
        assert walk[last] == rest[|rest| - 1];
        if !Simple(rest) {
          var i, j :| 0 <= i < j < |rest| && rest[i] == rest[j];
          assert walk[i + 1] == walk[j + 1];
        } else if walk[last] == path {
          assert walk[0] == walk[last];
        }
      }
    }
  }

  lemma {:induction false} FailedImport(files: Files, imports: seq<Import>, visited: set<Path>, base: Dict)
    returns (imp: Import)
    requires LoadImports(files, imports, visited, base).Err?
    ensures imp in imports
    ensures imp.Ref? ==> Load(files, imp.path, visited) == Err(LoadImports(files, imports, visited, base).error)
    ensures imp.Malformed? ==> LoadImports(files, imports, visited, base) == Err(BadImportEntry)
    decreases |imports|
  {
    imp := imports[0];
    if imp.Ref? && Load(files, imp.path, visited).Ok? {
      imp := FailedImport(files, imports[1..], visited, Merge(base, Load(files, imp.path, visited).value));
    }
  }

  /** Loading succeeds exactly when every reachable file is readable and no
      import cycle can be reached. */
  lemma LoadSucceedsIff(files: Files, path: Path)
    ensures Load(files, path, {}).Ok? <==> AllReachableReadable(files, path) && !CycleReachable(files, path)
  {
    if Load(files, path, {}).Ok? {
      forall walk: seq<Path> | IsWalk(files, walk) && walk[0] == path
        ensures Simple(walk) && Readable(files, walk[|walk| - 1])
      {
        LoadedWalksAreClean(files, path, {}, walk);
      }
    } else {
      var walk := FailedLoadHasCulprit(files, path, {});
    }
  }

  /** Among readable files the circular-import error means a reachable cycle, and nothing else is raised. */
  lemma CircularErrorIffCycle(files: Files, path: Path)
    requires AllReachableReadable(files, path)
    ensures Load(files, path, {}) == Err(CircularImport) <==> CycleReachable(files, path)
    ensures Load(files, path, {}).Ok? || Load(files, path, {}) == Err(CircularImport)
  {
    LoadSucceedsIff(files, path);
    if Load(files, path, {}).Err? {
      OnlyCircularFails(files, path, {});
    }
  }

  lemma {:induction false} OnlyCircularFails(files: Files, path: Path, visited: set<Path>)
    requires AllReachableReadable(files, path)
    requires Load(files, path, visited).Err?
    ensures Load(files, path, visited) == Err(CircularImport)
    decreases |files.Keys - visited|
  {
    assert Readable(files, path) by {
      var walk := [path];
      assert IsWalk(files, walk) && walk[0] == path;
    }
    if path !in visited {
      Unvisited(files, path, visited);
      var next := FailedImport(files, files[path].imports, visited + {path}, map[]);
      assert next.Ref?;
      assert Imports(files, path, next.path);
      forall walk: seq<Path> | IsWalk(files, walk) && walk[0] == next.path
        ensures Readable(files, walk[|walk| - 1])
      {
        WalkCons(files, path, walk);
        var longer := [path] + walk;
        assert longer[0] == path && longer[|longer| - 1] == walk[|walk| - 1];
      }
      OnlyCircularFails(files, next.path, visited + {path});
    }
  }

  // ---- What the value is ----

  /** Own contents of the reachable files, imports before importer, left to
      right, a shared file once per way of reaching it. */
  function PostOrder(files: Files, path: Path, visited: set<Path>): seq<Dict>
    decreases |files.Keys - visited|, 0
  {
    if path in visited || path !in files || !files[path].Mapping? then []
    else
      Unvisited(files, path, visited);
      PostOrderImports(files, files[path].imports, visited + {path}) + [files[path].own]
  }

  function PostOrderImports(files: Files, imports: seq<Import>, visited: set<Path>): seq<Dict>
    decreases |files.Keys - visited|, 1 + |imports|
  {
    if imports == [] then []
    else (if imports[0].Ref? then PostOrder(files, imports[0].path, visited) else [])
         + PostOrderImports(files, imports[1..], visited)
  }

  lemma AgreeingParts(xs: seq<Dict>, ys: seq<Dict>)
    requires AllAgree(xs + ys)
    ensures AllAgree(xs) && AllAgree(ys)
    ensures forall i, j | 0 <= i < |xs| && 0 <= j < |ys| :: Agree(xs[i], ys[j]) && Agree(ys[j], xs[i])
  {
    var all := xs + ys;
    forall i, j | 0 <= i < |xs| && 0 <= j < |xs| ensures Agree(xs[i], xs[j]) {
      assert xs[i] == all[i] && xs[j] == all[j];
    }
    forall i, j | 0 <= i < |ys| && 0 <= j < |ys| ensures Agree(ys[i], ys[j]) {
      assert ys[i] == all[|xs| + i] && ys[j] == all[|xs| + j];
    }
    forall i, j | 0 <= i < |xs| && 0 <= j < |ys| ensures Agree(xs[i], ys[j]) && Agree(ys[j], xs[i]) {
      assert xs[i] == all[i] && ys[j] == all[|xs| + j];
    }
  }

  /** Every import, layered content by content onto what is loaded before it, composes
      with that at every step, and so do the imports of the files imported. */
  predicate LoadComposes(files: Files, path: Path, visited: set<Path>)
    decreases |files.Keys - visited|, 0
  {
    path !in visited && path in files && files[path].Mapping? ==>
      (Unvisited(files, path, visited);
       ImportsCompose(files, files[path].imports, visited + {path}, []))
  }

  predicate ImportsCompose(files: Files, imports: seq<Import>, visited: set<Path>, before: seq<Dict>)
    decreases |files.Keys - visited|, 1 + |imports|
  {
    imports != [] && imports[0].Ref? ==>
      var first := PostOrder(files, imports[0].path, visited);
      && LoadComposes(files, imports[0].path, visited)
      && StepsCompose(Layer(map[], before), first)
      && ImportsCompose(files, imports[1..], visited, before + first)
  }

  /** A loaded file is the plain left-to-right layering of the own contents in
      post-order, when every import composes with what is loaded before it. */
  lemma {:induction false} LoadLayersPostOrder(files: Files, path: Path, visited: set<Path>)
    requires Load(files, path, visited).Ok? && LoadComposes(files, path, visited)
    ensures Load(files, path, visited).value == Layer(map[], PostOrder(files, path, visited))
    decreases |files.Keys - visited|, 0
  {
    if files[path].Mapping? {
      Unvisited(files, path, visited);
      var below, own := PostOrderImports(files, files[path].imports, visited + {path}), files[path].own;
      LoadImportsLayersPostOrder(files, files[path].imports, visited + {path}, []);
      assert [] + below == below;
      LayerLast(map[], below + [own]);
      assert (below + [own])[..|below|] == below;
    }
  }

  lemma {:induction false} LoadImportsLayersPostOrder(
      files: Files, imports: seq<Import>, visited: set<Path>, before: seq<Dict>)
    requires LoadImports(files, imports, visited, Layer(map[], before)).Ok?
    requires ImportsCompose(files, imports, visited, before)
    ensures LoadImports(files, imports, visited, Layer(map[], before)).value
            == Layer(map[], before + PostOrderImports(files, imports, visited))
    decreases |files.Keys - visited|, 1 + |imports|
  {
    if imports == [] {
      assert before + [] == before;
    } else {
      var first := PostOrder(files, imports[0].path, visited);
      var rest := PostOrderImports(files, imports[1..], visited);
      assert before + (first + rest) == (before + first) + rest;
      LoadLayersPostOrder(files, imports[0].path, visited);
      LayerFromBase(Layer(map[], before), first);
      LayerConcat(map[], before, first);
      LoadImportsLayersPostOrder(files, imports[1..], visited, before + first);
    }
  }

  /** They do when each path is a mapping in all own contents or in none. */
  lemma {:induction false} AgreeingFilesCompose(files: Files, path: Path, visited: set<Path>)
    requires AllAgree(PostOrder(files, path, visited))
    ensures LoadComposes(files, path, visited)
    decreases |files.Keys - visited|, 0
  {
    if path !in visited && path in files && files[path].Mapping? {
      Unvisited(files, path, visited);
      var below := PostOrderImports(files, files[path].imports, visited + {path});
      AgreeingParts(below, [files[path].own]);
      assert [] + below == below;
      AgreeingImportsCompose(files, files[path].imports, visited + {path}, []);
    }
  }

  lemma {:induction false} AgreeingImportsCompose(
      files: Files, imports: seq<Import>, visited: set<Path>, before: seq<Dict>)
    requires AllAgree(before + PostOrderImports(files, imports, visited))
    ensures ImportsCompose(files, imports, visited, before)
    decreases |files.Keys - visited|, 1 + |imports|
  {
    if imports != [] && imports[0].Ref? {
      var first := PostOrder(files, imports[0].path, visited);
      var rest := PostOrderImports(files, imports[1..], visited);
      assert before + (first + rest) == (before + first) + rest;
      AgreeingParts(before + first, rest);
      AgreeingParts(before, first);
      AgreeingFilesCompose(files, imports[0].path, visited);
      forall i | 0 <= i < |first| ensures Agree(Layer(map[], before), first[i]) {
        AgreeWithLayers(first[i], map[], before);
        AgreeSymmetric(first[i], Layer(map[], before));
      }
      AgreeingStepsCompose(Layer(map[], before), first);
      AgreeingImportsCompose(files, imports[1..], visited, before + first);
    }
  }

  // ---- Exactly when the parts of a load are layerings ----

  lemma {:induction false} PostOrderIgnoresVisited(files: Files, path: Path, visited: set<Path>, fewer: set<Path>)
    requires fewer <= visited && Load(files, path, visited).Ok?
    ensures PostOrder(files, path, fewer) == PostOrder(files, path, visited)
    decreases |files.Keys - visited|, 0
  {
    if files[path].Mapping? {
      Unvisited(files, path, visited);
      PostOrdersIgnoreVisited(files, files[path].imports, visited + {path}, fewer + {path}, map[]);
    }
  }

  lemma {:induction false} PostOrdersIgnoreVisited(
      files: Files, imports: seq<Import>, visited: set<Path>, fewer: set<Path>, base: Dict)
    requires fewer <= visited && LoadImports(files, imports, visited, base).Ok?
    ensures PostOrderImports(files, imports, fewer) == PostOrderImports(files, imports, visited)
    decreases |files.Keys - visited|, 1 + |imports|
  {
    if imports != [] {
      PostOrderIgnoresVisited(files, imports[0].path, visited, fewer);
      var imported := Load(files, imports[0].path, visited).value;
      PostOrdersIgnoreVisited(files, imports[1..], visited, fewer, Merge(base, imported));
    }
  }

  lemma {:induction false} PostOrderImportsConcat(files: Files, a: seq<Import>, b: seq<Import>, visited: set<Path>)
    ensures PostOrderImports(files, a + b, visited)
            == PostOrderImports(files, a, visited) + PostOrderImports(files, b, visited)
    decreases |a|
  {
    if a == [] {
      assert a + b == b;
    } else {
      assert (a + b)[1..] == a[1..] + b;
      PostOrderImportsConcat(files, a[1..], b, visited);
    }
  }

  /** Import `m` composes within itself and with what the imports before it give. */
  predicate ImportFits(files: Files, imports: seq<Import>, m: nat, visited: set<Path>)
    requires m < |imports|
  {
    imports[m].Ref? ==>
      && LoadComposes(files, imports[m].path, visited)
      && StepsCompose(Layer(map[], PostOrderImports(files, imports[..m], visited)),
                      PostOrder(files, imports[m].path, visited))
  }

  lemma {:induction false} ImportsComposeIff(files: Files, imports: seq<Import>, n: nat, visited: set<Path>)
    requires n <= |imports| && forall m | 0 <= m < |imports| :: imports[m].Ref?
    ensures ImportsCompose(files, imports[n..], visited, PostOrderImports(files, imports[..n], visited))
            <==> forall m | n <= m < |imports| :: ImportFits(files, imports, m, visited)
    decreases |imports| - n
  {
    if n < |imports| {
      ImportsComposeIff(files, imports, n + 1, visited);
      assert imports[n..][1..] == imports[n + 1..] && imports[..n + 1] == imports[..n] + [imports[n]];
      PostOrderImportsConcat(files, imports[..n], [imports[n]], visited);
      assert [imports[n]][1..] == [];
      assert PostOrderImports(files, [imports[n]], visited) == PostOrder(files, imports[n].path, visited);
      assert ImportsCompose(files, imports[n..], visited, PostOrderImports(files, imports[..n], visited)) <==>
             ImportFits(files, imports, n, visited)
             && ImportsCompose(files, imports[n + 1..], visited, PostOrderImports(files, imports[..n + 1], visited));
    }
  }

  /** The imports of `p` before the `m`th, and the first `k` contents of that, are
      layered together as they are loaded: the former merged with the latter. */
  predicate PrefixLayers(files: Files, p: Path, m: nat, k: nat)
    requires p in files && files[p].Mapping? && m < |files[p].imports| && files[p].imports[m].Ref?
    requires k <= |PostOrder(files, files[p].imports[m].path, {})|
  {
    var before := PostOrderImports(files, files[p].imports[..m], {});
    var first := PostOrder(files, files[p].imports[m].path, {})[..k];
    Layer(map[], before + first) == Merge(Layer(map[], before), Layer(map[], first))
  }

  predicate AllPrefixesLayer(files: Files, p: Path) {
    p in files && files[p].Mapping? ==>
      forall m, k
        | 0 <= m < |files[p].imports| && files[p].imports[m].Ref?
          && 0 <= k <= |PostOrder(files, files[p].imports[m].path, {})| :: PrefixLayers(files, p, m, k)
  }

  /** So it is in every file that can be reached. */
  ghost predicate ReachablePrefixesLayer(files: Files, path: Path) {
    forall walk: seq<Path> | IsWalk(files, walk) && walk[0] == path :: AllPrefixesLayer(files, walk[|walk| - 1])
  }

  lemma StepsPrefixIff(files: Files, p: Path, m: nat)
    requires p in files && files[p].Mapping? && m < |files[p].imports| && files[p].imports[m].Ref?
    ensures StepsCompose(Layer(map[], PostOrderImports(files, files[p].imports[..m], {})),
                         PostOrder(files, files[p].imports[m].path, {}))
            <==> forall k | 0 <= k <= |PostOrder(files, files[p].imports[m].path, {})| :: PrefixLayers(files, p, m, k)
  {
    var before := PostOrderImports(files, files[p].imports[..m], {});
    var first := PostOrder(files, files[p].imports[m].path, {});
    StepsComposeIff(Layer(map[], before), first);
    forall k | 0 <= k <= |first|
      ensures InOneGo(Layer(map[], before), first[..k]) <==> PrefixLayers(files, p, m, k)
    {
      LayerConcat(map[], before, first[..k]);
    }
  }

  /** Within a successful load, the files being loaded further up make no difference. */
  lemma FitsAnywhere(files: Files, path: Path, visited: set<Path>, m: nat)
    requires Load(files, path, visited).Ok? && files[path].Mapping? && m < |files[path].imports|
    ensures var imports, seen := files[path].imports, visited + {path};
            && imports[m].Ref? && Load(files, imports[m].path, seen).Ok?
            && PostOrder(files, imports[m].path, seen) == PostOrder(files, imports[m].path, {})
            && PostOrderImports(files, imports[..m], seen) == PostOrderImports(files, imports[..m], {})
  {
    var imports, seen := files[path].imports, visited + {path};
    LoadedImportsAreLoadable(files, imports, seen, map[]);
    PostOrderIgnoresVisited(files, imports[m].path, seen, {});
    LoadedPrefix(files, imports, m, seen, map[]);
    PostOrdersIgnoreVisited(files, imports[..m], seen, {}, map[]);
  }

  lemma {:induction false} LoadedPrefix(files: Files, imports: seq<Import>, m: nat, visited: set<Path>, base: Dict)
    requires m <= |imports| && LoadImports(files, imports, visited, base).Ok?
    ensures LoadImports(files, imports[..m], visited, base).Ok?
    decreases m
  {
    if m > 0 {
      LoadedPrefix(files, imports[1..], m - 1, visited, Merge(base, Load(files, imports[0].path, visited).value));
      assert imports[..m][1..] == imports[1..][..m - 1];
    }
  }

  /** The premise of `LoadLayersPostOrder`, one file at a time. */
  lemma LoadComposesHere(files: Files, path: Path, visited: set<Path>)
    requires Load(files, path, visited).Ok? && files[path].Mapping?
    ensures LoadComposes(files, path, visited) <==>
            && AllPrefixesLayer(files, path)
            && forall m | 0 <= m < |files[path].imports| ::
                 files[path].imports[m].Ref? && LoadComposes(files, files[path].imports[m].path, visited + {path})
  {
    var imports, seen := files[path].imports, visited + {path};
    Unvisited(files, path, visited);
    forall m | 0 <= m < |imports|
      ensures imports[m].Ref?
      ensures ImportFits(files, imports, m, seen) <==>
              && LoadComposes(files, imports[m].path, seen)
              && forall k | 0 <= k <= |PostOrder(files, imports[m].path, {})| :: PrefixLayers(files, path, m, k)
    {
      FitsAnywhere(files, path, visited, m);
      StepsPrefixIff(files, path, m);
    }
    ImportsComposeIff(files, imports, 0, seen);
    assert imports[0..] == imports && imports[..0] == [];
  }

  lemma ReachableHere(files: Files, path: Path)
    requires path in files && files[path].Mapping?
    ensures ReachablePrefixesLayer(files, path) <==>
            && AllPrefixesLayer(files, path)
            && forall q | Imports(files, path, q) :: ReachablePrefixesLayer(files, q)
  {
    if ReachablePrefixesLayer(files, path) {
      assert IsWalk(files, [path]) && [path][0] == path;
      forall q, walk: seq<Path> | Imports(files, path, q) && IsWalk(files, walk) && walk[0] == q
        ensures AllPrefixesLayer(files, walk[|walk| - 1])
      {
        WalkCons(files, path, walk);
        var longer := [path] + walk;
        assert longer[0] == path && longer[|longer| - 1] == walk[|walk| - 1];
      }
    }
    if AllPrefixesLayer(files, path) && forall q | Imports(files, path, q) :: ReachablePrefixesLayer(files, q) {
      forall walk: seq<Path> | IsWalk(files, walk) && walk[0] == path
        ensures AllPrefixesLayer(files, walk[|walk| - 1])
      {
        if |walk| > 1 {
          WalkTail(files, walk);
          assert walk[1..][|walk| - 2] == walk[|walk| - 1];
        }
      }
    }
  }

  /** The imports of a successful load compose step by step exactly when, in every
      file it reaches, each prefix of the import list is layered together with each
      prefix of the contents the next import brings. */
  lemma {:induction false} LoadComposesIff(files: Files, path: Path, visited: set<Path>)
    requires Load(files, path, visited).Ok?
    ensures LoadComposes(files, path, visited) <==> ReachablePrefixesLayer(files, path)
    decreases |files.Keys - visited|
  {
    if files[path].Mapping? {
      var imports, seen := files[path].imports, visited + {path};
      Unvisited(files, path, visited);
      LoadComposesHere(files, path, visited);
      ReachableHere(files, path);
      forall m | 0 <= m < |imports|
        ensures imports[m].Ref? && Imports(files, path, imports[m].path)
        ensures LoadComposes(files, imports[m].path, seen) <==> ReachablePrefixesLayer(files, imports[m].path)
      {
        FitsAnywhere(files, path, visited, m);
        assert imports[m] in imports;
        LoadComposesIff(files, imports[m].path, seen);
      }
      forall q | Imports(files, path, q) ensures exists m :: 0 <= m < |imports| && imports[m].path == q {
        var m :| 0 <= m < |imports| && imports[m] == Ref(q);
      }
    } else {
      forall walk: seq<Path> | IsWalk(files, walk) && walk[0] == path
        ensures AllPrefixesLayer(files, walk[|walk| - 1])
      {
        if |walk| > 1 {
          WalkTail(files, walk);
          assert false;
        }
      }
    }
  }

  /** `root` has nothing of its own and imports `p`, which imports nothing, and
      then `q`, which imports `r`. */
  predicate Fork(files: Files, root: Path, p: Path, q: Path, r: Path) {
    && root != p && root != q && root != r && q != r
    && root in files && p in files && q in files && r in files
    && files[root] == Mapping([Ref(p), Ref(q)], map[])
    && files[p].Mapping? && files[p].imports == []
    && files[q].Mapping? && files[q].imports == [Ref(r)]
    && files[r].Mapping? && files[r].imports == []
  }

  lemma ImportsCons(files: Files, p: Path, rest: seq<Import>, visited: set<Path>, base: Dict)
    requires Load(files, p, visited).Ok?
    ensures LoadImports(files, [Ref(p)] + rest, visited, base)
            == LoadImports(files, rest, visited, Merge(base, Load(files, p, visited).value))
    ensures PostOrderImports(files, [Ref(p)] + rest, visited)
            == PostOrder(files, p, visited) + PostOrderImports(files, rest, visited)
  {
  }

  lemma LoadLeaf(files: Files, p: Path, visited: set<Path>)
    requires p !in visited && p in files && files[p].Mapping? && files[p].imports == []
    ensures Load(files, p, visited) == Ok(files[p].own) && PostOrder(files, p, visited) == [files[p].own]
  {
    MergeWithEmpty(files[p].own);
    assert PostOrderImports(files, [], visited + {p}) == [];
  }

  lemma LoadChain(files: Files, p: Path, q: Path, visited: set<Path>)
    requires p !in visited && q !in visited && p != q && p in files && q in files
    requires files[p].Mapping? && files[p].imports == [Ref(q)] && files[q].Mapping? && files[q].imports == []
    ensures Load(files, p, visited) == Ok(Merge(files[q].own, files[p].own))
    ensures PostOrder(files, p, visited) == [files[q].own, files[p].own]
  {
    var seen := visited + {p};
    LoadLeaf(files, q, seen);
    ImportsCons(files, q, [], seen, map[]);
    assert [Ref(q)] + [] == [Ref(q)];
    MergeWithEmpty(files[q].own);
    assert PostOrderImports(files, [], seen) == [];
  }

  lemma LoadFork(files: Files, root: Path, p: Path, q: Path, r: Path)
    requires Fork(files, root, p, q, r)
    ensures Load(files, root, {}) == Ok(Merge(files[p].own, Merge(files[r].own, files[q].own)))
    ensures PostOrder(files, root, {}) == [files[p].own, files[r].own, files[q].own, map[]]
  {
    var seen: set<Path> := {} + {root};
    var x := files[p].own;
    LoadLeaf(files, p, seen);
    LoadChain(files, q, r, seen);
    ImportsCons(files, q, [], seen, x);
    ImportsCons(files, p, [Ref(q)], seen, map[]);
    assert [Ref(q)] + [] == [Ref(q)] && [Ref(p)] + [Ref(q)] == [Ref(p), Ref(q)];
    MergeWithEmpty(x);
    MergeWithEmpty(Merge(x, Merge(files[r].own, files[q].own)));
    assert PostOrderImports(files, [], seen) == [];
    assert PostOrderImports(files, [Ref(q)], seen) == [files[r].own, files[q].own];
  }

  lemma LeafComposes(files: Files, p: Path, visited: set<Path>)
    requires p !in visited && p in files && files[p].Mapping? && files[p].imports == []
    ensures LoadComposes(files, p, visited)
  {
    Unvisited(files, p, visited);
  }

  lemma ChainComposes(files: Files, p: Path, q: Path, visited: set<Path>)
    requires p !in visited && q !in visited && p != q && p in files && q in files
    requires files[p].Mapping? && files[p].imports == [Ref(q)] && files[q].Mapping? && files[q].imports == []
    ensures LoadComposes(files, p, visited)
  {
    var seen := visited + {p};
    Unvisited(files, p, visited);
    LoadLeaf(files, q, seen);
    LeafComposes(files, q, seen);
    assert StepsCompose(Layer(map[], []), [files[q].own]);
    assert ImportsCompose(files, [], seen, [] + [files[q].own]);
    assert [Ref(q)][1..] == [];
  }

  lemma ImportsComposeCons(files: Files, p: Path, rest: seq<Import>, visited: set<Path>, before: seq<Dict>)
    ensures ImportsCompose(files, [Ref(p)] + rest, visited, before)
            <==> LoadComposes(files, p, visited)
                 && StepsCompose(Layer(map[], before), PostOrder(files, p, visited))
                 && ImportsCompose(files, rest, visited, before + PostOrder(files, p, visited))
  {
    assert ([Ref(p)] + rest)[1..] == rest;
  }

  /** The premise of `LoadLayersPostOrder` on a fork. */
  lemma ForkComposesIff(files: Files, root: Path, p: Path, q: Path, r: Path)
    requires Fork(files, root, p, q, r)
    ensures LoadComposes(files, root, {}) <==> Composable(files[p].own, files[r].own, files[q].own)
  {
    var seen: set<Path> := {} + {root};
    var x, b, y := files[p].own, files[r].own, files[q].own;
    Unvisited(files, root, {});
    LoadLeaf(files, p, seen);
    LeafComposes(files, p, seen);
    LoadChain(files, q, r, seen);
    ChainComposes(files, q, r, seen);
    assert [Ref(p)] + [Ref(q)] == [Ref(p), Ref(q)] && [Ref(q)] + [] == [Ref(q)] && [] + [x] == [x];
    ImportsComposeCons(files, p, [Ref(q)], seen, []);
    ImportsComposeCons(files, q, [], seen, [x]);
    assert StepsCompose(Layer(map[], []), [x]);
    PairStepsIff(x, b, y);
    LayerOne(x);
  }

  lemma LayerOne(x: Dict)
    ensures Layer(map[], [x]) == x
  {
    MergeWithEmpty(x);
    LayerLast(map[], [x]);
  }

  lemma PairStepsIff(x: Dict, b: Dict, y: Dict)
    ensures StepsCompose(x, [b, y]) <==> Composable(x, b, y)
  {
    LayerOne(b);
    assert [b, y][..1] == [b] && [b, y][..0] == [];
    assert Composable(x, Layer(map[], []), b);
  }

  /** Where an import has an import of its own, loading is the plain layering
      exactly when the three contents compose, which is what the premise above asks there. */
  lemma ForkLayersIff(files: Files, root: Path, p: Path, q: Path, r: Path)
    requires Fork(files, root, p, q, r)
    ensures Load(files, root, {}).Ok?
    ensures Load(files, root, {}).value == Layer(map[], PostOrder(files, root, {}))
            <==> Composable(files[p].own, files[r].own, files[q].own)
  {
    var x, b, y := files[p].own, files[r].own, files[q].own;
    LoadFork(files, root, p, q, r);
    MergeWithEmpty(x);
    MergeWithEmpty(Merge(Merge(x, b), y));
    LayerConcat(map[], [x, b], [y, map[]]);
    assert [x, b] + [y, map[]] == [x, b, y, map[]];
    LayerPair(map[], x, b);
    LayerPair(Merge(x, b), y, map[]);
    MergeAssociatesIff(x, b, y);
  }

  lemma LayerPair(base: Dict, c: Dict, d: Dict)
    ensures Layer(base, [c, d]) == Merge(Merge(base, c), d)
  {
    assert [c, d][1..] == [d] && [d][1..] == [];
    assert Layer(Merge(base, c), [d]) == Layer(Merge(Merge(base, c), d), []);
  }

  // ---- Several files on the command line ----

  function LoadFiles(files: Files, paths: seq<Path>, base: Dict): Result<Dict, LoadError>
    decreases |paths|
  {
    if paths == [] then Ok(base)
    else
      match Load(files, paths[0], {})
      case Err(e) => Err(e)
      case Ok(content) => LoadFiles(files, paths[1..], Merge(base, content))
  }

  /** The file loop of `merge_yaml_files`; a file that loads to nothing is skipped. */
  method MergeYamlFiles(files: Files, paths: seq<Path>) returns (r: Result<Dict, LoadError>)
    ensures r == LoadFiles(files, paths, map[])
  {
    var result: Dict := map[];
    var i := 0;
    while i < |paths|
      invariant 0 <= i <= |paths|
      invariant LoadFiles(files, paths, map[]) == LoadFiles(files, paths[i..], result)
    {
      var content := LoadYamlWithImports(files, paths[i], {});
      if content.Err? {
        return content;
      }
      if content.value != map[] {
        result := DeepMerge(result, content.value);
      } else {
        MergeWithEmpty(result);
      }
      i := i + 1;
    }
    r := Ok(result);
  }

  /** The files named on the command line behave like the import list of one
      more file that has nothing of its own. */
  lemma {:induction false} FilesLayerLikeImports(files: Files, paths: seq<Path>, base: Dict)
    ensures LoadFiles(files, paths, base)
            == LoadImports(files, seq(|paths|, i requires 0 <= i < |paths| => Ref(paths[i])), {}, base)
    decreases |paths|
  {
    var refs := seq(|paths|, i requires 0 <= i < |paths| => Ref(paths[i]));
    if paths != [] {
      var rest := paths[1..];
      assert refs[1..] == seq(|rest|, i requires 0 <= i < |rest| => Ref(rest[i]));
      var content := Load(files, paths[0], {});
      if content.Ok? {
        FilesLayerLikeImports(files, rest, Merge(base, content.value));
      }
    }
  }
}
