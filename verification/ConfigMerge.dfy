/** `deep_merge`: the algebra of layering one configuration mapping over another. */
module ConfigMerge {
  import opened Json

  /** What `override` over `base` holds at one key present in either. */
  function MergeAt(base: Dict, override: Dict, k: string): Json
    requires k in base || k in override
    decreases Obj(override), 0
  {
    if k !in override then base[k]
    else if k in base && base[k].Obj? && override[k].Obj?
    then Obj(Merge(base[k].members, override[k].members))
    else override[k]
  }

  function Merge(base: Dict, override: Dict): (r: Dict)
    ensures r.Keys == base.Keys + override.Keys
    decreases Obj(override), 1
  {
    map k | k in base.Keys + override.Keys :: MergeAt(base, override, k)
  }

  /** The loop of `deep_merge`: start from the base and take the override's items in any order. */
  method DeepMerge(base: Dict, override: Dict) returns (result: Dict)
    ensures result == Merge(base, override)
    decreases Obj(override)
  {
    result := base;
    var todo := override.Keys;
    while todo != {}
      invariant todo <= override.Keys
      invariant result.Keys == base.Keys + (override.Keys - todo)
      invariant forall k | k in result ::
                  result[k] == if k in override && k !in todo then MergeAt(base, override, k) else base[k]
    {
      var key :| key in todo;
      var value := override[key];
      if key in result && result[key].Obj? && value.Obj? {
        var merged := DeepMerge(result[key].members, value.members);
        result := result[key := Obj(merged)];
      } else {
        result := result[key := value];
      }
      todo := todo - {key};
    }
  }

  lemma MergeWithEmpty(a: Dict)
    ensures Merge(map[], a) == a && Merge(a, map[]) == a
  {
  }

  /** `override` already decides everything `base` has: the paths of `base`
      either exist in `override` or lead into something it replaces. */
  predicate Covered(base: Dict, override: Dict)
    decreases Obj(override)
  {
    forall k | k in base ::
      k in override && (base[k].Obj? && override[k].Obj? ==> Covered(base[k].members, override[k].members))
  }

  lemma {:induction false} MergeAbsorbsIff(base: Dict, override: Dict)
    ensures Merge(base, override) == override <==> Covered(base, override)
    decreases Obj(override)
  {
    var m := Merge(base, override);
    forall k | k in base && k in override && base[k].Obj? && override[k].Obj? {
      MergeAbsorbsIff(base[k].members, override[k].members);
    }
    if m == override {
      forall k | k in base ensures k in override {
        assert k in m.Keys;
      }
      forall k | k in base && base[k].Obj? && override[k].Obj?
        ensures Covered(base[k].members, override[k].members)
      {
        assert m[k] == MergeAt(base, override, k);
      }
    }
  }

  /** Where three layers all carry a key: the outer two may both be mappings only
      if the middle one is a mapping that composes with them in turn, or the last
      layer decides everything the first one has below that key. */
  predicate Composable(a: Dict, b: Dict, c: Dict)
    decreases Obj(c)
  {
    forall k | k in a && k in b && k in c && a[k].Obj? && c[k].Obj? ::
      if b[k].Obj? then Composable(a[k].members, b[k].members, c[k].members)
      else Covered(a[k].members, c[k].members)
  }

  lemma {:induction false} MergeAssociatesIff(a: Dict, b: Dict, c: Dict)
    ensures Merge(Merge(a, b), c) == Merge(a, Merge(b, c)) <==> Composable(a, b, c)
    decreases Obj(c)
  {
    var l, r := Merge(Merge(a, b), c), Merge(a, Merge(b, c));
    assert l.Keys == r.Keys;
    forall k | k in a && k in b && k in c && a[k].Obj? && c[k].Obj?
      ensures l[k] == r[k] <==>
              if b[k].Obj? then Composable(a[k].members, b[k].members, c[k].members)
              else Covered(a[k].members, c[k].members)
    {
      assert Merge(b, c)[k] == MergeAt(b, c, k);
      assert Merge(a, b)[k] == MergeAt(a, b, k);
      assert r[k] == MergeAt(a, Merge(b, c), k) && l[k] == MergeAt(Merge(a, b), c, k);
      if b[k].Obj? {
        MergeAssociatesIff(a[k].members, b[k].members, c[k].members);
      } else {
        MergeAbsorbsIff(a[k].members, c[k].members);
      }
    }
    forall k | k in l && !(k in a && k in b && k in c && a[k].Obj? && c[k].Obj?)
      ensures l[k] == r[k]
    {
      MergeAssociatesAtOtherKeys(a, b, c, k);
    }
  }

  lemma MergeAssociatesAtOtherKeys(a: Dict, b: Dict, c: Dict, k: string)
    requires k in a || k in b || k in c
    requires !(k in a && k in b && k in c && a[k].Obj? && c[k].Obj?)
    ensures Merge(Merge(a, b), c)[k] == Merge(a, Merge(b, c))[k]
  {
  }

  /** Mapping, non-mapping, mapping at one path, the last without something the first has there. */
  lemma MixedDoesNotAssociate(a: Dict, b: Dict, c: Dict, k: string, x: string)
    requires k in a && k in b && k in c && a[k].Obj? && !b[k].Obj? && c[k].Obj?
    requires x in a[k].members && x !in c[k].members
    ensures Merge(Merge(a, b), c) != Merge(a, Merge(b, c))
  {
    assert !Covered(a[k].members, c[k].members);
    MergeAssociatesIff(a, b, c);
  }

  /** So grouping can decide the result. */
  lemma MergeDoesNotAssociate()
    ensures exists a: Dict, b: Dict, c: Dict :: Merge(Merge(a, b), c) != Merge(a, Merge(b, c))
  {
    var a: Dict := map["k" := Obj(map["x" := Num(1)])];
    var b: Dict := map["k" := Null];
    var c: Dict := map["k" := Obj(map[])];
    MixedDoesNotAssociate(a, b, c, "k", "x");
  }

  /** Every path both layers have is a mapping in both or in neither. */
  predicate Agree(a: Dict, b: Dict)
    decreases Obj(a)
  {
    forall k | k in a && k in b ::
      a[k].Obj? == b[k].Obj? && (a[k].Obj? ==> Agree(a[k].members, b[k].members))
  }

  lemma {:induction false} AgreeSymmetric(a: Dict, b: Dict)
    requires Agree(a, b)
    ensures Agree(b, a)
    decreases Obj(a)
  {
    forall k | k in a && k in b && a[k].Obj? {
      AgreeSymmetric(a[k].members, b[k].members);
    }
  }

  lemma {:induction false} AgreeWithMerge(x: Dict, a: Dict, b: Dict)
    requires Agree(x, a) && Agree(x, b)
    ensures Agree(x, Merge(a, b))
    decreases Obj(x)
  {
    var m := Merge(a, b);
    forall k | k in x && k in m
      ensures x[k].Obj? == m[k].Obj? && (x[k].Obj? ==> Agree(x[k].members, m[k].members))
    {
      assert m[k] == MergeAt(a, b, k);
      if x[k].Obj? && k in a && k in b {
        AgreeWithMerge(x[k].members, a[k].members, b[k].members);
      }
    }
  }

  lemma {:induction false} AgreeingLayersCompose(a: Dict, b: Dict, c: Dict)
    requires Agree(a, b) && Agree(b, c)
    ensures Composable(a, b, c)
    decreases Obj(c)
  {
    forall k | k in a && k in b && k in c && a[k].Obj? && c[k].Obj?
      ensures b[k].Obj? && Composable(a[k].members, b[k].members, c[k].members)
    {
      AgreeingLayersCompose(a[k].members, b[k].members, c[k].members);
    }
  }

  /** Left-to-right layering, as the import loop and the `-f` loop do it. */
  function Layer(base: Dict, layers: seq<Dict>): Dict
    decreases |layers|
  {
    if layers == [] then base else Layer(Merge(base, layers[0]), layers[1..])
  }

  predicate AllAgree(layers: seq<Dict>) {
    forall i, j | 0 <= i < |layers| && 0 <= j < |layers| :: Agree(layers[i], layers[j])
  }

  lemma {:induction false} AgreeWithLayers(x: Dict, base: Dict, layers: seq<Dict>)
    requires Agree(x, base)
    requires forall i | 0 <= i < |layers| :: Agree(x, layers[i])
    ensures Agree(x, Layer(base, layers))
    decreases |layers|
  {
    if layers != [] {
      AgreeWithMerge(x, base, layers[0]);
      AgreeWithLayers(x, Merge(base, layers[0]), layers[1..]);
    }
  }

  lemma {:induction false} LayerConcat(base: Dict, xs: seq<Dict>, ys: seq<Dict>)
    ensures Layer(base, xs + ys) == Layer(Layer(base, xs), ys)
    decreases |xs|
  {
    if xs == [] {
      assert xs + ys == ys;
    } else {
      assert (xs + ys)[1..] == xs[1..] + ys;
      LayerConcat(Merge(base, xs[0]), xs[1..], ys);
    }
  }

  lemma LayerLast(base: Dict, layers: seq<Dict>)
    requires layers != []
    ensures Layer(base, layers) == Merge(Layer(base, layers[..|layers| - 1]), layers[|layers| - 1])
  {
    var front, last := layers[..|layers| - 1], layers[|layers| - 1];
    assert layers == front + [last] && [last][1..] == [];
    LayerConcat(base, front, [last]);
  }

  /** The base, the layers so far and the next one compose, at every layer. */
  predicate StepsCompose(base: Dict, layers: seq<Dict>) {
    forall k | 0 <= k < |layers| :: Composable(base, Layer(map[], layers[..k]), layers[k])
  }

  /** Layering a list onto a base is merging the layered list onto it in one go. */
  lemma {:induction false} LayerFromBase(base: Dict, layers: seq<Dict>)
    requires StepsCompose(base, layers)
    ensures Layer(base, layers) == Merge(base, Layer(map[], layers))
    decreases |layers|
  {
    MergeWithEmpty(base);
    if layers != [] {
      var front, last := layers[..|layers| - 1], layers[|layers| - 1];
      forall k | 0 <= k < |front| ensures Composable(base, Layer(map[], front[..k]), front[k]) {
        assert front[..k] == layers[..k];
      }
      LayerFromBase(base, front);
      LayerLast(base, layers);
      LayerLast(map[], layers);
      MergeAssociatesIff(base, Layer(map[], front), last);
    }
  }

  predicate InOneGo(base: Dict, layers: seq<Dict>) {
    Layer(base, layers) == Merge(base, Layer(map[], layers))
  }

  lemma NextStepComposes(base: Dict, layers: seq<Dict>, next: Dict)
    requires InOneGo(base, layers) && InOneGo(base, layers + [next])
    ensures Composable(base, Layer(map[], layers), next)
  {
    LayerLast(base, layers + [next]);
    LayerLast(map[], layers + [next]);
    assert (layers + [next])[..|layers|] == layers;
    MergeAssociatesIff(base, Layer(map[], layers), next);
  }

  /** Nothing less makes it so for the list and all that it starts with. */
  lemma StepsComposeIff(base: Dict, layers: seq<Dict>)
    ensures StepsCompose(base, layers) <==> forall k | 0 <= k <= |layers| :: InOneGo(base, layers[..k])
  {
    if StepsCompose(base, layers) {
      forall k | 0 <= k <= |layers| ensures InOneGo(base, layers[..k]) {
        assert forall j | 0 <= j < k :: layers[..k][..j] == layers[..j];
        LayerFromBase(base, layers[..k]);
      }
    }
    if forall k | 0 <= k <= |layers| :: InOneGo(base, layers[..k]) {
      forall k | 0 <= k < |layers| ensures Composable(base, Layer(map[], layers[..k]), layers[k]) {
        assert layers[..k + 1] == layers[..k] + [layers[k]];
        NextStepComposes(base, layers[..k], layers[k]);
      }
    }
  }

  lemma AgreeingStepsCompose(base: Dict, layers: seq<Dict>)
    requires AllAgree(layers)
    requires forall i | 0 <= i < |layers| :: Agree(base, layers[i])
    ensures StepsCompose(base, layers)
  {
    forall k | 0 <= k < |layers| ensures Composable(base, Layer(map[], layers[..k]), layers[k]) {
      AgreeWithLayers(base, map[], layers[..k]);
      AgreeWithLayers(layers[k], map[], layers[..k]);
      AgreeSymmetric(layers[k], Layer(map[], layers[..k]));
      AgreeingLayersCompose(base, Layer(map[], layers[..k]), layers[k]);
    }
  }
}
