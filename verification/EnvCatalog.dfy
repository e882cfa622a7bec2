/** The translation between environment variable names and `section.key` pairs. */
module EnvCatalog {
  import opened Json
  import opened Text

  datatype EnvVar = EnvVar(name: string, group: string, persistable: bool)

  datatype Section = Section(name: string, group: string, envPrefix: string)

  type Pair = (string, string)

  datatype Tables = Tables(envToKey: map<string, Pair>, keyToEnv: map<Pair, string>)

  /** Why a catalog is refused. */
  datatype CatalogError = NoSection(variable: string) | WrongPrefix(variable: string)

  /** The section of a group; a later section of the same group wins. */
  function SectionOf(sections: seq<Section>, group: string): Option<Section> {
    if sections == [] then None
    else if sections[|sections| - 1].group == group then Some(sections[|sections| - 1])
    else SectionOf(sections[..|sections| - 1], group)
  }

  predicate StartsWith(s: string, prefix: string) {
    |prefix| <= |s| && s[..|prefix|] == prefix
  }

  /** The pair of a variable, `None` for one without a section, or why it is refused. */
  function PairOf(sections: seq<Section>, v: EnvVar): Result<Option<Pair>, CatalogError> {
    match SectionOf(sections, v.group)
    case None => if v.persistable then Err(NoSection(v.name)) else Ok(None)
    case Some(s) =>
      if StartsWith(v.name, s.envPrefix) then Ok(Some((s.name, Lower(v.name[|s.envPrefix|..]))))
      else Err(WrongPrefix(v.name))
  }

  /** Section `k` is the last one of the group. */
  predicate LastOfGroup(sections: seq<Section>, group: string, k: int) {
    0 <= k < |sections| && sections[k].group == group && forall l | k < l < |sections| :: sections[l].group != group
  }

  lemma {:induction false} SectionOfIff(sections: seq<Section>, group: string)
    ensures SectionOf(sections, group).None? <==> forall k | 0 <= k < |sections| :: sections[k].group != group
    ensures forall k | LastOfGroup(sections, group, k) :: SectionOf(sections, group) == Some(sections[k])
    decreases |sections|
  {
    if sections != [] {
      var last := |sections| - 1;
      SectionOfIff(sections[..last], group);
      forall k | LastOfGroup(sections, group, k) ensures SectionOf(sections, group) == Some(sections[k]) {
        if k < last {
          assert LastOfGroup(sections[..last], group, k);
        }
      }
    }
  }

  /** A variable has the name of the last section of its group and what follows that
      section's prefix in lower case; without the prefix it is refused, and so is a
      persistable one without a section. */
  lemma PairOfIs(sections: seq<Section>, v: EnvVar)
    ensures (forall k | 0 <= k < |sections| :: sections[k].group != v.group) ==>
              PairOf(sections, v) == if v.persistable then Err(NoSection(v.name)) else Ok(None)
    ensures forall k, rest | LastOfGroup(sections, v.group, k) && v.name == sections[k].envPrefix + rest ::
              PairOf(sections, v) == Ok(Some((sections[k].name, Lower(rest))))
    ensures forall k | LastOfGroup(sections, v.group, k) && !(sections[k].envPrefix <= v.name) ::
              PairOf(sections, v) == Err(WrongPrefix(v.name))
  {
    SectionOfIff(sections, v.group);
    forall k, rest | LastOfGroup(sections, v.group, k) && v.name == sections[k].envPrefix + rest
      ensures PairOf(sections, v) == Ok(Some((sections[k].name, Lower(rest))))
    {
      assert v.name[|sections[k].envPrefix|..] == rest;
    }
  }

  predicate Accepted(vars: seq<EnvVar>, sections: seq<Section>) {
    forall i | 0 <= i < |vars| :: PairOf(sections, vars[i]).Ok?
  }

  function Names(vars: seq<EnvVar>): seq<string> {
    seq(|vars|, i requires 0 <= i < |vars| => vars[i].name)
  }

  function Pairs(vars: seq<EnvVar>, sections: seq<Section>): seq<Option<Pair>>
    requires Accepted(vars, sections)
  {
    seq(|vars|, i requires 0 <= i < |vars| => PairOf(sections, vars[i]).value)
  }

  predicate Distinct(names: seq<string>) {
    forall i, j | 0 <= i < j < |names| :: names[i] != names[j]
  }

  /** The tables after the first `n` variables. */
  function TablesAt(names: seq<string>, pairs: seq<Option<Pair>>, n: nat): Tables
    requires n <= |names| == |pairs|
  {
    if n == 0 then Tables(map[], map[])
    else
      var t := TablesAt(names, pairs, n - 1);
      match pairs[n - 1]
      case None => t
      case Some(pair) => Tables(t.envToKey[names[n - 1] := pair], t.keyToEnv[pair := names[n - 1]])
  }

  /** The loop of `_build_section_maps`, which stops at the first refused variable. */
  method BuildSectionMaps(vars: seq<EnvVar>, sections: seq<Section>) returns (r: Result<Tables, CatalogError>)
    ensures r.Ok? <==> Accepted(vars, sections)
    ensures r.Ok? ==> r.value == TablesAt(Names(vars), Pairs(vars, sections), |vars|)
    ensures r.Err? ==> exists i :: 0 <= i < |vars| && PairOf(sections, vars[i]) == Err(r.error)
                                  && forall j | 0 <= j < i :: PairOf(sections, vars[j]).Ok?
  {
    var t := Tables(map[], map[]);
    ghost var names, pairs := Names(vars), PairsOrNone(vars, sections);
    var n := 0;
    while n < |vars|
      invariant 0 <= n <= |vars| && t == TablesAt(names, pairs, n)
      invariant forall j | 0 <= j < n :: PairOf(sections, vars[j]).Ok?
      decreases |vars| - n
    {
      var v := vars[n];
      match SectionOf(sections, v.group) {
        case None =>
          if v.persistable {
            return Err(NoSection(v.name));
          }
        case Some(s) =>
          if !StartsWith(v.name, s.envPrefix) {
            return Err(WrongPrefix(v.name));
          }
          var key := Lower(v.name[|s.envPrefix|..]);
          t := Tables(t.envToKey[v.name := (s.name, key)], t.keyToEnv[(s.name, key) := v.name]);
      }
      n := n + 1;
    }
    assert pairs == Pairs(vars, sections);
    return Ok(t);
  }

  ghost function PairsOrNone(vars: seq<EnvVar>, sections: seq<Section>): seq<Option<Pair>> {
    seq(|vars|, i requires 0 <= i < |vars| =>
      if PairOf(sections, vars[i]).Ok? then PairOf(sections, vars[i]).value else None)
  }

  /** Every sectioned variable is listed with its pair. */
  lemma {:induction false} NameListed(names: seq<string>, pairs: seq<Option<Pair>>, n: nat, i: nat)
    requires i < n <= |names| == |pairs| && Distinct(names) && pairs[i].Some?
    ensures var t := TablesAt(names, pairs, n);
            names[i] in t.envToKey && t.envToKey[names[i]] == pairs[i].value && pairs[i].value in t.keyToEnv
  {
    if i < n - 1 {
      NameListed(names, pairs, n - 1, i);
      assert names[i] != names[n - 1];
    }
  }

  lemma {:induction false} NameFrom(names: seq<string>, pairs: seq<Option<Pair>>, n: nat, name: string) returns (i: nat)
    requires n <= |names| == |pairs| && name in TablesAt(names, pairs, n).envToKey
    ensures i < n && pairs[i].Some? && names[i] == name
  {
    if pairs[n - 1].Some? && name == names[n - 1] {
      i := n - 1;
    } else {
      i := NameFrom(names, pairs, n - 1, name);
    }
  }

  /** A pair leads to the last variable that has it. */
  lemma {:induction false} PairFrom(names: seq<string>, pairs: seq<Option<Pair>>, n: nat, pair: Pair) returns (i: nat)
    requires n <= |names| == |pairs| && pair in TablesAt(names, pairs, n).keyToEnv
    ensures i < n && pairs[i] == Some(pair) && TablesAt(names, pairs, n).keyToEnv[pair] == names[i]
    ensures forall j | i < j < n :: pairs[j] != Some(pair)
  {
    if pairs[n - 1] == Some(pair) {
      i := n - 1;
    } else {
      i := PairFrom(names, pairs, n - 1, pair);
    }
  }

  /** No two variables of a section have keys that agree after lower-casing. */
  predicate NoCollisions(pairs: seq<Option<Pair>>) {
    forall i, j | 0 <= i < j < |pairs| && pairs[i].Some? :: pairs[i] != pairs[j]
  }

  predicate RoundTrips(t: Tables) {
    forall name | name in t.envToKey :: t.envToKey[name] in t.keyToEnv && t.keyToEnv[t.envToKey[name]] == name
  }

  predicate RoundTripsBack(t: Tables) {
    forall pair | pair in t.keyToEnv :: t.keyToEnv[pair] in t.envToKey && t.envToKey[t.keyToEnv[pair]] == pair
  }

  /** Every pair leads to a name and back; every name to a pair and back exactly
      when no keys collide. So that is when the translation is a bijection. */
  lemma BijectionIff(names: seq<string>, pairs: seq<Option<Pair>>)
    requires |names| == |pairs| && Distinct(names)
    ensures RoundTripsBack(TablesAt(names, pairs, |names|))
    ensures RoundTrips(TablesAt(names, pairs, |names|)) <==> NoCollisions(pairs)
  {
    var n, t := |names|, TablesAt(names, pairs, |names|);
    forall pair | pair in t.keyToEnv ensures t.keyToEnv[pair] in t.envToKey && t.envToKey[t.keyToEnv[pair]] == pair {
      var i := PairFrom(names, pairs, n, pair);
      NameListed(names, pairs, n, i);
    }
    if NoCollisions(pairs) {
      forall name | name in t.envToKey ensures t.envToKey[name] in t.keyToEnv && t.keyToEnv[t.envToKey[name]] == name {
        var i := NameFrom(names, pairs, n, name);
        NameListed(names, pairs, n, i);
        var j := PairFrom(names, pairs, n, pairs[i].value);
        assert i == j;
      }
    }
    if RoundTrips(t) {
      forall i, j | 0 <= i < j < n && pairs[i].Some? ensures pairs[i] != pairs[j] {
        NameListed(names, pairs, n, i);
        if pairs[j].Some? {
          NameListed(names, pairs, n, j);
          assert t.keyToEnv[t.envToKey[names[i]]] == names[i];
          assert t.keyToEnv[t.envToKey[names[j]]] == names[j];
        }
      }
    }
  }

  lemma PairOfPrefixed(s: Section, rest: string, persistable: bool)
    ensures PairOf([s], EnvVar(s.envPrefix + rest, s.group, persistable)) == Ok(Some((s.name, Lower(rest))))
  {
    assert (s.envPrefix + rest)[|s.envPrefix|..] == rest;
  }

  /** Two different variables of one section that agree after lower-casing are
      accepted, and not both come back from the tables. */
  lemma CaseCollision(s: Section, x: string, y: string)
    requires x != y && Lower(x) == Lower(y)
    ensures var vars := [EnvVar(s.envPrefix + x, s.group, true), EnvVar(s.envPrefix + y, s.group, true)];
            && Distinct(Names(vars)) && Accepted(vars, [s])
            && !RoundTrips(TablesAt(Names(vars), Pairs(vars, [s]), 2))
  {
    var vars := [EnvVar(s.envPrefix + x, s.group, true), EnvVar(s.envPrefix + y, s.group, true)];
    PairOfPrefixed(s, x, true);
    PairOfPrefixed(s, y, true);
    assert vars[0].name[|s.envPrefix|..] == x && vars[1].name[|s.envPrefix|..] == y;
    assert forall i | 0 <= i < 2 :: PairOf([s], vars[i]) == Ok(Some((s.name, Lower(x))));
    assert Pairs(vars, [s])[0] == Pairs(vars, [s])[1];
    BijectionIff(Names(vars), Pairs(vars, [s]));
  }

  /** For one: two names of one section that differ in the case of a letter. */
  lemma CollidingKeysLoseName() returns (vars: seq<EnvVar>, sections: seq<Section>)
    ensures Accepted(vars, sections) && Distinct(Names(vars))
    ensures !RoundTrips(TablesAt(Names(vars), Pairs(vars, sections), |vars|))
  {
    var s := Section("aws", "AWS", "AWS_");
    assert LowerChar('A') == 'a' && Lower("A") == "a" && Lower("a") == "a";
    CaseCollision(s, "A", "a");
    vars, sections := [EnvVar(s.envPrefix + "A", "AWS", true), EnvVar(s.envPrefix + "a", "AWS", true)], [s];
  }

  /** Every persistable variable of an accepted catalog has a pair, in a known section. */
  lemma PersistableHasPair(vars: seq<EnvVar>, sections: seq<Section>, i: nat)
    requires Accepted(vars, sections) && Distinct(Names(vars)) && i < |vars| && vars[i].persistable
    ensures var t := TablesAt(Names(vars), Pairs(vars, sections), |vars|);
            && vars[i].name in t.envToKey
            && exists k :: 0 <= k < |sections| && sections[k].name == t.envToKey[vars[i].name].0
  {
    assert PairOf(sections, vars[i]).Ok?;
    assert Names(vars)[i] == vars[i].name;
    NameListed(Names(vars), Pairs(vars, sections), |vars|, i);
    SectionIsListed(sections, vars[i].group);
  }

  lemma {:induction false} SectionIsListed(sections: seq<Section>, group: string)
    ensures SectionOf(sections, group).Some? ==> SectionOf(sections, group).value in sections
  {
    if sections != [] {
      SectionIsListed(sections[..|sections| - 1], group);
    }
  }
}
