/** The two persisted configuration files, `config.yml` and `secrets.yml`, which
    together hold one map from environment variable names to values. */
module UserConfig {
  import opened EnvCatalog
  import opened Json

  type Env = map<string, string>

  const VERSION_KEY := "version"
  const SCHEMA_VERSION := 1

  /** What the catalog says about names. */
  datatype Rules = Rules(
    tables: Tables, sections: set<string>, persistable: set<string>, nonPersistable: set<string>,
    secret: string -> bool)

  ghost predicate WellFormed(rules: Rules) {
    && RoundTrips(rules.tables) && RoundTripsBack(rules.tables)
    && VERSION_KEY !in rules.sections
    && (forall name | name in rules.persistable :: name in rules.tables.envToKey)
    && (forall pair | pair in rules.tables.keyToEnv :: pair.0 in rules.sections)
  }

  function RulesOf(vars: seq<EnvVar>, sections: seq<Section>, secret: string -> bool): Rules
    requires Accepted(vars, sections)
  {
    Rules(
      TablesAt(Names(vars), Pairs(vars, sections), |vars|),
      set s | s in sections :: s.name,
      set v | v in vars && v.persistable :: v.name,
      set v | v in vars && !v.persistable :: v.name,
      secret)
  }

  /** A catalog with distinct names, no colliding keys and no section called like the
      version key gives well-formed rules. */
  lemma CatalogRules(vars: seq<EnvVar>, sections: seq<Section>, secret: string -> bool)
    requires Accepted(vars, sections) && Distinct(Names(vars)) && NoCollisions(Pairs(vars, sections))
    requires forall k | 0 <= k < |sections| :: sections[k].name != VERSION_KEY
    ensures WellFormed(RulesOf(vars, sections, secret))
  {
    var rules := RulesOf(vars, sections, secret);
    BijectionIff(Names(vars), Pairs(vars, sections));
    forall name | name in rules.persistable ensures name in rules.tables.envToKey {
      var v :| v in vars && v.persistable && v.name == name;
      var i :| 0 <= i < |vars| && vars[i] == v;
      PersistableHasPair(vars, sections, i);
    }
    forall pair | pair in rules.tables.keyToEnv ensures pair.0 in rules.sections {
      var i := PairFrom(Names(vars), Pairs(vars, sections), |vars|, pair);
      SectionIsListed(sections, vars[i].group);
    }
  }

  /** `_check_persistable` passes. */
  predicate Known(rules: Rules, name: string) {
    name !in rules.nonPersistable && name in rules.persistable
  }

  // ---- Reading ----

  datatype FileText = NotYaml | Document(tree: Json)

  type File = Option<FileText>

  predicate VersionOk(members: Dict) {
    VERSION_KEY in members ==> members[VERSION_KEY] == Null || members[VERSION_KEY] == Num(SCHEMA_VERSION)
  }

  predicate EntryOk(rules: Rules, secretFile: bool, pair: Pair, value: Json) {
    && pair in rules.tables.keyToEnv && Known(rules, rules.tables.keyToEnv[pair])
    && value.Str? && rules.secret(rules.tables.keyToEnv[pair]) == secretFile
  }

  predicate SectionOk(rules: Rules, secretFile: bool, section: string, body: Json) {
    && section in rules.sections
    && (body.Null?
        || (body.Obj? && forall key | key in body.members ::
                          EntryOk(rules, secretFile, (section, key), body.members[key])))
  }

  predicate FileOk(rules: Rules, secretFile: bool, tree: Json) {
    || tree.Null?
    || (tree.Obj? && VersionOk(tree.members)
        && forall s | s in tree.members && s != VERSION_KEY :: SectionOk(rules, secretFile, s, tree.members[s]))
  }

  predicate HasKey(tree: Json, pair: Pair) {
    && tree.Obj? && pair.0 != VERSION_KEY && pair.0 in tree.members
    && tree.members[pair.0].Obj? && pair.1 in tree.members[pair.0].members
  }

  function ValueAt(tree: Json, pair: Pair): Json
    requires HasKey(tree, pair)
  {
    tree.members[pair.0].members[pair.1]
  }

  predicate HasValue(tree: Json, pair: Pair) {
    HasKey(tree, pair) && ValueAt(tree, pair).Str?
  }

  /** The variables a document gives values to. */
  function EnvOf(rules: Rules, tree: Json): Env {
    map name | name in rules.tables.envToKey && HasValue(tree, rules.tables.envToKey[name]) ::
      ValueAt(tree, rules.tables.envToKey[name]).s
  }

  /** What reading a file gives; `None` is an error. */
  function ReadFile(rules: Rules, secretFile: bool, file: File): Option<Env> {
    match file
    case None => Some(map[])
    case Some(NotYaml) => None
    case Some(Document(tree)) => if FileOk(rules, secretFile, tree) then Some(EnvOf(rules, tree)) else None
  }

  /** Entries the loops of `_read_env_file` have not come to yet. */
  predicate Pending(todo: set<string>, current: string, keys: set<string>, pair: Pair) {
    pair.0 in todo || (pair.0 == current && pair.1 in keys)
  }

  ghost predicate Collected(rules: Rules, tree: Json, todo: set<string>, current: string, keys: set<string>, env: Env) {
    && (forall name {:trigger name in env} :: name in env <==>
          name in rules.tables.envToKey && HasValue(tree, rules.tables.envToKey[name])
          && !Pending(todo, current, keys, rules.tables.envToKey[name]))
    && (forall name | name in env :: env[name] == ValueAt(tree, rules.tables.envToKey[name]).s)
  }

  lemma CollectEntry(
      rules: Rules, tree: Json, todo: set<string>, current: string, keys: set<string>, env: Env, key: string)
    requires WellFormed(rules) && Collected(rules, tree, todo, current, keys, env)
    requires key in keys && current !in todo && HasValue(tree, (current, key))
             && (current, key) in rules.tables.keyToEnv
    ensures Collected(rules, tree, todo, current, keys - {key},
                      env[rules.tables.keyToEnv[(current, key)] := ValueAt(tree, (current, key)).s])
  {
  }

  lemma AllCollected(rules: Rules, tree: Json, current: string, env: Env)
    requires Collected(rules, tree, {}, current, {}, env)
    ensures env == EnvOf(rules, tree)
  {
  }

  /** The inner loop of `_read_env_file`; `None` where it raises. */
  method ReadSection(rules: Rules, secretFile: bool, tree: Json, ghost todo: set<string>, section: string, env: Env)
    returns (r: Option<Env>)
    requires WellFormed(rules) && section !in todo && section != VERSION_KEY
    requires tree.Obj? && section in tree.members && tree.members[section].Obj?
    requires Collected(rules, tree, todo + {section}, section, {}, env)
    ensures r.Some? <==>
            forall key | key in tree.members[section].members ::
              EntryOk(rules, secretFile, (section, key), tree.members[section].members[key])
    ensures r.Some? ==> Collected(rules, tree, todo, section, {}, r.value)
  {
    var body := tree.members[section].members;
    var keys, result := body.Keys, env;
    assert Collected(rules, tree, todo, section, keys, result) by {
      OpenSection(rules, tree, todo, section, env);
    }
    while keys != {}
      invariant keys <= body.Keys && Collected(rules, tree, todo, section, keys, result)
      invariant forall key | key in body.Keys - keys :: EntryOk(rules, secretFile, (section, key), body[key])
      decreases |keys|
    {
      var key :| key in keys;
      var value := body[key];
      if (section, key) !in rules.tables.keyToEnv {
        return None;
      }
      var name := rules.tables.keyToEnv[(section, key)];
      if !Known(rules, name) || !value.Str? || (secretFile && !rules.secret(name))
         || (!secretFile && rules.secret(name)) {
        assert !EntryOk(rules, secretFile, (section, key), body[key]);
        return None;
      }
      CollectEntry(rules, tree, todo, section, keys, result, key);
      result := result[name := value.s];
      keys := keys - {key};
    }
    return Some(result);
  }

  lemma OpenSection(rules: Rules, tree: Json, todo: set<string>, section: string, env: Env)
    requires tree.Obj? && section in tree.members && tree.members[section].Obj?
    requires Collected(rules, tree, todo + {section}, section, {}, env)
    ensures Collected(rules, tree, todo, section, tree.members[section].members.Keys, env)
  {
  }

  lemma SkipSection(rules: Rules, tree: Json, todo: set<string>, section: string, current: string, env: Env)
    requires tree.Obj? && section in tree.members && !tree.members[section].Obj?
    requires Collected(rules, tree, todo + {section}, current, {}, env)
    ensures Collected(rules, tree, todo, section, {}, env)
  {
  }

  lemma Recurrent(rules: Rules, tree: Json, todo: set<string>, current: string, other: string, env: Env)
    requires Collected(rules, tree, todo, current, {}, env)
    ensures Collected(rules, tree, todo, other, {}, env)
  {
  }

  /** `_read_env_file`. */
  method ReadEnvFile(rules: Rules, secretFile: bool, file: File) returns (r: Option<Env>)
    requires WellFormed(rules)
    ensures r == ReadFile(rules, secretFile, file)
  {
    if file.None? {
      return Some(map[]);
    }
    if file.value.NotYaml? {
      return None;
    }
    var tree := file.value.tree;
    if tree.Null? {
      assert EnvOf(rules, tree) == map[];
      return Some(map[]);
    }
    if !tree.Obj? || !VersionOk(tree.members) {
      return None;
    }
    var todo, result := tree.members.Keys - {VERSION_KEY}, map[];
    ghost var current := VERSION_KEY;
    while todo != {}
      invariant todo <= tree.members.Keys - {VERSION_KEY} && Collected(rules, tree, todo, current, {}, result)
      invariant forall s | s in tree.members && s != VERSION_KEY && s !in todo ::
                  SectionOk(rules, secretFile, s, tree.members[s])
      decreases |todo|
    {
      var section :| section in todo;
      var body := tree.members[section];
      Recurrent(rules, tree, todo, current, section, result);
      assert (todo - {section}) + {section} == todo;
      todo := todo - {section};
      if section !in rules.sections || (!body.Null? && !body.Obj?) {
        assert !SectionOk(rules, secretFile, section, body);
        return None;
      }
      if body.Null? {
        SkipSection(rules, tree, todo, section, section, result);
      } else {
        var more := ReadSection(rules, secretFile, tree, todo, section, result);
        if more.None? {
          assert !SectionOk(rules, secretFile, section, body);
          return None;
        }
        result := more.value;
      }
      current := section;
    }
    AllCollected(rules, tree, current, result);
    return Some(result);
  }

  /** What the catalog lets be kept in a file: persistable, not a per-run flag, and on
      the side of the file that the name belongs to. */
  predicate BelongsIn(rules: Rules, secretFile: bool, name: string) {
    name in rules.persistable && name !in rules.nonPersistable && (rules.secret(name) <==> secretFile)
  }

  /** Exactly which documents are read: nothing at all, or a mapping without a version or
      with version 1 whose other members are known sections, empty or with nothing but
      keys that lead to variables of this file and have strings. */
  lemma ReadsIff(rules: Rules, secretFile: bool, tree: Json)
    ensures ReadFile(rules, secretFile, Some(Document(tree))).Some? <==>
            || tree == Null
            || (tree.Obj?
                && ("version" in tree.members ==> tree.members["version"] in [Null, Num(1)])
                && (forall s | s in tree.members && s != "version" ::
                      s in rules.sections && (tree.members[s].Null? || tree.members[s].Obj?))
                && (forall s, key | s != "version" && Lookup(tree, [s, key]).Some? ::
                      && (s, key) in rules.tables.keyToEnv
                      && BelongsIn(rules, secretFile, rules.tables.keyToEnv[(s, key)])
                      && Lookup(tree, [s, key]).value.Str?))
  {
    if tree.Obj? {
      forall s, key
        ensures Lookup(tree, [s, key])
                == if s in tree.members && tree.members[s].Obj? && key in tree.members[s].members
                   then Some(tree.members[s].members[key]) else None
      {
        TwoSteps(tree, s, key);
      }
      if FileOk(rules, secretFile, tree) {
        forall s, key | s != "version" && Lookup(tree, [s, key]).Some?
          ensures (s, key) in rules.tables.keyToEnv
          ensures BelongsIn(rules, secretFile, rules.tables.keyToEnv[(s, key)])
          ensures Lookup(tree, [s, key]).value.Str?
        {
          assert SectionOk(rules, secretFile, s, tree.members[s]);
        }
      }
    }
  }

  lemma TwoSteps(tree: Json, s: string, key: string)
    requires tree.Obj?
    ensures Lookup(tree, [s, key])
            == if s in tree.members && tree.members[s].Obj? && key in tree.members[s].members
               then Some(tree.members[s].members[key]) else None
  {
    assert [s, key][1..] == [key] && [key][1..] == [];
    if s in tree.members {
      var body := tree.members[s];
      assert Lookup(tree, [s, key]) == Lookup(body, [key]);
      if body.Obj? && key in body.members {
        assert Lookup(body, [key]) == Lookup(body.members[key], []);
      }
    }
  }

  /** And what they give: the strings at the places of the known names. */
  lemma ReadGives(rules: Rules, secretFile: bool, tree: Json, name: string)
    requires WellFormed(rules) && ReadFile(rules, secretFile, Some(Document(tree))).Some?
    ensures var env := ReadFile(rules, secretFile, Some(Document(tree))).value;
            if name in rules.tables.envToKey
               && Lookup(tree, [rules.tables.envToKey[name].0, rules.tables.envToKey[name].1]).Some?
            then name in env
                 && Lookup(tree, [rules.tables.envToKey[name].0, rules.tables.envToKey[name].1]) == Some(Str(env[name]))
            else name !in env
  {
    if name in rules.tables.envToKey {
      var pair := rules.tables.envToKey[name];
      assert pair in rules.tables.keyToEnv && pair.0 in rules.sections;
      if tree.Obj? {
        TwoSteps(tree, pair.0, pair.1);
      }
      if HasKey(tree, pair) {
        assert SectionOk(rules, secretFile, pair.0, tree.members[pair.0]);
        assert EntryOk(rules, secretFile, pair, ValueAt(tree, pair));
      }
    }
  }

  // ---- Writing ----

  /** The document of a file that holds exactly `env`: the version, and beside it
      only non-empty sections with one string per variable. */
  ghost predicate Encodes(rules: Rules, tree: Json, env: Env) {
    && tree.Obj? && VERSION_KEY in tree.members && tree.members[VERSION_KEY] == Num(SCHEMA_VERSION)
    && (forall s | s in tree.members && s != VERSION_KEY :: tree.members[s].Obj? && tree.members[s].members != map[])
    && (forall pair {:trigger HasKey(tree, pair)} ::
          HasKey(tree, pair) <==> pair in rules.tables.keyToEnv && rules.tables.keyToEnv[pair] in env)
    && (forall pair | HasKey(tree, pair) :: ValueAt(tree, pair) == Str(env[rules.tables.keyToEnv[pair]]))
  }

  ghost predicate Holdable(rules: Rules, secretFile: bool, env: Env) {
    forall name | name in env :: Known(rules, name) && rules.secret(name) == secretFile
  }

  lemma EncodedSectionOk(rules: Rules, secretFile: bool, tree: Json, env: Env, s: string)
    requires WellFormed(rules) && Holdable(rules, secretFile, env) && Encodes(rules, tree, env)
    requires s in tree.members && s != VERSION_KEY
    ensures SectionOk(rules, secretFile, s, tree.members[s])
  {
    var body := tree.members[s].members;
    forall key | key in body ensures EntryOk(rules, secretFile, (s, key), body[key]) {
      assert HasKey(tree, (s, key)) && ValueAt(tree, (s, key)) == body[key];
    }
    var key :| key in body;
    assert HasKey(tree, (s, key));
  }

  lemma EncodedEnv(rules: Rules, tree: Json, env: Env)
    requires WellFormed(rules) && Encodes(rules, tree, env)
    requires forall name | name in env :: name in rules.tables.envToKey
    ensures EnvOf(rules, tree) == env
  {
  }

  /** Reading undoes writing. */
  lemma WrittenReadsBack(rules: Rules, secretFile: bool, tree: Json, env: Env)
    requires WellFormed(rules) && Holdable(rules, secretFile, env) && Encodes(rules, tree, env)
    ensures ReadFile(rules, secretFile, Some(Document(tree))) == Some(env)
  {
    forall s | s in tree.members && s != VERSION_KEY ensures SectionOk(rules, secretFile, s, tree.members[s]) {
      EncodedSectionOk(rules, secretFile, tree, env, s);
    }
    EncodedEnv(rules, tree, env);
  }

  type Grouping = map<string, map<string, string>>

  predicate InGroup(grouped: Grouping, pair: Pair) {
    pair.0 in grouped && pair.1 in grouped[pair.0]
  }

  /** The variables of `env` not in `todo`, by section and key. */
  ghost predicate Groups(rules: Rules, grouped: Grouping, env: Env, todo: set<string>) {
    && (forall s | s in grouped :: grouped[s] != map[])
    && (forall pair {:trigger InGroup(grouped, pair)} ::
          InGroup(grouped, pair) <==>
          pair in rules.tables.keyToEnv && rules.tables.keyToEnv[pair] in env && rules.tables.keyToEnv[pair] !in todo)
    && (forall pair | InGroup(grouped, pair) :: grouped[pair.0][pair.1] == env[rules.tables.keyToEnv[pair]])
  }

  function WithValue(grouped: Grouping, pair: Pair, value: string): Grouping {
    grouped[pair.0 := (if pair.0 in grouped then grouped[pair.0] else map[])[pair.1 := value]]
  }

  lemma GroupNext(rules: Rules, grouped: Grouping, env: Env, todo: set<string>, name: string)
    requires WellFormed(rules) && name in env && name in rules.tables.envToKey && name in todo
    requires Groups(rules, grouped, env, todo)
    ensures Groups(rules, WithValue(grouped, rules.tables.envToKey[name], env[name]), env, todo - {name})
  {
    var own := rules.tables.envToKey[name];
    var after := WithValue(grouped, own, env[name]);
    forall s | s in after ensures after[s] != map[] {
      assert s == own.0 ==> own.1 in after[s];
    }
    forall pair: Pair
      ensures InGroup(after, pair) <==>
              pair in rules.tables.keyToEnv && rules.tables.keyToEnv[pair] in env
              && rules.tables.keyToEnv[pair] !in todo - {name}
      ensures InGroup(after, pair) ==> after[pair.0][pair.1] == env[rules.tables.keyToEnv[pair]]
    {
      assert InGroup(after, pair) <==> InGroup(grouped, pair) || pair == own;
      if pair in rules.tables.keyToEnv && rules.tables.keyToEnv[pair] == name {
        assert pair == own;
      }
    }
  }

  /** `_to_sections`, whose result lists the sections of the catalog only. */
  method ToSections(rules: Rules, env: Env) returns (ordered: Grouping)
    requires WellFormed(rules) && forall name | name in env :: name in rules.tables.envToKey
    ensures Groups(rules, ordered, env, {})
  {
    var grouped: Grouping := map[];
    var todo := env.Keys;
    while todo != {}
      invariant todo <= env.Keys && Groups(rules, grouped, env, todo)
      decreases |todo|
    {
      var name :| name in todo;
      GroupNext(rules, grouped, env, todo, name);
      var (section, key) := rules.tables.envToKey[name];
      grouped := WithValue(grouped, (section, key), env[name]);
      todo := todo - {name};
    }
    ordered := map s | s in rules.sections && s in grouped :: grouped[s];
    forall s | s in grouped ensures s in rules.sections {
      var key :| key in grouped[s];
      assert InGroup(grouped, (s, key));
    }
    assert ordered == grouped;
  }

  function TreeOf(ordered: Grouping): Json {
    Obj((map s | s in ordered :: Obj(map key | key in ordered[s] :: Str(ordered[s][key])))
        [VERSION_KEY := Num(SCHEMA_VERSION)])
  }

  lemma TreeEncodes(rules: Rules, ordered: Grouping, env: Env)
    requires WellFormed(rules) && Groups(rules, ordered, env, {})
    ensures Encodes(rules, TreeOf(ordered), env)
  {
    var tree := TreeOf(ordered);
    forall s | s in ordered ensures s != VERSION_KEY {
      var key :| key in ordered[s];
      assert InGroup(ordered, (s, key));
    }
    forall s | s in tree.members && s != VERSION_KEY ensures tree.members[s].Obj? && tree.members[s].members != map[] {
      var key :| key in ordered[s];
      assert key in tree.members[s].members;
    }
    forall pair: Pair ensures HasKey(tree, pair) <==> InGroup(ordered, pair) {
    }
  }

  /** A file that holds exactly `env`; without values there is none. */
  ghost predicate Holds(rules: Rules, file: File, env: Env) {
    if env == map[] then file == None
    else file.Some? && file.value.Document? && Encodes(rules, file.value.tree, env)
  }

  lemma HoldsReadsBack(rules: Rules, secretFile: bool, file: File, env: Env)
    requires WellFormed(rules) && Holdable(rules, secretFile, env) && Holds(rules, file, env)
    ensures ReadFile(rules, secretFile, file) == Some(env)
  {
    if env != map[] {
      WrittenReadsBack(rules, secretFile, file.value.tree, env);
    }
  }

  /** The secret, or the other, variables of a map. */
  function Part(rules: Rules, secretFile: bool, env: Env): Env {
    map name | name in env && rules.secret(name) == secretFile :: env[name]
  }

  function Without(env: Env, names: set<string>): Env {
    map name | name in env && name !in names :: env[name]
  }

  /** Values as given by a caller. */
  type Values = map<string, Json>

  predicate ValuesOk(rules: Rules, values: Values) {
    forall name | name in values :: Known(rules, name) && values[name].Str?
  }

  function Strings(values: Values): Env
    requires forall name | name in values :: values[name].Str?
  {
    map name | name in values :: values[name].s
  }

  // ---- The two files as one map ----

  /** Operations, each with the fate of its file system calls. */
  datatype Op =
    | Set(values: Values, configFails: bool, secretsFail: bool)
    | Unset(names: set<string>, configFails: bool, secretsFail: bool)
    | Clear(configFails: bool, secretsFail: bool)

  datatype Outcome = Done | Refused | ConfigFailed | SecretsFailed

  /** A change of the secret or of the other part that the file system may fail. */
  function Change(
      rules: Rules, env: Env, config: Env, secrets: Env, configFails: bool, secretsFail: bool): (Env, Outcome)
  {
    var configNow, secretsNow := Part(rules, false, env), Part(rules, true, env);
    if config != configNow && configFails then (env, ConfigFailed)
    else if secrets != secretsNow && secretsFail then (config + secretsNow, SecretsFailed)
    else (config + secrets, Done)
  }

  predicate Gains(rules: Rules, secretFile: bool, values: Env) {
    Part(rules, secretFile, values) != map[]
  }

  /** The operations on a single map. */
  function Step(rules: Rules, env: Env, op: Op): (Env, Outcome) {
    match op
    case Set(values, configFails, secretsFail) =>
      if !ValuesOk(rules, values) then (env, Refused)
      else
        var v := Strings(values);
        if Gains(rules, false, v) && configFails then (env, ConfigFailed)
        else if Gains(rules, true, v) && secretsFail then (env + Part(rules, false, v), SecretsFailed)
        else (env + v, Done)
    case Unset(names, configFails, secretsFail) =>
      if exists name :: name in names && !Known(rules, name) then (env, Refused)
      else
        Change(rules, env, Without(Part(rules, false, env), names), Without(Part(rules, true, env), names),
               configFails, secretsFail)
    case Clear(configFails, secretsFail) =>
      Change(rules, env, map[], map[], configFails, secretsFail)
  }

  function Replay(rules: Rules, ops: seq<Op>): Env {
    if ops == [] then map[] else Step(rules, Replay(rules, ops[..|ops| - 1]), ops[|ops| - 1]).0
  }

  lemma ReplayNext(rules: Rules, ops: seq<Op>, n: nat)
    requires n < |ops|
    ensures Replay(rules, ops[..n + 1]) == Step(rules, Replay(rules, ops[..n]), ops[n]).0
  {
    assert ops[..n + 1][..n] == ops[..n];
  }

  predicate AllKnown(rules: Rules, names: set<string>) {
    forall name | name in names :: name in rules.persistable && name !in rules.nonPersistable
  }

  /** Some of the names belongs to the given file. */
  predicate SomeIn(rules: Rules, names: set<string>, secretFile: bool) {
    exists name :: name in names && (rules.secret(name) <==> secretFile)
  }

  /** How the replacing of files ends when values of these names change: config first. */
  function Fate(rules: Rules, changed: set<string>, configFails: bool, secretsFail: bool): Outcome {
    if SomeIn(rules, changed, false) && configFails then ConfigFailed
    else if SomeIn(rules, changed, true) && secretsFail then SecretsFailed
    else Done
  }

  /** The change of a name gets through: its file and those before it are replaced. */
  predicate Through(rules: Rules, name: string, fate: Outcome) {
    fate == Done || (fate == SecretsFailed && !rules.secret(name))
  }

  /** What setting does, name by name. */
  lemma SetAt(rules: Rules, env: Env, op: Op, name: string)
    requires op.Set?
    ensures var (after, outcome) := Step(rules, env, op);
            var ok := AllKnown(rules, op.values.Keys) && forall n | n in op.values :: op.values[n].Str?;
            && outcome == (if ok then Fate(rules, op.values.Keys, op.configFails, op.secretsFail) else Refused)
            && if ok && name in op.values && Through(rules, name, outcome)
               then name in after && op.values[name] == Str(after[name])
               else (name in after <==> name in env) && (name in env ==> after[name] == env[name])
  {
    if AllKnown(rules, op.values.Keys) && forall n | n in op.values :: op.values[n].Str? {
      GainsIff(rules, false, op.values);
      GainsIff(rules, true, op.values);
    }
  }

  lemma GainsIff(rules: Rules, secretFile: bool, values: Values)
    requires forall name | name in values :: values[name].Str?
    ensures Gains(rules, secretFile, Strings(values)) <==> SomeIn(rules, values.Keys, secretFile)
  {
    var v := Part(rules, secretFile, Strings(values));
    if v != map[] {
      var name :| name in v;
      assert name in values.Keys;
    }
    if SomeIn(rules, values.Keys, secretFile) {
      var name :| name in values.Keys && (rules.secret(name) <==> secretFile);
      assert name in v;
    }
  }

  /** What unsetting and clearing do, name by name: the values that go are those there
      are under the given names, or all. */
  lemma UnsetAt(rules: Rules, env: Env, op: Op, name: string)
    requires !op.Set?
    ensures var (after, outcome) := Step(rules, env, op);
            var gone := if op.Unset? then env.Keys * op.names else env.Keys;
            var ok := op.Unset? ==> AllKnown(rules, op.names);
            && outcome == (if ok then Fate(rules, gone, op.configFails, op.secretsFail) else Refused)
            && if ok && name in gone && Through(rules, name, outcome) then name !in after
               else (name in after <==> name in env) && (name in env ==> after[name] == env[name])
  {
    var gone := if op.Unset? then env.Keys * op.names else env.Keys;
    if op.Unset? ==> AllKnown(rules, op.names) {
      LosesIff(rules, env, gone, false);
      LosesIff(rules, env, gone, true);
      if op.Unset? {
        WithoutShared(Part(rules, false, env), env.Keys, op.names);
        WithoutShared(Part(rules, true, env), env.Keys, op.names);
      } else {
        WithoutAll(Part(rules, false, env), env.Keys);
        WithoutAll(Part(rules, true, env), env.Keys);
      }
      ChangeAt(rules, env, gone, op.configFails, op.secretsFail, name);
    }
  }

  lemma WithoutShared(env: Env, all: set<string>, names: set<string>)
    requires env.Keys <= all
    ensures Without(env, names) == Without(env, all * names)
  {
  }

  lemma WithoutAll(env: Env, all: set<string>)
    requires env.Keys <= all
    ensures Without(env, all) == map[]
  {
  }

  lemma LosesIff(rules: Rules, env: Env, gone: set<string>, secretFile: bool)
    requires gone <= env.Keys
    ensures Without(Part(rules, secretFile, env), gone) != Part(rules, secretFile, env)
            <==> SomeIn(rules, gone, secretFile)
  {
    var part := Part(rules, secretFile, env);
    if SomeIn(rules, gone, secretFile) {
      var name :| name in gone && (rules.secret(name) <==> secretFile);
      assert name in part && name !in Without(part, gone);
    } else {
      assert Without(part, gone) == part;
    }
  }

  lemma ChangeAt(rules: Rules, env: Env, gone: set<string>, configFails: bool, secretsFail: bool, name: string)
    requires gone <= env.Keys
    ensures var (after, outcome) := Change(rules, env, Without(Part(rules, false, env), gone),
                                           Without(Part(rules, true, env), gone), configFails, secretsFail);
            && outcome == Fate(rules, gone, configFails, secretsFail)
            && if name in gone && Through(rules, name, outcome) then name !in after
               else (name in after <==> name in env) && (name in env ==> after[name] == env[name])
  {
    LosesIff(rules, env, gone, false);
    LosesIff(rules, env, gone, true);
  }

  ghost predicate Persistable(rules: Rules, env: Env) {
    forall name | name in env :: Known(rules, name)
  }

  lemma StepKeepsPersistable(rules: Rules, env: Env, op: Op)
    requires Persistable(rules, env)
    ensures Persistable(rules, Step(rules, env, op).0)
  {
  }

  lemma PartsMakeWhole(rules: Rules, env: Env)
    ensures Part(rules, false, env) + Part(rules, true, env) == env
  {
  }

  lemma PartOfSum(rules: Rules, secretFile: bool, a: Env, b: Env)
    ensures Part(rules, secretFile, a + b) == Part(rules, secretFile, a) + Part(rules, secretFile, b)
  {
  }

  /** What loading gives for a pair of files; `None` is an error. */
  function Loaded(rules: Rules, config: File, secrets: File): Option<Env> {
    match (ReadFile(rules, false, config), ReadFile(rules, true, secrets))
    case (Some(c), Some(s)) => Some(c + s)
    case _ => None
  }

  lemma LoadedParts(rules: Rules, config: File, secrets: File)
    requires WellFormed(rules) && Loaded(rules, config, secrets).Some?
    ensures Persistable(rules, Loaded(rules, config, secrets).value)
    ensures Part(rules, false, Loaded(rules, config, secrets).value) == ReadFile(rules, false, config).value
    ensures Part(rules, true, Loaded(rules, config, secrets).value) == ReadFile(rules, true, secrets).value
  {
    ReadHoldable(rules, false, config);
    ReadHoldable(rules, true, secrets);
  }

  lemma ReadHoldable(rules: Rules, secretFile: bool, file: File)
    requires WellFormed(rules) && ReadFile(rules, secretFile, file).Some?
    ensures Holdable(rules, secretFile, ReadFile(rules, secretFile, file).value)
  {
  }

  /** A file after an attempt to give it these values. */
  ghost predicate Replaced(rules: Rules, before: File, after: File, env: Env, changed: bool) {
    if changed then Holds(rules, after, env) else after == before
  }

  class UserStore {
    const rules: Rules
    var config: File
    var secrets: File

    /** No files. */
    constructor (rules: Rules)
      ensures this.rules == rules && config == None && secrets == None
    {
      this.rules := rules;
      config, secrets := None, None;
    }

    method LoadUserEnv() returns (r: Option<Env>)
      requires WellFormed(rules)
      ensures r == Loaded(rules, config, secrets)
    {
      var c := ReadEnvFile(rules, false, config);
      if c.None? {
        return None;
      }
      var s := ReadEnvFile(rules, true, secrets);
      if s.None? {
        return None;
      }
      return Some(c.value + s.value);
    }

    /** `_write_or_remove_env_file`; the document for a file. */
    method FileFor(env: Env) returns (file: File)
      requires WellFormed(rules) && Persistable(rules, env)
      ensures Holds(rules, file, env)
    {
      if env == map[] {
        return None;
      }
      var ordered := ToSections(rules, env);
      TreeEncodes(rules, ordered, env);
      return Some(Document(TreeOf(ordered)));
    }

    /** Replace the files whose values change, config first; a failing call leaves
        its file, and everything after it, as it was. */
    method ReplaceFiles(newConfig: Env, configChanges: bool, newSecrets: Env, secretsChange: bool,
                        configFails: bool, secretsFail: bool) returns (outcome: Outcome)
      requires WellFormed(rules) && Persistable(rules, newConfig) && Persistable(rules, newSecrets)
      modifies this
      ensures outcome == if configChanges && configFails then ConfigFailed
                         else if secretsChange && secretsFail then SecretsFailed else Done
      ensures Replaced(rules, old(config), config, newConfig, configChanges && outcome != ConfigFailed)
      ensures Replaced(rules, old(secrets), secrets, newSecrets, secretsChange && outcome == Done)
    {
      if configChanges {
        if configFails {
          return ConfigFailed;
        }
        config := FileFor(newConfig);
      }
      if secretsChange {
        if secretsFail {
          return SecretsFailed;
        }
        secrets := FileFor(newSecrets);
      }
      return Done;
    }

    /** `write_user_config`. */
    method WriteUserConfig(values: Values, configFails: bool, secretsFail: bool) returns (outcome: Outcome)
      requires WellFormed(rules)
      modifies this
      ensures outcome == Refused <==> !ValuesOk(rules, values) || Loaded(rules, old(config), old(secrets)).None?
      ensures outcome == Refused ==> config == old(config) && secrets == old(secrets)
      ensures outcome != Refused ==>
                var was, v := Loaded(rules, old(config), old(secrets)).value, Strings(values);
                && outcome == (if Gains(rules, false, v) && configFails then ConfigFailed
                               else if Gains(rules, true, v) && secretsFail then SecretsFailed else Done)
                && Replaced(rules, old(config), config, Part(rules, false, was + v),
                            Gains(rules, false, v) && outcome != ConfigFailed)
                && Replaced(rules, old(secrets), secrets, Part(rules, true, was + v),
                            Gains(rules, true, v) && outcome == Done)
    {
      var routed := RouteValues(rules, values);
      if routed.None? {
        return Refused;
      }
      var (newConfig, newSecrets) := routed.value;
      var existing := LoadUserEnv();
      if existing.None? {
        return Refused;
      }
      LoadedParts(rules, config, secrets);
      PartOfSum(rules, false, existing.value, Strings(values));
      PartOfSum(rules, true, existing.value, Strings(values));
      outcome := ReplaceFiles(Part(rules, false, existing.value) + newConfig, newConfig != map[],
                              Part(rules, true, existing.value) + newSecrets, newSecrets != map[],
                              configFails, secretsFail);
    }

    /** `unset_user_config`. */
    method UnsetUserConfig(names: set<string>, configFails: bool, secretsFail: bool) returns (outcome: Outcome)
      requires WellFormed(rules)
      modifies this
      ensures outcome == Refused <==>
              (exists name :: name in names && !Known(rules, name)) || Loaded(rules, old(config), old(secrets)).None?
      ensures outcome == Refused ==> config == old(config) && secrets == old(secrets)
      ensures outcome != Refused ==>
                var was := Loaded(rules, old(config), old(secrets)).value;
                var c, s := Part(rules, false, was), Part(rules, true, was);
                && outcome == Change(rules, was, Without(c, names), Without(s, names), configFails, secretsFail).1
                && Replaced(rules, old(config), config, Without(c, names),
                            Without(c, names) != c && outcome != ConfigFailed)
                && Replaced(rules, old(secrets), secrets, Without(s, names), Without(s, names) != s && outcome == Done)
    {
      if exists name :: name in names && !Known(rules, name) {
        return Refused;
      }
      var existing := LoadUserEnv();
      if existing.None? {
        return Refused;
      }
      LoadedParts(rules, config, secrets);
      var c, s := Part(rules, false, existing.value), Part(rules, true, existing.value);
      outcome := ReplaceFiles(Without(c, names), Without(c, names) != c, Without(s, names), Without(s, names) != s,
                              configFails, secretsFail);
    }

    /** `clear_user_config`: unlink the files that are there. */
    method ClearUserConfig(configFails: bool, secretsFail: bool) returns (outcome: Outcome)
      modifies this
      ensures outcome == if old(config).Some? && configFails then ConfigFailed
                         else if old(secrets).Some? && secretsFail then SecretsFailed else Done
      ensures config == if outcome == ConfigFailed then old(config) else None
      ensures secrets == if outcome == Done then None else old(secrets)
    {
      if config.Some? {
        if configFails {
          return ConfigFailed;
        }
        config := None;
      }
      if secrets.Some? {
        if secretsFail {
          return SecretsFailed;
        }
        secrets := None;
      }
      return Done;
    }

    /** The two files hold this map: config the values that are no secrets, secrets the others. */
    ghost predicate HoldsMap(env: Env)
      reads this
    {
      Persistable(rules, env) && Holds(rules, config, Part(rules, false, env))
        && Holds(rules, secrets, Part(rules, true, env))
    }

    lemma LoadsMap(env: Env)
      requires WellFormed(rules) && HoldsMap(env)
      ensures Loaded(rules, config, secrets) == Some(env)
    {
      HoldsReadsBack(rules, false, config, Part(rules, false, env));
      HoldsReadsBack(rules, true, secrets, Part(rules, true, env));
      PartsMakeWhole(rules, env);
    }

    method PerformSet(op: Op, ghost env: Env) returns (outcome: Outcome)
      requires WellFormed(rules) && HoldsMap(env) && op.Set?
      modifies this
      ensures HoldsMap(Step(rules, env, op).0) && outcome == Step(rules, env, op).1
    {
      LoadsMap(env);
      StepKeepsPersistable(rules, env, op);
      outcome := WriteUserConfig(op.values, op.configFails, op.secretsFail);
      if outcome != Refused {
        SetParts(rules, env, Strings(op.values));
      }
    }

    method PerformUnset(op: Op, ghost env: Env) returns (outcome: Outcome)
      requires WellFormed(rules) && HoldsMap(env) && op.Unset?
      modifies this
      ensures HoldsMap(Step(rules, env, op).0) && outcome == Step(rules, env, op).1
    {
      LoadsMap(env);
      StepKeepsPersistable(rules, env, op);
      outcome := UnsetUserConfig(op.names, op.configFails, op.secretsFail);
      UnsetParts(rules, env, op.names);
    }

    method PerformClear(op: Op, ghost env: Env) returns (outcome: Outcome)
      requires WellFormed(rules) && HoldsMap(env) && op.Clear?
      modifies this
      ensures HoldsMap(Step(rules, env, op).0) && outcome == Step(rules, env, op).1
    {
      StepKeepsPersistable(rules, env, op);
      outcome := ClearUserConfig(op.configFails, op.secretsFail);
      UnsetParts(rules, env, env.Keys);
    }

    /** One operation does to the two files what it does to the one map. */
    method Perform(op: Op, ghost env: Env) returns (outcome: Outcome)
      requires WellFormed(rules) && HoldsMap(env)
      modifies this
      ensures HoldsMap(Step(rules, env, op).0) && outcome == Step(rules, env, op).1
    {
      match op
      case Set(_, _, _) => outcome := PerformSet(op, env);
      case Unset(_, _, _) => outcome := PerformUnset(op, env);
      case Clear(_, _) => outcome := PerformClear(op, env);
    }

    /** After any operations starting from no files, whatever the file system refuses,
        loading succeeds and gives what the same operations give on a single map;
        config.yml holds only values that are no secrets and secrets.yml only secrets. */
    method Run(ops: seq<Op>) returns (r: Option<Env>)
      requires WellFormed(rules) && config == None && secrets == None
      modifies this
      ensures r == Some(Replay(rules, ops))
      ensures ReadFile(rules, false, config) == Some(Part(rules, false, Replay(rules, ops)))
      ensures ReadFile(rules, true, secrets) == Some(Part(rules, true, Replay(rules, ops)))
    {
      var n := 0;
      while n < |ops|
        invariant 0 <= n <= |ops| && HoldsMap(Replay(rules, ops[..n]))
      {
        var outcome := Perform(ops[n], Replay(rules, ops[..n]));
        ReplayNext(rules, ops, n);
        n := n + 1;
      }
      assert ops[..n] == ops;
      LoadsMap(Replay(rules, ops));
      HoldsReadsBack(rules, false, config, Part(rules, false, Replay(rules, ops)));
      HoldsReadsBack(rules, true, secrets, Part(rules, true, Replay(rules, ops)));
      r := LoadUserEnv();
    }
  }

  /** The values already routed to one of the two files. */
  ghost predicate Routed(rules: Rules, secretFile: bool, values: Values, todo: set<string>, env: Env) {
    && (forall name {:trigger name in env} ::
          name in env <==> name in values && name !in todo && rules.secret(name) == secretFile)
    && (forall name | name in env :: values[name].Str? && env[name] == values[name].s)
  }

  /** The checking and routing loop; `None` where it raises. */
  method RouteValues(rules: Rules, values: Values) returns (r: Option<(Env, Env)>)
    ensures r.Some? <==> ValuesOk(rules, values)
    ensures r.Some? ==> r.value == (Part(rules, false, Strings(values)), Part(rules, true, Strings(values)))
  {
    var newConfig, newSecrets := map[], map[];
    var todo := values.Keys;
    while todo != {}
      invariant todo <= values.Keys
      invariant forall name | name in values && name !in todo :: Known(rules, name) && values[name].Str?
      invariant Routed(rules, false, values, todo, newConfig) && Routed(rules, true, values, todo, newSecrets)
      decreases |todo|
    {
      var name :| name in todo;
      if !Known(rules, name) || !values[name].Str? {
        return None;
      }
      if rules.secret(name) {
        newSecrets := newSecrets[name := values[name].s];
      } else {
        newConfig := newConfig[name := values[name].s];
      }
      todo := todo - {name};
    }
    assert newConfig == Part(rules, false, Strings(values)) && newSecrets == Part(rules, true, Strings(values));
    r := Some((newConfig, newSecrets));
  }

  lemma PartOfPart(rules: Rules, env: Env)
    ensures Part(rules, false, Part(rules, false, env)) == Part(rules, false, env)
    ensures Part(rules, true, Part(rules, false, env)) == map[]
  {
  }

  lemma SetParts(rules: Rules, env: Env, v: Env)
    ensures forall f :: Part(rules, f, env + v) == Part(rules, f, env) + Part(rules, f, v)
    ensures var half := env + Part(rules, false, v);
            Part(rules, false, half) == Part(rules, false, env + v) && Part(rules, true, half) == Part(rules, true, env)
    ensures forall f | !Gains(rules, f, v) :: Part(rules, f, env + v) == Part(rules, f, env)
  {
    var plain := Part(rules, false, v);
    PartOfPart(rules, v);
    forall f ensures Part(rules, f, env + v) == Part(rules, f, env) + Part(rules, f, v) {
      PartOfSum(rules, f, env, v);
    }
    PartOfSum(rules, false, env, plain);
    PartOfSum(rules, true, env, plain);
  }

  lemma UnsetParts(rules: Rules, env: Env, names: set<string>)
    ensures var c, s := Without(Part(rules, false, env), names), Without(Part(rules, true, env), names);
            && Part(rules, false, c + s) == c && Part(rules, true, c + s) == s
            && Part(rules, false, c + Part(rules, true, env)) == c
            && Part(rules, true, c + Part(rules, true, env)) == Part(rules, true, env)
            && (names == env.Keys ==> c == map[] && s == map[])
  {
  }

  // ---- Writing bytes ----

  /** Bytes the first `k` calls would take. */
  ghost function Taken(accept: nat -> nat, k: nat): nat {
    if k == 0 then 0 else Taken(accept, k - 1) + accept(k - 1)
  }

  /** `_write_all`: `accept(k)` is how many bytes the `k`th call would take. Either
      everything is written, in order, or some call took nothing, and then exactly
      what the calls before it took is written. */
  method WriteAll(data: seq<bv8>, accept: nat -> nat) returns (ok: bool, written: seq<bv8>)
    ensures written <= data && (ok <==> written == data)
    ensures !ok ==> exists k: nat :: accept(k) == 0 && |written| == Taken(accept, k)
                                     && forall j: nat | j < k :: accept(j) > 0
  {
    written := [];
    var remaining, calls: nat := data, 0;
    while remaining != []
      invariant written + remaining == data
      invariant remaining != [] ==> |written| == Taken(accept, calls)
      invariant forall j: nat | j < calls :: accept(j) > 0
      decreases |remaining|
    {
      var taken := if accept(calls) < |remaining| then accept(calls) else |remaining|;
      calls := calls + 1;
      if taken == 0 {
        assert accept(calls - 1) == 0;
        return false, written;
      }
      assert remaining == remaining[..taken] + remaining[taken..];
      written, remaining := written + remaining[..taken], remaining[taken..];
    }
    return true, written;
  }
}
