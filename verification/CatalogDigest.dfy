/** The catalog's canonical payload, which identifies a catalog document up to the
    order and repetition of its set-like lists and the order of its entries. */
module CatalogDigest {
  import opened Json
  import opened JsonText
  import opened TextOrder

  const CATALOG_SCHEMA_VERSION := 2

  /** A scalar field of an entry as a mapping lookup finds it. */
  datatype Field = Absent | NullField | Value(s: string)

  /** List fields are `None` when absent or null. */
  datatype Entry = Entry(
    name: Field, description: Field, labels: Option<seq<string>>, capability: Field, suite: Field,
    requirements: Option<seq<string>>, testIds: Option<seq<string>>)

  /** Only what the digest looks at: not the package version, nor the build reference. */
  datatype Document = Document(
    schemaVersion: Option<int>, capabilities: Option<seq<string>>, suites: Option<seq<string>>, entries: seq<Entry>)

  function FieldDoc(f: Field, absent: Doc): Doc {
    match f case Absent => absent case NullField => NullDoc case Value(s) => TextDoc(s)
  }

  function Listed(list: Option<seq<string>>): seq<string> {
    match list case None => [] case Some(xs) => xs
  }

  function TextsDoc(xs: seq<string>): Doc {
    ListDoc(seq(|xs|, i requires 0 <= i < |xs| => TextDoc(xs[i])))
  }

  function SetDoc(list: Option<seq<string>>): Doc {
    TextsDoc(SortedSet(Listed(list)))
  }

  /** Members in the order of their keys, as `sort_keys` writes them. */
  function EntryDoc(
      capability: Doc, description: Doc, labels: Doc, name: Doc, requirements: Doc, suite: Doc, testIds: Doc): Doc
  {
    RecordDoc([
      Member("capability", capability), Member("description", description), Member("labels", labels),
      Member("name", name), Member("requires", requirements), Member("suite", suite), Member("test_ids", testIds)])
  }

  function CanonicalEntry(e: Entry): Doc {
    EntryDoc(
      FieldDoc(e.capability, NullDoc), FieldDoc(e.description, TextDoc("")), SetDoc(e.labels),
      FieldDoc(e.name, TextDoc("")), SetDoc(e.requirements), FieldDoc(e.suite, TextDoc("")), SetDoc(e.testIds))
  }

  function CanonicalEntries(entries: seq<Entry>): seq<Doc> {
    seq(|entries|, i requires 0 <= i < |entries| => CanonicalEntry(entries[i]))
  }

  /** The sort key: the entry's compact JSON text in ASCII. */
  function SortKey(): Doc -> string {
    (d: Doc) => Encode(d, true)
  }

  function SchemaVersion(d: Document): int {
    match d.schemaVersion case None => CATALOG_SCHEMA_VERSION case Some(v) => v
  }

  function ContractOf(capabilities: Doc, entries: seq<Doc>, schemaVersion: int, suites: Doc): Doc {
    RecordDoc([
      Member("capabilities", capabilities),
      Member("entries", ListDoc(entries)),
      Member("schemaVersion", IntDoc(schemaVersion)),
      Member("suites", suites)])
  }

  function Contract(d: Document): Doc {
    ContractOf(
      SetDoc(d.capabilities), SortByText(CanonicalEntries(d.entries), SortKey()), SchemaVersion(d), SetDoc(d.suites))
  }

  function Payload(d: Document): string {
    Encode(Contract(d), false)
  }

  function KeysOf(d: Doc): seq<string>
    requires d.RecordDoc?
  {
    seq(|d.members|, i requires 0 <= i < |d.members| => d.members[i].key)
  }

  /** The literal orders above are the sorted ones. */
  lemma ContractKeysInOrder(d: Document)
    ensures StrictlySorted(KeysOf(Contract(d)))
  {
    var keys := KeysOf(Contract(d));
    assert Below("entries", "schemaVersion");
    assert Below("schemaVersion", "suites");
    SortedByNeighbours(keys);
  }

  lemma EntryKeysInOrder(e: Entry)
    ensures StrictlySorted(KeysOf(CanonicalEntry(e)))
  {
    var keys := KeysOf(CanonicalEntry(e));
    assert Below("capability", "description") && Below("description", "labels") && Below("labels", "name");
    assert Below("name", "requires") && Below("requires", "suite") && Below("suite", "test_ids");
    SortedByNeighbours(keys);
  }

  // ---- What a document means ----

  datatype EntryMeaning = EntryMeaning(
    name: Field, description: Field, labels: set<string>, capability: Field, suite: Field,
    requirements: set<string>, testIds: set<string>)

  /** A missing field counts as its default; one that is null does not. */
  function Defaulted(f: Field, default: Field): Field {
    if f.Absent? then default else f
  }

  function Named(list: Option<seq<string>>): set<string> {
    if list.None? then {} else set x | x in list.value
  }

  function EntryMeaningOf(e: Entry): EntryMeaning {
    EntryMeaning(
      Defaulted(e.name, Value("")), Defaulted(e.description, Value("")), Named(e.labels),
      Defaulted(e.capability, NullField), Defaulted(e.suite, Value("")), Named(e.requirements), Named(e.testIds))
  }

  function EntryMeanings(entries: seq<Entry>): seq<EntryMeaning> {
    seq(|entries|, i requires 0 <= i < |entries| => EntryMeaningOf(entries[i]))
  }

  /** Same schema version, 2 when there is none, same capability and suite sets, and the
      same entries up to set equality of their lists, counted. */
  predicate SameMeaning(c: Document, d: Document) {
    && (if c.schemaVersion.None? then 2 else c.schemaVersion.value)
       == (if d.schemaVersion.None? then 2 else d.schemaVersion.value)
    && Named(c.capabilities) == Named(d.capabilities) && Named(c.suites) == Named(d.suites)
    && multiset(EntryMeanings(c.entries)) == multiset(EntryMeanings(d.entries))
  }

  /** A field that is there, as a document. */
  function Written(f: Field): Doc
    requires !f.Absent?
  {
    if f.NullField? then NullDoc else TextDoc(f.s)
  }

  lemma FieldIsWritten(f: Field, default: Field)
    requires !default.Absent?
    ensures FieldDoc(f, Written(default)) == Written(Defaulted(f, default))
  {
  }

  lemma WrittenInjective(f: Field, g: Field)
    requires !f.Absent? && !g.Absent?
    ensures Written(f) == Written(g) <==> f == g
  {
  }

  lemma FieldDocIff(f: Field, g: Field, default: Field)
    requires !default.Absent?
    ensures FieldDoc(f, Written(default)) == FieldDoc(g, Written(default)) <==>
            Defaulted(f, default) == Defaulted(g, default)
  {
    FieldIsWritten(f, default);
    FieldIsWritten(g, default);
    WrittenInjective(Defaulted(f, default), Defaulted(g, default));
  }

  lemma NamedIs(list: Option<seq<string>>)
    ensures Named(list) == Elements(Listed(list))
  {
  }

  lemma TextsDocInjective(xs: seq<string>, ys: seq<string>)
    requires TextsDoc(xs) == TextsDoc(ys)
    ensures xs == ys
  {
    assert |TextsDoc(xs).items| == |TextsDoc(ys).items|;
    forall i | 0 <= i < |xs| ensures xs[i] == ys[i] {
      assert TextsDoc(xs).items[i] == TextsDoc(ys).items[i];
    }
  }

  lemma SetDocIff(a: Option<seq<string>>, b: Option<seq<string>>)
    ensures SetDoc(a) == SetDoc(b) <==> Named(a) == Named(b)
  {
    NamedIs(a);
    NamedIs(b);
    SortedSetIff(Listed(a), Listed(b));
    if SetDoc(a) == SetDoc(b) {
      TextsDocInjective(SortedSet(Listed(a)), SortedSet(Listed(b)));
    }
  }

  lemma EntryDocInjective(a: Doc, b: Doc, c: Doc, d: Doc, e: Doc, f: Doc, g: Doc,
                          a': Doc, b': Doc, c': Doc, d': Doc, e': Doc, f': Doc, g': Doc)
    ensures EntryDoc(a, b, c, d, e, f, g) == EntryDoc(a', b', c', d', e', f', g') <==>
            a == a' && b == b' && c == c' && d == d' && e == e' && f == f' && g == g'
  {
    var m, n := EntryDoc(a, b, c, d, e, f, g).members, EntryDoc(a', b', c', d', e', f', g').members;
    assert m[0].value == a && m[1].value == b && m[2].value == c && m[3].value == d;
    assert n[0].value == a' && n[1].value == b' && n[2].value == c' && n[3].value == d';
  }

  lemma CanonicalEntryIff(e: Entry, f: Entry)
    ensures CanonicalEntry(e) == CanonicalEntry(f) <==> EntryMeaningOf(e) == EntryMeaningOf(f)
  {
    SetDocIff(e.labels, f.labels);
    SetDocIff(e.requirements, f.requirements);
    SetDocIff(e.testIds, f.testIds);
    FieldDocIff(e.name, f.name, Value(""));
    FieldDocIff(e.description, f.description, Value(""));
    FieldDocIff(e.suite, f.suite, Value(""));
    FieldDocIff(e.capability, f.capability, NullField);
    EntryDocInjective(
      FieldDoc(e.capability, NullDoc), FieldDoc(e.description, TextDoc("")), SetDoc(e.labels),
      FieldDoc(e.name, TextDoc("")), SetDoc(e.requirements), FieldDoc(e.suite, TextDoc("")), SetDoc(e.testIds),
      FieldDoc(f.capability, NullDoc), FieldDoc(f.description, TextDoc("")), SetDoc(f.labels),
      FieldDoc(f.name, TextDoc("")), SetDoc(f.requirements), FieldDoc(f.suite, TextDoc("")), SetDoc(f.testIds));
  }

  // ---- What is written under each key ----

  predicate HasMember(d: Doc, key: string, value: Doc) {
    d.RecordDoc? && Member(key, value) in d.members
  }

  /** The set as a list of texts, each once, in order. */
  ghost predicate ListsSet(d: Doc, xs: set<string>) {
    exists texts :: d == TextsDoc(texts) && StrictlySorted(texts) && Elements(texts) == xs
  }

  ghost predicate HasSet(d: Doc, key: string, xs: set<string>) {
    exists list :: HasMember(d, key, list) && ListsSet(list, xs)
  }

  lemma SetDocLists(list: Option<seq<string>>)
    ensures ListsSet(SetDoc(list), Named(list))
  {
    NamedIs(list);
    SortedSetSorts(Listed(list));
    assert SetDoc(list) == TextsDoc(SortedSet(Listed(list)));
  }

  lemma MemberAt(d: Doc, i: nat)
    requires d.RecordDoc? && i < |d.members|
    ensures HasMember(d, d.members[i].key, d.members[i].value)
  {
    assert d.members[i] == Member(d.members[i].key, d.members[i].value);
  }

  /** An entry is written with its seven members under these keys. */
  lemma EntryWritten(e: Entry)
    ensures var d := CanonicalEntry(e);
            && |d.members| == 7
            && HasMember(d, "name", Written(Defaulted(e.name, Value(""))))
            && HasMember(d, "description", Written(Defaulted(e.description, Value(""))))
            && HasMember(d, "capability", Written(Defaulted(e.capability, NullField)))
            && HasMember(d, "suite", Written(Defaulted(e.suite, Value(""))))
            && HasSet(d, "labels", Named(e.labels))
            && HasSet(d, "requires", Named(e.requirements))
            && HasSet(d, "test_ids", Named(e.testIds))
  {
    var d := CanonicalEntry(e);
    FieldIsWritten(e.name, Value(""));
    FieldIsWritten(e.description, Value(""));
    FieldIsWritten(e.capability, NullField);
    FieldIsWritten(e.suite, Value(""));
    forall i: nat | i < 7 ensures HasMember(d, d.members[i].key, d.members[i].value) {
      MemberAt(d, i);
    }
    assert HasMember(d, d.members[0].key, d.members[0].value) && HasMember(d, d.members[1].key, d.members[1].value);
    assert HasMember(d, d.members[3].key, d.members[3].value) && HasMember(d, d.members[5].key, d.members[5].value);
    assert HasMember(d, "labels", SetDoc(e.labels)) by { assert d.members[2].key == "labels"; }
    assert HasMember(d, "requires", SetDoc(e.requirements)) by { assert d.members[4].key == "requires"; }
    assert HasMember(d, "test_ids", SetDoc(e.testIds)) by { assert d.members[6].key == "test_ids"; }
    SetDocLists(e.labels);
    SetDocLists(e.requirements);
    SetDocLists(e.testIds);
  }

  /** The contract is written with its four members under these keys, the entries in the
      order of their texts. */
  lemma ContractWritten(d: Document)
    ensures var c := Contract(d);
            && |c.members| == 4
            && HasMember(c, "schemaVersion", IntDoc(if d.schemaVersion.None? then 2 else d.schemaVersion.value))
            && HasSet(c, "capabilities", Named(d.capabilities)) && HasSet(c, "suites", Named(d.suites))
            && exists entries ::
                 && HasMember(c, "entries", ListDoc(entries)) && SortedByText(entries, SortKey())
                 && multiset(entries) == multiset(CanonicalEntries(d.entries))
  {
    var c := Contract(d);
    var entries := SortByText(CanonicalEntries(d.entries), SortKey());
    SortByTextSorts(CanonicalEntries(d.entries), SortKey());
    forall i: nat | i < 4 ensures HasMember(c, c.members[i].key, c.members[i].value) {
      MemberAt(c, i);
    }
    assert HasMember(c, "capabilities", SetDoc(d.capabilities)) by { assert c.members[0].key == "capabilities"; }
    assert HasMember(c, "entries", ListDoc(entries)) by { assert c.members[1].key == "entries"; }
    assert HasMember(c, c.members[2].key, c.members[2].value);
    assert HasMember(c, "suites", SetDoc(d.suites)) by { assert c.members[3].key == "suites"; }
    SetDocLists(d.capabilities);
    SetDocLists(d.suites);
  }

  // ---- Counting entries ----

  lemma {:induction false} CountsAgree(docs: seq<Doc>, meanings: seq<EntryMeaning>, d: Doc, m: EntryMeaning)
    requires |docs| == |meanings| && forall i | 0 <= i < |docs| :: docs[i] == d <==> meanings[i] == m
    ensures multiset(docs)[d] == multiset(meanings)[m]
    decreases |docs|
  {
    if docs != [] {
      var last := |docs| - 1;
      CountsAgree(docs[..last], meanings[..last], d, m);
      assert docs == docs[..last] + [docs[last]] && meanings == meanings[..last] + [meanings[last]];
    }
  }

  lemma SameCount(entries: seq<Entry>, x: Entry)
    ensures multiset(CanonicalEntries(entries))[CanonicalEntry(x)]
            == multiset(EntryMeanings(entries))[EntryMeaningOf(x)]
  {
    var docs, meanings := CanonicalEntries(entries), EntryMeanings(entries);
    forall i | 0 <= i < |entries| ensures docs[i] == CanonicalEntry(x) <==> meanings[i] == EntryMeaningOf(x) {
      CanonicalEntryIff(entries[i], x);
    }
    CountsAgree(docs, meanings, CanonicalEntry(x), EntryMeaningOf(x));
  }

  lemma CanonicalFrom(entries: seq<Entry>, d: Doc) returns (e: Entry)
    requires d in multiset(CanonicalEntries(entries))
    ensures e in entries && CanonicalEntry(e) == d
  {
    var i :| 0 <= i < |CanonicalEntries(entries)| && CanonicalEntries(entries)[i] == d;
    e := entries[i];
  }

  lemma MeaningFrom(entries: seq<Entry>, m: EntryMeaning) returns (e: Entry)
    requires m in multiset(EntryMeanings(entries))
    ensures e in entries && EntryMeaningOf(e) == m
  {
    var i :| 0 <= i < |EntryMeanings(entries)| && EntryMeanings(entries)[i] == m;
    e := entries[i];
  }

  lemma SameBagsIff(a: seq<Entry>, b: seq<Entry>)
    ensures multiset(CanonicalEntries(a)) == multiset(CanonicalEntries(b)) <==>
            multiset(EntryMeanings(a)) == multiset(EntryMeanings(b))
  {
    var c, d := multiset(CanonicalEntries(a)), multiset(CanonicalEntries(b));
    var m, n := multiset(EntryMeanings(a)), multiset(EntryMeanings(b));
    if c == d {
      forall x ensures m[x] == n[x] {
        if x in m {
          var e := MeaningFrom(a, x);
          SameCount(a, e);
          SameCount(b, e);
        } else if x in n {
          var e := MeaningFrom(b, x);
          SameCount(a, e);
          SameCount(b, e);
        }
      }
    }
    if m == n {
      forall x ensures c[x] == d[x] {
        if x in c {
          var e := CanonicalFrom(a, x);
          SameCount(a, e);
          SameCount(b, e);
        } else if x in d {
          var e := CanonicalFrom(b, x);
          SameCount(a, e);
          SameCount(b, e);
        }
      }
    }
  }

  /** Sorted canonical entries are equal lists exactly when they are equal bags. */
  lemma SortedEntriesIff(a: seq<Doc>, b: seq<Doc>)
    ensures SortByText(a, SortKey()) == SortByText(b, SortKey()) <==> multiset(a) == multiset(b)
  {
    SortByTextSorts(a, SortKey());
    SortByTextSorts(b, SortKey());
    if multiset(a) == multiset(b) {
      var s := SortByText(a, SortKey());
      forall x, y | x in s && y in s && SortKey()(x) == SortKey()(y) ensures x == y {
        EncodeInjective(x, y, true);
      }
      SortedUnique(s, SortByText(b, SortKey()), SortKey());
    }
  }

  lemma ContractOfInjective(c: Doc, e: seq<Doc>, v: int, s: Doc, c': Doc, e': seq<Doc>, v': int, s': Doc)
    ensures ContractOf(c, e, v, s) == ContractOf(c', e', v', s') <==> c == c' && e == e' && v == v' && s == s'
  {
  }

  lemma ContractIff(c: Document, d: Document)
    ensures Contract(c) == Contract(d) <==> SameMeaning(c, d)
  {
    SetDocIff(c.capabilities, d.capabilities);
    SetDocIff(c.suites, d.suites);
    SortedEntriesIff(CanonicalEntries(c.entries), CanonicalEntries(d.entries));
    SameBagsIff(c.entries, d.entries);
    ContractOfInjective(
      SetDoc(c.capabilities), SortByText(CanonicalEntries(c.entries), SortKey()), SchemaVersion(c), SetDoc(c.suites),
      SetDoc(d.capabilities), SortByText(CanonicalEntries(d.entries), SortKey()), SchemaVersion(d), SetDoc(d.suites));
  }

  /** Two documents get the same payload exactly when they mean the same. */
  lemma PayloadIff(c: Document, d: Document)
    ensures Payload(c) == Payload(d) <==> SameMeaning(c, d)
  {
    ContractIff(c, d);
    if Payload(c) == Payload(d) {
      EncodeInjective(Contract(c), Contract(d), false);
    }
  }

  /** `catalog_digest`; `sha256` is the hexadecimal digest of a text's UTF-8 bytes. */
  method Digest(d: Document, sha256: string -> string) returns (digest: string)
    ensures digest == "sha256:" + sha256(Payload(d))
  {
    var canonical: seq<Doc> := [];
    var n := 0;
    while n < |d.entries|
      invariant 0 <= n <= |d.entries| && |canonical| == n
      invariant forall i | 0 <= i < n :: canonical[i] == CanonicalEntry(d.entries[i])
    {
      canonical := canonical + [CanonicalEntry(d.entries[n])];
      n := n + 1;
    }
    assert canonical == CanonicalEntries(d.entries);
    canonical := SortByText(canonical, SortKey());
    var contract := ContractOf(SetDoc(d.capabilities), canonical, SchemaVersion(d), SetDoc(d.suites));
    digest := "sha256:" + sha256(Encode(contract, false));
  }

  /** So digests agree exactly for documents that mean the same, as far as the hash
      tells the two payloads apart. */
  lemma DigestIff(c: Document, d: Document, sha256: string -> string)
    requires Payload(c) != Payload(d) ==> sha256(Payload(c)) != sha256(Payload(d))
    ensures "sha256:" + sha256(Payload(c)) == "sha256:" + sha256(Payload(d)) <==> SameMeaning(c, d)
  {
    PayloadIff(c, d);
    if "sha256:" + sha256(Payload(c)) == "sha256:" + sha256(Payload(d)) {
      Strip("sha256:", sha256(Payload(c)), sha256(Payload(d)));
    }
  }
}
