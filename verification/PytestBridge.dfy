/** The pytest bridge: unique names for the entries handed to pytest, and pytest's
    results paired back to their entries by name. */
module PytestBridge {
  import opened Json
  import opened Text
  import opened Validations

  // ---- Names ----

  function NameCount(entries: seq<ValidationEntry>, name: string): nat {
    if entries == [] then 0
    else NameCount(entries[..|entries| - 1], name) + if entries[|entries| - 1].name == name then 1 else 0
  }

  function PairCount(entries: seq<ValidationEntry>, name: string, category: string): nat {
    if entries == [] then 0
    else
      var last := entries[|entries| - 1];
      PairCount(entries[..|entries| - 1], name, category)
      + if last.name == name && last.category == category then 1 else 0
  }

  /** The name entry `i` runs under: its own when no other entry has it, else
      qualified by category and, from the second such pair on, a number. */
  function QualifiedName(entries: seq<ValidationEntry>, i: nat): string
    requires i < |entries|
  {
    var e := entries[i];
    if NameCount(entries, e.name) == 1 then e.name
    else
      var k := PairCount(entries[..i + 1], e.name, e.category);
      e.name + "-" + if k == 1 then e.category else e.category + "-" + Decimal(k)
  }

  function Renamed(entries: seq<ValidationEntry>, i: nat): ValidationEntry
    requires i < |entries|
  {
    entries[i].(name := QualifiedName(entries, i))
  }

  function CountOf(counts: map<string, nat>, name: string): nat {
    if name in counts then counts[name] else 0
  }

  function PairCountOf(counts: map<(string, string), nat>, pair: (string, string)): nat {
    if pair in counts then counts[pair] else 0
  }

  /** The first counting loop. */
  method CountNames(entries: seq<ValidationEntry>) returns (counts: map<string, nat>)
    ensures forall name :: CountOf(counts, name) == NameCount(entries, name)
  {
    counts := map[];
    var n := 0;
    while n < |entries|
      invariant 0 <= n <= |entries|
      invariant forall name :: CountOf(counts, name) == NameCount(entries[..n], name)
    {
      var name := entries[n].name;
      ghost var was := counts;
      counts := counts[name := CountOf(counts, name) + 1];
      assert entries[..n + 1][..n] == entries[..n];
      forall other ensures CountOf(counts, other) == NameCount(entries[..n + 1], other) {
        assert CountOf(was, other) == NameCount(entries[..n], other);
      }
      n := n + 1;
    }
    assert entries[..n] == entries;
  }

  /** The renaming loop, numbering repeated pairs as it meets them. */
  method EntriesWithPytestNames(entries: seq<ValidationEntry>) returns (named: seq<ValidationEntry>)
    ensures |named| == |entries|
    ensures forall i | 0 <= i < |entries| :: named[i] == Renamed(entries, i)
  {
    var nameCounts := CountNames(entries);
    var pairCounts: map<(string, string), nat> := map[];
    named := [];
    var i := 0;
    while i < |entries|
      invariant 0 <= i <= |entries| && |named| == i
      invariant PairsCounted(entries, i, pairCounts)
      invariant forall j | 0 <= j < i :: named[j] == Renamed(entries, j)
    {
      var key;
      key, pairCounts := QualifyNext(entries, i, CountOf(nameCounts, entries[i].name), pairCounts);
      named := named + [entries[i].(name := key)];
      i := i + 1;
    }
  }

  /** The body of the renaming loop. */
  method QualifyNext(entries: seq<ValidationEntry>, i: nat, nameCount: nat, before: map<(string, string), nat>)
    returns (key: string, pairCounts: map<(string, string), nat>)
    requires i < |entries| && nameCount == NameCount(entries, entries[i].name) && PairsCounted(entries, i, before)
    ensures key == QualifiedName(entries, i) && PairsCounted(entries, i + 1, pairCounts)
  {
    var e := entries[i];
    key, pairCounts := e.name, before;
    CountNext(entries, i, before);
    if nameCount != 1 {
      var pair := (e.name, e.category);
      pairCounts := pairCounts[pair := PairCountOf(pairCounts, pair) + 1];
      key := e.name + "-" + if pairCounts[pair] == 1 then e.category else e.category + "-" + Decimal(pairCounts[pair]);
    }
  }

  /** Pairs whose name is shared are counted over the first `i` entries. */
  predicate PairsCounted(entries: seq<ValidationEntry>, i: nat, counts: map<(string, string), nat>)
    requires i <= |entries|
  {
    forall j | 0 <= j < |entries| && NameCount(entries, entries[j].name) != 1 ::
      PairCountOf(counts, (entries[j].name, entries[j].category))
      == PairCount(entries[..i], entries[j].name, entries[j].category)
  }

  lemma CountNext(entries: seq<ValidationEntry>, i: nat, counts: map<(string, string), nat>)
    requires i < |entries| && PairsCounted(entries, i, counts)
    ensures var e := entries[i];
            var pair := (e.name, e.category);
            if NameCount(entries, e.name) != 1
            then PairsCounted(entries, i + 1, counts[pair := PairCountOf(counts, pair) + 1])
                 && PairCountOf(counts, pair) + 1 == PairCount(entries[..i + 1], e.name, e.category)
            else PairsCounted(entries, i + 1, counts)
  {
    var e := entries[i];
    assert entries[..i + 1][..i] == entries[..i];
    assert entries[..i + 1][i] == e;
  }

  lemma {:induction false} CountsItself(entries: seq<ValidationEntry>, i: nat)
    requires i < |entries|
    ensures NameCount(entries, entries[i].name) >= 1
    decreases |entries|
  {
    if i < |entries| - 1 {
      CountsItself(entries[..|entries| - 1], i);
    }
  }

  lemma {:induction false} CountsBoth(entries: seq<ValidationEntry>, i: nat, j: nat)
    requires i < j < |entries| && entries[i].name == entries[j].name
    ensures NameCount(entries, entries[i].name) >= 2
    decreases |entries|
  {
    if j < |entries| - 1 {
      CountsBoth(entries[..|entries| - 1], i, j);
    } else {
      CountsItself(entries[..|entries| - 1], i);
    }
  }

  /** Later entries of the same pair get larger numbers. */
  lemma PairRanksGrow(entries: seq<ValidationEntry>, i: nat, j: nat)
    requires i < j < |entries|
    requires entries[i].name == entries[j].name && entries[i].category == entries[j].category
    ensures 1 <= PairCount(entries[..i + 1], entries[i].name, entries[i].category)
                 < PairCount(entries[..j + 1], entries[j].name, entries[j].category)
    decreases j
  {
    var name, category := entries[i].name, entries[i].category;
    assert entries[..i + 1][..i] == entries[..i];
    assert entries[..j + 1][..j] == entries[..j];
    PairCountGrows(entries, i + 1, j, name, category);
  }

  lemma {:induction false} PairCountGrows(entries: seq<ValidationEntry>, i: nat, j: nat, name: string, category: string)
    requires i <= j <= |entries|
    ensures PairCount(entries[..i], name, category) <= PairCount(entries[..j], name, category)
    decreases j
  {
    if i < j {
      assert entries[..j][..j - 1] == entries[..j - 1];
      PairCountGrows(entries, i, j - 1, name, category);
    }
  }

  lemma NoHyphenInDecimal(n: nat)
    ensures '-' !in Decimal(n)
  {
  }

  ghost predicate QualifiedDistinct(entries: seq<ValidationEntry>) {
    forall i, j | 0 <= i < j < |entries| :: QualifiedName(entries, i) != QualifiedName(entries, j)
  }

  /** The number of entry `i` among the entries of its name and category so far. */
  function PairRank(entries: seq<ValidationEntry>, i: nat): nat
    requires i < |entries|
  {
    PairCount(entries[..i + 1], entries[i].name, entries[i].category)
  }

  /** Some category is another one of the same name with a number that is used. */
  predicate NumberedCategory(entries: seq<ValidationEntry>, i: nat, j: nat)
    requires i < |entries| && j < |entries|
  {
    && entries[i].name == entries[j].name && PairRank(entries, i) >= 2
    && entries[j].category == entries[i].category + "-" + Decimal(PairRank(entries, i))
  }

  lemma {:induction false} FirstOfPair(entries: seq<ValidationEntry>, j: nat) returns (f: nat)
    requires j < |entries|
    ensures f <= j && entries[f].name == entries[j].name && entries[f].category == entries[j].category
    ensures PairRank(entries, f) == 1
    decreases j
  {
    assert entries[..j + 1][..j] == entries[..j];
    if PairCount(entries[..j], entries[j].name, entries[j].category) == 0 {
      f := j;
    } else {
      var e := EarlierOfPair(entries, j, entries[j].name, entries[j].category);
      f := FirstOfPair(entries, e);
    }
  }

  lemma {:induction false} EarlierOfPair(entries: seq<ValidationEntry>, n: nat, name: string, category: string)
    returns (e: nat)
    requires n <= |entries| && PairCount(entries[..n], name, category) > 0
    ensures e < n && entries[e].name == name && entries[e].category == category
    decreases n
  {
    assert entries[..n][..n - 1] == entries[..n - 1];
    if entries[n - 1].name == name && entries[n - 1].category == category {
      e := n - 1;
    } else {
      e := EarlierOfPair(entries, n - 1, name, category);
    }
  }

  /** The suffix of a name shared by several entries. */
  function SuffixOf(entries: seq<ValidationEntry>, i: nat): string
    requires i < |entries|
  {
    if PairRank(entries, i) == 1 then entries[i].category
    else entries[i].category + "-" + Decimal(PairRank(entries, i))
  }

  /** Suffixes of entries of one name agree only where a category is numbered. */
  lemma SameSuffix(entries: seq<ValidationEntry>, i: nat, j: nat)
    requires i < j < |entries| && entries[i].name == entries[j].name
    requires SuffixOf(entries, i) == SuffixOf(entries, j)
    ensures NumberedCategory(entries, i, j) || NumberedCategory(entries, j, i)
  {
    var a, b := entries[i], entries[j];
    var k, l := PairRank(entries, i), PairRank(entries, j);
    RankFromOne(entries, i);
    RankFromOne(entries, j);
    if k != 1 && l != 1 {
      NoHyphenInDecimal(k);
      NoHyphenInDecimal(l);
      SplitAtLast('-', a.category, Decimal(k), b.category, Decimal(l));
      DecimalInjective(k, l);
      PairRanksGrow(entries, i, j);
      assert false;
    } else if k == 1 && l == 1 {
      PairRanksGrow(entries, i, j);
      assert false;
    }
  }

  lemma RankFromOne(entries: seq<ValidationEntry>, i: nat)
    requires i < |entries|
    ensures PairRank(entries, i) >= 1
  {
  }

  lemma QualifiedBySuffix(entries: seq<ValidationEntry>, i: nat)
    requires i < |entries|
    ensures QualifiedName(entries, i)
            == if NameCount(entries, entries[i].name) == 1 then entries[i].name
               else entries[i].name + ['-'] + SuffixOf(entries, i)
  {
  }

  predicate IsShared(entries: seq<ValidationEntry>, i: nat)
    requires i < |entries|
  {
    NameCount(entries, entries[i].name) != 1
  }

  /** `longer` is `shorter`, a hyphen and more. */
  predicate ContinuesName(longer: string, shorter: string) {
    |longer| > |shorter| && longer[..|shorter|] == shorter && longer[|shorter|] == '-'
  }

  /** The name of entry `i` is the shared name of entry `j` with a hyphen and a
      continuation, and that is how the suffix of entry `j` starts. */
  predicate Continues(entries: seq<ValidationEntry>, i: nat, j: nat)
    requires i < |entries| && j < |entries|
  {
    && IsShared(entries, j) && ContinuesName(entries[i].name, entries[j].name)
    && var t := entries[i].name[|entries[j].name| + 1..];
       SuffixOf(entries, j) == if IsShared(entries, i) then t + ['-'] + SuffixOf(entries, i) else t
  }

  /** One joined text has two splits only if one first part continues the other. */
  lemma TwoSplits(a: string, x: string, b: string, y: string)
    requires a + ['-'] + x == b + ['-'] + y && |a| >= |b|
    ensures a == b || (ContinuesName(a, b) && y == a[|b| + 1..] + ['-'] + x)
  {
    var s := a + ['-'] + x;
    assert s[..|b|] == b && s[|b|] == '-' && s[|b| + 1..] == y;
    assert a[..|b|] == s[..|b|];
    if |a| > |b| {
      assert a[|b|] == s[|b|];
      assert s[|b| + 1..] == a[|b| + 1..] + ['-'] + x;
    }
  }

  lemma SplitWhole(a: string, b: string, y: string)
    requires a == b + ['-'] + y
    ensures ContinuesName(a, b) && y == a[|b| + 1..]
  {
  }

  lemma Rejoin(a: string, b: string)
    requires ContinuesName(a, b)
    ensures b + ['-'] + a[|b| + 1..] == a
  {
  }

  lemma RejoinWith(a: string, b: string, x: string)
    requires ContinuesName(a, b)
    ensures b + ['-'] + (a[|b| + 1..] + ['-'] + x) == a + ['-'] + x
  {
    Rejoin(a, b);
    assert b + ['-'] + (a[|b| + 1..] + ['-'] + x) == (b + ['-'] + a[|b| + 1..]) + ['-'] + x;
  }

  /** Two entries run under one name exactly when they agree in name and suffix, or
      the name of one continues the other's. */
  lemma SameNameIff(entries: seq<ValidationEntry>, i: nat, j: nat)
    requires i < j < |entries|
    ensures QualifiedName(entries, i) == QualifiedName(entries, j) <==>
            || (entries[i].name == entries[j].name && SuffixOf(entries, i) == SuffixOf(entries, j))
            || Continues(entries, i, j) || Continues(entries, j, i)
  {
    if QualifiedName(entries, i) == QualifiedName(entries, j) {
      ClashIsContinued(entries, i, j);
    }
    if entries[i].name == entries[j].name && SuffixOf(entries, i) == SuffixOf(entries, j) {
      CountsBoth(entries, i, j);
      QualifiedBySuffix(entries, i);
      QualifiedBySuffix(entries, j);
    }
    if Continues(entries, i, j) {
      ContinuationClashes(entries, i, j);
    }
    if Continues(entries, j, i) {
      ContinuationClashes(entries, j, i);
    }
  }

  lemma ClashIsContinued(entries: seq<ValidationEntry>, i: nat, j: nat)
    requires i < j < |entries| && QualifiedName(entries, i) == QualifiedName(entries, j)
    ensures || (entries[i].name == entries[j].name && SuffixOf(entries, i) == SuffixOf(entries, j))
            || Continues(entries, i, j) || Continues(entries, j, i)
  {
    var a, b, x, y := entries[i].name, entries[j].name, SuffixOf(entries, i), SuffixOf(entries, j);
    QualifiedBySuffix(entries, i);
    QualifiedBySuffix(entries, j);
    if a == b {
      CountsBoth(entries, i, j);
      assert x == (a + ['-'] + x)[|a| + 1..] && y == (a + ['-'] + y)[|a| + 1..];
    } else if IsShared(entries, i) && IsShared(entries, j) {
      if |a| >= |b| {
        TwoSplits(a, x, b, y);
      } else {
        TwoSplits(b, y, a, x);
      }
    } else if IsShared(entries, j) {
      SplitWhole(a, b, y);
    } else if IsShared(entries, i) {
      SplitWhole(b, a, x);
    }
  }

  lemma ContinuationClashes(entries: seq<ValidationEntry>, i: nat, j: nat)
    requires i < |entries| && j < |entries| && Continues(entries, i, j)
    ensures i != j && QualifiedName(entries, i) == QualifiedName(entries, j)
  {
    var a, b, x := entries[i].name, entries[j].name, SuffixOf(entries, i);
    QualifiedBySuffix(entries, i);
    QualifiedBySuffix(entries, j);
    if IsShared(entries, i) {
      RejoinWith(a, b, x);
    } else {
      Rejoin(a, b);
    }
  }

  /** Qualified names are pairwise distinct exactly when no category is another one
      of the same name with a number in use behind a hyphen, and no check name is a
      shared one continued the way that one is qualified. */
  lemma QualifiedDistinctIff(entries: seq<ValidationEntry>)
    ensures QualifiedDistinct(entries) <==>
            forall i, j | 0 <= i < |entries| && 0 <= j < |entries| ::
              !NumberedCategory(entries, i, j) && !Continues(entries, i, j)
  {
    forall i, j | 0 <= i < |entries| && 0 <= j < |entries| && QualifiedDistinct(entries)
      ensures !NumberedCategory(entries, i, j) && !Continues(entries, i, j)
    {
      if NumberedCategory(entries, i, j) {
        NumberedClashes(entries, i, j);
      }
      if Continues(entries, i, j) {
        ContinuationClashes(entries, i, j);
      }
    }
    forall i, j | 0 <= i < j < |entries| && QualifiedName(entries, i) == QualifiedName(entries, j)
      ensures || NumberedCategory(entries, i, j) || NumberedCategory(entries, j, i)
              || Continues(entries, i, j) || Continues(entries, j, i)
    {
      ClashIsContinued(entries, i, j);
      if entries[i].name == entries[j].name && SuffixOf(entries, i) == SuffixOf(entries, j) {
        SameSuffix(entries, i, j);
      }
    }
  }

  /** When no shared name is continued by another with a hyphen, the categories alone decide. */
  lemma DistinctByCategories(entries: seq<ValidationEntry>)
    requires forall i, j | 0 <= i < |entries| && 0 <= j < |entries| && IsShared(entries, j) ::
               !ContinuesName(entries[i].name, entries[j].name)
    ensures QualifiedDistinct(entries) <==>
            forall i, j | 0 <= i < |entries| && 0 <= j < |entries| :: !NumberedCategory(entries, i, j)
  {
    QualifiedDistinctIff(entries);
    assert forall i, j | 0 <= i < |entries| && 0 <= j < |entries| :: !Continues(entries, i, j);
  }

  lemma NumberedHasHyphen(entries: seq<ValidationEntry>, i: nat, j: nat)
    requires i < |entries| && j < |entries|
    ensures NumberedCategory(entries, i, j) ==> '-' in entries[j].category
  {
    if NumberedCategory(entries, i, j) {
      assert entries[j].category[|entries[i].category|] == "-"[0];
    }
  }

  /** Without any hyphen in names and categories there is nothing to decide. */
  lemma HyphenFreeIsDistinct(entries: seq<ValidationEntry>)
    requires forall i | 0 <= i < |entries| :: '-' !in entries[i].name && '-' !in entries[i].category
    ensures QualifiedDistinct(entries)
  {
    forall i, j | 0 <= i < |entries| && 0 <= j < |entries|
      ensures !NumberedCategory(entries, i, j) && !ContinuesName(entries[i].name, entries[j].name)
    {
      NumberedHasHyphen(entries, i, j);
    }
    DistinctByCategories(entries);
  }

  lemma NumberedClashes(entries: seq<ValidationEntry>, i: nat, j: nat)
    requires i < |entries| && j < |entries| && NumberedCategory(entries, i, j)
    ensures !QualifiedDistinct(entries)
  {
    var f := FirstOfPair(entries, j);
    assert |entries[f].category| > |entries[i].category|;
    if i < f {
      CountsBoth(entries, i, f);
      assert QualifiedName(entries, i) == QualifiedName(entries, f);
    } else {
      CountsBoth(entries, f, i);
      assert QualifiedName(entries, f) == QualifiedName(entries, i);
    }
  }

  /** With a hyphen in a category, two entries can end up under one name. */
  lemma QualifiedNamesCanClash(name: string, category: string)
    ensures var e := ValidationEntry(name, category, None, None, []);
            var entries := [e, e, e.(category := category + "-2")];
            QualifiedName(entries, 1) == QualifiedName(entries, 2)
  {
    var e := ValidationEntry(name, category, None, None, []);
    var f := e.(category := category + "-2");
    var entries := [e, e, f];
    CountsBoth(entries, 0, 1);
    assert entries[..1] == [e] && entries[..2] == [e, e] && entries[..3] == [e, e, f];
    assert [e][..0] == [] && [e, e][..1] == [e] && [e, e, f][..2] == [e, e];
    assert category != category + "-2";
    assert PairCount([e], name, category) == 1 && PairCount([e], name, f.category) == 0;
    assert PairCount([e, e], name, category) == 2 && PairCount([e, e], name, f.category) == 0;
    assert PairCount([e, e, f], name, f.category) == 1;
    assert Decimal(2) == "2";
    assert category + "-" + "2" == category + "-2";
  }

  /** A hyphenated check name can meet the qualified form of a shared one, with no
      numbered category about. */
  lemma HyphenatedNameCanClash(name: string, c: string, d: string, e: string)
    requires c != d
    ensures var entries := [
              ValidationEntry(name, c, None, None, []), ValidationEntry(name, d, None, None, []),
              ValidationEntry(name + ['-'] + c, e, None, None, [])];
            && QualifiedName(entries, 0) == QualifiedName(entries, 2)
            && forall i, j | 0 <= i < 3 && 0 <= j < 3 :: !NumberedCategory(entries, i, j)
  {
    var x, y := ValidationEntry(name, c, None, None, []), ValidationEntry(name, d, None, None, []);
    var z := ValidationEntry(name + ['-'] + c, e, None, None, []);
    var entries := [x, y, z];
    assert |z.name| > |name|;
    Counted([], x, z.name, z.name, e);
    Counted([], x, name, name, c);
    Counted([x], y, z.name, name, d);
    Counted([x], y, name, name, d);
    Counted([x, y], z, z.name, z.name, e);
    Counted([], x, name, name, d);
    Counted([], x, z.name, z.name, e);
    Counted([x], y, z.name, z.name, e);
    Counted([x, y], z, name, z.name, e);
    assert [] + [x] == [x] && [x] + [y] == [x, y] && [x, y] + [z] == entries;
    assert entries[..1] == [x] && entries[..2] == [x, y] && entries[..3] == entries;
    assert PairRank(entries, 0) == 1 && PairRank(entries, 1) == 1 && PairRank(entries, 2) == 1;
    QualifiedBySuffix(entries, 0);
    QualifiedBySuffix(entries, 2);
  }

  lemma Counted(entries: seq<ValidationEntry>, last: ValidationEntry, name: string, pairName: string, category: string)
    ensures NameCount(entries + [last], name) == NameCount(entries, name) + if last.name == name then 1 else 0
    ensures PairCount(entries + [last], pairName, category)
            == PairCount(entries, pairName, category)
               + if last.name == pairName && last.category == category then 1 else 0
  {
    assert (entries + [last])[..|entries|] == entries;
  }

  // ---- Results ----

  /** What pytest captured for one test. */
  datatype RawResult = RawResult(name: string, outcome: RawOutcome)

  datatype RawOutcome = RawOutcome(skipped: bool, passed: bool, runtimeException: bool)

  function ResultState(raw: RawOutcome): State {
    if raw.skipped then Skipped
    else if raw.passed then Passed
    else if raw.runtimeException then Error
    else Failed
  }

  /** The last captured result under `name`, as a dict built from the list keeps it. */
  function LastResult(results: seq<RawResult>, name: string): Option<RawOutcome> {
    if results == [] then None
    else if results[|results| - 1].name == name then Some(results[|results| - 1].outcome)
    else LastResult(results[..|results| - 1], name)
  }

  function Outcome(entry: ValidationEntry, captured: Option<RawOutcome>): ResolvedEntry {
    Terminal(entry, if captured.None? then Skipped else ResultState(captured.value))
  }

  /** Record `t` is the last one under `name`. */
  predicate LastUnder(results: seq<RawResult>, name: string, t: int) {
    0 <= t < |results| && results[t].name == name && forall u | t < u < |results| :: results[u].name != name
  }

  predicate NoneUnder(results: seq<RawResult>, name: string) {
    forall t | 0 <= t < |results| :: results[t].name != name
  }

  /** What a record makes of its validation: a skip counts before a pass, and a
      runtime exception turns a failure into an error. */
  predicate Judged(state: State, raw: RawOutcome) {
    && (state.Skipped? <==> raw.skipped)
    && (state.Passed? <==> !raw.skipped && raw.passed)
    && (state.Error? <==> !raw.skipped && !raw.passed && raw.runtimeException)
    && (state.Failed? <==> !raw.skipped && !raw.passed && !raw.runtimeException)
  }

  lemma {:induction false} LastResultIff(results: seq<RawResult>, name: string)
    ensures LastResult(results, name).None? <==> NoneUnder(results, name)
    ensures forall t | LastUnder(results, name, t) :: LastResult(results, name) == Some(results[t].outcome)
    decreases |results|
  {
    if results != [] {
      var last := |results| - 1;
      LastResultIff(results[..last], name);
      forall t | LastUnder(results, name, t) ensures LastResult(results, name) == Some(results[t].outcome) {
        if results[last].name != name {
          assert LastUnder(results[..last], name, t);
        }
      }
    }
  }

  /** The last record under an entry's name decides its outcome; without one it is skipped. */
  lemma OutcomeJudged(entry: ValidationEntry, results: seq<RawResult>, name: string)
    ensures var state := Outcome(entry, LastResult(results, name)).state;
            && (NoneUnder(results, name) ==> state.Skipped?)
            && forall t | LastUnder(results, name, t) :: Judged(state, results[t].outcome)
  {
    LastResultIff(results, name);
  }

  method ApplyPytestResults(entries: seq<ValidationEntry>, results: seq<RawResult>)
    returns (updated: seq<ResolvedEntry>)
    ensures |updated| == |entries|
    ensures forall i | 0 <= i < |entries| :: updated[i] == Outcome(entries[i], LastResult(results, entries[i].name))
    ensures forall i | 0 <= i < |entries| ::
              && updated[i].Terminal? && updated[i].entry == entries[i]
              && (NoneUnder(results, entries[i].name) ==> updated[i].state.Skipped?)
              && (forall t | LastUnder(results, entries[i].name, t) :: Judged(updated[i].state, results[t].outcome))
  {
    var byName: map<string, RawOutcome> := map[];
    var n := 0;
    while n < |results|
      invariant 0 <= n <= |results|
      invariant forall name ::
                  LastResult(results[..n], name) == if name in byName then Some(byName[name]) else None
    {
      byName := byName[results[n].name := results[n].outcome];
      assert results[..n + 1][..n] == results[..n];
      n := n + 1;
    }
    assert results[..n] == results;
    updated := [];
    var i := 0;
    while i < |entries|
      invariant 0 <= i <= |entries| && |updated| == i
      invariant forall name :: LastResult(results, name) == if name in byName then Some(byName[name]) else None
      invariant forall j | 0 <= j < i :: updated[j] == Outcome(entries[j], LastResult(results, entries[j].name))
    {
      var e := entries[i];
      if e.name !in byName {
        updated := updated + [Terminal(e, Skipped)];
      } else {
        updated := updated + [Terminal(e, ResultState(byName[e.name]))];
      }
      i := i + 1;
    }
    forall j | 0 <= j < |entries|
      ensures NoneUnder(results, entries[j].name) ==> updated[j].state.Skipped?
      ensures forall t | LastUnder(results, entries[j].name, t) :: Judged(updated[j].state, results[t].outcome)
    {
      OutcomeJudged(entries[j], results, entries[j].name);
    }
  }

  /** The captured list holds exactly what the tests that ran reported, in any
      order: `origin[t]` is the entry whose test made record `t`. */
  predicate Captured(
      entries: seq<ValidationEntry>, ran: seq<Option<RawOutcome>>, results: seq<RawResult>, origin: seq<nat>)
  {
    && |ran| == |entries| && |origin| == |results|
    && (forall t | 0 <= t < |results| ::
          && origin[t] < |entries| && ran[origin[t]].Some?
          && results[t] == RawResult(QualifiedName(entries, origin[t]), ran[origin[t]].value))
    && (forall i | 0 <= i < |entries| && ran[i].Some? :: i in origin)
  }

  predicate AllDistinct(names: seq<string>) {
    forall i, j | 0 <= i < j < |names| :: names[i] != names[j]
  }

  /** Under distinct names the last record of a name is that of its own test. */
  lemma {:induction false} LastRecordIsOwn(
      names: seq<string>, ran: seq<Option<RawOutcome>>, results: seq<RawResult>, origin: seq<nat>, i: nat)
    requires AllDistinct(names) && |ran| == |names| && |origin| == |results| && i < |names|
    requires forall t | 0 <= t < |results| ::
               && origin[t] < |names| && ran[origin[t]].Some?
               && results[t] == RawResult(names[origin[t]], ran[origin[t]].value)
    ensures LastResult(results, names[i]) == if i in origin then ran[i] else None
    decreases |results|
  {
    if results != [] {
      var last := |results| - 1;
      assert origin == origin[..last] + [origin[last]];
      LastRecordIsOwn(names, ran, results[..last], origin[..last], i);
    }
  }

  lemma LastResultIsOwn(
      entries: seq<ValidationEntry>, ran: seq<Option<RawOutcome>>, results: seq<RawResult>, origin: seq<nat>, i: nat)
    requires QualifiedDistinct(entries) && Captured(entries, ran, results, origin) && i < |entries|
    ensures LastResult(results, QualifiedName(entries, i)) == ran[i]
  {
    var names := seq(|entries|, k requires 0 <= k < |entries| => QualifiedName(entries, k));
    LastRecordIsOwn(names, ran, results, origin, i);
  }

  /** Run the ready entries: names are qualified, pytest captures results, and
      every entry comes back once, in order, decided by its own result, or
      skipped when its test did not run. */
  method RunAndPairBack(entries: seq<ValidationEntry>, ran: seq<Option<RawOutcome>>, results: seq<RawResult>,
                        ghost origin: seq<nat>)
    returns (updated: seq<ResolvedEntry>)
    requires QualifiedDistinct(entries) && Captured(entries, ran, results, origin)
    ensures |updated| == |entries|
    ensures forall i | 0 <= i < |entries| ::
              && SameButName(entries[i], updated[i].entry)
              && updated[i] == Terminal(Renamed(entries, i),
                                 if ran[i].None? then Skipped else ResultState(ran[i].value))
    ensures forall i | 0 <= i < |entries| ::
              if ran[i].None? then updated[i].state.Skipped? else Judged(updated[i].state, ran[i].value)
  {
    var named := EntriesWithPytestNames(entries);
    updated := ApplyPytestResults(named, results);
    forall i | 0 <= i < |entries| ensures LastResult(results, named[i].name) == ran[i] {
      LastResultIsOwn(entries, ran, results, origin, i);
    }
  }

  /** Looking results up by name gives every entry its own. */
  predicate PairsBack(entries: seq<ValidationEntry>, ran: seq<Option<RawOutcome>>, results: seq<RawResult>)
    requires |ran| == |entries|
  {
    forall i | 0 <= i < |entries| :: LastResult(results, QualifiedName(entries, i)) == ran[i]
  }

  /** It does, whatever the tests report, exactly when the names are distinct. */
  lemma PairsBackIff(entries: seq<ValidationEntry>)
    ensures QualifiedDistinct(entries) <==>
            forall ran, results, origin | Captured(entries, ran, results, origin) :: PairsBack(entries, ran, results)
  {
    if QualifiedDistinct(entries) {
      forall ran, results, origin | Captured(entries, ran, results, origin) ensures PairsBack(entries, ran, results) {
        forall i | 0 <= i < |entries| ensures LastResult(results, QualifiedName(entries, i)) == ran[i] {
          LastResultIsOwn(entries, ran, results, origin, i);
        }
      }
    }
    forall i, j | 0 <= i < j < |entries| && QualifiedName(entries, i) == QualifiedName(entries, j)
      ensures exists ran, results, origin ::
                Captured(entries, ran, results, origin) && !PairsBack(entries, ran, results)
    {
      ClashLosesResult(entries, i, j);
    }
  }

  /** Two entries under one name: the one that did not run takes the other's result. */
  lemma ClashLosesResult(entries: seq<ValidationEntry>, i: nat, j: nat)
    requires i < j < |entries| && QualifiedName(entries, i) == QualifiedName(entries, j)
    ensures exists ran, results, origin :: Captured(entries, ran, results, origin) && !PairsBack(entries, ran, results)
  {
    var outcome := RawOutcome(false, true, false);
    var ran: seq<Option<RawOutcome>> := seq(|entries|, k => if k == i then Some(outcome) else None);
    var results, origin := [RawResult(QualifiedName(entries, i), outcome)], [i];
    assert Captured(entries, ran, results, origin);
    assert LastResult(results, QualifiedName(entries, j)) == Some(outcome) && ran[j] == None;
    assert !PairsBack(entries, ran, results);
  }
}
