/** Merging per-phase JUnit XML files into one report, with suites folded by name
    and their testcases put into configuration order. */
module JUnit {
  import opened Json
  import opened StableOrder

  /** A testcase element; `id` tells elements with equal content apart. */
  datatype Case = Case(id: nat, name: string)

  datatype Child = CaseChild(testcase: Case) | OtherChild(id: nat)

  datatype Counters = Counters(tests: int, failures: int, errors: int, skipped: int)

  datatype Suite = Suite(name: string, counters: Counters, children: seq<Child>)

  /** A file as the XML parser sees it. */
  datatype XmlFile = Unparseable | Testsuites(suites: seq<Suite>) | Testsuite(suite: Suite) | OtherRoot

  function Cases(children: seq<Child>): seq<Case> {
    if children == [] then []
    else
      Cases(children[..|children| - 1])
      + match children[|children| - 1] case CaseChild(c) => [c] case OtherChild(_) => []
  }

  function Others(children: seq<Child>): seq<Child> {
    if children == [] then []
    else Others(children[..|children| - 1])
         + if children[|children| - 1].OtherChild? then [children[|children| - 1]] else []
  }

  /** The testcases among some children, counted. */
  function CaseBag(children: seq<Child>): multiset<Case> {
    multiset(Cases(children))
  }

  function AsChildren(cases: seq<Case>): seq<Child> {
    seq(|cases|, i requires 0 <= i < |cases| => CaseChild(cases[i]))
  }

  lemma {:induction false} ChildrenConcat(a: seq<Child>, b: seq<Child>)
    ensures Cases(a + b) == Cases(a) + Cases(b) && Others(a + b) == Others(a) + Others(b)
    decreases |b|
  {
    if b == [] {
      assert a + b == a;
    } else {
      assert (a + b)[..|a + b| - 1] == a + b[..|b| - 1];
      ChildrenConcat(a, b[..|b| - 1]);
    }
  }

  lemma {:induction false} CasesOfCases(cases: seq<Case>)
    ensures Cases(AsChildren(cases)) == cases && Others(AsChildren(cases)) == []
    decreases |cases|
  {
    if cases != [] {
      var last := |cases| - 1;
      assert AsChildren(cases)[..last] == AsChildren(cases[..last]);
      CasesOfCases(cases[..last]);
      assert cases == cases[..last] + [cases[last]];
    }
  }

  function Add(a: Counters, b: Counters): Counters {
    Counters(a.tests + b.tests, a.failures + b.failures, a.errors + b.errors, a.skipped + b.skipped)
  }

  /** `_fold_suite`: the source's testcases at the end, its counters added. */
  function Fold(target: Suite, source: Suite): Suite {
    Suite(target.name, Add(target.counters, source.counters), target.children + AsChildren(Cases(source.children)))
  }

  function SuitesOf(file: Option<XmlFile>): seq<Suite> {
    match file
    case Some(Testsuites(suites)) => suites
    case Some(Testsuite(suite)) => [suite]
    case _ => []
  }

  function AllSuites(files: seq<Option<XmlFile>>): seq<Suite> {
    if files == [] then [] else AllSuites(files[..|files| - 1]) + SuitesOf(files[|files| - 1])
  }

  function IndexOf(suites: seq<Suite>, name: string): Option<nat> {
    if suites == [] then None
    else
      match IndexOf(suites[..|suites| - 1], name)
      case Some(i) => Some(i)
      case None => if suites[|suites| - 1].name == name then Some(|suites| - 1) else None
  }

  lemma {:induction false} IndexOfFinds(suites: seq<Suite>, name: string)
    ensures match IndexOf(suites, name)
            case Some(i) => i < |suites| && suites[i].name == name
            case None => forall i | 0 <= i < |suites| :: suites[i].name != name
  {
    if suites != [] {
      IndexOfFinds(suites[..|suites| - 1], name);
    }
  }

  function AddSuite(merged: seq<Suite>, s: Suite): seq<Suite> {
    match IndexOf(merged, s.name)
    case None => merged + [s]
    case Some(i) =>
      IndexOfFinds(merged, s.name);
      merged[i := Fold(merged[i], s)]
  }

  function MergeSuites(suites: seq<Suite>): seq<Suite> {
    if suites == [] then [] else AddSuite(MergeSuites(suites[..|suites| - 1]), suites[|suites| - 1])
  }

  // ---- What merging keeps ----

  predicate DistinctNames(suites: seq<Suite>) {
    forall i, j | 0 <= i < j < |suites| :: suites[i].name != suites[j].name
  }

  /** Testcases of the suites called `name`, in order of appearance. */
  function CasesNamed(suites: seq<Suite>, name: string): seq<Case> {
    if suites == [] then []
    else
      CasesNamed(suites[..|suites| - 1], name)
      + if suites[|suites| - 1].name == name then Cases(suites[|suites| - 1].children) else []
  }

  function CountersNamed(suites: seq<Suite>, name: string): Counters {
    if suites == [] then Counters(0, 0, 0, 0)
    else
      var rest := CountersNamed(suites[..|suites| - 1], name);
      if suites[|suites| - 1].name == name then Add(rest, suites[|suites| - 1].counters) else rest
  }

  function Sum(bags: seq<multiset<Case>>): multiset<Case> {
    if bags == [] then multiset{} else Sum(bags[..|bags| - 1]) + bags[|bags| - 1]
  }

  lemma {:induction false} SumUpdate(bags: seq<multiset<Case>>, i: nat, more: multiset<Case>)
    requires i < |bags|
    ensures Sum(bags[i := bags[i] + more]) == Sum(bags) + more
    decreases |bags|
  {
    var last := |bags| - 1;
    var bags' := bags[i := bags[i] + more];
    if i == last {
      assert bags'[..last] == bags[..last];
    } else {
      assert bags'[..last] == bags[..last][i := bags[i] + more];
      SumUpdate(bags[..last], i, more);
    }
  }

  lemma SumSnoc(bags: seq<multiset<Case>>, bag: multiset<Case>)
    ensures Sum(bags + [bag]) == Sum(bags) + bag
  {
  }

  lemma {:induction false} SumConcat(a: seq<multiset<Case>>, b: seq<multiset<Case>>)
    ensures Sum(a + b) == Sum(a) + Sum(b)
    decreases |b|
  {
    if b == [] {
      assert a + b == a;
    } else {
      assert (a + b)[..|a + b| - 1] == a + b[..|b| - 1];
      SumConcat(a, b[..|b| - 1]);
    }
  }

  lemma {:induction false} InSum(bags: seq<multiset<Case>>, i: nat, c: Case)
    requires i < |bags| && c in bags[i]
    ensures c in Sum(bags)
    decreases |bags|
  {
    if i < |bags| - 1 {
      InSum(bags[..|bags| - 1], i, c);
    }
  }

  function Bags(suites: seq<Suite>): seq<multiset<Case>> {
    seq(|suites|, i requires 0 <= i < |suites| => CaseBag(suites[i].children))
  }

  /** All testcases of a report, counted. */
  function AllCases(suites: seq<Suite>): multiset<Case> {
    Sum(Bags(suites))
  }

  lemma {:induction false} NamedAbsent(suites: seq<Suite>, name: string)
    requires forall i | 0 <= i < |suites| :: suites[i].name != name
    ensures CasesNamed(suites, name) == [] && CountersNamed(suites, name) == Counters(0, 0, 0, 0)
  {
    if suites != [] {
      NamedAbsent(suites[..|suites| - 1], name);
    }
  }

  lemma {:induction false} NamedUnique(suites: seq<Suite>, i: nat)
    requires DistinctNames(suites) && i < |suites|
    ensures CasesNamed(suites, suites[i].name) == Cases(suites[i].children)
    ensures CountersNamed(suites, suites[i].name) == suites[i].counters
    decreases |suites|
  {
    var last := |suites| - 1;
    if i == last {
      NamedAbsent(suites[..last], suites[i].name);
    } else {
      NamedUnique(suites[..last], i);
    }
  }

  lemma {:induction false} MergedNames(suites: seq<Suite>)
    ensures DistinctNames(MergeSuites(suites))
    ensures forall i | 0 <= i < |suites| ::
              exists j :: 0 <= j < |MergeSuites(suites)| && MergeSuites(suites)[j].name == suites[i].name
  {
    if suites != [] {
      var before, s := MergeSuites(suites[..|suites| - 1]), suites[|suites| - 1];
      MergedNames(suites[..|suites| - 1]);
      IndexOfFinds(before, s.name);
      var after := AddSuite(before, s);
      assert forall j | 0 <= j < |before| :: after[j].name == before[j].name;
      forall i | 0 <= i < |suites| ensures exists j :: 0 <= j < |after| && after[j].name == suites[i].name {
        if i < |suites| - 1 {
          var j :| 0 <= j < |before| && before[j].name == suites[..|suites| - 1][i].name;
          assert after[j].name == suites[i].name;
        } else if IndexOf(before, s.name).None? {
          assert after[|before|].name == suites[i].name;
        } else {
          assert after[IndexOf(before, s.name).value].name == suites[i].name;
        }
      }
    }
  }

  /** Each merged suite has exactly the testcases and counter sums of its name. */
  lemma {:induction false} MergeKeepsNamed(suites: seq<Suite>, name: string)
    ensures CasesNamed(MergeSuites(suites), name) == CasesNamed(suites, name)
    ensures CountersNamed(MergeSuites(suites), name) == CountersNamed(suites, name)
  {
    if suites != [] {
      var front, s := suites[..|suites| - 1], suites[|suites| - 1];
      var before := MergeSuites(front);
      MergeKeepsNamed(front, name);
      MergedNames(front);
      IndexOfFinds(before, s.name);
      match IndexOf(before, s.name)
      case None =>
        assert (before + [s])[..|before|] == before;
      case Some(i) =>
        UpdateNamed(before, i, Fold(before[i], s), name);
        FoldCases(before[i], s);
    }
  }

  lemma {:induction false} UpdateNamed(suites: seq<Suite>, i: nat, s: Suite, name: string)
    requires DistinctNames(suites) && i < |suites| && s.name == suites[i].name
    ensures CasesNamed(suites[i := s], name) == if s.name == name then Cases(s.children) else CasesNamed(suites, name)
    ensures CountersNamed(suites[i := s], name) == if s.name == name then s.counters else CountersNamed(suites, name)
    ensures s.name == name ==> CasesNamed(suites, name) == Cases(suites[i].children)
                               && CountersNamed(suites, name) == suites[i].counters
    decreases |suites|
  {
    if s.name == name {
      NamedUnique(suites, i);
      NamedUnique(suites[i := s], i);
    } else {
      var last := |suites| - 1;
      if i == last {
        assert suites[i := s][..last] == suites[..last];
      } else {
        assert suites[i := s][..last] == suites[..last][i := s];
        UpdateNamed(suites[..last], i, s, name);
      }
    }
  }

  lemma MergeSnoc(suites: seq<Suite>, s: Suite)
    ensures MergeSuites(suites + [s]) == AddSuite(MergeSuites(suites), s)
  {
  }

  lemma TakeNext(taken: seq<Suite>, more: seq<Suite>, n: nat)
    requires n < |more|
    ensures taken + [more[n]] + more[n + 1..] == taken + more[n..]
  {
  }

  lemma FoldCases(target: Suite, source: Suite)
    ensures Cases(Fold(target, source).children) == Cases(target.children) + Cases(source.children)
    ensures CaseBag(Fold(target, source).children) == CaseBag(target.children) + CaseBag(source.children)
  {
    ChildrenConcat(target.children, AsChildren(Cases(source.children)));
    CasesOfCases(Cases(source.children));
  }

  lemma AddSuiteCases(before: seq<Suite>, s: Suite)
    ensures AllCases(AddSuite(before, s)) == AllCases(before) + CaseBag(s.children)
  {
    IndexOfFinds(before, s.name);
    match IndexOf(before, s.name)
    case None =>
      assert Bags(before + [s]) == Bags(before) + [CaseBag(s.children)];
      SumSnoc(Bags(before), CaseBag(s.children));
    case Some(i) =>
      FoldCases(before[i], s);
      assert Bags(before[i := Fold(before[i], s)]) == Bags(before)[i := Bags(before)[i] + CaseBag(s.children)];
      SumUpdate(Bags(before), i, CaseBag(s.children));
  }

  lemma AllCasesSnoc(front: seq<Suite>, s: Suite)
    ensures AllCases(front + [s]) == AllCases(front) + CaseBag(s.children)
  {
    assert Bags(front + [s]) == Bags(front) + [CaseBag(s.children)];
    SumSnoc(Bags(front), CaseBag(s.children));
  }

  predicate KeepsCases(suites: seq<Suite>) {
    AllCases(MergeSuites(suites)) == AllCases(suites)
  }

  lemma KeepsCasesSnoc(front: seq<Suite>, s: Suite)
    requires KeepsCases(front)
    ensures KeepsCases(front + [s])
  {
    MergeSnoc(front, s);
    AddSuiteCases(MergeSuites(front), s);
    AllCasesSnoc(front, s);
  }

  lemma KeepsCasesNone()
    ensures KeepsCases([])
  {
  }

  /** Induction over lists that grow at the end. */
  lemma {:induction false} SnocInduction(suites: seq<Suite>, p: seq<Suite> -> bool)
    requires p([]) && forall front, s :: p(front) ==> p(front + [s])
    ensures p(suites)
    decreases |suites|
  {
    if suites != [] {
      var front := suites[..|suites| - 1];
      SnocInduction(front, p);
      assert suites == front + [suites[|suites| - 1]];
    }
  }

  /** No testcase is lost or duplicated by merging. */
  lemma MergeKeepsCases(suites: seq<Suite>)
    ensures KeepsCases(suites)
  {
    var p := (x: seq<Suite>) => KeepsCases(x);
    KeepsCasesNone();
    forall front, s | p(front) ensures p(front + [s]) {
      KeepsCasesSnoc(front, s);
    }
    SnocInduction(suites, p);
  }

  // ---- Configuration order ----

  /** The part of a testcase name before the first `::`. */
  function ParentName(name: string): string {
    if name == "" || "::" <= name then "" else [name[0]] + ParentName(name[1..])
  }

  lemma {:induction false} ParentOfSubtest(parent: string, rest: string)
    requires forall i | 0 <= i < |parent| :: parent[i] != ':'
    ensures ParentName(parent + "::" + rest) == parent && ParentName(parent) == parent
  {
    var full := parent + "::" + rest;
    if parent == "" {
      assert full == "::" + rest;
      assert "::" <= full;
    } else {
      assert full[0] == parent[0] && "::"[0] == ':';
      assert full[1..] == parent[1..] + "::" + rest;
      ParentOfSubtest(parent[1..], rest);
    }
  }

  /** It is the longest start without one. */
  lemma {:induction false} ParentEndsAtColons(name: string)
    ensures ParentName(name) <= name
    ensures ParentName(name) != name ==> "::" <= name[|ParentName(name)|..]
    ensures forall i | 0 <= i < |ParentName(name)| :: !("::" <= name[i..])
  {
    if name != "" && !("::" <= name) {
      ParentEndsAtColons(name[1..]);
      var rest := ParentName(name[1..]);
      assert name == [name[0]] + name[1..];
      assert name[|rest| + 1..] == name[1..][|rest|..];
      forall i | 0 <= i < |rest| + 1 ensures !("::" <= name[i..]) {
        if i > 0 {
          assert name[i..] == name[1..][i - 1..];
        } else {
          assert name[i..] == name;
        }
      }
    }
  }

  /** First position of a name in the configuration order, or past the end. */
  function Rank(order: seq<string>, name: string): nat {
    if order == [] then 0 else if order[0] == name then 0 else 1 + Rank(order[1..], name)
  }

  lemma {:induction false} RankIsFirst(order: seq<string>, name: string)
    ensures Rank(order, name) <= |order|
    ensures Rank(order, name) < |order| ==> order[Rank(order, name)] == name
    ensures forall i | 0 <= i < Rank(order, name) :: order[i] != name
  {
    if order != [] && order[0] != name {
      RankIsFirst(order[1..], name);
    }
  }

  function CaseRank(order: seq<string>): Case -> nat {
    (c: Case) => Rank(order, ParentName(c.name))
  }

  function RemoveFirst(children: seq<Child>, x: Child): seq<Child> {
    if children == [] then [] else if children[0] == x then children[1..]
    else [children[0]] + RemoveFirst(children[1..], x)
  }

  lemma {:induction false} RemoveFromFront(a: seq<Child>, b: seq<Child>, x: Child)
    requires x in a
    ensures RemoveFirst(a + b, x) == RemoveFirst(a, x) + b
  {
    assert (a + b)[1..] == a[1..] + b;
    if a[0] != x {
      RemoveFromFront(a[1..], b, x);
    }
  }

  lemma {:induction false} RemovedAt(children: seq<Child>, x: Child) returns (i: nat)
    requires x in children
    ensures i < |children| && children[i] == x && RemoveFirst(children, x) == children[..i] + children[i + 1..]
    decreases |children|
  {
    if children[0] == x {
      i := 0;
    } else {
      var j := RemovedAt(children[1..], x);
      i := j + 1;
    }
  }

  lemma Around(before: seq<Child>, c: Case, after: seq<Child>)
    ensures Cases(before + [CaseChild(c)] + after) == Cases(before) + [c] + Cases(after)
    ensures Others(before + [CaseChild(c)] + after) == Others(before) + Others(after)
  {
    var x: seq<Child> := [CaseChild(c)];
    OneChild(CaseChild(c));
    Between(before, x, after);
    assert Others(before) + [] == Others(before);
  }

  lemma Between(before: seq<Child>, x: seq<Child>, after: seq<Child>)
    ensures Cases(before + x + after) == Cases(before) + Cases(x) + Cases(after)
    ensures Others(before + x + after) == Others(before) + Others(x) + Others(after)
  {
    ChildrenConcat(before, x);
    ChildrenConcat(before + x, after);
  }

  lemma BagAround(before: seq<Case>, c: Case, after: seq<Case>)
    ensures multiset(before + [c] + after) == multiset(before + after) + multiset{c}
  {
  }

  lemma RemoveCase(children: seq<Child>, c: Case)
    requires CaseChild(c) in children
    ensures Others(RemoveFirst(children, CaseChild(c))) == Others(children)
    ensures CaseBag(children) == CaseBag(RemoveFirst(children, CaseChild(c))) + multiset{c}
  {
    var i := RemovedAt(children, CaseChild(c));
    var before, after := children[..i], children[i + 1..];
    assert children == before + [CaseChild(c)] + after;
    ChildrenConcat(before, after);
    Around(before, c, after);
    BagAround(Cases(before), c, Cases(after));
  }

  lemma OneChild(x: Child)
    ensures Cases([x]) == match x case CaseChild(c) => [c] case OtherChild(_) => []
    ensures Others([x]) == if x.OtherChild? then [x] else []
  {
  }

  lemma {:induction false} CaseIsChild(children: seq<Child>, c: Case)
    requires c in CaseBag(children)
    ensures CaseChild(c) in children
  {
    var front, last := children[..|children| - 1], children[|children| - 1];
    if last != CaseChild(c) {
      CaseIsChild(front, c);
    }
  }

  lemma AllMoved(rest: seq<Child>, sorted: seq<Case>, n: nat)
    requires n == |sorted| && CaseBag(rest) == multiset(sorted[n..])
    ensures rest + AsChildren(sorted[..n]) == Others(rest) + AsChildren(sorted)
  {
    assert sorted[..n] == sorted;
    assert |Cases(rest)| == |CaseBag(rest)| == 0;
    OnlyOthers(rest);
  }

  /** One turn of the loop: the next testcase leaves its place for the end. */
  lemma MoveToEnd(rest: seq<Child>, sorted: seq<Case>, n: nat)
    requires n < |sorted| && CaseBag(rest) == multiset(sorted[n..])
    ensures var x := CaseChild(sorted[n]);
            && RemoveFirst(rest + AsChildren(sorted[..n]), x) + [x]
               == RemoveFirst(rest, x) + AsChildren(sorted[..n + 1])
            && Others(RemoveFirst(rest, x)) == Others(rest)
            && CaseBag(RemoveFirst(rest, x)) == multiset(sorted[n + 1..])
  {
    var x := CaseChild(sorted[n]);
    TailBag(sorted, n);
    CaseIsChild(rest, sorted[n]);
    RemoveFromFront(rest, AsChildren(sorted[..n]), x);
    RemoveCase(rest, sorted[n]);
    BagCancel(CaseBag(RemoveFirst(rest, x)), multiset(sorted[n + 1..]), sorted[n]);
    assert AsChildren(sorted[..n + 1]) == AsChildren(sorted[..n]) + [x];
  }

  lemma BagCancel(a: multiset<Case>, b: multiset<Case>, c: Case)
    requires a + multiset{c} == b + multiset{c}
    ensures a == b
  {
    assert a == (a + multiset{c}) - multiset{c} && b == (b + multiset{c}) - multiset{c};
  }

  lemma TailBag(sorted: seq<Case>, n: nat)
    requires n < |sorted|
    ensures multiset(sorted[n..]) == multiset(sorted[n + 1..]) + multiset{sorted[n]}
  {
    assert sorted[n..] == [sorted[n]] + sorted[n + 1..];
  }

  lemma {:induction false} OnlyOthers(children: seq<Child>)
    requires Cases(children) == []
    ensures Others(children) == children
  {
    if children != [] {
      var last := |children| - 1;
      OnlyOthers(children[..last]);
      assert children == children[..last] + [children[last]];
    }
  }

  function SortedChildren(children: seq<Child>, order: seq<string>): seq<Child> {
    Others(children) + AsChildren(StableSort(Cases(children), CaseRank(order)))
  }

  lemma SortedChildrenParts(children: seq<Child>, order: seq<string>)
    ensures Cases(SortedChildren(children, order)) == StableSort(Cases(children), CaseRank(order))
    ensures Others(SortedChildren(children, order)) == Others(children)
  {
    var cases := StableSort(Cases(children), CaseRank(order));
    ChildrenConcat(Others(children), AsChildren(cases));
    CasesOfCases(cases);
    OthersAreOthers(children);
  }

  /** Sorting a suite keeps its testcases and its other children, puts the latter
      first, ranks the former by their parent's place in the configuration, and
      keeps the order within a rank. */
  lemma SortedChildrenCorrect(children: seq<Child>, order: seq<string>, rank: nat)
    ensures var s := SortedChildren(children, order);
            && s == Others(children) + AsChildren(Cases(s))
            && CaseBag(s) == CaseBag(children)
            && SortedBy(Cases(s), CaseRank(order))
            && Filter(Cases(s), WithKey(CaseRank(order), rank))
               == Filter(Cases(children), WithKey(CaseRank(order), rank))
  {
    SortedChildrenParts(children, order);
    StableSortCorrect(Cases(children), CaseRank(order), rank);
  }

  lemma {:induction false} OthersAreOthers(children: seq<Child>)
    ensures Others(Others(children)) == Others(children) && Cases(Others(children)) == []
  {
    if children != [] {
      var front, last := children[..|children| - 1], children[|children| - 1];
      OthersAreOthers(front);
      if last.OtherChild? {
        ChildrenConcat(Others(front), [last]);
        assert [last][..0] == [];
        assert Others([last]) == [last] && Cases([last]) == [];
      } else {
        assert Others(children) == Others(front);
      }
    }
  }

  function SortSuites(suites: seq<Suite>, order: seq<string>): seq<Suite> {
    seq(|suites|, i requires 0 <= i < |suites| => suites[i].(children := SortedChildren(suites[i].children, order)))
  }

  /** The merged report: suites folded by name, each sorted when an order is given. */
  function MergeReport(files: seq<Option<XmlFile>>, order: seq<string>): seq<Suite> {
    var merged := MergeSuites(AllSuites(files));
    if order == [] then merged else SortSuites(merged, order)
  }

  lemma SortKeepsCases(suites: seq<Suite>, order: seq<string>)
    ensures AllCases(SortSuites(suites, order)) == AllCases(suites)
  {
    forall i | 0 <= i < |suites| ensures Bags(SortSuites(suites, order))[i] == Bags(suites)[i] {
      SortedChildrenCorrect(suites[i].children, order, 0);
    }
    assert Bags(SortSuites(suites, order)) == Bags(suites);
  }

  /** The report has pairwise distinct suite names; under each name it has the
      counter sums and exactly the testcases of the input suites of that name, and
      over all suites no testcase is lost or duplicated. */
  lemma ReportIsComplete(files: seq<Option<XmlFile>>, order: seq<string>)
    ensures var r := MergeReport(files, order);
            && DistinctNames(r)
            && AllCases(r) == AllCases(AllSuites(files))
            && (forall i | 0 <= i < |r| ::
                  && r[i].counters == CountersNamed(AllSuites(files), r[i].name)
                  && CaseBag(r[i].children) == multiset(CasesNamed(AllSuites(files), r[i].name)))
  {
    var all := AllSuites(files);
    var merged, r := MergeSuites(all), MergeReport(files, order);
    MergedNames(all);
    MergeKeepsCases(all);
    SortKeepsCases(merged, order);
    forall i | 0 <= i < |r|
      ensures r[i].counters == CountersNamed(all, r[i].name)
      ensures CaseBag(r[i].children) == multiset(CasesNamed(all, r[i].name))
    {
      NamedUnique(merged, i);
      MergeKeepsNamed(all, merged[i].name);
      if order != [] {
        SortedChildrenCorrect(merged[i].children, order, 0);
      }
    }
  }

  // ---- What is where in the report ----

  /** Suite `f` is the first one called `name`. */
  predicate FirstCalled(suites: seq<Suite>, name: string, f: int) {
    0 <= f < |suites| && suites[f].name == name && forall e | 0 <= e < f :: suites[e].name != name
  }

  /** The children of the first suite of a name, then the testcases of the later ones. */
  predicate FoldedFrom(suites: seq<Suite>, merged: Suite, f: nat) {
    && FirstCalled(suites, merged.name, f)
    && merged.children == suites[f].children + AsChildren(CasesNamed(suites[f + 1..], merged.name))
  }

  lemma FirstInFront(front: seq<Suite>, s: Suite, name: string, f: int)
    requires FirstCalled(front, name, f)
    ensures FirstCalled(front + [s], name, f)
  {
  }

  lemma FoldedMore(children: seq<Child>, first: seq<Child>, later: seq<Case>, more: seq<Case>)
    requires children == first + AsChildren(later)
    ensures children + AsChildren(more) == first + AsChildren(later + more)
  {
    assert AsChildren(later + more) == AsChildren(later) + AsChildren(more);
  }

  lemma CasesNamedLater(front: seq<Suite>, s: Suite, name: string, f: nat)
    requires f < |front|
    ensures CasesNamed((front + [s])[f + 1..], name)
            == CasesNamed(front[f + 1..], name) + if s.name == name then Cases(s.children) else []
  {
    assert (front + [s])[f + 1..] == front[f + 1..] + [s];
    assert (front[f + 1..] + [s])[..|front[f + 1..]|] == front[f + 1..];
  }

  lemma FoldedSnoc(front: seq<Suite>, s: Suite, merged: Suite, f: nat)
    requires FoldedFrom(front, merged, f)
    ensures FoldedFrom(front + [s], if s.name == merged.name then Fold(merged, s) else merged, f)
  {
    FirstInFront(front, s, merged.name, f);
    CasesNamedLater(front, s, merged.name, f);
    if s.name == merged.name {
      FoldedMore(merged.children, front[f].children, CasesNamed(front[f + 1..], merged.name), Cases(s.children));
    }
  }

  lemma NewName(front: seq<Suite>, name: string, e: nat)
    requires IndexOf(MergeSuites(front), name).None? && e < |front|
    ensures front[e].name != name
  {
    var merged := MergeSuites(front);
    IndexOfFinds(merged, name);
    MergedNames(front);
    var j :| 0 <= j < |merged| && merged[j].name == front[e].name;
  }

  lemma NewIsFirst(front: seq<Suite>, s: Suite)
    requires forall e | 0 <= e < |front| :: front[e].name != s.name
    ensures FirstCalled(front + [s], s.name, |front|)
  {
  }

  lemma NoneLater(suites: seq<Suite>, name: string, children: seq<Child>)
    ensures children + AsChildren(CasesNamed(suites[|suites|..], name)) == children
  {
    assert suites[|suites|..] == [] && AsChildren([]) == [];
  }

  lemma FoldedAlone(front: seq<Suite>, s: Suite)
    requires forall e | 0 <= e < |front| :: front[e].name != s.name
    ensures FoldedFrom(front + [s], s, |front|)
  {
    var suites := front + [s];
    NewIsFirst(front, s);
    NoneLater(suites, s.name, s.children);
    assert suites[|front|] == s && |front| + 1 == |suites|;
  }

  lemma FoldedNew(front: seq<Suite>, s: Suite)
    requires IndexOf(MergeSuites(front), s.name).None?
    ensures FoldedFrom(front + [s], s, |front|)
  {
    forall e | 0 <= e < |front| ensures front[e].name != s.name {
      NewName(front, s.name, e);
    }
    FoldedAlone(front, s);
  }

  /** A merged suite is folded from all suites of its name, the first of them first. */
  lemma {:induction false} MergedIsFolded(suites: seq<Suite>, i: nat) returns (f: nat)
    requires i < |MergeSuites(suites)|
    ensures FoldedFrom(suites, MergeSuites(suites)[i], f)
    decreases |suites|
  {
    var front, s := suites[..|suites| - 1], suites[|suites| - 1];
    var before := MergeSuites(front);
    assert suites == front + [s];
    IndexOfFinds(before, s.name);
    if i < |before| {
      f := MergedIsFolded(front, i);
      FoldedSnoc(front, s, before[i], f);
      MergedNames(front);
    } else {
      FoldedNew(front, s);
      f := |front|;
    }
  }

  lemma FirstUnique(suites: seq<Suite>, name: string, f: int, g: int)
    requires FirstCalled(suites, name, f) && FirstCalled(suites, name, g)
    ensures f == g
  {
  }

  lemma MergedName(front: seq<Suite>, s: Suite, i: nat)
    requires i < |MergeSuites(front + [s])|
    ensures i < |MergeSuites(front)| ==> MergeSuites(front + [s])[i].name == MergeSuites(front)[i].name
    ensures i >= |MergeSuites(front)| ==>
              i == |MergeSuites(front)| && MergeSuites(front + [s])[i] == s && IndexOf(MergeSuites(front), s.name).None?
  {
    MergeSnoc(front, s);
    IndexOfFinds(MergeSuites(front), s.name);
  }

  /** Merged suites stand in the order in which their names first appear. */
  lemma {:induction false} MergedOrder(suites: seq<Suite>, i: nat, j: nat, f: nat, g: nat)
    requires i < j < |MergeSuites(suites)|
    requires FirstCalled(suites, MergeSuites(suites)[i].name, f) && FirstCalled(suites, MergeSuites(suites)[j].name, g)
    ensures f < g
    decreases |suites|
  {
    var front, s := suites[..|suites| - 1], suites[|suites| - 1];
    var before := MergeSuites(front);
    assert suites == front + [s];
    MergedName(front, s, i);
    MergedName(front, s, j);
    var e := MergedIsFolded(front, i);
    FirstInFront(front, s, before[i].name, e);
    FirstUnique(suites, before[i].name, e, f);
    if j < |before| {
      var h := MergedIsFolded(front, j);
      FirstInFront(front, s, before[j].name, h);
      FirstUnique(suites, before[j].name, h, g);
      MergedOrder(front, i, j, e, h);
    } else {
      FoldedNew(front, s);
      FirstUnique(suites, s.name, |front|, g);
    }
  }

  /** A suite of the report whose name first comes at place `f`: without a configuration
      order it has the children of that suite and then the testcases of the later ones;
      with one, that suite's other children and then all testcases of the name, by the
      rank of their names in the order, and within a rank as they came. */
  ghost predicate Arranged(suites: seq<Suite>, order: seq<string>, s: Suite, f: nat) {
    && FirstCalled(suites, s.name, f)
    && (order == [] ==>
          && s.children == suites[f].children + AsChildren(CasesNamed(suites[f + 1..], s.name))
          && Cases(s.children) == CasesNamed(suites, s.name))
    && (order != [] ==>
          && s.children == Others(suites[f].children) + AsChildren(Cases(s.children))
          && SortedBy(Cases(s.children), CaseRank(order))
          && forall rank: nat :: Filter(Cases(s.children), WithKey(CaseRank(order), rank))
                                 == Filter(CasesNamed(suites, s.name), WithKey(CaseRank(order), rank)))
  }

  lemma FoldedOthers(suites: seq<Suite>, merged: Suite, f: nat)
    requires FoldedFrom(suites, merged, f)
    ensures Others(merged.children) == Others(suites[f].children)
  {
    var more := CasesNamed(suites[f + 1..], merged.name);
    ChildrenConcat(suites[f].children, AsChildren(more));
    CasesOfCases(more);
  }

  lemma SortedIsArranged(suites: seq<Suite>, order: seq<string>, merged: Suite, f: nat)
    requires FoldedFrom(suites, merged, f) && Cases(merged.children) == CasesNamed(suites, merged.name) && order != []
    ensures Arranged(suites, order, merged.(children := SortedChildren(merged.children, order)), f)
  {
    FoldedOthers(suites, merged, f);
    forall rank: nat
      ensures var s := SortedChildren(merged.children, order);
              && s == Others(merged.children) + AsChildren(Cases(s)) && SortedBy(Cases(s), CaseRank(order))
              && Filter(Cases(s), WithKey(CaseRank(order), rank))
                 == Filter(Cases(merged.children), WithKey(CaseRank(order), rank))
    {
      SortedChildrenCorrect(merged.children, order, rank);
    }
    SortedChildrenCorrect(merged.children, order, 0);
  }

  lemma MergedIsArranged(suites: seq<Suite>, order: seq<string>, i: nat) returns (f: nat)
    requires i < |MergeSuites(suites)|
    ensures var m := MergeSuites(suites)[i];
            Arranged(suites, order,
                     if order == [] then m else m.(children := SortedChildren(m.children, order)), f)
  {
    MergedNames(suites);
    NamedUnique(MergeSuites(suites), i);
    var merged := MergeSuites(suites)[i];
    MergeKeepsNamed(suites, merged.name);
    f := MergedIsFolded(suites, i);
    if order != [] {
      SortedIsArranged(suites, order, merged, f);
    }
  }

  /** Every suite of the report is arranged so, and suites come in the order in which
      their names first appear in the files. */
  lemma ReportIsInOrder(files: seq<Option<XmlFile>>, order: seq<string>, i: nat)
    requires i < |MergeReport(files, order)|
    ensures exists f: nat :: Arranged(AllSuites(files), order, MergeReport(files, order)[i], f)
    ensures forall j, f: nat, g: nat | i < j < |MergeReport(files, order)|
              && FirstCalled(AllSuites(files), MergeReport(files, order)[i].name, f)
              && FirstCalled(AllSuites(files), MergeReport(files, order)[j].name, g) :: f < g
  {
    var all, r := AllSuites(files), MergeReport(files, order);
    var first := MergedIsArranged(all, order, i);
    assert Arranged(all, order, r[i], first);
    forall j, f: nat, g: nat | i < j < |r| && FirstCalled(all, r[i].name, f) && FirstCalled(all, r[j].name, g)
      ensures f < g
    {
      MergedOrder(all, i, j, f, g);
    }
  }

  lemma CaseReachesReport(files: seq<Option<XmlFile>>, order: seq<string>, f: nat, s: nat, c: Case)
    requires f < |files| && s < |SuitesOf(files[f])| && c in Cases(SuitesOf(files[f])[s].children)
    ensures c in AllCases(MergeReport(files, order))
  {
    CaseInAllSuites(files, f, s, c);
    ReportIsComplete(files, order);
  }

  /** The file has the testcase in a suite at its top. */
  predicate HoldsCase(file: Option<XmlFile>, c: Case) {
    match file
    case Some(Testsuites(suites)) => exists s :: 0 <= s < |suites| && CaseChild(c) in suites[s].children
    case Some(Testsuite(suite)) => CaseChild(c) in suite.children
    case _ => false
  }

  lemma {:induction false} CaseIff(children: seq<Child>, c: Case)
    ensures c in Cases(children) <==> CaseChild(c) in children
    decreases |children|
  {
    if children != [] {
      CaseIff(children[..|children| - 1], c);
      assert children == children[..|children| - 1] + [children[|children| - 1]];
    }
  }

  lemma {:induction false} SumHas(bags: seq<multiset<Case>>, c: Case)
    ensures c in Sum(bags) <==> exists i :: 0 <= i < |bags| && c in bags[i]
    decreases |bags|
  {
    if bags != [] {
      SumHas(bags[..|bags| - 1], c);
    }
  }

  lemma HoldsCaseIff(file: Option<XmlFile>, c: Case)
    ensures HoldsCase(file, c) <==> c in AllCases(SuitesOf(file))
  {
    var suites := SuitesOf(file);
    SumHas(Bags(suites), c);
    forall s | 0 <= s < |suites| ensures c in Bags(suites)[s] <==> CaseChild(c) in suites[s].children {
      CaseIff(suites[s].children, c);
    }
    if file.Some? && file.value.Testsuite? {
      assert Bags(suites)[0] == CaseBag(suites[0].children);
    }
  }

  predicate SomeHolds(files: seq<Option<XmlFile>>, c: Case) {
    exists f :: 0 <= f < |files| && HoldsCase(files[f], c)
  }

  lemma SomeHoldsSnoc(front: seq<Option<XmlFile>>, last: Option<XmlFile>, c: Case)
    ensures SomeHolds(front + [last], c) <==> SomeHolds(front, c) || HoldsCase(last, c)
  {
    var files := front + [last];
    assert files[|front|] == last;
    assert forall f | 0 <= f < |front| :: files[f] == front[f];
  }

  lemma {:induction false} CaseInFilesIff(files: seq<Option<XmlFile>>, c: Case)
    ensures c in AllCases(AllSuites(files)) <==> SomeHolds(files, c)
    decreases |files|
  {
    if files != [] {
      var front, last := files[..|files| - 1], files[|files| - 1];
      assert files == front + [last];
      CaseInFilesIff(front, c);
      AllCasesConcat(AllSuites(front), SuitesOf(last));
      HoldsCaseIff(last, c);
      SomeHoldsSnoc(front, last, c);
    }
  }

  /** A testcase is in the report exactly when some file that can be read has it in a
      suite at its top. */
  lemma CaseInReportIff(files: seq<Option<XmlFile>>, order: seq<string>, c: Case)
    ensures c in AllCases(MergeReport(files, order)) <==> SomeHolds(files, c)
  {
    ReportIsComplete(files, order);
    CaseInFilesIff(files, c);
  }

  lemma AllCasesConcat(a: seq<Suite>, b: seq<Suite>)
    ensures AllCases(a + b) == AllCases(a) + AllCases(b)
  {
    assert Bags(a + b) == Bags(a) + Bags(b);
    SumConcat(Bags(a), Bags(b));
  }

  lemma CaseInSuites(suites: seq<Suite>, s: nat, c: Case)
    requires s < |suites| && c in Cases(suites[s].children)
    ensures c in AllCases(suites)
  {
    assert Bags(suites)[s] == CaseBag(suites[s].children);
    InSum(Bags(suites), s, c);
  }

  lemma {:induction false} CaseInAllSuites(files: seq<Option<XmlFile>>, f: nat, s: nat, c: Case)
    requires f < |files| && s < |SuitesOf(files[f])| && c in Cases(SuitesOf(files[f])[s].children)
    ensures c in AllCases(AllSuites(files))
    decreases |files|
  {
    var front, last := files[..|files| - 1], files[|files| - 1];
    AllCasesConcat(AllSuites(front), SuitesOf(last));
    if f < |files| - 1 {
      assert front[f] == files[f];
      CaseInAllSuites(front, f, s, c);
    } else {
      CaseInSuites(SuitesOf(last), s, c);
    }
  }

  // ---- The report being built ----

  /** The table leads from every name to its suite. */
  predicate TableOk(suites: seq<Suite>, byName: map<string, nat>) {
    && DistinctNames(suites)
    && (forall name | name in byName :: byName[name] < |suites| && suites[byName[name]].name == name)
    && (forall i | 0 <= i < |suites| :: suites[i].name in byName)
  }

  lemma TableFinds(suites: seq<Suite>, byName: map<string, nat>, name: string)
    requires TableOk(suites, byName)
    ensures IndexOf(suites, name) == if name in byName then Some(byName[name]) else None
  {
    IndexOfFinds(suites, name);
  }

  lemma TableGrows(suites: seq<Suite>, byName: map<string, nat>, s: Suite)
    requires TableOk(suites, byName) && s.name !in byName
    ensures TableOk(suites + [s], byName[s.name := |suites|])
  {
  }

  lemma TableKeeps(suites: seq<Suite>, byName: map<string, nat>, i: nat, s: Suite)
    requires TableOk(suites, byName) && i < |suites| && s.name == suites[i].name
    ensures TableOk(suites[i := s], byName)
  {
  }

  class Merger {
    var suites: seq<Suite>
    var byName: map<string, nat>

    /** The lookup table knows every suite of the report by its name. */
    ghost predicate Valid()
      reads this
    {
      TableOk(suites, byName)
    }

    constructor ()
      ensures Valid() && suites == []
    {
      suites := [];
      byName := map[];
    }

    /** `_fold_suite`: append the source's testcases one by one, then add its counters. */
    method FoldSuite(i: nat, source: Suite)
      requires i < |suites|
      modifies this`suites
      ensures suites == old(suites)[i := Fold(old(suites)[i], source)]
    {
      var cases := Cases(source.children);
      ghost var target := suites[i];
      var n := 0;
      assert target.children + AsChildren(cases[..0]) == target.children;
      while n < |cases|
        invariant 0 <= n <= |cases|
        invariant suites == old(suites)[i := target.(children := target.children + AsChildren(cases[..n]))]
      {
        suites := suites[i := suites[i].(children := suites[i].children + [CaseChild(cases[n])])];
        assert AsChildren(cases[..n + 1]) == AsChildren(cases[..n]) + [CaseChild(cases[n])];
        assert target.children + AsChildren(cases[..n + 1])
               == (target.children + AsChildren(cases[..n])) + [CaseChild(cases[n])];
        n := n + 1;
      }
      assert cases[..n] == cases;
      suites := suites[i := suites[i].(counters := Add(suites[i].counters, source.counters))];
    }

    method AddOneSuite(s: Suite, ghost before: seq<Suite>)
      requires Valid() && suites == MergeSuites(before)
      modifies this
      ensures Valid() && suites == MergeSuites(before + [s])
    {
      MergeSnoc(before, s);
      TableFinds(suites, byName, s.name);
      if s.name in byName {
        var i := byName[s.name];
        TableKeeps(suites, byName, i, Fold(suites[i], s));
        FoldSuite(i, s);
      } else {
        TableGrows(suites, byName, s);
        byName := byName[s.name := |suites|];
        suites := suites + [s];
      }
    }

    /** `_sort_suite_testcases`. */
    method SortSuiteTestcases(i: nat, order: seq<string>)
      requires i < |suites|
      modifies this`suites
      ensures suites == old(suites)[i := old(suites)[i].(children := SortedChildren(old(suites)[i].children, order))]
    {
      var sorted := StableSort(Cases(suites[i].children), CaseRank(order));
      StableSortCorrect(Cases(suites[i].children), CaseRank(order), 0);
      RemoveAndAppend(i, sorted);
    }

    /** Its loop: each testcase in turn leaves its place and goes to the end. */
    method RemoveAndAppend(i: nat, sorted: seq<Case>)
      requires i < |suites| && multiset(sorted) == CaseBag(suites[i].children)
      modifies this`suites
      ensures suites
              == old(suites)[i := old(suites)[i].(children := Others(old(suites)[i].children) + AsChildren(sorted))]
    {
      ghost var suite := suites[i];
      ghost var rest, now := suite.children, suite.children;
      var n := 0;
      assert rest + AsChildren(sorted[..0]) == rest && sorted[0..] == sorted;
      while n < |sorted|
        invariant 0 <= n <= |sorted|
        invariant suites == old(suites)[i := suite.(children := now)]
        invariant now == rest + AsChildren(sorted[..n])
        invariant Others(rest) == Others(suite.children) && CaseBag(rest) == multiset(sorted[n..])
      {
        var x := CaseChild(sorted[n]);
        MoveToEnd(rest, sorted, n);
        suites := suites[i := suites[i].(children := RemoveFirst(suites[i].children, x) + [x])];
        now, rest := RemoveFirst(now, x) + [x], RemoveFirst(rest, x);
        n := n + 1;
      }
      AllMoved(rest, sorted, n);
    }

    /** `_merge_junit_xmls`: missing and unparseable files are passed over. */
    method MergeJunitXmls(files: seq<Option<XmlFile>>, order: seq<string>)
      requires Valid() && suites == []
      modifies this
      ensures Valid() && suites == MergeReport(files, order)
    {
      var f := 0;
      while f < |files|
        invariant 0 <= f <= |files| && Valid()
        invariant suites == MergeSuites(AllSuites(files[..f]))
      {
        AddFile(AllSuites(files[..f]), SuitesOf(files[f]));
        assert files[..f + 1][..f] == files[..f];
        f := f + 1;
      }
      assert files[..f] == files;
      if order != [] {
        SortAll(order);
      }
    }

    method AddFile(ghost before: seq<Suite>, more: seq<Suite>)
      requires Valid() && suites == MergeSuites(before)
      modifies this
      ensures Valid() && suites == MergeSuites(before + more)
    {
      var n := 0;
      ghost var taken := before;
      while n < |more|
        invariant 0 <= n <= |more| && taken + more[n..] == before + more
        invariant Valid() && suites == MergeSuites(taken)
      {
        AddOneSuite(more[n], taken);
        TakeNext(taken, more, n);
        taken := taken + [more[n]];
        n := n + 1;
      }
      assert taken == before + more;
    }

    method SortAll(order: seq<string>)
      requires Valid()
      modifies this`suites
      ensures Valid() && suites == SortSuites(old(suites), order)
    {
      var n := 0;
      while n < |suites|
        invariant 0 <= n <= |suites| == |old(suites)|
        invariant forall i | 0 <= i < |suites| ::
                    suites[i] == if i < n then SortSuites(old(suites), order)[i] else old(suites)[i]
      {
        SortSuiteTestcases(n, order);
        n := n + 1;
      }
      assert suites == SortSuites(old(suites), order);
    }
  }
}
