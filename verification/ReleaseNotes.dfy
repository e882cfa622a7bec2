/** Moving pull requests onto the lines of the issues they implement. */
module ReleaseNotes {
  import opened StableOrder
  import opened Text

  datatype PrRef = PrRef(number: nat, url: string)

  // ---- Issue numbers mentioned in a text ----

  /** Length of the run of digits at the start. */
  function DigitRun(s: string): (n: nat)
    ensures n <= |s| && AllDigits(s[..n]) && (n < |s| ==> !IsDigit(s[n]))
  {
    if s == "" || !IsDigit(s[0]) then 0
    else
      var n := 1 + DigitRun(s[1..]);
      assert forall i | 0 < i < n :: s[i] == s[1..][..n - 1][i - 1];
      n
  }

  /** Matches of `#` and digits, left to right without overlap. */
  function References(s: string): seq<nat> {
    if s == "" then []
    else if s[0] == '#' && DigitRun(s[1..]) > 0 then
      var n := DigitRun(s[1..]);
      [Number(s[1..][..n])] + References(s[1 + n..])
    else References(s[1..])
  }

  /** A `#` at `i` with digits up to `j` and no further. */
  predicate ReferenceAt(s: string, i: nat, j: nat, number: nat) {
    && i + 1 < j <= |s| && s[i] == '#' && AllDigits(s[i + 1..j]) && (j < |s| ==> !IsDigit(s[j]))
    && Number(s[i + 1..j]) == number
  }

  lemma ReferenceShift(s: string, k: nat, i: nat, j: nat, number: nat)
    requires k <= i && k <= |s|
    ensures ReferenceAt(s, i, j, number) <==> j >= k && ReferenceAt(s[k..], i - k, j - k, number)
  {
    if j >= k && i + 1 < j <= |s| {
      assert s[k..][i - k + 1..j - k] == s[i + 1..j];
    }
  }

  predicate IsRun(s: string, n: nat) {
    n <= |s| && (forall i | 0 <= i < n :: IsDigit(s[i])) && (n < |s| ==> !IsDigit(s[n]))
  }

  lemma RunUnique(s: string, m: nat, n: nat)
    requires IsRun(s, m) && IsRun(s, n)
    ensures m == n
  {
  }

  lemma ReferenceAtStart(s: string, j: nat, number: nat)
    requires s != "" && ReferenceAt(s, 0, j, number)
    ensures j == 1 + DigitRun(s[1..]) && number == Number(s[1..][..j - 1])
  {
    var rest, n := s[1..], DigitRun(s[1..]);
    assert s[1..j] == rest[..j - 1];
    assert forall i | 0 <= i < j - 1 :: rest[i] == s[1..j][i];
    assert forall i | 0 <= i < n :: rest[i] == rest[..n][i];
    RunUnique(rest, j - 1, n);
  }

  /** How far the scan moves on from the start. */
  function Advance(s: string): (step: nat)
    requires s != ""
    ensures 1 <= step <= |s|
  {
    if s[0] == '#' && DigitRun(s[1..]) > 0 then 1 + DigitRun(s[1..]) else 1
  }

  lemma NoneSkipped(s: string, i: nat, j: nat, number: nat)
    requires s != "" && 0 < i && ReferenceAt(s, i, j, number)
    ensures i >= Advance(s)
  {
  }

  lemma {:induction false} ReferenceListed(s: string, i: nat, j: nat, number: nat)
    requires ReferenceAt(s, i, j, number)
    ensures number in References(s)
    decreases |s|
  {
    if i == 0 {
      ReferenceAtStart(s, j, number);
    } else {
      NoneSkipped(s, i, j, number);
      ReferenceShift(s, Advance(s), i, j, number);
      ReferenceListed(s[Advance(s)..], i - Advance(s), j - Advance(s), number);
    }
  }

  lemma StartsReference(s: string)
    requires s != "" && Advance(s) > 1
    ensures ReferenceAt(s, 0, Advance(s), Number(s[1..][..Advance(s) - 1]))
  {
    var n := DigitRun(s[1..]);
    assert s[1..1 + n] == s[1..][..n];
    assert 1 + n < |s| ==> s[1 + n] == s[1..][n];
  }

  lemma ReferencesStep(s: string)
    requires s != ""
    ensures References(s)
            == (if Advance(s) > 1 then [Number(s[1..][..Advance(s) - 1])] else []) + References(s[Advance(s)..])
  {
  }

  predicate FoundFirst(s: string, number: nat)
    requires s != ""
  {
    Advance(s) > 1 && number == Number(s[1..][..Advance(s) - 1])
  }

  lemma FoundLater(s: string, number: nat)
    requires s != "" && number in References(s) && !FoundFirst(s, number)
    ensures number in References(s[Advance(s)..])
  {
    ReferencesStep(s);
  }

  lemma ReferenceLater(s: string, i: nat, j: nat, number: nat)
    requires s != "" && ReferenceAt(s[Advance(s)..], i, j, number)
    ensures ReferenceAt(s, i + Advance(s), j + Advance(s), number)
  {
    ReferenceShift(s, Advance(s), i + Advance(s), j + Advance(s), number);
  }

  lemma {:induction false} ReferenceFound(s: string, number: nat) returns (i: nat, j: nat)
    requires number in References(s)
    ensures ReferenceAt(s, i, j, number)
    decreases |s|
  {
    if FoundFirst(s, number) {
      StartsReference(s);
      return 0, Advance(s);
    }
    FoundLater(s, number);
    var k, l := ReferenceFound(s[Advance(s)..], number);
    ReferenceLater(s, k, l, number);
    return k + Advance(s), l + Advance(s);
  }

  /** The references found are exactly the maximal ones. */
  lemma ReferencesIff(s: string, number: nat)
    ensures number in References(s) <==> exists i: nat, j: nat :: ReferenceAt(s, i, j, number)
  {
    if number in References(s) {
      var i, j := ReferenceFound(s, number);
    }
    forall i: nat, j: nat | ReferenceAt(s, i, j, number) ensures number in References(s) {
      ReferenceListed(s, i, j, number);
    }
  }

  /** Insert into an ascending list without duplicates. */
  function InsertNumber(s: seq<nat>, x: nat): seq<nat> {
    if s == [] then [x]
    else if x < s[0] then [x] + s
    else if x == s[0] then s
    else [s[0]] + InsertNumber(s[1..], x)
  }

  function Ascending(numbers: seq<nat>, keep: set<nat>): seq<nat> {
    if numbers == [] then []
    else
      var rest := Ascending(numbers[..|numbers| - 1], keep);
      if numbers[|numbers| - 1] in keep then InsertNumber(rest, numbers[|numbers| - 1]) else rest
  }

  predicate StrictlyAscending(s: seq<nat>) {
    forall i, j | 0 <= i < j < |s| :: s[i] < s[j]
  }

  lemma {:induction false} InsertNumberKeeps(s: seq<nat>, x: nat)
    requires StrictlyAscending(s)
    ensures StrictlyAscending(InsertNumber(s, x))
    ensures forall y :: y in InsertNumber(s, x) <==> y in s || y == x
  {
    if s != [] {
      var tail := s[1..];
      assert s == [s[0]] + tail;
      if x > s[0] {
        InsertNumberKeeps(tail, x);
        var r := InsertNumber(tail, x);
        forall i | 0 <= i < |r| ensures s[0] < r[i] {
          assert r[i] in r;
        }
      }
    }
  }

  lemma {:induction false} AscendingCorrect(numbers: seq<nat>, keep: set<nat>)
    ensures StrictlyAscending(Ascending(numbers, keep))
    ensures forall y :: y in Ascending(numbers, keep) <==> y in numbers && y in keep
    decreases |numbers|
  {
    if numbers != [] {
      var front, last := numbers[..|numbers| - 1], numbers[|numbers| - 1];
      AscendingCorrect(front, keep);
      InsertNumberKeeps(Ascending(front, keep), last);
      assert numbers == front + [last];
    }
  }

  /** `_mentioned_issue_numbers`. */
  function Mentions(body: string, issueNumbers: set<nat>): seq<nat> {
    Ascending(References(body), issueNumbers)
  }

  /** The milestone's issues referenced in a body, each once, in ascending order. */
  lemma MentionsCorrect(body: string, issueNumbers: set<nat>)
    ensures StrictlyAscending(Mentions(body, issueNumbers))
    ensures forall n :: n in Mentions(body, issueNumbers) <==>
                        n in issueNumbers && exists i: nat, j: nat :: ReferenceAt(body, i, j, n)
  {
    AscendingCorrect(References(body), issueNumbers);
    forall n ensures n in References(body) <==> exists i: nat, j: nat :: ReferenceAt(body, i, j, n) {
      ReferencesIff(body, n);
    }
  }

  // ---- Linking ----

  /** An issue or pull request of the milestone; only the list of closing pull
      requests changes. */
  class Item {
    const number: nat
    const url: string
    const isPr: bool
    const merged: bool
    const body: string
    var closingPrs: seq<PrRef>

    constructor (number: nat, url: string, isPr: bool, merged: bool, body: string)
      ensures this.number == number && this.url == url && this.isPr == isPr
              && this.merged == merged && this.body == body
      ensures closingPrs == []
    {
      this.number, this.url, this.isPr, this.merged, this.body := number, url, isPr, merged, body;
      closingPrs := [];
    }
  }

  type Closing = map<nat, seq<PrRef>>

  predicate DistinctNumbers(items: seq<Item>) {
    forall i, j | 0 <= i < j < |items| :: items[i].number != items[j].number
  }

  predicate IsIssue(items: seq<Item>, i: int) {
    0 <= i < |items| && !items[i].isPr
  }

  function IssueNumbers(items: seq<Item>): set<nat> {
    set i | 0 <= i < |items| && !items[i].isPr :: items[i].number
  }

  /** The authoritative links of an issue. */
  function Declared(closing: Closing, number: nat): seq<PrRef> {
    if number in closing then closing[number] else []
  }

  /** Pull requests with a declared link to some issue of the milestone. */
  function DeclaredNumbers(items: seq<Item>, closing: Closing): set<nat> {
    set i, r | 0 <= i < |items| && !items[i].isPr && r in Declared(closing, items[i].number) :: r.number
  }

  /** A merged pull request without a declared link whose body mentions the issue. */
  predicate Mentioning(items: seq<Item>, closing: Closing, item: Item, number: nat) {
    && item.isPr && item.merged && item.number !in DeclaredNumbers(items, closing)
    && number in Mentions(item.body, IssueNumbers(items))
  }

  /** Links of those among the first `k` items. */
  function Mentioned(items: seq<Item>, closing: Closing, number: nat, k: nat): seq<PrRef>
    requires k <= |items|
  {
    if k == 0 then []
    else
      Mentioned(items, closing, number, k - 1)
      + if Mentioning(items, closing, items[k - 1], number) then [PrRef(items[k - 1].number, items[k - 1].url)] else []
  }

  function ByNumber(): PrRef -> nat {
    (r: PrRef) => r.number
  }

  /** The links on an issue's line. */
  function Line(items: seq<Item>, closing: Closing, number: nat): seq<PrRef> {
    StableSort(Declared(closing, number) + Mentioned(items, closing, number, |items|), ByNumber())
  }

  /** The numbers of the pull requests linked after the first `k` items. */
  function Linked(items: seq<Item>, closing: Closing, k: nat): set<nat>
    requires k <= |items|
  {
    if k == 0 then DeclaredNumbers(items, closing)
    else
      Linked(items, closing, k - 1) + if LinksSome(items, closing, items[k - 1]) then {items[k - 1].number} else {}
  }

  predicate LinksSome(items: seq<Item>, closing: Closing, item: Item) {
    && item.isPr && item.merged && item.number !in DeclaredNumbers(items, closing)
    && Mentions(item.body, IssueNumbers(items)) != []
  }

  lemma MentionsSome(items: seq<Item>, closing: Closing, item: Item)
    ensures LinksSome(items, closing, item) <==> exists n :: Mentioning(items, closing, item, n)
  {
    var mentions := Mentions(item.body, IssueNumbers(items));
    if LinksSome(items, closing, item) {
      assert Mentioning(items, closing, item, mentions[0]);
    }
  }

  function Keeps(linked: set<nat>): Item -> bool {
    (item: Item) => !(item.isPr && item.number in linked)
  }

  predicate OnLine(items: seq<Item>, closing: Closing, number: nat, pr: nat) {
    exists r :: r in Line(items, closing, number) && r.number == pr
  }

  lemma {:induction false} MentionedMembers(items: seq<Item>, closing: Closing, number: nat, k: nat, r: PrRef)
    requires k <= |items|
    ensures r in Mentioned(items, closing, number, k) <==>
            exists i :: 0 <= i < k &&
              Mentioning(items, closing, items[i], number) && r == PrRef(items[i].number, items[i].url)
    decreases k
  {
    if k > 0 {
      MentionedMembers(items, closing, number, k - 1, r);
    }
  }

  lemma LineMembers(items: seq<Item>, closing: Closing, number: nat, r: PrRef)
    ensures r in Line(items, closing, number) <==>
            r in Declared(closing, number) || r in Mentioned(items, closing, number, |items|)
  {
    var all := Declared(closing, number) + Mentioned(items, closing, number, |items|);
    StableSortCorrect(all, ByNumber(), 0);
    assert r in multiset(Line(items, closing, number)) <==> r in multiset(all);
  }

  lemma {:induction false} LinkedMembers(items: seq<Item>, closing: Closing, k: nat, pr: nat)
    requires k <= |items|
    ensures pr in Linked(items, closing, k) <==>
            pr in DeclaredNumbers(items, closing)
            || exists i, n :: 0 <= i < k && Mentioning(items, closing, items[i], n) && items[i].number == pr
    decreases k
  {
    if k > 0 {
      LinkedMembers(items, closing, k - 1, pr);
      MentionsSome(items, closing, items[k - 1]);
    }
  }

  /** A pull request is linked exactly when its number is on some issue's line. */
  lemma LinkedIffOnLine(items: seq<Item>, closing: Closing, pr: nat)
    ensures pr in Linked(items, closing, |items|) <==>
            exists i :: IsIssue(items, i) && OnLine(items, closing, items[i].number, pr)
  {
    LinkedMembers(items, closing, |items|, pr);
    if pr in DeclaredNumbers(items, closing) {
      var i, r :| 0 <= i < |items| && !items[i].isPr && r in Declared(closing, items[i].number) && r.number == pr;
      LineMembers(items, closing, items[i].number, r);
      assert IsIssue(items, i) && OnLine(items, closing, items[i].number, pr);
    } else if pr in Linked(items, closing, |items|) {
      var k, n :| 0 <= k < |items| && Mentioning(items, closing, items[k], n) && items[k].number == pr;
      MentionsCorrect(items[k].body, IssueNumbers(items));
      assert n in IssueNumbers(items);
      var i :| 0 <= i < |items| && !items[i].isPr && items[i].number == n;
      var r := PrRef(pr, items[k].url);
      MentionedMembers(items, closing, n, |items|, r);
      LineMembers(items, closing, n, r);
      assert IsIssue(items, i) && OnLine(items, closing, items[i].number, pr);
    }
    forall i | IsIssue(items, i) && OnLine(items, closing, items[i].number, pr)
      ensures pr in Linked(items, closing, |items|)
    {
      var r :| r in Line(items, closing, items[i].number) && r.number == pr;
      LineMembers(items, closing, items[i].number, r);
      MentionedMembers(items, closing, items[i].number, |items|, r);
    }
  }

  // ---- The lines, said of the closing links and the bodies alone ----

  ghost predicate RefersTo(body: string, number: nat) {
    exists i: nat, j: nat :: ReferenceAt(body, i, j, number)
  }

  /** The pull request is in the closing list of some issue of the milestone. */
  ghost predicate HasClosingLink(items: seq<Item>, closing: Closing, pr: nat) {
    exists i, r :: 0 <= i < |items| && ClosesIssue(closing, items[i], r) && r.number == pr
  }

  predicate ClosesIssue(closing: Closing, issue: Item, r: PrRef) {
    !issue.isPr && issue.number in closing && r in closing[issue.number]
  }

  /** A merged pull request in no closing list whose body refers to the issue. */
  ghost predicate RefersOnly(items: seq<Item>, closing: Closing, item: Item, number: nat) {
    item.isPr && item.merged && !HasClosingLink(items, closing, item.number) && RefersTo(item.body, number)
  }

  ghost predicate Referring(items: seq<Item>, closing: Closing, number: nat, r: PrRef) {
    exists k :: 0 <= k < |items| && RefersOnly(items, closing, items[k], number)
                && r == PrRef(items[k].number, items[k].url)
  }

  lemma MentioningIff(items: seq<Item>, closing: Closing, i: int, item: Item)
    requires IsIssue(items, i)
    ensures Mentioning(items, closing, item, items[i].number) <==> RefersOnly(items, closing, item, items[i].number)
  {
    MentionsCorrect(item.body, IssueNumbers(items));
    assert items[i].number in IssueNumbers(items);
    if item.number in DeclaredNumbers(items, closing) {
      var k, r :| 0 <= k < |items| && !items[k].isPr && r in Declared(closing, items[k].number)
                  && r.number == item.number;
      assert ClosesIssue(closing, items[k], r);
    }
  }

  /** Exactly what is on an issue's line: its closing list, and the merged pull requests
      in no closing list whose body refers to it. */
  lemma LineIff(items: seq<Item>, closing: Closing, i: int, r: PrRef)
    requires IsIssue(items, i)
    ensures var n := items[i].number;
            r in Line(items, closing, n) <==> (n in closing && r in closing[n]) || Referring(items, closing, n, r)
  {
    var n := items[i].number;
    LineMembers(items, closing, n, r);
    MentionedMembers(items, closing, n, |items|, r);
    forall k | 0 <= k < |items|
      ensures Mentioning(items, closing, items[k], n) <==> RefersOnly(items, closing, items[k], n)
    {
      MentioningIff(items, closing, i, items[k]);
    }
  }

  lemma LineKeepsClosing(items: seq<Item>, closing: Closing, number: nat)
    requires number in closing
    ensures multiset(closing[number]) <= multiset(Line(items, closing, number))
  {
    LineSorted(items, closing, number, 0);
  }

  /** And how often, and in which order: a pull request of some closing list is there as
      often and as ordered as in the issue's own, any other at most once. */
  lemma LineOfNumber(items: seq<Item>, closing: Closing, i: int, pr: nat)
    requires DistinctNumbers(items) && IsIssue(items, i)
    ensures var n := items[i].number;
            var refs := Filter(Line(items, closing, n), WithKey(ByNumber(), pr));
            if HasClosingLink(items, closing, pr)
            then refs == Filter(if n in closing then closing[n] else [], WithKey(ByNumber(), pr))
            else |refs| <= 1
  {
    var n, p := items[i].number, WithKey(ByNumber(), pr);
    var own, others := Declared(closing, n), Mentioned(items, closing, n, |items|);
    LineSorted(items, closing, n, pr);
    FilterConcat(own, others, p);
    if HasClosingLink(items, closing, pr) {
      forall r | r in others ensures r.number != pr {
        if r.number == pr {
          NotReferring(items, closing, i, r);
        }
      }
      NoneOfNumber(others, pr);
    } else {
      MentionedOnce(items, closing, n, |items|, pr);
      forall r | r in own ensures r.number != pr {
        assert ClosesIssue(closing, items[i], r);
      }
      NoneOfNumber(own, pr);
    }
  }

  lemma {:induction false} NoneOfNumber(refs: seq<PrRef>, pr: nat)
    requires forall r | r in refs :: r.number != pr
    ensures Filter(refs, WithKey(ByNumber(), pr)) == []
    decreases |refs|
  {
    if refs != [] {
      NoneOfNumber(refs[..|refs| - 1], pr);
    }
  }

  lemma NotReferring(items: seq<Item>, closing: Closing, i: int, r: PrRef)
    requires IsIssue(items, i) && HasClosingLink(items, closing, r.number)
    ensures r !in Mentioned(items, closing, items[i].number, |items|)
  {
    MentionedMembers(items, closing, items[i].number, |items|, r);
    forall k | 0 <= k < |items| && items[k].number == r.number
      ensures !Mentioning(items, closing, items[k], items[i].number)
    {
      MentioningIff(items, closing, i, items[k]);
    }
  }

  // ---- The in-place algorithm ----

  /** The issues by number. */
  predicate ByNumberTable(items: seq<Item>, table: map<nat, Item>, k: nat)
    requires k <= |items|
  {
    && (forall i | 0 <= i < k && !items[i].isPr :: items[i].number in table && table[items[i].number] == items[i])
    && (forall n | n in table :: table[n] in items[..k] && !table[n].isPr && table[n].number == n)
  }

  method IssuesByNumber(items: seq<Item>) returns (table: map<nat, Item>)
    requires DistinctNumbers(items)
    ensures ByNumberTable(items, table, |items|) && table.Keys == IssueNumbers(items)
  {
    table := map[];
    var k := 0;
    while k < |items|
      invariant 0 <= k <= |items| && ByNumberTable(items, table, k)
    {
      if !items[k].isPr {
        table := table[items[k].number := items[k]];
      }
      assert items[..k + 1] == items[..k] + [items[k]];
      k := k + 1;
    }
    assert items[..k] == items;
    forall n ensures n in table.Keys <==> n in IssueNumbers(items) {
    }
  }

  /** Every issue has these links on its line. */
  ghost predicate Lines(items: seq<Item>, line: nat -> seq<PrRef>)
    reads items
  {
    forall i | IsIssue(items, i) :: items[i].closingPrs == line(items[i].number)
  }

  function DeclaredLine(closing: Closing): nat -> seq<PrRef> {
    (n: nat) => Declared(closing, n)
  }

  function LineAfter(items: seq<Item>, closing: Closing, k: nat): nat -> seq<PrRef>
    requires k <= |items|
  {
    (n: nat) => Declared(closing, n) + Mentioned(items, closing, n, k)
  }

  method SetDeclared(items: seq<Item>, closing: Closing)
    requires DistinctNumbers(items)
    modifies set i | IsIssue(items, i) :: items[i]
    ensures Lines(items, DeclaredLine(closing))
  {
    var k := 0;
    while k < |items|
      invariant 0 <= k <= |items|
      invariant forall i | 0 <= i < k && !items[i].isPr :: items[i].closingPrs == Declared(closing, items[i].number)
    {
      if !items[k].isPr {
        items[k].closingPrs := Declared(closing, items[k].number);
      }
      k := k + 1;
    }
  }

  function Extended(line: nat -> seq<PrRef>, numbers: seq<nat>, ref: PrRef): nat -> seq<PrRef> {
    (n: nat) => line(n) + if n in numbers then [ref] else []
  }

  /** Append a reference to the line of each of these issues. */
  method AppendTo(items: seq<Item>, table: map<nat, Item>, numbers: seq<nat>, ref: PrRef, ghost line: nat -> seq<PrRef>)
    requires DistinctNumbers(items) && ByNumberTable(items, table, |items|) && Lines(items, line)
    requires StrictlyAscending(numbers) && forall n | n in numbers :: n in table
    modifies set i | IsIssue(items, i) :: items[i]
    ensures Lines(items, Extended(line, numbers, ref))
  {
    assert items[..|items|] == items;
    var m := 0;
    while m < |numbers|
      invariant 0 <= m <= |numbers| && Lines(items, Extended(line, numbers[..m], ref))
    {
      var issue := table[numbers[m]];
      assert issue in items;
      issue.closingPrs := issue.closingPrs + [ref];
      assert numbers[..m + 1] == numbers[..m] + [numbers[m]];
      forall i | IsIssue(items, i)
        ensures items[i].closingPrs == Extended(line, numbers[..m + 1], ref)(items[i].number)
      {
        assert items[i] == issue <==> items[i].number == numbers[m];
      }
      m := m + 1;
    }
    assert numbers[..m] == numbers;
  }

  lemma {:induction false} LaterNotLinked(items: seq<Item>, closing: Closing, k: nat, j: nat)
    requires DistinctNumbers(items) && k <= j < |items| && items[j].isPr
    ensures items[j].number in Linked(items, closing, k) <==> items[j].number in DeclaredNumbers(items, closing)
    decreases k
  {
    if k > 0 {
      LaterNotLinked(items, closing, k - 1, j);
    }
  }

  lemma SkipsLine(items: seq<Item>, closing: Closing, k: nat)
    requires k < |items| && !LinksSome(items, closing, items[k]) && Lines(items, LineAfter(items, closing, k))
    ensures Lines(items, LineAfter(items, closing, k + 1))
  {
  }

  lemma TakesLine(items: seq<Item>, closing: Closing, k: nat, numbers: seq<nat>, ref: PrRef)
    requires k < |items| && LinksSome(items, closing, items[k])
    requires numbers == Mentions(items[k].body, IssueNumbers(items)) && ref == PrRef(items[k].number, items[k].url)
    requires Lines(items, Extended(LineAfter(items, closing, k), numbers, ref))
    ensures Lines(items, LineAfter(items, closing, k + 1))
  {
  }

  /** One item of the loop over the body mentions. */
  method LinkMention(items: seq<Item>, closing: Closing, table: map<nat, Item>, k: nat, before: set<nat>)
    returns (linked: set<nat>)
    requires DistinctNumbers(items) && ByNumberTable(items, table, |items|) && table.Keys == IssueNumbers(items)
    requires k < |items| && before == Linked(items, closing, k) && Lines(items, LineAfter(items, closing, k))
    modifies set i | IsIssue(items, i) :: items[i]
    ensures linked == Linked(items, closing, k + 1) && Lines(items, LineAfter(items, closing, k + 1))
  {
    linked := before;
    var item := items[k];
    if !item.isPr {
      SkipsLine(items, closing, k);
      return;
    }
    LaterNotLinked(items, closing, k, k);
    if item.merged && item.number !in linked {
      var numbers := Mentions(item.body, table.Keys);
      MentionsCorrect(item.body, table.Keys);
      if numbers != [] {
        var ref := PrRef(item.number, item.url);
        AppendTo(items, table, numbers, ref, LineAfter(items, closing, k));
        TakesLine(items, closing, k, numbers, ref);
        linked := linked + {item.number};
        return;
      }
    }
    SkipsLine(items, closing, k);
  }

  /** The loop over the body mentions. */
  method LinkMentions(items: seq<Item>, closing: Closing, table: map<nat, Item>, declared: set<nat>)
    returns (linked: set<nat>)
    requires DistinctNumbers(items) && ByNumberTable(items, table, |items|) && table.Keys == IssueNumbers(items)
    requires declared == DeclaredNumbers(items, closing) && Lines(items, DeclaredLine(closing))
    modifies set i | IsIssue(items, i) :: items[i]
    ensures linked == Linked(items, closing, |items|) && Lines(items, LineAfter(items, closing, |items|))
  {
    linked := declared;
    forall i | IsIssue(items, i) ensures items[i].closingPrs == LineAfter(items, closing, 0)(items[i].number) {
      assert Declared(closing, items[i].number) + [] == Declared(closing, items[i].number);
    }
    var k := 0;
    while k < |items|
      invariant 0 <= k <= |items| && linked == Linked(items, closing, k)
      invariant Lines(items, LineAfter(items, closing, k))
    {
      linked := LinkMention(items, closing, table, k, linked);
      k := k + 1;
    }
  }

  method SortLines(items: seq<Item>, ghost line: nat -> seq<PrRef>)
    requires DistinctNumbers(items) && Lines(items, line)
    modifies set i | IsIssue(items, i) :: items[i]
    ensures Lines(items, (n: nat) => StableSort(line(n), ByNumber()))
  {
    var k := 0;
    while k < |items|
      invariant 0 <= k <= |items|
      invariant forall i | IsIssue(items, i) ::
                  items[i].closingPrs
                  == if i < k then StableSort(line(items[i].number), ByNumber()) else line(items[i].number)
    {
      if !items[k].isPr {
        items[k].closingPrs := StableSort(items[k].closingPrs, ByNumber());
      }
      k := k + 1;
    }
  }

  /** `link_prs_to_issues`. */
  method LinkPrsToIssues(items: seq<Item>, closing: Closing) returns (kept: seq<Item>)
    requires DistinctNumbers(items)
    modifies set i | IsIssue(items, i) :: items[i]
    ensures forall i | IsIssue(items, i) :: items[i].closingPrs == Line(items, closing, items[i].number)
    ensures kept == Filter(items, Keeps(Linked(items, closing, |items|)))
    ensures forall i, r | IsIssue(items, i) ::
              r in items[i].closingPrs <==>
              || (items[i].number in closing && r in closing[items[i].number])
              || Referring(items, closing, items[i].number, r)
    ensures forall i | IsIssue(items, i) && items[i].number in closing ::
              multiset(closing[items[i].number]) <= multiset(items[i].closingPrs)
    ensures forall i | IsIssue(items, i) :: SortedBy(items[i].closingPrs, ByNumber())
    ensures forall k | 0 <= k < |items| ::
              items[k] !in kept <==>
              && items[k].isPr
              && exists i, r :: IsIssue(items, i) && r in items[i].closingPrs && r.number == items[k].number
  {
    var table := IssuesByNumber(items);
    SetDeclared(items, closing);
    var declared := DeclaredNumbers(items, closing);
    var linked := LinkMentions(items, closing, table, declared);
    SortLines(items, LineAfter(items, closing, |items|));
    kept := Filter(items, Keeps(linked));
    forall i | IsIssue(items, i) && items[i].number in closing
      ensures multiset(closing[items[i].number]) <= multiset(items[i].closingPrs)
    {
      LineKeepsClosing(items, closing, items[i].number);
    }
    forall i | IsIssue(items, i) ensures SortedBy(items[i].closingPrs, ByNumber()) {
      LineSorted(items, closing, items[i].number, 0);
    }
    forall i, r | IsIssue(items, i)
      ensures r in items[i].closingPrs <==>
              || (items[i].number in closing && r in closing[items[i].number])
              || Referring(items, closing, items[i].number, r)
    {
      LineIff(items, closing, i, r);
    }
    forall k | 0 <= k < |items|
      ensures items[k] !in kept <==>
              && items[k].isPr
              && exists i, r :: IsIssue(items, i) && r in items[i].closingPrs && r.number == items[k].number
    {
      KeptIff(items, closing, k);
    }
  }

  lemma KeptIff(items: seq<Item>, closing: Closing, k: nat)
    requires k < |items|
    ensures items[k] !in Filter(items, Keeps(Linked(items, closing, |items|))) <==>
            && items[k].isPr
            && exists i, r ::
                 IsIssue(items, i) && r in Line(items, closing, items[i].number) && r.number == items[k].number
  {
    FilterMembers(items, Keeps(Linked(items, closing, |items|)));
    LinkedIffOnLine(items, closing, items[k].number);
    assert items[k] in items;
  }

  // ---- What linking keeps ----

  function Issues(): Item -> bool {
    (item: Item) => !item.isPr
  }

  /** Issues keep their order, and none is dropped. */
  lemma {:induction false} IssuesKept(items: seq<Item>, linked: set<nat>)
    ensures Filter(Filter(items, Keeps(linked)), Issues()) == Filter(items, Issues())
    decreases |items|
  {
    if items != [] {
      var front, last := items[..|items| - 1], items[|items| - 1];
      IssuesKept(front, linked);
      FilterSnoc(Filter(front, Keeps(linked)), last, Issues());
      if Keeps(linked)(last) {
        assert Filter(items, Keeps(linked)) == Filter(front, Keeps(linked)) + [last];
      } else {
        assert Filter(items, Keeps(linked)) == Filter(front, Keeps(linked));
        assert Filter(items, Issues()) == Filter(front, Issues());
      }
    }
  }

  /** A pull request is dropped exactly when its number is on the line of some kept
      issue, so none disappears. */
  lemma DroppedIff(items: seq<Item>, closing: Closing, k: nat)
    requires k < |items| && items[k].isPr
    ensures var kept := Filter(items, Keeps(Linked(items, closing, |items|)));
            items[k] !in kept <==>
            exists i ::
              IsIssue(items, i) && items[i] in kept && OnLine(items, closing, items[i].number, items[k].number)
  {
    var keeps := Keeps(Linked(items, closing, |items|));
    FilterMembers(items, keeps);
    LinkedIffOnLine(items, closing, items[k].number);
    assert items[k] in items;
    forall i | IsIssue(items, i) ensures items[i] in Filter(items, keeps) {
      assert items[i] in items;
    }
  }

  /** Each line is sorted by number, stably: a permutation of the declared links
      followed by the mentions, in their order within a number. */
  lemma LineSorted(items: seq<Item>, closing: Closing, number: nat, pr: nat)
    ensures var line, all := Line(items, closing, number),
                             Declared(closing, number) + Mentioned(items, closing, number, |items|);
            && SortedBy(line, ByNumber()) && multiset(line) == multiset(all)
            && Filter(line, WithKey(ByNumber(), pr)) == Filter(all, WithKey(ByNumber(), pr))
  {
    StableSortCorrect(Declared(closing, number) + Mentioned(items, closing, number, |items|), ByNumber(), pr);
  }

  /** A mentioning pull request is added at most once to an issue. */
  lemma {:induction false} MentionedOnce(items: seq<Item>, closing: Closing, number: nat, k: nat, pr: nat)
    requires DistinctNumbers(items) && k <= |items|
    ensures |Filter(Mentioned(items, closing, number, k), WithKey(ByNumber(), pr))| <= 1
    ensures (forall i | 0 <= i < k :: items[i].number != pr) ==>
              |Filter(Mentioned(items, closing, number, k), WithKey(ByNumber(), pr))| == 0
    decreases k
  {
    if k > 0 {
      var item, before := items[k - 1], Mentioned(items, closing, number, k - 1);
      MentionedOnce(items, closing, number, k - 1, pr);
      if Mentioning(items, closing, item, number) {
        FilterSnoc(before, PrRef(item.number, item.url), WithKey(ByNumber(), pr));
      } else {
        assert before + [] == before;
      }
    }
  }
}
