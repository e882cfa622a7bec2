/** Reading a `git describe` reference, and whether it names a release. */
module BuildRef {
  import opened Json
  import opened Text

  datatype Ref = Ref(tag: string, distance: nat, commit: string, dirty: bool)

  /** What the groups of the pattern capture. */
  datatype Groups = Groups(tag: string, digits: string, commit: string, dirty: bool)

  /** Longest numeral `int()` converts. */
  const MAX_DIGITS := 4300

  predicate IsHex(c: char) {
    IsDigit(c) || 'a' <= c <= 'f'
  }

  predicate AllHex(s: string) {
    forall i | 0 <= i < |s| :: IsHex(s[i])
  }

  const DIRTY := "-dirty"

  function Suffix(dirty: bool): string {
    if dirty then DIRTY else ""
  }

  function Printed(g: Groups): string {
    ['v'] + g.tag + ['-'] + g.digits + ['-'] + (['g'] + g.commit) + Suffix(g.dirty)
  }

  predicate Fits(g: Groups) {
    && g.tag != "" && '\n' !in g.tag
    && g.digits != "" && AllDigits(g.digits)
    && g.commit != "" && AllHex(g.commit)
  }

  /** The whole text matches the pattern with these groups. */
  predicate Matches(s: string, g: Groups) {
    Fits(g) && s == Printed(g)
  }

  function LastIndexOf(s: string, c: char): Option<nat> {
    if s == "" then None
    else if s[|s| - 1] == c then Some(|s| - 1)
    else LastIndexOf(s[..|s| - 1], c)
  }

  lemma {:induction false} LastIndexSplits(s: string, c: char)
    ensures match LastIndexOf(s, c)
            case None => c !in s
            case Some(i) => i < |s| && s == s[..i] + [c] + s[i + 1..] && c !in s[i + 1..]
  {
    if s != "" {
      var front := s[..|s| - 1];
      assert s == front + [s[|s| - 1]];
      LastIndexSplits(front, c);
      if s[|s| - 1] != c && LastIndexOf(front, c).Some? {
        var i := LastIndexOf(front, c).value;
        assert s[i + 1..] == front[i + 1..] + [s[|s| - 1]];
      }
    }
  }

  lemma LastIndexOfSplit(a: string, c: char, b: string)
    requires c !in b
    ensures LastIndexOf(a + [c] + b, c) == Some(|a|)
  {
    var s := a + [c] + b;
    LastIndexSplits(s, c);
    assert s[|a|] == c;
    var i := LastIndexOf(s, c).value;
    SplitAtLast(c, s[..i], s[i + 1..], a, b);
  }

  function SplitLast(s: string, c: char): (r: Option<(string, string)>) {
    LastIndexSplits(s, c);
    match LastIndexOf(s, c) case None => None case Some(i) => Some((s[..i], s[i + 1..]))
  }

  predicate EndsDirty(s: string) {
    |s| >= |DIRTY| && s[|s| - |DIRTY|..] == DIRTY
  }

  /** The match of the pattern, found from the end. */
  function Match(s: string): Option<Groups> {
    var dirty := EndsDirty(s);
    var body := if dirty then s[..|s| - |DIRTY|] else s;
    match SplitLast(body, '-')
    case None => None
    case Some((front, hash)) =>
      if hash == "" || hash[0] != 'g' then None
      else
        match SplitLast(front, '-')
        case None => None
        case Some((head, digits)) =>
          if head == "" || head[0] != 'v' then None
          else
            var g := Groups(head[1..], digits, hash[1..], dirty);
            if Fits(g) then Some(g) else None
  }

  lemma SplitLastIff(s: string, c: char, a: string, b: string)
    ensures SplitLast(s, c) == Some((a, b)) <==> s == a + [c] + b && c !in b
  {
    LastIndexSplits(s, c);
    if s == a + [c] + b && c !in b {
      LastIndexOfSplit(a, c, b);
      assert s[..|a|] == a && s[|a| + 1..] == b;
    }
  }

  /** The text before the dirty mark. */
  function Body(g: Groups): string {
    Front(g) + ['-'] + (['g'] + g.commit)
  }

  function Front(g: Groups): string {
    ['v'] + g.tag + ['-'] + g.digits
  }

  lemma NoDash(g: Groups)
    requires Fits(g)
    ensures '-' !in g.digits && '-' !in ['g'] + g.commit
  {
  }

  /** A commit never ends like the dirty mark. */
  lemma DirtyTells(g: Groups)
    requires Fits(g)
    ensures EndsDirty(Printed(g)) == g.dirty
    ensures Body(g) == if g.dirty then Printed(g)[..|Printed(g)| - |DIRTY|] else Printed(g)
  {
    var s := Printed(g);
    assert s == Body(g) + Suffix(g.dirty);
    if g.dirty {
      assert s[|s| - |DIRTY|..] == DIRTY;
    } else {
      assert s[|s| - 1] == g.commit[|g.commit| - 1] && IsHex(s[|s| - 1]);
      assert DIRTY[|DIRTY| - 1] == 'y';
    }
  }

  /** The pattern matches in at most one way, hyphens in the tag and greedy matching
      notwithstanding, and the match is found. */
  lemma MatchIff(s: string, g: Groups)
    ensures Match(s) == Some(g) <==> Matches(s, g)
  {
    if Matches(s, g) {
      NoDash(g);
      DirtyTells(g);
      SplitLastIff(Body(g), '-', Front(g), ['g'] + g.commit);
      SplitLastIff(Front(g), '-', ['v'] + g.tag, g.digits);
      assert (['v'] + g.tag)[1..] == g.tag && (['g'] + g.commit)[1..] == g.commit;
    }
    if Match(s) == Some(g) {
      var body := if EndsDirty(s) then s[..|s| - |DIRTY|] else s;
      var (front, hash) := SplitLast(body, '-').value;
      var (head, digits) := SplitLast(front, '-').value;
      SplitLastIff(body, '-', front, hash);
      SplitLastIff(front, '-', head, digits);
      assert head == ['v'] + g.tag && hash == ['g'] + g.commit;
      assert body == Body(g) && s == body + Suffix(g.dirty);
    }
  }

  // ---- Surrounding whitespace ----

  /** White space as string stripping sees it. */
  predicate IsSpace(c: char) {
    || '\U{0009}' <= c <= '\U{000D}' || '\U{001C}' <= c <= '\U{0020}'
    || c == '\U{0085}' || c == '\U{00A0}' || c == '\U{1680}' || '\U{2000}' <= c <= '\U{200A}'
    || c == '\U{2028}' || c == '\U{2029}' || c == '\U{202F}' || c == '\U{205F}' || c == '\U{3000}'
  }

  function Strip(s: string): string {
    if s == "" then ""
    else if IsSpace(s[0]) then Strip(s[1..])
    else if IsSpace(s[|s| - 1]) then Strip(s[..|s| - 1])
    else s
  }

  predicate AllSpace(s: string) {
    forall i | 0 <= i < |s| :: IsSpace(s[i])
  }

  /** Stripping takes away exactly the white space at both ends. */
  lemma {:induction false} StripSplits(s: string) returns (a: string, b: string)
    ensures s == a + Strip(s) + b && AllSpace(a) && AllSpace(b)
    ensures Strip(s) == "" || (!IsSpace(Strip(s)[0]) && !IsSpace(Strip(s)[|Strip(s)| - 1]))
    decreases |s|
  {
    if s != "" && IsSpace(s[0]) {
      a, b := StripSplits(s[1..]);
      Prepend(s, a, Strip(s[1..]), b);
      a := [s[0]] + a;
    } else if s != "" && IsSpace(s[|s| - 1]) {
      a, b := StripSplits(s[..|s| - 1]);
      Append(s, a, Strip(s[..|s| - 1]), b);
      b := b + [s[|s| - 1]];
    } else {
      a, b := "", "";
    }
  }

  lemma Prepend(s: string, a: string, t: string, b: string)
    requires s != "" && s[1..] == a + t + b
    ensures s == ([s[0]] + a) + t + b
  {
  }

  lemma Append(s: string, a: string, t: string, b: string)
    requires s != "" && s[..|s| - 1] == a + t + b
    ensures s == a + t + (b + [s[|s| - 1]])
  {
  }

  // ---- The two functions ----

  function ParseBuildRef(ref: Option<string>): Option<Ref> {
    match ref
    case None => None
    case Some(text) =>
      match Match(Strip(text))
      case None => None
      case Some(g) =>
        MatchIff(Strip(text), g);
        if |g.digits| > MAX_DIGITS then None
        else Some(Ref(g.tag, Number(g.digits), g.commit, g.dirty))
  }

  /** How `git describe --long --dirty` prints a state. */
  function Describe(r: Ref): string {
    Printed(Groups(r.tag, Decimal(r.distance), r.commit, r.dirty))
  }

  /** Parsing undoes printing, whatever white space is around it. */
  lemma ParsePrinted(r: Ref, before: string, after: string)
    requires r.tag != "" && '\n' !in r.tag && r.commit != "" && AllHex(r.commit)
    requires |Decimal(r.distance)| <= MAX_DIGITS && AllSpace(before) && AllSpace(after)
    ensures ParseBuildRef(Some(before + Describe(r) + after)) == Some(r)
  {
    var g := Groups(r.tag, Decimal(r.distance), r.commit, r.dirty);
    EndsOfPrinted(g);
    StripAround(before, Describe(r), after);
    MatchIff(Describe(r), g);
    NumberOfDecimal(r.distance);
  }

  lemma EndsOfPrinted(g: Groups)
    requires Fits(g)
    ensures !IsSpace(Printed(g)[0]) && !IsSpace(Printed(g)[|Printed(g)| - 1])
  {
  }

  lemma {:induction false} StripAround(before: string, s: string, after: string)
    requires AllSpace(before) && AllSpace(after) && s != "" && !IsSpace(s[0]) && !IsSpace(s[|s| - 1])
    ensures Strip(before + s + after) == s
    decreases |before| + |after|
  {
    var all := before + s + after;
    if before != "" {
      assert all[1..] == before[1..] + s + after;
      StripAround(before[1..], s, after);
    } else if after != "" {
      assert all[..|all| - 1] == before + s + after[..|after| - 1];
      StripAround(before, s, after[..|after| - 1]);
    } else {
      assert all == s;
    }
  }

  /** A reference is read exactly when, stripped, it has the printed form with a
      convertible distance, leading zeros allowed. */
  lemma ParsesIff(text: string, r: Ref)
    ensures ParseBuildRef(Some(text)) == Some(r) <==>
            exists digits :: Matches(Strip(text), Groups(r.tag, digits, r.commit, r.dirty))
                             && |digits| <= MAX_DIGITS && Number(digits) == r.distance
  {
    if ParseBuildRef(Some(text)) == Some(r) {
      var g := Match(Strip(text)).value;
      MatchIff(Strip(text), g);
      assert Matches(Strip(text), Groups(r.tag, g.digits, r.commit, r.dirty));
    }
    forall digits | Matches(Strip(text), Groups(r.tag, digits, r.commit, r.dirty))
      ensures Match(Strip(text)) == Some(Groups(r.tag, digits, r.commit, r.dirty))
    {
      MatchIff(Strip(text), Groups(r.tag, digits, r.commit, r.dirty));
    }
  }

  function BuildIsRelease(packageVersion: string, ref: Option<string>): Option<bool> {
    match ParseBuildRef(ref)
    case None => None
    case Some(r) => Some(r.distance == 0 && !r.dirty && r.tag == Strip(packageVersion))
  }

  predicate AllZero(s: string) {
    forall i | 0 <= i < |s| :: s[i] == '0'
  }

  /** The reference is a clean, zero-distance one tagged with the stripped version. */
  predicate NamesRelease(packageVersion: string, text: string, zeros: string, commit: string) {
    && Matches(Strip(text), Groups(Strip(packageVersion), zeros, commit, false))
    && |zeros| <= MAX_DIGITS && AllZero(zeros)
  }

  /** True exactly for those references; undecided exactly for unreadable ones. */
  lemma ReleaseIff(packageVersion: string, text: string)
    ensures BuildIsRelease(packageVersion, Some(text)) == Some(true) <==>
            exists zeros, commit :: NamesRelease(packageVersion, text, zeros, commit)
    ensures BuildIsRelease(packageVersion, Some(text)) == None <==> ParseBuildRef(Some(text)) == None
    ensures BuildIsRelease(packageVersion, None) == None
  {
    if BuildIsRelease(packageVersion, Some(text)) == Some(true) {
      var g := Match(Strip(text)).value;
      MatchIff(Strip(text), g);
      NumberIsZeroIff(g.digits);
      assert NamesRelease(packageVersion, text, g.digits, g.commit);
    }
    forall zeros, commit | NamesRelease(packageVersion, text, zeros, commit)
      ensures BuildIsRelease(packageVersion, Some(text)) == Some(true)
    {
      MatchIff(Strip(text), Groups(Strip(packageVersion), zeros, commit, false));
      NumberIsZeroIff(zeros);
    }
  }
}
