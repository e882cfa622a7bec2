/** Compact JSON text: values without spaces, strings as section 7 of RFC 8259
    writes them, either escaping only what must be escaped or, in ASCII mode,
    everything outside the printable ASCII characters. */
module JsonText {
  import opened Json
  import opened Text

  /** A JSON value whose members are listed in the order they are written. */
  datatype Doc =
    | NullDoc
    | IntDoc(n: int)
    | TextDoc(s: string)
    | ListDoc(items: seq<Doc>)
    | RecordDoc(members: seq<Member>)

  datatype Member = Member(key: string, value: Doc)

  // ---- Characters ----

  function HexDigit(d: nat): char
    requires d < 16
  {
    if d < 10 then '0' + d as char else 'a' + (d - 10) as char
  }

  function Hex4(u: nat): (r: string)
    requires u < 0x1_0000
    ensures |r| == 4
  {
    [HexDigit(u / 16 / 16 / 16), HexDigit(u / 16 / 16 % 16), HexDigit(u / 16 % 16), HexDigit(u % 16)]
  }

  lemma HexDigitInjective(d: nat, e: nat)
    requires d < 16 && e < 16 && HexDigit(d) == HexDigit(e)
    ensures d == e
  {
  }

  lemma Hex4Injective(u: nat, v: nat)
    requires u < 0x1_0000 && v < 0x1_0000 && Hex4(u) == Hex4(v)
    ensures u == v
  {
    assert Hex4(u)[0] == Hex4(v)[0] && Hex4(u)[1] == Hex4(v)[1] && Hex4(u)[2] == Hex4(v)[2] && Hex4(u)[3] == Hex4(v)[3];
    HexDigitInjective(u / 16 / 16 / 16, v / 16 / 16 / 16);
    HexDigitInjective(u / 16 / 16 % 16, v / 16 / 16 % 16);
    HexDigitInjective(u / 16 % 16, v / 16 % 16);
    HexDigitInjective(u % 16, v % 16);
  }

  function UnitEscape(u: nat): (r: string)
    requires u < 0x1_0000
    ensures |r| == 6 && r[0] == '\\' && r[1] == 'u' && r[2..6] == Hex4(u)
  {
    ['\\', 'u'] + Hex4(u)
  }

  /** The letter of a two-character escape. */
  function ShortEscape(c: char): Option<char> {
    match c
    case '"' => Some('"')
    case '\\' => Some('\\')
    case '\n' => Some('n')
    case '\r' => Some('r')
    case '\t' => Some('t')
    case '\U{0008}' => Some('b')
    case '\U{000C}' => Some('f')
    case _ => None
  }

  predicate NeedsUnit(c: char, ascii: bool) {
    c < ' ' || (ascii && c > '~')
  }

  function HighSurrogate(c: char): nat
    requires c as int >= 0x1_0000
  {
    0xD800 + (c as int - 0x1_0000) / 1024
  }

  function LowSurrogate(c: char): nat
    requires c as int >= 0x1_0000
  {
    0xDC00 + (c as int - 0x1_0000) % 1024
  }

  /** A character as its own code unit, or as a surrogate pair. */
  function CodeEscape(c: char): string {
    if c as int < 0x1_0000 then UnitEscape(c as int)
    else UnitEscape(HighSurrogate(c)) + UnitEscape(LowSurrogate(c))
  }

  function EscapeChar(c: char, ascii: bool): string {
    if ShortEscape(c).Some? then ['\\', ShortEscape(c).value]
    else if NeedsUnit(c, ascii) then CodeEscape(c)
    else [c]
  }

  /** The first code unit of an escaped character. */
  function FirstUnit(c: char): nat {
    if c as int < 0x1_0000 then c as int else HighSurrogate(c)
  }

  /** What the first characters of an escape tell. */
  lemma EscapeShape(c: char, ascii: bool)
    ensures var e := EscapeChar(c, ascii);
            && |e| >= 1 && e[0] != '"'
            && (e[0] == '\\' <==> |e| >= 2)
            && (|e| >= 2 ==> (e[1] == 'u' <==> |e| >= 6))
            && (|e| < 6 ==> |e| == if e[0] == '\\' then 2 else 1)
            && (|e| >= 6 ==> e[2..6] == Hex4(FirstUnit(c)) && |e| == if c as int < 0x1_0000 then 6 else 12)
  {
    if ShortEscape(c).None? && NeedsUnit(c, ascii) && c as int >= 0x1_0000 {
      assert CodeEscape(c)[2..6] == UnitEscape(HighSurrogate(c))[2..6];
    }
  }

  /** Characters are never surrogates, so a first unit tells whether a second follows. */
  lemma FirstUnitTells(c: char, d: char)
    requires FirstUnit(c) == FirstUnit(d)
    ensures c as int < 0x1_0000 <==> d as int < 0x1_0000
  {
  }

  lemma CodeEscapeInjective(c: char, d: char)
    requires CodeEscape(c) == CodeEscape(d)
    ensures c == d
  {
    if c as int < 0x1_0000 {
      assert CodeEscape(c)[2..6] == Hex4(c as int);
      assert d as int < 0x1_0000;
      Hex4Injective(c as int, d as int);
    } else {
      assert d as int >= 0x1_0000;
      assert UnitEscape(HighSurrogate(c)) == CodeEscape(c)[..6] && UnitEscape(HighSurrogate(d)) == CodeEscape(d)[..6];
      assert UnitEscape(LowSurrogate(c)) == CodeEscape(c)[6..] && UnitEscape(LowSurrogate(d)) == CodeEscape(d)[6..];
      Hex4Injective(HighSurrogate(c), HighSurrogate(d));
      Hex4Injective(LowSurrogate(c), LowSurrogate(d));
    }
  }

  lemma EscapeInjective(c: char, d: char, ascii: bool)
    requires EscapeChar(c, ascii) == EscapeChar(d, ascii)
    ensures c == d
  {
    EscapeShape(c, ascii);
    EscapeShape(d, ascii);
    var e, f := EscapeChar(c, ascii), EscapeChar(d, ascii);
    assert |e| == |f| && e[0] == f[0] && (|e| >= 2 ==> e[1] == f[1]);
    if |e| >= 6 {
      CodeEscapeInjective(c, d);
    }
  }

  /** Escapes are prefix-free: text that starts with one starts with only one. */
  lemma EscapePrefixFree(c: char, d: char, ascii: bool, x: string, y: string)
    requires EscapeChar(c, ascii) + x == EscapeChar(d, ascii) + y
    ensures c == d && x == y
  {
    var e, f := EscapeChar(c, ascii), EscapeChar(d, ascii);
    var s := e + x;
    EscapeShape(c, ascii);
    EscapeShape(d, ascii);
    assert s[0] == e[0] == f[0];
    if |e| >= 2 {
      assert s[1] == e[1] && s[1] == f[1];
    }
    if |e| >= 6 {
      assert s[2..6] == e[2..6] && (f + y)[2..6] == f[2..6];
      Hex4Injective(FirstUnit(c), FirstUnit(d));
      FirstUnitTells(c, d);
    }
    assert |e| == |f|;
    assert e == s[..|e|] && f == (f + y)[..|f|] && x == s[|e|..] && y == (f + y)[|f|..];
    EscapeInjective(c, d, ascii);
  }

  // ---- Strings and numbers ----

  function EscapeAll(s: string, ascii: bool): string {
    if s == "" then "" else EscapeChar(s[0], ascii) + EscapeAll(s[1..], ascii)
  }

  /** Text after the escaped characters of a string, closing quote included. */
  function Closed(s: string, ascii: bool, x: string): string {
    EscapeAll(s, ascii) + ['"'] + x
  }

  lemma ClosedAppend(s: string, ascii: bool, x: string, y: string)
    ensures Closed(s, ascii, x) + y == Closed(s, ascii, x + y)
  {
  }

  lemma ClosedCons(s: string, ascii: bool, x: string)
    requires s != ""
    ensures Closed(s, ascii, x) == EscapeChar(s[0], ascii) + Closed(s[1..], ascii, x)
  {
  }

  lemma ClosedHead(s: string, ascii: bool, x: string)
    ensures Closed(s, ascii, x) != "" && (Closed(s, ascii, x)[0] == '"' <==> s == "")
  {
    if s != "" {
      ClosedCons(s, ascii, x);
      EscapeShape(s[0], ascii);
    }
  }

  lemma {:induction false} ClosedPrefixFree(s: string, t: string, ascii: bool, x: string, y: string)
    requires Closed(s, ascii, x) == Closed(t, ascii, y)
    ensures s == t && x == y
    decreases |s|
  {
    ClosedHead(s, ascii, x);
    ClosedHead(t, ascii, y);
    if s == "" {
      assert x == Closed("", ascii, x)[1..] && y == Closed("", ascii, y)[1..];
    } else {
      ClosedCons(s, ascii, x);
      ClosedCons(t, ascii, y);
      EscapePrefixFree(s[0], t[0], ascii, Closed(s[1..], ascii, x), Closed(t[1..], ascii, y));
      ClosedPrefixFree(s[1..], t[1..], ascii, x, y);
      assert s == [s[0]] + s[1..] && t == [t[0]] + t[1..];
    }
  }

  /** Text that a number cannot run on into. */
  predicate Ends(x: string) {
    x == "" || x[0] == ',' || x[0] == ']' || x[0] == '}'
  }

  lemma DigitRun(a: string, x: string)
    requires AllDigits(a) && Ends(x)
    ensures forall i | 0 <= i < |a| :: IsDigit((a + x)[i])
    ensures x != "" ==> !IsDigit((a + x)[|a|])
  {
    assert x != "" ==> (a + x)[|a|] == x[0];
  }

  lemma DigitsPrefixFree(a: string, b: string, x: string, y: string)
    requires AllDigits(a) && AllDigits(b) && Ends(x) && Ends(y) && a + x == b + y
    ensures a == b && x == y
  {
    DigitRun(a, x);
    DigitRun(b, y);
    assert |a + x| == |b + y| && |a| == |b|;
    assert a == (a + x)[..|a|] && b == (b + y)[..|b|] && x == (a + x)[|a|..] && y == (b + y)[|b|..];
  }

  function Signed(negative: bool, digits: string): string {
    if negative then ['-'] + digits else digits
  }

  lemma SignedHead(m: bool, a: string, x: string)
    requires a != "" && AllDigits(a)
    ensures (Signed(m, a) + x)[0] == '-' <==> m
    ensures a + x == if m then (Signed(m, a) + x)[1..] else Signed(m, a) + x
  {
    assert IsDigit(a[0]);
  }

  lemma SignedPrefixFree(m: bool, a: string, n: bool, b: string, x: string, y: string)
    requires a != "" && b != "" && AllDigits(a) && AllDigits(b) && Ends(x) && Ends(y)
    requires Signed(m, a) + x == Signed(n, b) + y
    ensures m == n && a == b && x == y
  {
    SignedHead(m, a, x);
    SignedHead(n, b, y);
    DigitsPrefixFree(a, b, x, y);
  }

  function IntText(n: int): string {
    Signed(n < 0, Decimal(if n < 0 then -n else n))
  }

  lemma IntPrefixFree(m: int, n: int, x: string, y: string)
    requires Ends(x) && Ends(y) && IntText(m) + x == IntText(n) + y
    ensures m == n && x == y
  {
    var p, q := if m < 0 then -m else m, if n < 0 then -n else n;
    SignedPrefixFree(m < 0, Decimal(p), n < 0, Decimal(q), x, y);
    DecimalInjective(p, q);
  }

  // ---- Values ----

  function Comma(k: nat): string {
    if k > 0 then [','] else []
  }

  function Encode(d: Doc, ascii: bool): string
    decreases d
  {
    match d
    case NullDoc => ['n', 'u', 'l', 'l']
    case IntDoc(n) => IntText(n)
    case TextDoc(s) => ['"'] + Closed(s, ascii, "")
    case ListDoc(items) => ['['] + EncodeItems(items, 0, ascii)
    case RecordDoc(members) => ['{'] + EncodeMembers(members, 0, ascii)
  }

  /** The items from the `k`th on, and the closing bracket. */
  function EncodeItems(items: seq<Doc>, k: nat, ascii: bool): string
    requires k <= |items|
    decreases items, |items| - k
  {
    if k == |items| then [']'] else Comma(k) + Encode(items[k], ascii) + EncodeItems(items, k + 1, ascii)
  }

  function EncodeMembers(members: seq<Member>, k: nat, ascii: bool): string
    requires k <= |members|
    decreases members, |members| - k
  {
    if k == |members| then ['}']
    else
      Comma(k) + ['"'] + Closed(members[k].key, ascii, [':'])
      + Encode(members[k].value, ascii) + EncodeMembers(members, k + 1, ascii)
  }

  /** Items are separated by commas alone. */
  lemma SampleList(ascii: bool)
    ensures Encode(ListDoc([IntDoc(-1), NullDoc]), ascii) == "[-1,null]"
  {
    var items := [IntDoc(-1), NullDoc];
    assert Decimal(1) == "1" && IntText(-1) == "-1";
    assert EncodeItems(items, 2, ascii) == "]";
    assert EncodeItems(items, 1, ascii) == ",null]";
  }

  /** A short escape, and a letter outside ASCII in both modes. */
  lemma SampleText(ascii: bool)
    ensures Encode(TextDoc("\n\U{00E9}"), ascii) == "\"\\n" + (if ascii then "\\u00e9" else "\U{00E9}") + "\""
  {
    var text := "\n\U{00E9}";
    assert text[1..] == "\U{00E9}" && text[1..][1..] == "";
    assert EscapeChar('\n', ascii) == "\\n";
    assert EscapeChar('\U{00E9}', ascii) == if ascii then "\\u00e9" else "\U{00E9}";
    assert EscapeAll(text[1..], ascii) == EscapeChar('\U{00E9}', ascii);
  }

  // ---- Which characters are written ----

  /** No control characters, and in ASCII mode nothing above the printable ones. */
  predicate Printable(s: string, ascii: bool) {
    forall i | 0 <= i < |s| :: s[i] >= ' ' && (ascii ==> s[i] <= '~')
  }

  lemma PrintableConcat(a: string, b: string, ascii: bool)
    requires Printable(a, ascii) && Printable(b, ascii)
    ensures Printable(a + b, ascii)
  {
  }

  lemma EscapePrintable(c: char, ascii: bool)
    ensures Printable(EscapeChar(c, ascii), ascii)
  {
  }

  lemma {:induction false} ClosedPrintable(s: string, ascii: bool, x: string)
    requires Printable(x, ascii)
    ensures Printable(Closed(s, ascii, x), ascii)
    decreases |s|
  {
    if s == "" {
      assert Closed(s, ascii, x) == ['"'] + x;
    } else {
      ClosedCons(s, ascii, x);
      EscapePrintable(s[0], ascii);
      ClosedPrintable(s[1..], ascii, x);
      PrintableConcat(EscapeChar(s[0], ascii), Closed(s[1..], ascii, x), ascii);
    }
  }

  lemma {:induction false} EncodePrintable(d: Doc, ascii: bool)
    ensures Printable(Encode(d, ascii), ascii)
    decreases d
  {
    match d
    case NullDoc =>
    case IntDoc(n) =>
      var digits := Decimal(if n < 0 then -n else n);
      assert forall i | 0 <= i < |digits| :: IsDigit(digits[i]);
    case TextDoc(s) => ClosedPrintable(s, ascii, "");
    case ListDoc(items) => ItemsPrintable(items, 0, ascii);
    case RecordDoc(members) => MembersPrintable(members, 0, ascii);
  }

  lemma {:induction false} ItemsPrintable(items: seq<Doc>, k: nat, ascii: bool)
    requires k <= |items|
    ensures Printable(EncodeItems(items, k, ascii), ascii)
    decreases items, |items| - k
  {
    if k < |items| {
      EncodePrintable(items[k], ascii);
      ItemsPrintable(items, k + 1, ascii);
      PrintableConcat(Comma(k), Encode(items[k], ascii), ascii);
      PrintableConcat(Comma(k) + Encode(items[k], ascii), EncodeItems(items, k + 1, ascii), ascii);
    }
  }

  lemma {:induction false} MembersPrintable(members: seq<Member>, k: nat, ascii: bool)
    requires k <= |members|
    ensures Printable(EncodeMembers(members, k, ascii), ascii)
    decreases members, |members| - k
  {
    if k < |members| {
      var key, value := Closed(members[k].key, ascii, [':']), Encode(members[k].value, ascii);
      ClosedPrintable(members[k].key, ascii, [':']);
      EncodePrintable(members[k].value, ascii);
      MembersPrintable(members, k + 1, ascii);
      PrintableConcat(Comma(k) + ['"'], key, ascii);
      PrintableConcat(Comma(k) + ['"'] + key, value, ascii);
      PrintableConcat(Comma(k) + ['"'] + key + value, EncodeMembers(members, k + 1, ascii), ascii);
    }
  }

  datatype Kind = NullKind | IntKind | TextKind | ListKind | RecordKind | NoKind

  function KindOf(d: Doc): Kind {
    match d
    case NullDoc => NullKind
    case IntDoc(_) => IntKind
    case TextDoc(_) => TextKind
    case ListDoc(_) => ListKind
    case RecordDoc(_) => RecordKind
  }

  function KindAt(c: char): Kind {
    match c
    case 'n' => NullKind
    case '"' => TextKind
    case '[' => ListKind
    case '{' => RecordKind
    case _ => if c == '-' || IsDigit(c) then IntKind else NoKind
  }

  /** The first character tells the kind of value. */
  lemma EncodeHead(d: Doc, ascii: bool)
    ensures Encode(d, ascii) != "" && KindAt(Encode(d, ascii)[0]) == KindOf(d)
  {
    if d.IntDoc? {
      assert IsDigit(Decimal(if d.n < 0 then -d.n else d.n)[0]);
    }
  }

  lemma ItemsStep(items: seq<Doc>, k: nat, ascii: bool, x: string)
    requires k < |items|
    ensures EncodeItems(items, k, ascii) + x
            == Comma(k) + (Encode(items[k], ascii) + (EncodeItems(items, k + 1, ascii) + x))
  {
  }

  lemma Regroup(a: string, b: string, c: string, d: string, e: string, x: string)
    ensures a + b + c + d + e + x == a + (b + (c + (d + (e + x))))
  {
  }

  lemma MembersStep(members: seq<Member>, k: nat, ascii: bool, x: string)
    requires k < |members|
    ensures EncodeMembers(members, k, ascii) + x
            == Comma(k) + (['"'] + Closed(members[k].key, ascii,
                 [':'] + (Encode(members[k].value, ascii) + (EncodeMembers(members, k + 1, ascii) + x))))
  {
    var value, rest := Encode(members[k].value, ascii), EncodeMembers(members, k + 1, ascii);
    Regroup(Comma(k), ['"'], Closed(members[k].key, ascii, [':']), value, rest, x);
    ClosedAppend(members[k].key, ascii, [':'], value + (rest + x));
  }

  lemma ItemsHead(items: seq<Doc>, k: nat, ascii: bool, x: string)
    requires k <= |items|
    ensures EncodeItems(items, k, ascii) + x != ""
    ensures (EncodeItems(items, k, ascii) + x)[0] == ']' <==> k == |items|
    ensures k > 0 ==> Ends(EncodeItems(items, k, ascii) + x)
  {
    if k < |items| {
      ItemsStep(items, k, ascii, x);
      EncodeHead(items[k], ascii);
    }
  }

  lemma MembersHead(members: seq<Member>, k: nat, ascii: bool, x: string)
    requires k <= |members|
    ensures EncodeMembers(members, k, ascii) + x != ""
    ensures (EncodeMembers(members, k, ascii) + x)[0] == '}' <==> k == |members|
    ensures k > 0 ==> Ends(EncodeMembers(members, k, ascii) + x)
  {
    if k < |members| {
      MembersStep(members, k, ascii, x);
    }
  }

  lemma Strip(p: string, x: string, y: string)
    requires p + x == p + y
    ensures x == y
  {
    assert x == (p + x)[|p|..] && y == (p + y)[|p|..];
  }

  lemma SameKind(d: Doc, e: Doc, ascii: bool, x: string, y: string)
    requires Encode(d, ascii) + x == Encode(e, ascii) + y
    ensures KindOf(d) == KindOf(e)
  {
    EncodeHead(d, ascii);
    EncodeHead(e, ascii);
    assert (Encode(d, ascii) + x)[0] == Encode(d, ascii)[0] && (Encode(e, ascii) + y)[0] == Encode(e, ascii)[0];
  }

  lemma ListStrip(a: seq<Doc>, b: seq<Doc>, ascii: bool, x: string, y: string)
    requires Encode(ListDoc(a), ascii) + x == Encode(ListDoc(b), ascii) + y
    ensures EncodeItems(a, 0, ascii) + x == EncodeItems(b, 0, ascii) + y
  {
    assert Encode(ListDoc(a), ascii) + x == ['['] + (EncodeItems(a, 0, ascii) + x);
    assert Encode(ListDoc(b), ascii) + y == ['['] + (EncodeItems(b, 0, ascii) + y);
    Strip(['['], EncodeItems(a, 0, ascii) + x, EncodeItems(b, 0, ascii) + y);
  }

  lemma RecordText(members: seq<Member>, ascii: bool, x: string)
    ensures Encode(RecordDoc(members), ascii) + x == ['{'] + (EncodeMembers(members, 0, ascii) + x)
  {
  }

  lemma RecordStrip(a: seq<Member>, b: seq<Member>, ascii: bool, x: string, y: string)
    requires Encode(RecordDoc(a), ascii) + x == Encode(RecordDoc(b), ascii) + y
    ensures EncodeMembers(a, 0, ascii) + x == EncodeMembers(b, 0, ascii) + y
  {
    RecordText(a, ascii, x);
    RecordText(b, ascii, y);
    Strip(['{'], EncodeMembers(a, 0, ascii) + x, EncodeMembers(b, 0, ascii) + y);
  }

  /** Values are told apart by their text, and by where it ends: text that starts with
      the encoding of a value starts with the encoding of only one. */
  lemma {:induction false} EncodePrefixFree(d: Doc, e: Doc, ascii: bool, x: string, y: string)
    requires Ends(x) && Ends(y) && Encode(d, ascii) + x == Encode(e, ascii) + y
    ensures d == e && x == y
    decreases d
  {
    SameKind(d, e, ascii, x, y);
    match d
    case NullDoc =>
      Strip(Encode(d, ascii), x, y);
    case IntDoc(n) =>
      IntPrefixFree(n, e.n, x, y);
    case TextDoc(s) =>
      TextPrefixFree(s, e.s, ascii, x, y);
    case ListDoc(items) =>
      ListStrip(items, e.items, ascii, x, y);
      ItemsPrefixFree(items, e.items, 0, ascii, x, y);
    case RecordDoc(members) =>
      RecordStrip(members, e.members, ascii, x, y);
      MembersPrefixFree(members, e.members, 0, ascii, x, y);
  }

  lemma TextPrefixFree(s: string, t: string, ascii: bool, x: string, y: string)
    requires ['"'] + Closed(s, ascii, "") + x == ['"'] + Closed(t, ascii, "") + y
    ensures s == t && x == y
  {
    assert ['"'] + Closed(s, ascii, "") + x == ['"'] + Closed(s, ascii, x);
    assert ['"'] + Closed(t, ascii, "") + y == ['"'] + Closed(t, ascii, y);
    Strip(['"'], Closed(s, ascii, x), Closed(t, ascii, y));
    ClosedPrefixFree(s, t, ascii, x, y);
  }

  lemma {:induction false} ItemsPrefixFree(a: seq<Doc>, b: seq<Doc>, k: nat, ascii: bool, x: string, y: string)
    requires k <= |a| && k <= |b| && a[..k] == b[..k]
    requires EncodeItems(a, k, ascii) + x == EncodeItems(b, k, ascii) + y
    ensures a == b && x == y
    decreases a, |a| - k
  {
    ItemsHead(a, k, ascii, x);
    ItemsHead(b, k, ascii, y);
    assert k == |a| <==> k == |b|;
    if k == |a| {
      assert a == a[..k] && b == b[..k];
      Strip([']'], x, y);
    } else {
      ItemsStep(a, k, ascii, x);
      ItemsStep(b, k, ascii, y);
      var restA, restB := EncodeItems(a, k + 1, ascii) + x, EncodeItems(b, k + 1, ascii) + y;
      Strip(Comma(k), Encode(a[k], ascii) + restA, Encode(b[k], ascii) + restB);
      ItemsHead(a, k + 1, ascii, x);
      ItemsHead(b, k + 1, ascii, y);
      EncodePrefixFree(a[k], b[k], ascii, restA, restB);
      assert a[..k + 1] == a[..k] + [a[k]] && b[..k + 1] == b[..k] + [b[k]];
      ItemsPrefixFree(a, b, k + 1, ascii, x, y);
    }
  }

  lemma {:induction false} MembersPrefixFree(
      a: seq<Member>, b: seq<Member>, k: nat, ascii: bool, x: string, y: string)
    requires k <= |a| && k <= |b| && a[..k] == b[..k]
    requires EncodeMembers(a, k, ascii) + x == EncodeMembers(b, k, ascii) + y
    ensures a == b && x == y
    decreases a, |a| - k
  {
    MembersEnd(a, b, k, ascii, x, y);
    if k == |a| {
      assert a == a[..k] && b == b[..k];
    } else {
      var restA, restB := EncodeMembers(a, k + 1, ascii) + x, EncodeMembers(b, k + 1, ascii) + y;
      NextMember(a, b, k, ascii, x, y);
      EncodePrefixFree(a[k].value, b[k].value, ascii, restA, restB);
      assert a[..k + 1] == a[..k] + [a[k]] && b[..k + 1] == b[..k] + [b[k]];
      MembersPrefixFree(a, b, k + 1, ascii, x, y);
    }
  }

  lemma MembersEnd(a: seq<Member>, b: seq<Member>, k: nat, ascii: bool, x: string, y: string)
    requires k <= |a| && k <= |b| && EncodeMembers(a, k, ascii) + x == EncodeMembers(b, k, ascii) + y
    ensures k == |a| <==> k == |b|
    ensures k == |a| ==> x == y
  {
    MembersHead(a, k, ascii, x);
    MembersHead(b, k, ascii, y);
    if k == |a| {
      Strip(['}'], x, y);
    }
  }

  lemma SameKey(m: Member, n: Member, k: nat, ascii: bool, x: string, y: string)
    requires Comma(k) + (['"'] + Closed(m.key, ascii, [':'] + (Encode(m.value, ascii) + x)))
             == Comma(k) + (['"'] + Closed(n.key, ascii, [':'] + (Encode(n.value, ascii) + y)))
    ensures m.key == n.key && Encode(m.value, ascii) + x == Encode(n.value, ascii) + y
  {
    var p, q := [':'] + (Encode(m.value, ascii) + x), [':'] + (Encode(n.value, ascii) + y);
    Strip(Comma(k), ['"'] + Closed(m.key, ascii, p), ['"'] + Closed(n.key, ascii, q));
    Strip(['"'], Closed(m.key, ascii, p), Closed(n.key, ascii, q));
    ClosedPrefixFree(m.key, n.key, ascii, p, q);
    Strip([':'], Encode(m.value, ascii) + x, Encode(n.value, ascii) + y);
  }

  lemma NextMember(a: seq<Member>, b: seq<Member>, k: nat, ascii: bool, x: string, y: string)
    requires k < |a| && k < |b| && EncodeMembers(a, k, ascii) + x == EncodeMembers(b, k, ascii) + y
    ensures var restA, restB := EncodeMembers(a, k + 1, ascii) + x, EncodeMembers(b, k + 1, ascii) + y;
            && a[k].key == b[k].key && Ends(restA) && Ends(restB)
            && Encode(a[k].value, ascii) + restA == Encode(b[k].value, ascii) + restB
  {
    MembersStep(a, k, ascii, x);
    MembersStep(b, k, ascii, y);
    MembersHead(a, k + 1, ascii, x);
    MembersHead(b, k + 1, ascii, y);
    SameKey(a[k], b[k], k, ascii, EncodeMembers(a, k + 1, ascii) + x, EncodeMembers(b, k + 1, ascii) + y);
  }

  /** The encoding loses nothing. */
  lemma EncodeInjective(d: Doc, e: Doc, ascii: bool)
    requires Encode(d, ascii) == Encode(e, ascii)
    ensures d == e
  {
    assert Encode(d, ascii) + "" == Encode(d, ascii) && Encode(e, ascii) + "" == Encode(e, ascii);
    EncodePrefixFree(d, e, ascii, "", "");
  }
}
