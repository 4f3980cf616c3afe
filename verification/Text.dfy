/** The string operations the parsers use, and decimal notation. */
module Text {
  import opened Net

  /** The Unicode White_Space property, which `str::trim` removes. */
  predicate IsWhitespace(c: char) {
    || '\U{0009}' <= c <= '\U{000D}' || c == ' ' || c == '\U{0085}' || c == '\U{00A0}' || c == '\U{1680}'
    || '\U{2000}' <= c <= '\U{200A}' || c == '\U{2028}' || c == '\U{2029}' || c == '\U{202F}'
    || c == '\U{205F}' || c == '\U{3000}'
  }

  /** There are 25 of them. */
  lemma WhitespaceIs(c: char)
    ensures IsWhitespace(c) <==> c as int in {
      0x9, 0xA, 0xB, 0xC, 0xD, 0x20, 0x85, 0xA0, 0x1680,
      0x2000, 0x2001, 0x2002, 0x2003, 0x2004, 0x2005, 0x2006, 0x2007, 0x2008, 0x2009, 0x200A,
      0x2028, 0x2029, 0x202F, 0x205F, 0x3000}
  {
  }

  predicate Blank(s: string) {
    forall c | c in s :: IsWhitespace(c)
  }

  function TrimStart(s: string): string {
    if s != "" && IsWhitespace(s[0]) then TrimStart(s[1..]) else s
  }

  function TrimEnd(s: string): string {
    if s != "" && IsWhitespace(s[|s| - 1]) then TrimEnd(s[..|s| - 1]) else s
  }

  function Trim(s: string): string {
    TrimEnd(TrimStart(s))
  }

  lemma {:induction false} BlankTrimsToNothing(s: string)
    ensures Trim(s) == "" <==> Blank(s)
  {
    TrimStartBlank(s);
    TrimEndBlank(TrimStart(s));
    assert TrimStart(s) == "" || TrimStart(s)[0] in TrimStart(s);
  }

  lemma {:induction false} TrimStartBlank(s: string)
    ensures TrimStart(s) == "" <==> Blank(s)
    ensures TrimStart(s) != "" ==> !IsWhitespace(TrimStart(s)[0])
    ensures forall c | c in TrimStart(s) :: c in s
  {
    if s != "" {
      TrimStartBlank(s[1..]);
      assert s == [s[0]] + s[1..];
    }
  }

  lemma {:induction false} TrimEndBlank(s: string)
    ensures TrimEnd(s) == "" <==> Blank(s)
  {
    if s != "" {
      TrimEndBlank(s[..|s| - 1]);
      assert s == s[..|s| - 1] + [s[|s| - 1]];
    }
  }

  lemma {:induction false} TrimStartCuts(s: string) returns (before: string)
    ensures s == before + TrimStart(s) && Blank(before)
    ensures TrimStart(s) != "" ==> !IsWhitespace(TrimStart(s)[0])
  {
    before := "";
    if s != "" && IsWhitespace(s[0]) {
      before := TrimStartCuts(s[1..]);
      assert s == [s[0]] + s[1..];
      before := [s[0]] + before;
    }
  }

  lemma {:induction false} TrimEndCuts(s: string) returns (after: string)
    ensures s == TrimEnd(s) + after && Blank(after)
    ensures TrimEnd(s) != "" ==> !IsWhitespace(TrimEnd(s)[|TrimEnd(s)| - 1])
  {
    after := "";
    if s != "" && IsWhitespace(s[|s| - 1]) {
      var n := |s| - 1;
      after := TrimEndCuts(s[..n]);
      assert s == s[..n] + [s[n]];
      after := after + [s[n]];
    }
  }

  lemma {:induction false} TrimStartSkips(before: string, s: string)
    requires Blank(before)
    ensures TrimStart(before + s) == TrimStart(s)
  {
    if before == "" {
      assert before + s == s;
    } else {
      assert before[0] in before && (before + s)[1..] == before[1..] + s;
      TrimStartSkips(before[1..], s);
    }
  }

  lemma {:induction false} TrimEndSkips(s: string, after: string)
    requires Blank(after)
    ensures TrimEnd(s + after) == TrimEnd(s)
  {
    if after == "" {
      assert s + after == s;
    } else {
      var n := |after| - 1;
      assert after[n] in after && (s + after)[..|s| + n] == s + after[..n];
      TrimEndSkips(s, after[..n]);
    }
  }

  /** `t` neither starts nor ends with white space. */
  predicate Tight(t: string) {
    t != "" ==> !IsWhitespace(t[0]) && !IsWhitespace(t[|t| - 1])
  }

  lemma TrimOf(before: string, t: string, after: string)
    requires Blank(before) && Blank(after) && Tight(t)
    ensures Trim(before + t + after) == t
  {
    assert before + t + after == before + (t + after);
    TrimStartSkips(before, t + after);
    if t == "" {
      assert t + after == after;
      TrimStartBlank(after);
    } else {
      TrimEndSkips(t, after);
    }
  }

  lemma TrimParts(s: string) returns (before: string, after: string)
    ensures s == before + Trim(s) + after && Blank(before) && Blank(after) && Tight(Trim(s))
  {
    before := TrimStartCuts(s);
    after := TrimEndCuts(TrimStart(s));
    assert Trim(s) != "" ==> Trim(s)[0] == TrimStart(s)[0];
    assert s == before + (Trim(s) + after) == before + Trim(s) + after;
  }

  /** Trimming takes off the longest blank start and end, and nothing else. */
  lemma TrimIff(s: string, t: string)
    ensures Trim(s) == t <==>
            Tight(t) && exists before, after :: Blank(before) && Blank(after) && s == before + t + after
  {
    var b, a := TrimParts(s);
    if before, after :| Tight(t) && Blank(before) && Blank(after) && s == before + t + after {
      TrimOf(before, t, after);
    }
  }

  lemma TrimTwice(s: string)
    ensures Trim(Trim(s)) == Trim(s)
  {
    var before, after := TrimParts(s);
    assert "" + Trim(s) + "" == Trim(s);
    TrimOf("", Trim(s), "");
  }

  /** All pieces between occurrences of `c`; there is always at least one. */
  function Split(s: string, c: char): (r: seq<string>)
    ensures r != []
  {
    if s == "" then [""]
    else if s[0] == c then [""] + Split(s[1..], c)
    else
      var rest := Split(s[1..], c);
      [[s[0]] + rest[0]] + rest[1..]
  }

  /** Prepending one character to the text of a split. */
  function Prepend(x: char, c: char, parts: seq<string>): (r: seq<string>)
    requires parts != []
    ensures r != []
  {
    if x == c then [""] + parts else [[x] + parts[0]] + parts[1..]
  }

  lemma SplitStep(x: char, s: string, c: char)
    ensures Split([x] + s, c) == Prepend(x, c, Split(s, c))
  {
    assert ([x] + s)[1..] == s;
  }

  lemma PrependConcat(x: char, c: char, xs: seq<string>, ys: seq<string>)
    requires xs != []
    ensures Prepend(x, c, xs + ys) == Prepend(x, c, xs) + ys
  {
    assert (xs + ys)[1..] == xs[1..] + ys;
  }

  lemma {:induction false} SplitConcat(a: string, b: string, c: char)
    ensures Split(a + [c] + b, c) == Split(a, c) + Split(b, c)
  {
    if a == "" {
      assert a + [c] + b == [c] + b;
      SplitStep(c, b, c);
    } else {
      var rest := a[1..] + [c] + b;
      assert a + [c] + b == [a[0]] + rest && a == [a[0]] + a[1..];
      SplitConcat(a[1..], b, c);
      SplitStep(a[0], rest, c);
      SplitStep(a[0], a[1..], c);
      PrependConcat(a[0], c, Split(a[1..], c), Split(b, c));
    }
  }

  lemma {:induction false} SplitWithout(s: string, c: char)
    requires c !in s
    ensures Split(s, c) == [s]
  {
    if s != "" {
      SplitWithout(s[1..], c);
      assert [s[0]] + s[1..] == s;
    }
  }

  function Join(parts: seq<string>, c: char): string
    requires parts != []
  {
    if |parts| == 1 then parts[0] else parts[0] + [c] + Join(parts[1..], c)
  }

  lemma {:induction false} SplitOfJoin(parts: seq<string>, c: char)
    requires parts != [] && forall p | p in parts :: c !in p
    ensures Split(Join(parts, c), c) == parts
  {
    assert parts[0] in parts;
    SplitWithout(parts[0], c);
    if |parts| > 1 {
      SplitConcat(parts[0], Join(parts[1..], c), c);
      assert forall p | p in parts[1..] :: p in parts;
      SplitOfJoin(parts[1..], c);
      assert parts == [parts[0]] + parts[1..];
    }
  }

  /** Position of the first `c`. */
  function FirstIndex(s: string, c: char): (r: Option<nat>)
    ensures r.None? ==> c !in s
    ensures r.Some? ==> r.value < |s| && s[r.value] == c && c !in s[..r.value]
  {
    if s == "" then None
    else if s[0] == c then Some(0)
    else match FirstIndex(s[1..], c)
      case None => None
      case Some(i) =>
        assert s[..i + 1] == [s[0]] + s[1..][..i];
        Some(i + 1)
  }

  lemma TailOfFront(s: string, k: nat)
    requires k < |s|
    ensures s[k..] == s[..|s| - 1][k..] + [s[|s| - 1]]
  {
  }

  /** Position of the last `c`. */
  function LastIndex(s: string, c: char): (r: Option<nat>)
    ensures r.None? ==> c !in s
    ensures r.Some? ==> r.value < |s| && s[r.value] == c && c !in s[r.value + 1..]
  {
    if s == "" then None
    else
      var n := |s| - 1;
      if s[n] == c then Some(n)
      else match LastIndex(s[..n], c)
        case None =>
          assert s == s[..n] + [s[n]];
          None
        case Some(i) =>
          TailOfFront(s, i + 1);
          Some(i)
  }

  lemma {:induction false} FirstIs(s: string, c: char, n: nat)
    requires n < |s| && s[n] == c && c !in s[..n]
    ensures FirstIndex(s, c) == Some(n)
  {
    if n > 0 {
      assert s[0] in s[..n] && s[1..][..n - 1] == s[..n][1..];
      FirstIs(s[1..], c, n - 1);
    }
  }

  lemma {:induction false} LastIs(s: string, c: char, n: nat)
    requires n < |s| && s[n] == c && c !in s[n + 1..]
    ensures LastIndex(s, c) == Some(n)
  {
    if n < |s| - 1 {
      assert s[|s| - 1] in s[n + 1..] && s[..|s| - 1][n + 1..] == s[n + 1..][..|s| - n - 2];
      LastIs(s[..|s| - 1], c, n);
    }
  }

  lemma {:induction false} NotFound(s: string, c: char)
    requires c !in s
    ensures FirstIndex(s, c) == None
  {
    if s != "" {
      assert s[0] in s;
      NotFound(s[1..], c);
    }
  }

  lemma FirstIndexAfter(a: string, c: char, b: string)
    requires c !in a
    ensures FirstIndex(a + [c] + b, c) == Some(|a|)
  {
    assert (a + [c] + b)[..|a|] == a;
    FirstIs(a + [c] + b, c, |a|);
  }

  lemma LastIndexBefore(a: string, c: char, b: string)
    requires c !in b
    ensures LastIndex(a + [c] + b, c) == Some(|a|)
  {
    assert (a + [c] + b)[|a| + 1..] == b;
    LastIs(a + [c] + b, c, |a|);
  }

  // ----- 16-bit decimal numbers -----

  const U16_MAX := 65535

  predicate IsDigit(c: char) {
    '0' <= c <= '9'
  }

  function DigitValue(c: char): (r: nat)
    requires IsDigit(c)
    ensures r <= 9 && "0123456789"[r] == c
  {
    (c as int) - ('0' as int)
  }

  /** The digit loop of `u16::from_str`: every multiplication and addition is checked for overflow. */
  function ParseDigits(s: string, acc: nat): (r: Option<nat>)
    ensures acc <= U16_MAX && r.Some? ==> r.value <= U16_MAX
  {
    if s == "" then Some(acc)
    else if !IsDigit(s[0]) then None
    else if acc * 10 > U16_MAX then None
    else if acc * 10 + DigitValue(s[0]) > U16_MAX then None
    else ParseDigits(s[1..], acc * 10 + DigitValue(s[0]))
  }

  /** `str::parse::<u16>`: one optional leading '+', then at least one digit. */
  function ParseU16(s: string): (r: Option<nat>)
    ensures r.Some? ==> r.value <= U16_MAX
  {
    if s == "" || s == "+" || s == "-" then None
    else if s[0] == '+' then ParseDigits(s[1..], 0)
    else ParseDigits(s, 0)
  }

  predicate AllDigits(s: string) {
    forall c | c in s :: IsDigit(c)
  }

  /** The number a digit string denotes, of any size. */
  function Value(s: string): nat
    requires AllDigits(s)
  {
    if s == "" then 0
    else
      assert s[|s| - 1] in s;
      assert forall c | c in s[..|s| - 1] :: c in s;
      Value(s[..|s| - 1]) * 10 + DigitValue(s[|s| - 1])
  }

  lemma {:induction false} ParseDigitsSnoc(s: string, d: char, acc: nat)
    ensures ParseDigits(s + [d], acc) ==
            match ParseDigits(s, acc)
            case None => None
            case Some(v) => if IsDigit(d) && v * 10 + DigitValue(d) <= U16_MAX then Some(v * 10 + DigitValue(d))
                 else None
  {
    if s == "" {
      assert s + [d] == [d];
    } else {
      assert (s + [d])[1..] == s[1..] + [d];
      if IsDigit(s[0]) {
        ParseDigitsSnoc(s[1..], d, acc * 10 + DigitValue(s[0]));
      }
    }
  }

  /** The checked loop succeeds exactly on digit strings that denote a 16-bit number. */
  lemma {:induction false} CheckedLoopIsExact(s: string)
    ensures ParseDigits(s, 0) == if AllDigits(s) && Value(s) <= U16_MAX then Some(Value(s)) else None
  {
    if s != "" {
      var n := |s| - 1;
      assert s == s[..n] + [s[n]];
      CheckedLoopIsExact(s[..n]);
      ParseDigitsSnoc(s[..n], s[n], 0);
      if AllDigits(s) {
        assert forall c | c in s[..n] :: c in s;
      } else if AllDigits(s[..n]) {
        assert !IsDigit(s[n]);
      }
    }
  }

  /** `s` writes `n` in decimal: an optional plus, then at least one digit. */
  predicate Denotes(s: string, n: nat) {
    var digits := if s != "" && s[0] == '+' then s[1..] else s;
    digits != "" && AllDigits(digits) && Value(digits) == n
  }

  lemma ParseU16Iff(s: string, n: nat)
    ensures ParseU16(s) == Some(n) <==> Denotes(s, n) && n <= 65535
  {
    var digits := if s != "" && s[0] == '+' then s[1..] else s;
    CheckedLoopIsExact(digits);
    if s == "-" {
      assert digits[0] in digits;
    }
    if s != "" && s[0] == '+' && digits == "" {
      assert s == "+";
    }
  }

  function DigitChar(d: nat): (c: char)
    requires d <= 9
    ensures IsDigit(c) && DigitValue(c) == d
  {
    ('0' as int + d) as char
  }

  /** Ordinary decimal notation without leading zeros. */
  function Decimal(n: nat): (s: string)
    ensures s != "" && AllDigits(s)
  {
    if n < 10 then [DigitChar(n)] else Decimal(n / 10) + [DigitChar(n % 10)]
  }

  lemma {:induction false} DecimalValue(n: nat)
    ensures Value(Decimal(n)) == n
  {
    if n < 10 {
      assert Decimal(n)[..0] == "";
    } else {
      DecimalValue(n / 10);
      assert Decimal(n)[..|Decimal(n)| - 1] == Decimal(n / 10);
    }
  }

  lemma ParseOfDecimal(n: nat)
    requires n <= U16_MAX
    ensures ParseU16(Decimal(n)) == Some(n)
  {
    DecimalValue(n);
    CheckedLoopIsExact(Decimal(n));
    assert Decimal(n)[0] in Decimal(n);
  }

  /** A string that starts and ends with a digit is not changed by trimming. */
  lemma DigitsSurviveTrim(s: string)
    requires s != "" && IsDigit(s[0]) && IsDigit(s[|s| - 1])
    ensures Trim(s) == s
  {
  }
}
