/**
 The string helpers of src/marketdata/model.cpp: splitting on a separator, upper-casing and reading numbers, with
 the printers they invert.
 */
module Text {
  import opened Wrappers

  // ---------- Splitting ----------

  /** `text.find(sep, start)`, with |text| for npos. */
  function Find(text: string, sep: char, start: nat): (at: nat)
    requires start <= |text|
    ensures start <= at <= |text|
    ensures at < |text| ==> text[at] == sep
    ensures forall k :: start <= k < at ==> text[k] != sep
    decreases |text| - start
  {
    if start == |text| || text[start] == sep then start else Find(text, sep, start + 1)
  }

  /** The pieces between separators, from `start` on. */
  function SplitFrom(text: string, sep: char, start: nat): seq<string>
    requires start <= |text|
    decreases |text| - start
  {
    var at := Find(text, sep, start);
    if at == |text| then [text[start..]] else [text[start..at]] + SplitFrom(text, sep, at + 1)
  }

  function Split(text: string, sep: char): seq<string> {
    SplitFrom(text, sep, 0)
  }

  function Join(parts: seq<string>, sep: char): string {
    if parts == [] then ""
    else if |parts| == 1 then parts[0]
    else parts[0] + [sep] + Join(parts[1..], sep)
  }

  function Occurrences(text: string, c: char): nat {
    if text == "" then 0 else (if text[0] == c then 1 else 0) + Occurrences(text[1..], c)
  }

  /** Parts of a split: at least one, none holding the separator. */
  ghost predicate Pieces(parts: seq<string>, sep: char) {
    parts != [] && forall i :: 0 <= i < |parts| ==> sep !in parts[i]
  }

  lemma {:induction false} SplitFromJoins(text: string, sep: char, start: nat)
    requires start <= |text|
    ensures Pieces(SplitFrom(text, sep, start), sep)
    ensures Join(SplitFrom(text, sep, start), sep) == text[start..]
    decreases |text| - start
  {
    var at := Find(text, sep, start);
    if at == |text| {
      assert text[start..at] == text[start..];
    } else {
      SplitFromJoins(text, sep, at + 1);
      JoinsFrom(text, sep, start, at, SplitFrom(text, sep, at + 1));
    }
  }

  /** A piece up to a separator and what joins to the rest join to the whole. */
  lemma JoinsFrom(text: string, sep: char, start: nat, at: nat, rest: seq<string>)
    requires start <= at < |text| && text[at] == sep && sep !in text[start..at]
    requires Pieces(rest, sep) && Join(rest, sep) == text[at + 1..]
    ensures Pieces([text[start..at]] + rest, sep)
    ensures Join([text[start..at]] + rest, sep) == text[start..]
  {
    JoinOneMore(text[start..at], rest, sep);
    CutAt(text, start, at);
  }

  lemma CutAt(text: string, start: nat, at: nat)
    requires start <= at < |text|
    ensures text[start..] == text[start..at] + [text[at]] + text[at + 1..]
  {
  }

  lemma JoinOneMore(part: string, rest: seq<string>, sep: char)
    requires Pieces(rest, sep) && sep !in part
    ensures Pieces([part] + rest, sep)
    ensures Join([part] + rest, sep) == part + [sep] + Join(rest, sep)
  {
    assert ([part] + rest)[1..] == rest;
  }

  lemma {:induction false} JoinTail(parts: seq<string>, sep: char)
    requires Pieces(parts, sep) && |parts| > 1
    ensures Join(parts, sep) == parts[0] + [sep] + Join(parts[1..], sep)
    ensures Pieces(parts[1..], sep)
  {
  }

  /** Two ways of cutting one text at its separators are the same way. */
  lemma {:induction false} JoinInjective(a: seq<string>, b: seq<string>, sep: char)
    requires Pieces(a, sep) && Pieces(b, sep) && Join(a, sep) == Join(b, sep)
    ensures a == b
    decreases |a|
  {
    var text := Join(a, sep);
    FirstPiece(a, sep);
    FirstPiece(b, sep);
    if |a| == 1 || |b| == 1 {
      assert |a| == 1 <==> sep !in text;
      assert |b| == 1 <==> sep !in text;
      assert a == [text] && b == [text];
    } else {
      assert a[0] == text[..|a[0]|] == b[0];
      assert Join(a[1..], sep) == text[|a[0]| + 1..] == Join(b[1..], sep);
      JoinInjective(a[1..], b[1..], sep);
      assert a == [a[0]] + a[1..];
      assert b == [b[0]] + b[1..];
    }
  }

  /** The first piece ends at the first separator, or at the end if there is none. */
  lemma FirstPiece(parts: seq<string>, sep: char)
    requires Pieces(parts, sep)
    ensures var text := Join(parts, sep);
            && |parts[0]| == Find(text, sep, 0) && text[..|parts[0]|] == parts[0]
            && (|parts| == 1 ==> text == parts[0] && sep !in text)
            && (|parts| > 1 ==> |parts[0]| < |text| && text[|parts[0]|] == sep && sep in text
                                && text[|parts[0]| + 1..] == Join(parts[1..], sep))
  {
    if |parts| > 1 {
      JoinTail(parts, sep);
      var text := Join(parts, sep);
      assert text[|parts[0]|] == sep;
      assert text[..|parts[0]|] == parts[0];
      assert forall k :: 0 <= k < |parts[0]| ==> text[k] == parts[0][k];
    }
  }

  /** `Split` is the inverse of `Join`: the only separator-free pieces whose join is the text. */
  lemma SplitExact(text: string, sep: char, parts: seq<string>)
    ensures parts == Split(text, sep) <==> Pieces(parts, sep) && Join(parts, sep) == text
  {
    SplitFromJoins(text, sep, 0);
    assert text[0..] == text;
    if Pieces(parts, sep) && Join(parts, sep) == text {
      JoinInjective(parts, Split(text, sep), sep);
    }
  }

  lemma {:induction false} OccurrencesConcat(a: string, b: string, c: char)
    ensures Occurrences(a + b, c) == Occurrences(a, c) + Occurrences(b, c)
  {
    if a == "" {
      assert a + b == b;
    } else {
      assert (a + b)[1..] == a[1..] + b;
      OccurrencesConcat(a[1..], b, c);
    }
  }

  lemma {:induction false} NoOccurrences(text: string, c: char)
    requires c !in text
    ensures Occurrences(text, c) == 0
  {
    if text != "" {
      NoOccurrences(text[1..], c);
    }
  }

  lemma {:induction false} PiecesCount(parts: seq<string>, sep: char)
    requires Pieces(parts, sep)
    ensures |parts| == 1 + Occurrences(Join(parts, sep), sep)
  {
    NoOccurrences(parts[0], sep);
    if |parts| > 1 {
      JoinTail(parts, sep);
      PiecesCount(parts[1..], sep);
      OccurrencesConcat(parts[0] + [sep], Join(parts[1..], sep), sep);
      OccurrencesConcat(parts[0], [sep], sep);
    }
  }

  /** One more part than separators: what makes the arity checks of the parser sound. */
  lemma SplitCount(text: string, sep: char)
    ensures |Split(text, sep)| == 1 + Occurrences(text, sep)
  {
    SplitExact(text, sep, Split(text, sep));
    PiecesCount(Split(text, sep), sep);
  }

  lemma NextPiece(parts: seq<string>, text: string, sep: char, start: nat)
    requires start <= |text|
    ensures var at := Find(text, sep, start);
            parts + SplitFrom(text, sep, start) ==
            if at == |text| then parts + [text[start..]] else parts + [text[start..at]] + SplitFrom(text, sep, at + 1)
  {
  }

  /** The loop the gateway runs. */
  method SplitLoop(text: string, sep: char) returns (parts: seq<string>)
    ensures parts == Split(text, sep)
    ensures Pieces(parts, sep) && Join(parts, sep) == text
  {
    SplitExact(text, sep, Split(text, sep));
    parts := [];
    var start := 0;
    while true
      invariant start <= |text|
      invariant parts + SplitFrom(text, sep, start) == Split(text, sep)
      decreases |text| - start
    {
      var at := Find(text, sep, start);
      if at == |text| {
        parts := parts + [text[start..]];
        return;
      }
      NextPiece(parts, text, sep, start);
      parts := parts + [text[start..at]];
      start := at + 1;
    }
  }

  // ---------- Upper case ----------

  /** `std::toupper` in the "C" locale. */
  function Upper(c: char): char {
    if 'a' <= c <= 'z' then c - ('a' - 'A') else c
  }

  function ToUpper(text: string): (r: string)
    ensures |r| == |text| && forall i :: 0 <= i < |text| ==> r[i] == Upper(text[i])
  {
    if text == "" then "" else [Upper(text[0])] + ToUpper(text[1..])
  }

  const LOWER: string := "abcdefghijklmnopqrstuvwxyz"
  const UPPER: string := "ABCDEFGHIJKLMNOPQRSTUVWXYZ"

  /** Each letter of the lower alphabet becomes the one at its place in the upper, everything else stays. */
  lemma UpperExact(text: string, i: nat)
    requires i < |text|
    ensures text[i] !in LOWER ==> ToUpper(text)[i] == text[i]
    ensures forall n :: 0 <= n < 26 && text[i] == LOWER[n] ==> ToUpper(text)[i] == UPPER[n]
  {
    AlphabetUpper(text[i]);
    LetterIsLower(text[i]);
  }

  /** The alphabets run in step with the character codes. */
  lemma Alphabets(n: nat)
    requires n < 26
    ensures LOWER[n] == 'a' + n as char && UPPER[n] == 'A' + n as char
  {
  }

  lemma AlphabetUpper(c: char)
    ensures forall n :: 0 <= n < 26 && c == LOWER[n] ==> Upper(c) == UPPER[n]
  {
    forall n | 0 <= n < 26 && c == LOWER[n] ensures Upper(c) == UPPER[n] {
      Alphabets(n);
    }
  }

  lemma LetterIsLower(c: char)
    ensures c !in LOWER ==> Upper(c) == c
  {
    if 'a' <= c <= 'z' {
      Alphabets((c - 'a') as nat);
      assert LOWER[(c - 'a') as nat] == c;
    }
  }

  method ToUpperLoop(text: string) returns (upper: string)
    ensures upper == ToUpper(text)
  {
    upper := "";
    for i := 0 to |text|
      invariant upper == ToUpper(text)[..i]
    {
      upper := upper + [Upper(text[i])];
    }
  }

  // ---------- Numbers ----------

  predicate IsDigit(c: char) {
    '0' <= c <= '9'
  }

  predicate AllDigits(text: string) {
    forall i :: 0 <= i < |text| ==> IsDigit(text[i])
  }

  /** The value of the first n digits. */
  function DigitsValue(text: string, n: nat): nat
    requires AllDigits(text) && n <= |text|
  {
    if n == 0 then 0 else 10 * DigitsValue(text, n - 1) + (text[n - 1] - '0') as nat
  }

  function NatOf(text: string): nat
    requires AllDigits(text)
  {
    DigitsValue(text, |text|)
  }

  lemma {:induction false} SamePrefixSameValue(a: string, b: string, n: nat)
    requires AllDigits(a) && AllDigits(b) && n <= |a| && n <= |b|
    requires forall k :: 0 <= k < n ==> a[k] == b[k]
    ensures DigitsValue(a, n) == DigitsValue(b, n)
  {
    if n > 0 {
      SamePrefixSameValue(a, b, n - 1);
    }
  }

  const MAX_UNSIGNED: nat := 0xFFFF_FFFF

  /** `std::from_chars` for `unsigned`, consuming the whole text: no sign, at least one digit, in range. */
  function ParseUnsigned(text: string): Option<nat> {
    if text != "" && AllDigits(text) && NatOf(text) <= MAX_UNSIGNED then Some(NatOf(text)) else None
  }

  /** Every number of 32 bits is read from its digits, and none larger. */
  lemma UnsignedRoundTrip(n: nat)
    ensures ParseUnsigned(PrintNat(n)) == if n < 0x1_0000_0000 then Some(n) else None
  {
    PrintNatRoundTrip(n);
  }

  /** An exact decimal: mantissa over ten to the scale. */
  datatype Decimal = Decimal(mantissa: nat, scale: nat) {
    function ToReal(): real {
      mantissa as real / Pow10(scale) as real
    }
  }

  function Pow10(n: nat): (r: nat)
    ensures r >= 1
  {
    if n == 0 then 1 else 10 * Pow10(n - 1)
  }

  /** The value of a decimal: each place to the right of the point is a tenth of the one before. */
  lemma DecimalValue(m: nat, s: nat)
    ensures Decimal(m, 0).ToReal() == m as real
    ensures 10.0 * Decimal(m, s + 1).ToReal() == Decimal(m, s).ToReal()
  {
    TenthOf(m as real, Pow10(s) as real);
  }

  lemma TenthOf(x: real, y: real)
    requires y > 0.0
    ensures 10.0 * (x / (10.0 * y)) == x / y
  {
    var q, r := x / y, x / (10.0 * y);
    assert q * y == x;
    assert r * (10.0 * y) == x;
    assert (10.0 * r - q) * y == 0.0;
  }

  lemma PositiveDecimal(d: Decimal)
    ensures d.ToReal() > 0.0 <==> d.mantissa > 0
  {
    PositiveQuotient(d.mantissa as real, Pow10(d.scale) as real);
  }

  lemma PositiveQuotient(x: real, y: real)
    requires x >= 0.0 && y > 0.0
    ensures x / y > 0.0 <==> x > 0.0
  {
  }

  /**
   `std::from_chars` for `double` on plain decimals: digits with at most one point and at least one digit. A
   leading minus cannot occur, because the part comes from a split on '-'.
   */
  function ParseDecimal(text: string): Option<Decimal> {
    var dot := Find(text, '.', 0);
    var whole := text[..dot];
    var fraction := if dot == |text| then "" else text[dot + 1..];
    if AllDigits(whole) && AllDigits(fraction) && whole + fraction != "" then
      Some(Decimal(NatOf(whole + fraction), |fraction|))
    else
      None
  }

  function Digit(n: nat): (c: char)
    requires n < 10
    ensures IsDigit(c) && (c - '0') as nat == n
  {
    '0' + n as char
  }

  function PrintNat(n: nat): string {
    if n < 10 then [Digit(n)] else PrintNat(n / 10) + [Digit(n % 10)]
  }

  lemma AppendDigit(text: string, n: nat)
    requires AllDigits(text) && n < 10
    ensures AllDigits(text + [Digit(n)]) && NatOf(text + [Digit(n)]) == 10 * NatOf(text) + n
  {
    SamePrefixSameValue(text + [Digit(n)], text, |text|);
  }

  lemma {:induction false} PrintNatRoundTrip(n: nat)
    ensures PrintNat(n) != "" && AllDigits(PrintNat(n)) && NatOf(PrintNat(n)) == n
    ensures n < 100 ==> |PrintNat(n)| == if n < 10 then 1 else 2
  {
    if n < 10 {
      AppendDigit("", n);
      assert "" + [Digit(n)] == PrintNat(n);
    } else {
      PrintNatRoundTrip(n / 10);
      AppendDigit(PrintNat(n / 10), n % 10);
    }
  }

  /** The last `width` decimal digits of n, leading zeros included. */
  function LowDigits(n: nat, width: nat): (r: string)
    ensures |r| == width && AllDigits(r)
  {
    if width == 0 then "" else LowDigits(n / 10, width - 1) + [Digit(n % 10)]
  }

  /** What is left of n without its last `width` decimal digits. */
  function HighPart(n: nat, width: nat): nat {
    if width == 0 then n else HighPart(n / 10, width - 1)
  }

  lemma {:induction false} HighAndLow(n: nat, width: nat, high: string)
    requires AllDigits(high) && NatOf(high) == HighPart(n, width)
    ensures AllDigits(high + LowDigits(n, width)) && NatOf(high + LowDigits(n, width)) == n
  {
    if width == 0 {
      assert high + "" == high;
    } else {
      var low := LowDigits(n / 10, width - 1);
      HighAndLow(n / 10, width - 1, high);
      AppendDigit(high + low, n % 10);
      assert high + (low + [Digit(n % 10)]) == high + low + [Digit(n % 10)];
    }
  }

  /** A decimal with its point where the scale says, and no point for a whole number. */
  function PrintDecimal(d: Decimal): string {
    if d.scale == 0 then PrintNat(d.mantissa)
    else PrintNat(HighPart(d.mantissa, d.scale)) + "." + LowDigits(d.mantissa, d.scale)
  }

  lemma FindPoint(whole: string, fraction: string)
    requires AllDigits(whole)
    ensures Find(whole + "." + fraction, '.', 0) == |whole|
    ensures Find(whole, '.', 0) == |whole|
  {
    var text := whole + "." + fraction;
    assert forall k :: 0 <= k < |whole| ==> text[k] == whole[k] && IsDigit(whole[k]);
    assert text[|whole|] == '.';
  }

  lemma ParsePointed(whole: string, fraction: string)
    requires AllDigits(whole) && AllDigits(fraction) && whole + fraction != ""
    ensures ParseDecimal(whole + "." + fraction) == Some(Decimal(NatOf(whole + fraction), |fraction|))
  {
    FindPoint(whole, fraction);
    var text := whole + "." + fraction;
    assert text[..|whole|] == whole && text[|whole| + 1..] == fraction;
  }

  lemma ParseWhole(whole: string)
    requires AllDigits(whole) && whole != ""
    ensures ParseDecimal(whole) == Some(Decimal(NatOf(whole), 0))
  {
    FindPoint(whole, "");
    assert whole[..|whole|] == whole && whole + "" == whole;
  }

  ghost predicate DecimalAlphabet(text: string) {
    forall i :: 0 <= i < |text| ==> IsDigit(text[i]) || text[i] == '.'
  }

  /** Every decimal reads back from its printed form, mantissa and scale included. */
  lemma DecimalRoundTrip(d: Decimal)
    ensures ParseDecimal(PrintDecimal(d)) == Some(d)
    ensures DecimalAlphabet(PrintDecimal(d))
  {
    if d.scale == 0 {
      PrintNatRoundTrip(d.mantissa);
      ParseWhole(PrintNat(d.mantissa));
    } else {
      var high := PrintNat(HighPart(d.mantissa, d.scale));
      PrintNatRoundTrip(HighPart(d.mantissa, d.scale));
      HighAndLow(d.mantissa, d.scale, high);
      ParsePointed(high, LowDigits(d.mantissa, d.scale));
    }
  }

  /** The shape of a plain decimal, said without parsing. */
  ghost predicate IsDecimalText(text: string, d: Decimal) {
    exists whole: string, fraction: string ::
      && AllDigits(whole) && AllDigits(fraction) && whole + fraction != ""
      && (text == whole + "." + fraction || (text == whole && fraction == ""))
      && d == Decimal(NatOf(whole + fraction), |fraction|)
  }

  lemma ParseDecimalExact(text: string, d: Decimal)
    ensures ParseDecimal(text) == Some(d) <==> IsDecimalText(text, d)
  {
    if ParseDecimal(text) == Some(d) {
      var dot := Find(text, '.', 0);
      if dot == |text| {
        assert text == text[..dot];
        assert AllDigits(text) && AllDigits("") && text + "" == text;
      } else {
        assert text == text[..dot] + "." + text[dot + 1..];
      }
    }
    if IsDecimalText(text, d) {
      var whole, fraction :|
        && AllDigits(whole) && AllDigits(fraction) && whole + fraction != ""
        && (text == whole + "." + fraction || (text == whole && fraction == ""))
        && d == Decimal(NatOf(whole + fraction), |fraction|);
      if text == whole + "." + fraction {
        ParsePointed(whole, fraction);
      } else {
        assert whole + fraction == whole;
        ParseWhole(whole);
      }
    }
  }
}
