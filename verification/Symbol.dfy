/**
 Instrument symbols: the parser of src/marketdata/model.cpp against the grammar of src/marketdata/model.hpp:93-98.

 `Denotes` is the grammar, written without reference to the parser. `ParseExact` says the parser accepts exactly
 the grammar and returns exactly the denoted fields; the printer and the round trips rest on it.
 */
module Symbol {
  import opened Wrappers
  import opened Text
  import opened Calendar

  datatype OptionRight = Call | Put

  datatype InstrumentKind = OptionKind | FutureKind | IndexKind | PerpetualKind | UnknownKind

  /** `expiry` is in nanoseconds since the epoch; an absent strike is None where the source has NaN. */
  datatype InstrumentKey = InstrumentKey(
    symbol: string,
    baseCcy: string,
    id: int,
    kind: InstrumentKind,
    expiry: int,
    strike: Option<real>,
    right: OptionRight)

  // ---------- The parser ----------

  const MONTHS: seq<string> :=
    ["JAN", "FEB", "MAR", "APR", "MAY", "JUN", "JUL", "AUG", "SEP", "OCT", "NOV", "DEC"]

  /** The calendar of the grammar, three letters a month. */
  const YEAR: string := "JANFEBMARAPRMAYJUNJULAUGSEPOCTNOVDEC"

  function MonthName(m: int): (r: string)
    requires 1 <= m <= 12
    ensures |r| == 3
  {
    [YEAR[3 * m - 3], YEAR[3 * m - 2], YEAR[3 * m - 1]]
  }

  /** The parser's table against the grammar's year. */
  lemma MonthTable(m: int)
    requires 1 <= m <= 12
    ensures MONTHS[m - 1] == MonthName(m)
  {
    assert |MONTHS[m - 1]| == 3;
    assert MONTHS[m - 1][0] == YEAR[3 * m - 3];
    assert MONTHS[m - 1][1] == YEAR[3 * m - 2];
    assert MONTHS[m - 1][2] == YEAR[3 * m - 1];
  }

  lemma MonthsTable()
    ensures forall m :: 1 <= m <= 12 ==> MONTHS[m - 1] == MonthName(m)
  {
    forall m | 1 <= m <= 12 ensures MONTHS[m - 1] == MonthName(m) {
      MonthTable(m);
    }
  }

  function MonthFrom(name: string, i: nat): Option<int>
    requires i <= 12
    decreases 12 - i
  {
    if i == 12 then None else if MONTHS[i] == name then Some(i + 1) else MonthFrom(name, i + 1)
  }

  function MonthFromName(name: string): Option<int> {
    MonthFrom(name, 0)
  }

  /** The date named by "27JUN25" or "4SEP26". */
  function ParseDate(text: string): Option<Date> {
    if |text| < 6 || |text| > 7 then None else
    var n := |text| - 5;
    var day := ParseUnsigned(text[..n]);
    var month := MonthFromName(text[n..n + 3]);
    var year := ParseUnsigned(text[n + 3..]);
    DateFrom(day, month, year)
  }

  /** The date of the parts, if all were read and it exists. */
  function DateFrom(day: Option<nat>, month: Option<int>, year: Option<nat>): Option<Date> {
    if day.None? || month.None? || year.None? then None else
    var date := Date(2000 + year.value, month.value, day.value);
    if IsDate(date) then Some(date) else None
  }

  function ParseExpiry(text: string): Option<int> {
    match ParseDate(text)
    case None => None
    case Some(date) => Some(ExpiryOf(date))
  }

  function ParseRight(text: string): Option<OptionRight> {
    if text == "C" then Some(Call) else if text == "P" then Some(Put) else None
  }

  function ParseDated(symbol: string, parts: seq<string>): Option<InstrumentKey>
    requires |parts| == 2 || |parts| == 4
  {
    if |parts| == 2 then
      if parts[1] == "PERPETUAL" then
        Some(InstrumentKey(symbol, parts[0], 0, PerpetualKind, 0, None, Call))
      else
        var expiry := ParseExpiry(parts[1]);
        if expiry.None? then None
        else Some(InstrumentKey(symbol, parts[0], 0, FutureKind, expiry.value, None, Call))
    else
      var expiry := ParseExpiry(parts[1]);
      var strike := ParseDecimal(parts[2]);
      var right := ParseRight(parts[3]);
      if expiry.None? || strike.None? || !(strike.value.ToReal() > 0.0) || right.None? then None
      else Some(InstrumentKey(symbol, parts[0], 0, OptionKind, expiry.value, Some(strike.value.ToReal()), right.value))
  }

  function ParseSymbol(symbol: string): Option<InstrumentKey> {
    var underscore := Find(symbol, '_', 0);
    if symbol == "" then
      None
    else if underscore < |symbol| then
      if underscore == 0 || underscore + 1 == |symbol| then None
      else Some(InstrumentKey(symbol, ToUpper(symbol[..underscore]), 0, IndexKind, 0, None, Call))
    else
      var parts := Split(symbol, '-');
      if (|parts| != 2 && |parts| != 4) || parts[0] == "" then None else ParseDated(symbol, parts)
  }

  // ---------- The loops the gateway runs ----------

  method MonthFromNameLoop(name: string) returns (month: Option<int>)
    ensures month == MonthFromName(name)
    ensures month.Some? <==> name in MONTHS
    ensures month.Some? ==> 1 <= month.value <= 12 && MonthName(month.value) == name
  {
    var i := 0;
    MonthsTable();
    while i < 12
      invariant 0 <= i <= 12
      invariant MonthFromName(name) == MonthFrom(name, i)
      invariant forall k :: 0 <= k < i ==> MONTHS[k] != name
    {
      if MONTHS[i] == name {
        return Some(i + 1);
      }
      i := i + 1;
    }
    return None;
  }

  method ParseExpirySteps(text: string) returns (expiry: Option<int>)
    ensures expiry == ParseExpiry(text)
  {
    if |text| < 6 || |text| > 7 {
      return None;
    }
    var n := |text| - 5;
    var day := ParseUnsigned(text[..n]);
    var month := MonthFromNameLoop(text[n..n + 3]);
    var year := ParseUnsigned(text[n + 3..]);
    if day.None? || month.None? || year.None? {
      return None;
    }
    var date := Date(2000 + year.value, month.value, day.value);
    if !IsDate(date) {
      return None;
    }
    return Some(ExpiryOf(date));
  }

  /** `parse_symbol` filling its local key field by field. */
  method ParseSymbolSteps(symbol: string) returns (key: Option<InstrumentKey>)
    ensures key == ParseSymbol(symbol)
  {
    if symbol == "" {
      return None;
    }
    var k := InstrumentKey(symbol, "", 0, UnknownKind, 0, None, Call);
    var underscore := Find(symbol, '_', 0);
    if underscore < |symbol| {
      if underscore == 0 || underscore + 1 == |symbol| {
        return None;
      }
      var upper := ToUpperLoop(symbol[..underscore]);
      return Some(k.(baseCcy := upper, kind := IndexKind));
    }
    var parts := SplitLoop(symbol, '-');
    if (|parts| != 2 && |parts| != 4) || parts[0] == "" {
      return None;
    }
    k := k.(baseCcy := parts[0]);
    if |parts| == 2 {
      if parts[1] == "PERPETUAL" {
        return Some(k.(kind := PerpetualKind));
      }
      var expiry := ParseExpirySteps(parts[1]);
      if expiry.None? {
        return None;
      }
      return Some(k.(kind := FutureKind, expiry := expiry.value));
    }
    var expiry := ParseExpirySteps(parts[1]);
    var strike := ParseDecimal(parts[2]);
    if expiry.None? || strike.None? || !(strike.value.ToReal() > 0.0) {
      return None;
    }
    if parts[3] == "C" {
      k := k.(right := Call);
    } else if parts[3] == "P" {
      k := k.(right := Put);
    } else {
      return None;
    }
    return Some(k.(kind := OptionKind, expiry := expiry.value, strike := Some(strike.value.ToReal())));
  }

  // ---------- The grammar ----------

  function RightName(r: OptionRight): string {
    if r.Call? then "C" else "P"
  }

  ghost predicate IsBase(base: string) {
    base != "" && '-' !in base && '_' !in base
  }

  /** One or two day digits, a month name, two year digits, and a date that exists. */
  ghost predicate ExpiryForm(text: string, day: string, year: string, date: Date) {
    && IsDate(date)
    && 1 <= |day| <= 2 && AllDigits(day) && NatOf(day) == date.day
    && |year| == 2 && AllDigits(year) && 2000 + NatOf(year) == date.year
    && text == day + MonthName(date.month) + year
  }

  ghost predicate NamesDate(text: string, date: Date) {
    exists day: string, year: string :: ExpiryForm(text, day, year, date)
  }

  ghost predicate IndexForm(s: string, left: string, right: string) {
    left != "" && right != "" && '_' !in left && s == left + "_" + right
  }

  ghost predicate PerpetualForm(s: string, base: string) {
    IsBase(base) && s == base + "-" + "PERPETUAL"
  }

  ghost predicate FutureForm(s: string, base: string, expiry: string, date: Date) {
    IsBase(base) && NamesDate(expiry, date) && s == base + "-" + expiry
  }

  ghost predicate OptionForm(s: string, base: string, expiry: string, date: Date,
                             strike: string, value: Decimal, right: OptionRight) {
    && IsBase(base) && NamesDate(expiry, date)
    && IsDecimalText(strike, value) && value.mantissa > 0
    && s == base + "-" + expiry + "-" + strike + "-" + RightName(right)
  }

  function IndexKey(s: string, left: string): InstrumentKey {
    InstrumentKey(s, ToUpper(left), 0, IndexKind, 0, None, Call)
  }

  function PerpetualKey(s: string, base: string): InstrumentKey {
    InstrumentKey(s, base, 0, PerpetualKind, 0, None, Call)
  }

  function FutureKey(s: string, base: string, date: Date): InstrumentKey
    requires IsDate(date)
  {
    InstrumentKey(s, base, 0, FutureKind, ExpiryOf(date), None, Call)
  }

  function OptionKey(s: string, base: string, date: Date, strike: Decimal, right: OptionRight): InstrumentKey
    requires IsDate(date)
  {
    InstrumentKey(s, base, 0, OptionKind, ExpiryOf(date), Some(strike.ToReal()), right)
  }

  ghost predicate DenotesIndex(s: string, k: InstrumentKey) {
    exists left: string, right: string :: IndexForm(s, left, right) && k == IndexKey(s, left)
  }

  ghost predicate DenotesPerpetual(s: string, k: InstrumentKey) {
    exists base: string :: PerpetualForm(s, base) && k == PerpetualKey(s, base)
  }

  ghost predicate DenotesFuture(s: string, k: InstrumentKey) {
    exists base: string, expiry: string, date: Date ::
      FutureForm(s, base, expiry, date) && k == FutureKey(s, base, date)
  }

  ghost predicate DenotesOption(s: string, k: InstrumentKey) {
    exists base: string, expiry: string, date: Date, strike: string, value: Decimal, right: OptionRight ::
      OptionForm(s, base, expiry, date, strike, value, right) && k == OptionKey(s, base, date, value, right)
  }

  /** Text s is in the grammar and stands for key k. */
  ghost predicate Denotes(s: string, k: InstrumentKey) {
    DenotesIndex(s, k) || DenotesPerpetual(s, k) || DenotesFuture(s, k) || DenotesOption(s, k)
  }

  // ---------- Dates ----------

  /** The last two letters of a month's name, as one number. */
  function NameCode(m: int): int
    requires 1 <= m <= 12
  {
    26 * (MonthName(m)[1] as int - 65) + MonthName(m)[2] as int - 65
  }

  lemma NameCodes(m: int)
    requires 1 <= m <= 12
    ensures NameCode(m) == [13, 105, 17, 407, 24, 533, 531, 526, 119, 71, 385, 106][m - 1]
  {
  }

  lemma MonthNamesDiffer(m: int, n: int)
    requires 1 <= m <= 12 && 1 <= n <= 12 && MonthName(m) == MonthName(n)
    ensures m == n
  {
    NameCodes(m);
    NameCodes(n);
  }

  /** The month found from slot i on names the text, and none found means none there. */
  ghost predicate Answers(month: Option<int>, name: string, i: nat) {
    match month
    case Some(m) => i < m <= 12 && MonthName(m) == name
    case None => forall m :: i < m <= 12 ==> MonthName(m) != name
  }

  lemma FromStep(name: string, i: nat)
    requires i < 12
    ensures MonthFrom(name, i) == if MonthName(i + 1) == name then Some(i + 1) else MonthFrom(name, i + 1)
  {
    MonthTable(i + 1);
  }

  lemma AnswersStep(month: Option<int>, rest: Option<int>, name: string, i: nat)
    requires i < 12 && Answers(rest, name, i + 1)
    requires month == if MonthName(i + 1) == name then Some(i + 1) else rest
    ensures Answers(month, name, i)
  {
  }

  lemma {:induction false} FoundNamed(name: string, i: nat)
    requires i <= 12
    ensures Answers(MonthFrom(name, i), name, i)
    decreases 12 - i
  {
    if i < 12 {
      FoundNamed(name, i + 1);
      FromStep(name, i);
      AnswersStep(MonthFrom(name, i), MonthFrom(name, i + 1), name, i);
    }
  }

  lemma MonthsInverse(name: string)
    ensures MonthFromName(name).Some? ==>
              1 <= MonthFromName(name).value <= 12 && MonthName(MonthFromName(name).value) == name
    ensures forall m :: 1 <= m <= 12 && MonthName(m) == name ==> MonthFromName(name) == Some(m)
  {
    FoundNamed(name, 0);
    forall m | 1 <= m <= 12 && MonthName(m) == name ensures MonthFromName(name) == Some(m) {
      MonthNamesDiffer(m, MonthFromName(name).value);
    }
  }

  lemma SmallNumber(text: string)
    requires AllDigits(text) && 1 <= |text| <= 2
    ensures ParseUnsigned(text) == Some(NatOf(text)) && NatOf(text) < 100
  {
    assert DigitsValue(text, 1) < 10;
  }

  lemma CutExpiry(text: string, day: string, month: string, year: string)
    requires text == day + month + year && |month| == 3 && |year| == 2
    ensures |text| == |day| + 5
    ensures text[..|text| - 5] == day && text[|text| - 5..|text| - 2] == month && text[|text| - 2..] == year
  {
  }

  lemma PasteExpiry(text: string)
    requires |text| >= 5
    ensures text == text[..|text| - 5] + text[|text| - 5..|text| - 2] + text[|text| - 2..]
  {
  }

  /** `parse_expiry` reads exactly the texts that name a date, and reads that date. */
  lemma ParseDateExact(text: string, date: Date)
    ensures ParseDate(text) == Some(date) <==> NamesDate(text, date)
  {
    if ParseDate(text) == Some(date) {
      DateReads(text, date);
    }
    if NamesDate(text, date) {
      var day, year :| ExpiryForm(text, day, year, date);
      NameReads(text, day, year, date);
    }
  }

  lemma DateReads(text: string, date: Date)
    requires ParseDate(text) == Some(date)
    ensures NamesDate(text, date)
  {
    var n := |text| - 5;
    var day, year := text[..n], text[n + 3..];
    MonthsInverse(text[n..n + 3]);
    PasteExpiry(text);
    assert ExpiryForm(text, day, year, date);
  }

  lemma NameReads(text: string, day: string, year: string, date: Date)
    requires ExpiryForm(text, day, year, date)
    ensures ParseDate(text) == Some(date)
  {
    CutExpiry(text, day, MonthName(date.month), year);
    PartsRead(day, year, date);
  }

  lemma PartsRead(day: string, year: string, date: Date)
    requires IsDate(date)
    requires 1 <= |day| <= 2 && AllDigits(day) && NatOf(day) == date.day
    requires |year| == 2 && AllDigits(year) && 2000 + NatOf(year) == date.year
    ensures DateFrom(ParseUnsigned(day), MonthFromName(MonthName(date.month)), ParseUnsigned(year)) == Some(date)
  {
    MonthsInverse(MonthName(date.month));
    SmallNumber(day);
    SmallNumber(year);
  }

  // ---------- The parser accepts exactly the grammar ----------

  ghost predicate Plain(text: string) {
    '-' !in text && '_' !in text
  }

  lemma MonthIsPlain(m: int)
    requires 1 <= m <= 12
    ensures Plain(MonthName(m))
  {
    assert forall i :: 0 <= i < 36 ==> YEAR[i] != '-' && YEAR[i] != '_';
  }

  lemma DateTextIsPlain(text: string, date: Date)
    requires NamesDate(text, date)
    ensures Plain(text) && |text| <= 7
  {
    var day, year :| ExpiryForm(text, day, year, date);
    MonthIsPlain(date.month);
    assert Plain(day) && Plain(year);
  }

  lemma DecimalTextIsPlain(text: string, value: Decimal)
    requires IsDecimalText(text, value)
    ensures Plain(text)
  {
    var whole, fraction :|
      && AllDigits(whole) && AllDigits(fraction) && whole + fraction != ""
      && (text == whole + "." + fraction || (text == whole && fraction == ""))
      && value == Decimal(NatOf(whole + fraction), |fraction|);
    assert Plain(whole) && Plain(fraction);
  }

  /** With no underscore the parser goes by the hyphens. */
  lemma NoUnderscore(s: string)
    requires '_' !in s && s != ""
    ensures Find(s, '_', 0) == |s|
    ensures ParseSymbol(s) ==
            var parts := Split(s, '-');
            if (|parts| != 2 && |parts| != 4) || parts[0] == "" then None else ParseDated(s, parts)
  {
  }

  lemma IndexReads(s: string, left: string, right: string)
    requires IndexForm(s, left, right)
    ensures ParseSymbol(s) == Some(IndexKey(s, left))
  {
    var at := Find(s, '_', 0);
    assert s[|left|] == '_';
    assert forall i :: 0 <= i < |left| ==> s[i] == left[i];
    assert s[..|left|] == left;
  }

  lemma TwoParts(s: string, a: string, b: string)
    requires s == a + "-" + b && Plain(a) && Plain(b)
    ensures Split(s, '-') == [a, b] && '_' !in s
  {
    var parts := [a, b];
    assert Join(parts[1..], '-') == b;
    SplitExact(s, '-', parts);
  }

  lemma FourParts(s: string, a: string, b: string, c: string, d: string)
    requires s == a + "-" + b + "-" + c + "-" + d && Plain(a) && Plain(b) && Plain(c) && Plain(d)
    ensures Split(s, '-') == [a, b, c, d] && '_' !in s
  {
    var parts := [a, b, c, d];
    JoinFour(a, b, c, d);
    SplitExact(s, '-', parts);
  }

  lemma JoinFour(a: string, b: string, c: string, d: string)
    ensures Join([a, b], '-') == a + "-" + b
    ensures Join([a, b, c, d], '-') == a + "-" + b + "-" + c + "-" + d
  {
    assert [a, b][1..] == [b];
    assert [c, d][1..] == [d];
    assert [b, c, d][1..] == [c, d];
    assert [a, b, c, d][1..] == [b, c, d];
    assert Join([c, d], '-') == c + "-" + d;
    assert Join([b, c, d], '-') == b + "-" + Join([c, d], '-');
    assert Join([a, b, c, d], '-') == a + "-" + Join([b, c, d], '-');
  }

  lemma PerpetualReads(s: string, base: string)
    requires PerpetualForm(s, base)
    ensures ParseSymbol(s) == Some(PerpetualKey(s, base))
  {
    TwoParts(s, base, "PERPETUAL");
    NoUnderscore(s);
  }

  lemma FutureReads(s: string, base: string, expiry: string, date: Date)
    requires FutureForm(s, base, expiry, date)
    ensures ParseSymbol(s) == Some(FutureKey(s, base, date))
  {
    DateTextIsPlain(expiry, date);
    ParseDateExact(expiry, date);
    TwoParts(s, base, expiry);
    NoUnderscore(s);
  }

  lemma OptionReads(s: string, base: string, expiry: string, date: Date, strike: string, value: Decimal,
                    right: OptionRight)
    requires OptionForm(s, base, expiry, date, strike, value, right)
    ensures ParseSymbol(s) == Some(OptionKey(s, base, date, value, right))
  {
    DateTextIsPlain(expiry, date);
    DecimalTextIsPlain(strike, value);
    ParseDateExact(expiry, date);
    ParseDecimalExact(strike, value);
    PositiveDecimal(value);
    FourParts(s, base, expiry, strike, RightName(right));
    NoUnderscore(s);
  }

  lemma GrammarReads(s: string, k: InstrumentKey)
    requires Denotes(s, k)
    ensures ParseSymbol(s) == Some(k)
  {
    if DenotesIndex(s, k) {
      var left, right :| IndexForm(s, left, right) && k == IndexKey(s, left);
      IndexReads(s, left, right);
    } else if DenotesPerpetual(s, k) {
      var base :| PerpetualForm(s, base) && k == PerpetualKey(s, base);
      PerpetualReads(s, base);
    } else if DenotesFuture(s, k) {
      var base, expiry, date :| FutureForm(s, base, expiry, date) && k == FutureKey(s, base, date);
      FutureReads(s, base, expiry, date);
    } else {
      var base, expiry, date, strike, value, right :|
        OptionForm(s, base, expiry, date, strike, value, right) && k == OptionKey(s, base, date, value, right);
      OptionReads(s, base, expiry, date, strike, value, right);
    }
  }

  lemma UnderscoreDenotes(s: string, k: InstrumentKey)
    requires ParseSymbol(s) == Some(k) && '_' in s
    ensures DenotesIndex(s, k)
  {
    var at := Find(s, '_', 0);
    assert at < |s|;
    var left, right := s[..at], s[at + 1..];
    assert '_' !in left;
    assert s == left + "_" + right;
    assert IndexForm(s, left, right);
  }

  /** What the split knows about an accepted dated symbol. */
  lemma SplitSymbol(s: string, parts: seq<string>)
    requires '_' !in s && parts == Split(s, '-') && (|parts| == 2 || |parts| == 4)
    ensures Plain(parts[0])
    ensures |parts| == 2 ==> s == parts[0] + "-" + parts[1]
    ensures |parts| == 4 ==> s == parts[0] + "-" + parts[1] + "-" + parts[2] + "-" + parts[3]
  {
    SplitExact(s, '-', parts);
    if |parts| == 2 {
      assert parts == [parts[0], parts[1]];
      JoinFour(parts[0], parts[1], "", "");
    } else {
      assert parts == [parts[0], parts[1], parts[2], parts[3]];
      JoinFour(parts[0], parts[1], parts[2], parts[3]);
    }
    FirstPiece(parts, '-');
    assert forall i :: 0 <= i < |parts[0]| ==> parts[0][i] == s[..|parts[0]|][i] == s[i];
  }

  lemma HyphensDenote(s: string, k: InstrumentKey)
    requires ParseSymbol(s) == Some(k) && '_' !in s
    ensures DenotesPerpetual(s, k) || DenotesFuture(s, k) || DenotesOption(s, k)
  {
    NoUnderscore(s);
    var parts := Split(s, '-');
    SplitSymbol(s, parts);
    if |parts| == 2 {
      if parts[1] == "PERPETUAL" {
        assert PerpetualForm(s, parts[0]);
      } else {
        var date := ParseDate(parts[1]).value;
        ParseDateExact(parts[1], date);
        assert FutureForm(s, parts[0], parts[1], date);
      }
    } else {
      var date, strike, right := ParseDate(parts[1]).value, ParseDecimal(parts[2]).value, ParseRight(parts[3]).value;
      ParseDateExact(parts[1], date);
      ParseDecimalExact(parts[2], strike);
      PositiveDecimal(strike);
      assert parts[3] == RightName(right);
      assert OptionForm(s, parts[0], parts[1], date, parts[2], strike, right);
    }
  }

  /** Exact acceptance: `parse_symbol` accepts exactly the grammar, and returns exactly the fields it denotes. */
  lemma ParseExact(s: string, k: InstrumentKey)
    ensures ParseSymbol(s) == Some(k) <==> Denotes(s, k)
  {
    if ParseSymbol(s) == Some(k) {
      if '_' in s {
        UnderscoreDenotes(s, k);
      } else {
        HyphensDenote(s, k);
      }
    }
    if Denotes(s, k) {
      GrammarReads(s, k);
    }
  }

  /** The four forms exclude each other: no text stands for two keys, and the kind tells the form. */
  lemma FormsAreExclusive(s: string, a: InstrumentKey, b: InstrumentKey)
    requires Denotes(s, a) && Denotes(s, b)
    ensures a == b
    ensures DenotesIndex(s, a) <==> a.kind == IndexKind
    ensures DenotesPerpetual(s, a) <==> a.kind == PerpetualKind
    ensures DenotesFuture(s, a) <==> a.kind == FutureKind
    ensures DenotesOption(s, a) <==> a.kind == OptionKind
  {
    GrammarReads(s, a);
    GrammarReads(s, b);
  }

  /** What every accepted symbol has, whatever its form. */
  lemma AcceptedKey(s: string)
    requires ParseSymbol(s).Some?
    ensures var k := ParseSymbol(s).value;
            && k.symbol == s && k.id == 0 && k.baseCcy != ""
            && (k.kind == IndexKind <==> '_' in s)
            && (k.strike.Some? <==> k.kind == OptionKind)
            && (k.strike.Some? ==> k.strike.value > 0.0)
            && k.kind != UnknownKind
  {
    if '_' in s {
      UnderscoreDenotes(s, ParseSymbol(s).value);
    } else {
      NoUnderscore(s);
    }
  }

  // ---------- The printer and the round trips ----------

  /** The day without a leading zero, the month name, two year digits. */
  function PrintDate(d: Date): string
    requires IsDate(d) && 2000 <= d.year <= 2099
  {
    PrintNat(d.day) + MonthName(d.month) + LowDigits(d.year - 2000, 2)
  }

  function PrintFuture(base: string, d: Date): string
    requires IsDate(d) && 2000 <= d.year <= 2099
  {
    base + "-" + PrintDate(d)
  }

  function PrintOption(base: string, d: Date, strike: Decimal, right: OptionRight): string
    requires IsDate(d) && 2000 <= d.year <= 2099
  {
    base + "-" + PrintDate(d) + "-" + PrintDecimal(strike) + "-" + RightName(right)
  }

  lemma TwoDigits(n: nat)
    requires n < 100
    ensures |LowDigits(n, 2)| == 2 && AllDigits(LowDigits(n, 2)) && NatOf(LowDigits(n, 2)) == n
  {
    assert HighPart(n / 10, 1) == HighPart(n / 10 / 10, 0);
    assert HighPart(n, 2) == 0;
    HighAndLow(n, 2, "");
    assert "" + LowDigits(n, 2) == LowDigits(n, 2);
  }

  lemma PrintedDateNames(d: Date)
    requires IsDate(d) && 2000 <= d.year <= 2099
    ensures NamesDate(PrintDate(d), d)
  {
    PrintNatRoundTrip(d.day);
    TwoDigits(d.year - 2000);
    assert ExpiryForm(PrintDate(d), PrintNat(d.day), LowDigits(d.year - 2000, 2), d);
  }

  /** Print then parse, for every base, date and strike the grammar can carry. */
  lemma FutureRoundTrip(base: string, d: Date)
    requires IsBase(base) && IsDate(d) && 2000 <= d.year <= 2099
    ensures ParseSymbol(PrintFuture(base, d)) == Some(FutureKey(PrintFuture(base, d), base, d))
  {
    PrintedDateNames(d);
    FutureReads(PrintFuture(base, d), base, PrintDate(d), d);
  }

  lemma OptionRoundTrip(base: string, d: Date, strike: Decimal, right: OptionRight)
    requires IsBase(base) && IsDate(d) && 2000 <= d.year <= 2099 && strike.mantissa > 0
    ensures ParseSymbol(PrintOption(base, d, strike, right)) ==
            Some(OptionKey(PrintOption(base, d, strike, right), base, d, strike, right))
  {
    PrintedDateNames(d);
    DecimalRoundTrip(strike);
    ParseDecimalExact(PrintDecimal(strike), strike);
    OptionReads(PrintOption(base, d, strike, right), base, PrintDate(d), d, PrintDecimal(strike), strike, right);
  }

  /** Date d and decimal strike stand behind the fields of a dated key. */
  ghost predicate Shows(k: InstrumentKey, d: Date, strike: Decimal) {
    && IsDate(d) && 2000 <= d.year <= 2099 && ExpiryOf(d) == k.expiry
    && (k.kind == OptionKind ==> k.strike == Some(strike.ToReal()))
  }

  /** A dated key in canonical spelling. */
  function PrintKey(k: InstrumentKey, d: Date, strike: Decimal): string
    requires IsDate(d) && 2000 <= d.year <= 2099
  {
    if k.kind == OptionKind then PrintOption(k.baseCcy, d, strike, k.right) else PrintFuture(k.baseCcy, d)
  }

  lemma NamedYears(text: string, date: Date)
    requires NamesDate(text, date)
    ensures 2000 <= date.year <= 2099
  {
    var day, year :| ExpiryForm(text, day, year, date);
    SmallNumber(year);
  }

  /** Every accepted dated key has a date and a decimal behind it. */
  lemma AcceptedShows(s: string) returns (d: Date, strike: Decimal)
    requires ParseSymbol(s).Some? && ParseSymbol(s).value.kind in {OptionKind, FutureKind}
    ensures Shows(ParseSymbol(s).value, d, strike)
    ensures IsBase(ParseSymbol(s).value.baseCcy)
  {
    var k := ParseSymbol(s).value;
    AcceptedKey(s);
    HyphensDenote(s, k);
    if DenotesFuture(s, k) {
      var base, expiry, date :| FutureForm(s, base, expiry, date) && k == FutureKey(s, base, date);
      NamedYears(expiry, date);
      d, strike := date, Decimal(0, 0);
    } else {
      var base, expiry, date, text, value, right :|
        OptionForm(s, base, expiry, date, text, value, right) && k == OptionKey(s, base, date, value, right);
      NamedYears(expiry, date);
      d, strike := date, value;
    }
  }

  /**
   Parse, print, parse: any accepted dated symbol, however spelled (a leading-zero day, trailing zeros in the
   strike), prints to a canonical symbol with the same fields. There is exactly one date to print.
   */
  lemma ParsePrintParse(s: string, d: Date, strike: Decimal)
    requires ParseSymbol(s).Some? && ParseSymbol(s).value.kind in {OptionKind, FutureKind}
    requires Shows(ParseSymbol(s).value, d, strike)
    ensures var k := ParseSymbol(s).value; var canonical := PrintKey(k, d, strike);
            ParseSymbol(canonical) == Some(k.(symbol := canonical))
    ensures forall d' :: IsDate(d') && ExpiryOf(d') == ParseSymbol(s).value.expiry ==> d' == d
  {
    var k := ParseSymbol(s).value;
    AcceptedKey(s);
    var d0, strike0 := AcceptedShows(s);
    if k.kind == OptionKind {
      PositiveDecimal(strike);
      OptionRoundTrip(k.baseCcy, d, strike, k.right);
    } else {
      FutureRoundTrip(k.baseCcy, d);
    }
    forall d' | IsDate(d') && ExpiryOf(d') == k.expiry ensures d' == d {
      ExpiryOrder(d', d);
    }
  }

  /** The venue writes "4SEP26"; "04SEP26" is accepted as the same expiry. */
  lemma LeadingZeroDay(base: string, d: Date)
    requires IsBase(base) && IsDate(d) && 2000 <= d.year <= 2099 && d.day < 10
    ensures var plain, padded := PrintFuture(base, d), base + "-" + ("0" + PrintDate(d));
            && padded != plain
            && ParseSymbol(plain) == Some(FutureKey(plain, base, d))
            && ParseSymbol(padded) == Some(FutureKey(padded, base, d))
  {
    FutureRoundTrip(base, d);
    PaddedDateNames(d);
    FutureReads(base + "-" + ("0" + PrintDate(d)), base, "0" + PrintDate(d), d);
    assert |base + "-" + ("0" + PrintDate(d))| == |PrintFuture(base, d)| + 1;
  }

  lemma PaddedDay(n: nat)
    requires n < 10
    ensures AllDigits("0" + PrintNat(n)) && |"0" + PrintNat(n)| == 2 && NatOf("0" + PrintNat(n)) == n
  {
    assert DigitsValue("0" + PrintNat(n), 1) == 0;
  }

  lemma PaddedDateNames(d: Date)
    requires IsDate(d) && 2000 <= d.year <= 2099 && d.day < 10
    ensures NamesDate("0" + PrintDate(d), d)
  {
    var day, year := PrintNat(d.day), LowDigits(d.year - 2000, 2);
    PaddedDay(d.day);
    TwoDigits(d.year - 2000);
    assert "0" + PrintDate(d) == "0" + day + MonthName(d.month) + year;
    assert ExpiryForm("0" + PrintDate(d), "0" + day, year, d);
  }
}
