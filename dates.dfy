/**
 * `Validation.date`: a birth date is the text "DD.MM.YYYY". The text is split
 * at every '.', each of exactly three parts is read with Python's `int()`, and
 * `datetime.date(yyyy, mm, dd)` decides whether the three numbers name a day of
 * the proleptic Gregorian calendar.
 */
module Dates {
  import opened Wrappers
  import opened Errors

  const MinYear := 1     // datetime.MINYEAR
  const MaxYear := 9999  // datetime.MAXYEAR

  /** The range of a C int, which `date()` converts its three arguments to. */
  const IntMin := -0x8000_0000
  const IntMax := 0x7FFF_FFFF

  predicate InCInt(n: int) {
    IntMin <= n <= IntMax
  }

  // ---------------------------------------------------------------------------
  // The calendar

  predicate IsLeap(y: int) {
    y % 4 == 0 && (y % 100 != 0 || y % 400 == 0)
  }

  function DaysInMonth(y: int, m: int): (n: int)
    requires 1 <= m <= 12
    ensures 28 <= n <= 31
    ensures n == 29 <==> m == 2 && IsLeap(y)
  {
    if m == 2 then (if IsLeap(y) then 29 else 28)
    else if m == 4 || m == 6 || m == 9 || m == 11 then 30
    else 31
  }

  /** The arguments `date(y, m, d)` accepts without raising ValueError. */
  predicate IsRealDate(y: int, m: int, d: int) {
    && MinYear <= y <= MaxYear
    && 1 <= m <= 12
    && 1 <= d <= DaysInMonth(y, m)
  }

  /** The number of days from January 1 to the start of month `m`. */
  function DaysBeforeMonth(y: int, m: int): (n: nat)
    requires 1 <= m <= 13
  {
    if m == 1 then 0 else DaysBeforeMonth(y, m - 1) + DaysInMonth(y, m - 1)
  }

  /** A year of the calendar has 365 days, and 366 exactly in leap years. */
  lemma {:induction false} YearLength(y: int)
    ensures DaysBeforeMonth(y, 13) == if IsLeap(y) then 366 else 365
  {
    assert DaysBeforeMonth(y, 2) == 31;
    assert DaysBeforeMonth(y, 3) == 31 + DaysInMonth(y, 2);
    var feb := DaysInMonth(y, 2);
    assert DaysBeforeMonth(y, 4) == 62 + feb;
    assert DaysBeforeMonth(y, 5) == 92 + feb;
    assert DaysBeforeMonth(y, 6) == 123 + feb;
    assert DaysBeforeMonth(y, 7) == 153 + feb;
    assert DaysBeforeMonth(y, 8) == 184 + feb;
    assert DaysBeforeMonth(y, 9) == 215 + feb;
    assert DaysBeforeMonth(y, 10) == 245 + feb;
    assert DaysBeforeMonth(y, 11) == 276 + feb;
    assert DaysBeforeMonth(y, 12) == 306 + feb;
  }

  // ---------------------------------------------------------------------------
  // str.split

  /** `s.split(sep)`: the pieces between the separators, empty ones included. */
  function Split(s: string, sep: char): (parts: seq<string>)
    ensures |parts| >= 1
    decreases |s|
  {
    if s == [] then [[]]
    else
      var rest := Split(s[1..], sep);
      if s[0] == sep then [[]] + rest
      else [[s[0]] + rest[0]] + rest[1..]
  }

  /** `sep.join(parts)`, the inverse of Split. */
  function Join(parts: seq<string>, sep: char): string
    requires |parts| >= 1
    decreases |parts|
  {
    if |parts| == 1 then parts[0] else parts[0] + [sep] + Join(parts[1..], sep)
  }

  /** There is one more piece than there are separators. */
  lemma {:induction false} SplitCount(s: string, sep: char)
    ensures |Split(s, sep)| == multiset(s)[sep] + 1
    decreases |s|
  {
    if s != [] {
      assert s == [s[0]] + s[1..];
      SplitCount(s[1..], sep);
    }
  }

  /** Splitting and joining back gives the text, and no piece holds the separator. */
  lemma {:induction false} JoinSplit(s: string, sep: char)
    ensures Join(Split(s, sep), sep) == s
    ensures forall i :: 0 <= i < |Split(s, sep)| ==> sep !in Split(s, sep)[i]
    decreases |s|
  {
    if s != [] {
      JoinSplit(s[1..], sep);
      var rest := Split(s[1..], sep);
      if s[0] == sep {
        assert Split(s, sep) == [[]] + rest;
        assert Join([[]] + rest, sep) == [] + [sep] + Join(rest, sep);
      } else {
        var parts := Split(s, sep);
        assert parts[0] == [s[0]] + rest[0];
        if |rest| == 1 {
          assert s == [s[0]] + s[1..];
        } else {
          assert parts[1..] == rest[1..];
          assert Join(rest, sep) == rest[0] + [sep] + Join(rest[1..], sep);
          assert s == [s[0]] + s[1..];
        }
      }
    }
  }

  lemma {:induction false} SplitPiece(p: string, sep: char, rest: string)
    requires sep !in p
    ensures Split(p, sep) == [p]
    ensures Split(p + [sep] + rest, sep) == [p] + Split(rest, sep)
    decreases |p|
  {
    if p == [] {
      assert ([] + [sep] + rest)[1..] == rest;
    } else {
      SplitPiece(p[1..], sep, rest);
      assert (p + [sep] + rest)[1..] == p[1..] + [sep] + rest;
      assert [p[0]] + p[1..] == p;
    }
  }

  /** Three pieces free of the separator, joined, split back into the three. */
  lemma SplitThree(a: string, b: string, c: string, sep: char)
    requires sep !in a && sep !in b && sep !in c
    ensures Split(a + [sep] + b + [sep] + c, sep) == [a, b, c]
  {
    JoinThree(a, b, c, sep);
    SplitJoin([a, b, c], sep);
  }

  lemma JoinThree(a: string, b: string, c: string, sep: char)
    ensures Join([a, b, c], sep) == a + [sep] + b + [sep] + c
  {
    assert [a, b, c][1..] == [b, c];
    assert [b, c][1..] == [c];
    assert Join([c], sep) == c;
    assert Join([b, c], sep) == b + [sep] + c;
    assert Join([a, b, c], sep) == a + [sep] + (b + [sep] + c);
  }

  /** Joining pieces free of the separator and splitting again gives the pieces. */
  lemma {:induction false} SplitJoin(parts: seq<string>, sep: char)
    requires |parts| >= 1
    requires forall i :: 0 <= i < |parts| ==> sep !in parts[i]
    ensures Split(Join(parts, sep), sep) == parts
    decreases |parts|
  {
    if |parts| == 1 {
      SplitPiece(parts[0], sep, []);
    } else {
      SplitJoin(parts[1..], sep);
      SplitPiece(parts[0], sep, Join(parts[1..], sep));
      assert [parts[0]] + parts[1..] == parts;
    }
  }

  // ---------------------------------------------------------------------------
  // int(text)

  /**
   * The characters `int()` ignores around the number: the ASCII blanks
   * (tab, line feed, vertical tab, form feed, carriage return, space) and the
   * non-ASCII characters Python counts as whitespace.
   */
  predicate IsSpace(ch: char) {
    || ch == ' '
    || '\t' <= ch <= '\r'
    || ch == '\U{85}' || ch == '\U{A0}' || ch == '\U{1680}'
    || '\U{2000}' <= ch <= '\U{200A}'
    || ch == '\U{2028}' || ch == '\U{2029}' || ch == '\U{202F}'
    || ch == '\U{205F}' || ch == '\U{3000}'
  }

  function TrimStart(s: string): string {
    if s != [] && IsSpace(s[0]) then TrimStart(s[1..]) else s
  }

  function TrimEnd(s: string): string {
    if s != [] && IsSpace(s[|s| - 1]) then TrimEnd(s[..|s| - 1]) else s
  }

  function Strip(s: string): string {
    TrimEnd(TrimStart(s))
  }

  predicate IsDigit(ch: char) {
    '0' <= ch <= '9'
  }

  function DigitValue(ch: char): (n: nat)
    requires IsDigit(ch)
    ensures n < 10
  {
    ch as int - '0' as int
  }

  predicate DigitsOrUnderscores(t: string) {
    forall i :: 0 <= i < |t| ==> IsDigit(t[i]) || t[i] == '_'
  }

  /** Decimal digits with single underscores between them: what `int()` reads. */
  predicate IsDigitRun(t: string) {
    && |t| > 0 && IsDigit(t[0]) && IsDigit(t[|t| - 1])
    && DigitsOrUnderscores(t)
    && (forall i, j :: 0 <= i < |t| && 0 <= j < |t| && j == i + 1 ==> t[i] != '_' || t[j] != '_')
  }

  /** The number a run of digits denotes; underscores are skipped. */
  function RunValue(t: string): nat
    requires DigitsOrUnderscores(t)
    decreases |t|
  {
    if t == [] then 0
    else
      var init, last := t[..|t| - 1], t[|t| - 1];
      assert DigitsOrUnderscores(init) by {
        forall i | 0 <= i < |init| ensures IsDigit(init[i]) || init[i] == '_' {
          assert init[i] == t[i];
        }
      }
      if last == '_' then RunValue(init) else 10 * RunValue(init) + DigitValue(last)
  }

  /** An unsigned run of digits, or None. */
  function ParseUnsigned(t: string): (r: Option<int>)
    ensures r.Some? ==> t != [] && '.' !in t && r.value >= 0
  {
    if IsDigitRun(t) then Some(RunValue(t)) else None
  }

  /** The stripped text: an optional sign, then a run of digits. */
  function ParseSigned(t: string): (r: Option<int>)
    ensures r.Some? ==> t != [] && '.' !in t
    ensures r.Some? && r.value < 0 ==> t[0] == '-'
  {
    if t != [] && (t[0] == '+' || t[0] == '-') then
      assert t == [t[0]] + t[1..];
      match ParseUnsigned(t[1..])
      case None => None
      case Some(n) => Some(if t[0] == '-' then -n else n)
    else ParseUnsigned(t)
  }

  /** `int(s)` in base 10: None where Python raises ValueError. */
  function ParseInt(s: string): (r: Option<int>)
    ensures r.Some? ==> Strip(s) != [] && '.' !in Strip(s)
    ensures r.Some? && r.value < 0 ==> Strip(s)[0] == '-'
  {
    ParseSigned(Strip(s))
  }
  /**
   * The ASCII control characters U+001C..U+001F are whitespace to
   * `str.isspace` but are not stripped by `int()`, which then fails.
   */
  lemma ControlSeparatorNotStripped()
    ensures ParseInt("\U{1C}29") == None
    ensures CheckDate("\U{1C}29.02.2020") == Fail(ValueError(MalformedDate))
  {
    assert Strip("\U{1C}29") == "\U{1C}29";
    SplitThree("\U{1C}29", "02", "2020", '.');
    assert "\U{1C}29" + ['.'] + "02" + ['.'] + "2020" == "\U{1C}29.02.2020";
  }


  // ---------------------------------------------------------------------------
  // Validation.date

  /** `dd, mm, yyyy = map(int, d.split('.'))`: None where this raises ValueError. */
  function Components(d: string): (r: Option<(int, int, int)>)
    ensures r.Some? ==> |Split(d, '.')| == 3
  {
    ReadParts(Split(d, '.'))
  }

  /** Unpacking `map(int, parts)` into three names. */
  function ReadParts(parts: seq<string>): (r: Option<(int, int, int)>)
    ensures r.Some? ==> |parts| == 3
  {
    if |parts| != 3 then None
    else match (ParseInt(parts[0]), ParseInt(parts[1]), ParseInt(parts[2]))
      case (Some(dd), Some(mm), Some(yyyy)) => Some((dd, mm, yyyy))
      case _ => None
  }

  /**
   * `Validation.date(d)`. A text that is not three integers raises ValueError
   * before the `try`; a component outside a C int makes `date()` raise
   * OverflowError, which the `except ValueError` does not catch; a ValueError
   * from `date()` becomes a schema error.
   */
  function CheckDate(d: string): (r: Outcome<Error>)
    ensures r == Pass <==>
      Components(d).Some? &&
      IsRealDate(Components(d).value.2, Components(d).value.1, Components(d).value.0)
    ensures r == Fail(ValueError(MalformedDate)) <==> Components(d).None?
    ensures r == Fail(OverflowError) <==>
      Components(d).Some? &&
      !(InCInt(Components(d).value.2) && InCInt(Components(d).value.1) && InCInt(Components(d).value.0))
    ensures r.Fail? ==>
      r.error in {ValueError(MalformedDate), OverflowError, SchemaError(NotACalendarDate)}
  {
    match Components(d)
    case None => Fail(ValueError(MalformedDate))
    case Some((dd, mm, yyyy)) =>
      if !(InCInt(yyyy) && InCInt(mm) && InCInt(dd)) then Fail(OverflowError)
      else if IsRealDate(yyyy, mm, dd) then Pass
      else Fail(SchemaError(NotACalendarDate))
  }

  // ---------------------------------------------------------------------------
  // The text form of a date, and the round trip through CheckDate

  function DigitChar(k: nat): (ch: char)
    requires k < 10
    ensures IsDigit(ch) && DigitValue(ch) == k
  {
    ('0' as int + k) as char
  }

  /** `str(n)` for a natural number. */
  function Decimal(n: nat): string
    decreases n
  {
    if n < 10 then [DigitChar(n)] else Decimal(n / 10) + [DigitChar(n % 10)]
  }

  /** `n` written with leading zeros to at least `width` digits. */
  function Padded(n: nat, width: nat): string {
    var s := Decimal(n);
    if |s| < width then seq(width - |s|, _ => '0') + s else s
  }

  /** The "DD.MM.YYYY" text of a day. */
  function Format(d: nat, m: nat, y: nat): string {
    Padded(d, 2) + "." + Padded(m, 2) + "." + Padded(y, 4)
  }

  lemma {:induction false} DecimalValue(n: nat)
    ensures IsDigitRun(Decimal(n)) && RunValue(Decimal(n)) == n
    ensures forall i :: 0 <= i < |Decimal(n)| ==> IsDigit(Decimal(n)[i])
    decreases n
  {
    if n >= 10 {
      DecimalValue(n / 10);
      var s := Decimal(n);
      assert s[..|s| - 1] == Decimal(n / 10);
    }
  }

  lemma {:induction false} ZerosValue(z: nat, t: string)
    requires forall i :: 0 <= i < |t| ==> IsDigit(t[i])
    ensures DigitsOrUnderscores(seq(z, _ => '0') + t)
    ensures RunValue(seq(z, _ => '0') + t) == RunValue(t)
    decreases |t|
  {
    var zs := seq(z, _ => '0');
    var s := zs + t;
    assert DigitsOrUnderscores(s) by {
      forall i | 0 <= i < |s| ensures IsDigit(s[i]) {
        if i >= z { assert s[i] == t[i - z]; }
      }
    }
    if t == [] {
      assert s == zs;
      ZerosOnly(z);
    } else {
      ZerosValue(z, t[..|t| - 1]);
      assert s[..|s| - 1] == zs + t[..|t| - 1];
    }
  }

  lemma {:induction false} ZerosOnly(z: nat)
    ensures DigitsOrUnderscores(seq(z, _ => '0'))
    ensures RunValue(seq(z, _ => '0')) == 0
    decreases z
  {
    if z > 0 {
      ZerosOnly(z - 1);
      assert seq(z, _ => '0')[..z - 1] == seq(z - 1, _ => '0');
    }
  }

  /** A text that starts and ends with a digit has nothing to strip. */
  lemma StripDigits(t: string)
    requires |t| > 0 && IsDigit(t[0]) && IsDigit(t[|t| - 1])
    ensures Strip(t) == t
  {
    assert TrimStart(t) == t;
    assert TrimEnd(t) == t;
  }

  /** A run of digits is read by `int()` as its value. */
  lemma ParseDigits(t: string)
    requires IsDigitRun(t)
    ensures ParseInt(t) == Some(RunValue(t))
  {
    StripDigits(t);
    assert t[0] != '+' && t[0] != '-';
  }

  lemma PaddedDigits(n: nat, width: nat)
    ensures IsDigitRun(Padded(n, width))
    ensures forall i :: 0 <= i < |Padded(n, width)| ==> IsDigit(Padded(n, width)[i])
    ensures RunValue(Padded(n, width)) == n
  {
    DecimalValue(n);
    var s := Decimal(n);
    if |s| < width {
      var z := width - |s|;
      ZerosValue(z, s);
      var t := Padded(n, width);
      forall i | 0 <= i < |t| ensures IsDigit(t[i]) {
        if i >= z { assert t[i] == s[i - z]; }
      }
    }
  }

  /** `int()` reads back the number from its zero-padded decimal text. */
  lemma PaddedValue(n: nat, width: nat)
    ensures '.' !in Padded(n, width)
    ensures ParseInt(Padded(n, width)) == Some(n)
  {
    PaddedDigits(n, width);
    ParseDigits(Padded(n, width));
  }

  /** A formatted date splits into its three padded numbers. */
  lemma FormatSplits(d: nat, m: nat, y: nat)
    ensures Split(Format(d, m, y), '.') == [Padded(d, 2), Padded(m, 2), Padded(y, 4)]
  {
    var a, b, c := Padded(d, 2), Padded(m, 2), Padded(y, 4);
    PaddedValue(d, 2);
    PaddedValue(m, 2);
    PaddedValue(y, 4);
    assert Format(d, m, y) == a + ['.'] + b + ['.'] + c;
    SplitThree(a, b, c, '.');
  }

  /** The three numbers read from a formatted date are the ones formatted. */
  lemma FormatComponents(d: nat, m: nat, y: nat)
    ensures Components(Format(d, m, y)) == Some((d, m, y))
  {
    FormatSplits(d, m, y);
    var parts := Split(Format(d, m, y), '.');
    PaddedValue(d, 2);
    PaddedValue(m, 2);
    PaddedValue(y, 4);
    assert ReadParts(parts) == Some((d, m, y));
  }

  /**
   * A formatted date passes exactly when it names a real day; otherwise a
   * component too large for a C int raises OverflowError and any other
   * impossible day is a schema error.
   */
  lemma CheckFormatted(d: nat, m: nat, y: nat)
    ensures CheckDate(Format(d, m, y)) ==
      if !(y <= IntMax && m <= IntMax && d <= IntMax) then Fail(OverflowError)
      else if IsRealDate(y, m, d) then Pass
      else Fail(SchemaError(NotACalendarDate))
  {
    FormatComponents(d, m, y);
  }

  lemma {:induction false} Decimal2020s()
    ensures Decimal(2020) == "2020" && Decimal(2021) == "2021"
  {
    assert Decimal(2) == "2" && Decimal(20) == "20" && Decimal(202) == "202";
  }

  /**
   * A text without a dot is not three numbers: the unpacking raises
   * ValueError, which no handler of `date` turns into a schema error.
   */
  lemma NoDotsRaisesValueError(d: string)
    requires '.' !in d
    ensures CheckDate(d) == Fail(ValueError(MalformedDate))
  {
    SplitPiece(d, '.', []);
  }

  /** 29 February is a day of the leap year 2020. */
  lemma LeapDayAccepted()
    ensures CheckDate("29.02.2020") == Pass
  {
    Decimal2020s();
    assert Decimal(29) == "29" && Padded(2, 2) == "02";
    var text := Format(29, 2, 2020);
    assert text == "29.02.2020";
    assert IsRealDate(2020, 2, 29);
    CheckFormatted(29, 2, 2020);
    assert CheckDate(text) == Pass;
  }

  /** 2021 is not a leap year, so it has no 29 February. */
  lemma LeapDayRejected()
    ensures CheckDate("29.02.2021") == Fail(SchemaError(NotACalendarDate))
  {
    Decimal2020s();
    assert Decimal(29) == "29" && Padded(2, 2) == "02";
    assert Format(29, 2, 2021) == "29.02.2021";
    CheckFormatted(29, 2, 2021);
  }

  /** April has 30 days. */
  lemma ThirtyFirstOfAprilRejected()
    ensures CheckDate("31.04.2021") == Fail(SchemaError(NotACalendarDate))
  {
    Decimal2020s();
    assert Decimal(31) == "31" && Padded(4, 2) == "04";
    assert Format(31, 4, 2021) == "31.04.2021";
    CheckFormatted(31, 4, 2021);
  }

  /** There is no thirteenth month. */
  lemma ThirteenthMonthRejected()
    ensures CheckDate("15.13.2021") == Fail(SchemaError(NotACalendarDate))
  {
    Decimal2020s();
    assert Decimal(15) == "15" && Decimal(13) == "13";
    assert Format(15, 13, 2021) == "15.13.2021";
    CheckFormatted(15, 13, 2021);
  }
}
